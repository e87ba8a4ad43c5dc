/** The text `PrintMethod` writes for a routine (RunDotNet/Program.cs:185-255),
    colours dropped. The signature is written with `Console.Write`, without
    the runner's line prefix; only the null case goes through `ConLine`. */
module Signature {
  import opened Wrappers
  import opened Text
  import opened Descriptors

  /** "Type name" for one parameter. */
  function ParamText(p: Param): string
  {
    p.typeName + " " + p.name
  }

  /** The parameters joined by ", ", defined from the last parameter back. */
  function ParamsText(ps: seq<Param>): string
  {
    if |ps| == 0 then ""
    else if |ps| == 1 then ParamText(ps[0])
    else ParamsText(ps[..|ps| - 1]) + ", " + ParamText(ps[|ps| - 1])
  }

  /** "public ", "private ", "static " in that order, each when its flag is set. */
  function Modifiers(m: Routine): string
  {
    (if m.isPublic then "public " else "")
    + (if m.isPrivate then "private " else "")
    + (if m.isStatic then "static " else "")
  }

  /** The signature line: modifiers, return type, `Namespace.Name` (the
      declaring type's own name is not written), the parameter list, ");". */
  function SignatureText(m: Routine): string
  {
    Modifiers(m) + m.returnTypeName + " " + m.declaringType.namespace + "." + m.name
    + "(" + ParamsText(m.params) + ");"
  }

  const MethodNotFound: string := "Method not found."

  /** The line `PrintMethod` writes for a possibly null routine. */
  function MethodLine(m: Option<Routine>): string
  {
    match m
    case None => ConLine(MethodNotFound)
    case Some(r) => SignatureText(r)
  }

  /** The parameter loop of `PrintMethod` as written: ", " before every
      parameter but the first, then the type name, a space and the name. */
  method WriteParams(p: seq<Param>) returns (text: string)
    ensures text == ParamsText(p)
  {
    text := "";
    var x := 0;
    while x < |p|
      invariant 0 <= x <= |p|
      invariant text == ParamsText(p[..x])
    {
      var param := p[x];
      if x != 0 {
        text := text + ", ";
      }
      text := text + param.typeName + " ";
      text := text + param.name;
      assert p[..x + 1][..x] == p[..x];
      x := x + 1;
    }
    assert p[..x] == p;
  }

  /** `PrintMethod` as written: the null check, the modifiers one by one,
      return type, namespace and name, the parameters, ");". */
  method PrintMethod(m: Option<Routine>) returns (text: string)
    ensures text == MethodLine(m)
  {
    if m.None? {
      return ConLine(MethodNotFound);
    }
    var r := m.value;
    text := "";
    if r.isPublic {
      text := text + "public ";
    }
    if r.isPrivate {
      text := text + "private ";
    }
    if r.isStatic {
      text := text + "static ";
    }
    assert text == Modifiers(r);
    text := text + r.returnTypeName + " ";
    text := text + r.declaringType.namespace + ".";
    text := text + r.name + "(";
    var params := WriteParams(r.params);
    text := text + params;
    text := text + ");";
  }

  /** Every signature ends with ");". */
  lemma SignatureEndsWithParen(m: Routine)
    ensures EndsWith(SignatureText(m), ");")
  {
  }

  /** A signature line never reads as the "Method not found." line, so the
      two outcomes of `PrintMethod` can be told apart. */
  lemma {:induction false} MethodLineDistinguishesNull(m: Option<Routine>)
    ensures MethodLine(m) == ConLine(MethodNotFound) <==> m.None?
  {
    if m.Some? {
      var s := SignatureText(m.value);
      assert s[|s| - 1] == ';';
      var n := ConLine(MethodNotFound);
      assert n[|n| - 1] == '.';
    }
  }

  /** The declaring type's name is not part of the signature: routines of
      two types in one namespace that agree on everything else print the
      same line. */
  lemma SignatureOmitsTypeName(m: Routine, typeFullName: string)
    ensures SignatureText(m) == SignatureText(m.(declaringType := TypeRef(typeFullName, m.declaringType.namespace)))
  {
  }
}
