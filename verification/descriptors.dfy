/** The part of .NET reflection the runner relies on, as plain data: an
    assembly is its list of types in the order `GetTypes()` reports them,
    each type carries the static routines `GetMethods(NonPublic | Public |
    Static)` reports for it, in the order reflection reports them (.NET
    promises no particular order), and the assembly may declare an intrinsic
    entry point. */
module Descriptors {
  import opened Wrappers

  /** One parameter: `ParameterType.Name` and `Name`. */
  datatype Param = Param(typeName: string, name: string)

  /** The declaring type of a routine: `FullName` and `Namespace`. */
  datatype TypeRef = TypeRef(fullName: string, namespace: string)

  /** A `MethodInfo` as far as the runner looks at it. */
  datatype Routine = Routine(
    declaringType: TypeRef,
    name: string,
    returnTypeName: string,
    params: seq<Param>,
    isPublic: bool,
    isPrivate: bool,
    isStatic: bool)

  /** A type of the assembly together with its static routines. */
  datatype TypeDecl = TypeDecl(ref: TypeRef, statics: seq<Routine>)

  /** A loaded assembly: `GetTypes()` in order, and `EntryPoint`. */
  datatype Assembly = Assembly(types: seq<TypeDecl>, entryPoint: Option<Routine>)

  /** The routines of `types`, type by type, each type's in reported order. */
  function MethodsOf(types: seq<TypeDecl>): (ms: seq<Routine>)
    ensures forall m :: m in ms <==> exists i :: 0 <= i < |types| && m in types[i].statics
  {
    if |types| == 0 then []
    else
      var rest := MethodsOf(types[1..]);
      assert forall i :: 1 <= i < |types| ==> types[i] == types[1..][i - 1];
      types[0].statics + rest
  }

  /** `GetAllMethods` (RunDotNet/Program.cs:257-266). */
  function AllMethods(asm: Assembly): seq<Routine>
  {
    MethodsOf(asm.types)
  }

  /** Enumeration is compositional over the type list: the routines of
      earlier types all come before those of later types. */
  lemma {:induction false} MethodsOfAppend(a: seq<TypeDecl>, b: seq<TypeDecl>)
    ensures MethodsOf(a + b) == MethodsOf(a) + MethodsOf(b)
  {
    if |a| == 0 {
      assert a + b == b;
    } else {
      assert (a + b)[1..] == a[1..] + b;
      MethodsOfAppend(a[1..], b);
    }
  }

  /** Types-then-methods order: the routines of the type at position `|a|`
      form one contiguous block, in their reported order, after every
      routine of the types before it and before every routine of the types
      after it. */
  lemma MethodsOfLayout(a: seq<TypeDecl>, t: TypeDecl, b: seq<TypeDecl>)
    ensures MethodsOf(a + [t] + b) == MethodsOf(a) + t.statics + MethodsOf(b)
  {
    MethodsOfAppend(a + [t], b);
    MethodsOfAppend(a, [t]);
    assert MethodsOf([t]) == t.statics + MethodsOf([]);
  }
}
