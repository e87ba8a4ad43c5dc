/** `SearchEntryPoint` (RunDotNet/Program.cs:268-282): a single first-match
    scan over every static routine, in types-then-methods order, where each
    routine is compared with both its qualified and its bare name. */
module EntrySearch {
  import opened Wrappers
  import opened Text
  import opened Descriptors

  /** The search text names the routine as `Type.FullName + "." + Name`,
      ignoring case; type and name are folded separately. */
  predicate QualifiedMatch(text: string, m: Routine)
  {
    Lower(text) == Lower(m.declaringType.fullName) + "." + Lower(m.name)
  }

  /** The search text is the routine's bare name, ignoring case. */
  predicate NameMatch(text: string, m: Routine)
  {
    Lower(text) == Lower(m.name)
  }

  /** Folding type and name separately, as the runner does, is the same as
      folding the joined qualified name. */
  lemma QualifiedMatchFoldsJoinedName(text: string, m: Routine)
    ensures QualifiedMatch(text, m) <==> Lower(text) == Lower(m.declaringType.fullName + "." + m.name)
  {
    LowerAppend(m.declaringType.fullName + ".", m.name);
    LowerAppend(m.declaringType.fullName, ".");
  }

  predicate Matches(text: string, m: Routine)
  {
    QualifiedMatch(text, m) || NameMatch(text, m)
  }

  /** Position `k` holds a matching routine and nothing before it matches. */
  predicate IsFirstMatchAt(ms: seq<Routine>, text: string, k: int)
  {
    && 0 <= k < |ms|
    && Matches(text, ms[k])
    && forall j :: 0 <= j < k ==> !Matches(text, ms[j])
  }

  /** The position the scan stops at, if any. */
  function FirstMatch(ms: seq<Routine>, text: string): (k: Option<nat>)
    ensures k.Some? ==> IsFirstMatchAt(ms, text, k.value)
    ensures k.None? <==> forall j :: 0 <= j < |ms| ==> !Matches(text, ms[j])
  {
    if |ms| == 0 then None
    else if Matches(text, ms[0]) then Some(0)
    else
      match FirstMatch(ms[1..], text)
      case None => None
      case Some(k) => Some(k + 1)
  }

  /** The routine `SearchEntryPoint` returns; `None` stands for null. */
  function SearchEntryPoint(asm: Assembly, text: string): (r: Option<Routine>)
    ensures r.None? <==> forall m :: m in AllMethods(asm) ==> !Matches(text, m)
    ensures r.Some? ==> exists k :: IsFirstMatchAt(AllMethods(asm), text, k) && AllMethods(asm)[k] == r.value
  {
    var ms := AllMethods(asm);
    match FirstMatch(ms, text)
    case None => None
    case Some(k) => Some(ms[k])
  }

  /** There is only one first match. */
  lemma FirstMatchUnique(ms: seq<Routine>, text: string, k1: int, k2: int)
    requires IsFirstMatchAt(ms, text, k1) && IsFirstMatchAt(ms, text, k2)
    ensures k1 == k2
  {
  }

  /** No priority of qualified names: a routine earlier in enumeration order
      that matches only by bare name is returned even when a later routine
      matches the text as a qualified name. This needs a bare name holding a
      dot (see `QualifiedClashNeedsDottedName`). `GetMethods` is asked for
      static routines only, so ordinary explicit interface implementations
      (instance methods) never take part; in C# only static explicit
      implementations of static abstract interface members (C# 11 and later)
      have such names. */
  lemma {:induction false} BareNameBeatsLaterQualified(asm: Assembly, text: string, i: int, j: int)
    requires 0 <= i < j < |AllMethods(asm)|
    requires forall k :: 0 <= k < i ==> !Matches(text, AllMethods(asm)[k])
    requires NameMatch(text, AllMethods(asm)[i]) && !QualifiedMatch(text, AllMethods(asm)[i])
    requires QualifiedMatch(text, AllMethods(asm)[j])
    ensures SearchEntryPoint(asm, text) == Some(AllMethods(asm)[i])
    ensures SearchEntryPoint(asm, text) != Some(AllMethods(asm)[j])
  {
    var r := SearchEntryPoint(asm, text);
    assert IsFirstMatchAt(AllMethods(asm), text, i);
    var k :| IsFirstMatchAt(AllMethods(asm), text, k) && AllMethods(asm)[k] == r.value;
    FirstMatchUnique(AllMethods(asm), text, i, k);
  }

  /** Text that differs only in letter case finds the same routine. */
  lemma SearchIgnoresCase(asm: Assembly, t1: string, t2: string)
    requires Lower(t1) == Lower(t2)
    ensures SearchEntryPoint(asm, t1) == SearchEntryPoint(asm, t2)
  {
    var ms := AllMethods(asm);
    assert forall m :: Matches(t1, m) <==> Matches(t2, m);
    match FirstMatch(ms, t1)
    case None =>
    case Some(k) =>
      assert IsFirstMatchAt(ms, t2, k);
      FirstMatchUnique(ms, t2, k, FirstMatch(ms, t2).value);
  }

  /** A text can match one routine by bare name and another by qualified
      name only when the first routine's name contains a dot. */
  lemma QualifiedClashNeedsDottedName(text: string, m1: Routine, m2: Routine)
    requires NameMatch(text, m1) && QualifiedMatch(text, m2)
    ensures '.' in m1.name
  {
    var k := |Lower(m2.declaringType.fullName)|;
    assert Lower(m1.name)[k] == '.';
    assert m1.name[k] == '.';
  }
}
