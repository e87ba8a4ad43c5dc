/** String helpers of the runner: case folding, the console line prefix and
    the assembly file-name helpers used when resolving dependencies. */
module Text {

  /** `s` ends with `suffix` (ordinal comparison). */
  predicate EndsWith(s: string, suffix: string)
  {
    |suffix| <= |s| && s[|s| - |suffix|..] == suffix
  }

  predicate IsUpper(c: char)
  {
    'A' <= c <= 'Z'
  }

  /** ASCII model of `char.ToLower`. */
  function LowerChar(c: char): char
  {
    if IsUpper(c) then (c as int + 32) as char else c
  }

  /** ASCII model of `string.ToLower`: each capital becomes the matching
      small letter, every other character stays as it is. */
  function Lower(s: string): (r: string)
    ensures |r| == |s|
    ensures forall i :: 0 <= i < |r| ==> !IsUpper(r[i])
    ensures forall i :: 0 <= i < |s| && !IsUpper(s[i]) ==> r[i] == s[i]
    ensures forall i :: 0 <= i < |s| && IsUpper(s[i]) ==> r[i] as int == s[i] as int + 32
  {
    seq(|s|, i requires 0 <= i < |s| => LowerChar(s[i]))
  }

  /** Two strings fold to the same text exactly when they have the same
      length and agree character by character up to case. */
  lemma LowerEqual(a: string, b: string)
    ensures Lower(a) == Lower(b)
        <==> |a| == |b| && forall i :: 0 <= i < |a| ==> LowerChar(a[i]) == LowerChar(b[i])
  {
    if Lower(a) == Lower(b) {
      assert forall i :: 0 <= i < |a| ==> LowerChar(a[i]) == Lower(a)[i] == Lower(b)[i] == LowerChar(b[i]);
    }
  }

  /** Case folding works character by character, so it distributes over
      concatenation; the runner folds the declaring type and the method name
      separately and joins them with a dot. */
  lemma LowerAppend(a: string, b: string)
    ensures Lower(a + b) == Lower(a) + Lower(b)
  {
    assert forall i :: 0 <= i < |a + b| ==> Lower(a + b)[i] == (Lower(a) + Lower(b))[i];
  }

  /** Every line the runner writes through its `ConLine` helper carries this
      prefix (RunDotNet/Program.cs:183). */
  const ConPrefix: string := "[run.net] "

  function ConLine(line: string): (r: string)
    ensures |r| == |ConPrefix| + |line|
    ensures r[..|ConPrefix|] == ConPrefix && r[|ConPrefix|..] == line
  {
    ConPrefix + line
  }

  /** `s.Split(sep)[0]`: the text before the first `sep`, or all of `s`. */
  function BeforeFirst(s: string, sep: char): (r: string)
    ensures |r| <= |s| && r == s[..|r|]
    ensures sep !in r
    ensures |r| < |s| ==> s[|r|] == sep
  {
    if |s| == 0 then ""
    else if s[0] == sep then ""
    else [s[0]] + BeforeFirst(s[1..], sep)
  }

  const DllSuffix: string := ".dll"

  /** `GetDllNameFromFull`: the simple name of a full assembly name
      ("Name, Version=..., Culture=...") turned into a file name. */
  function DllNameFromFull(full: string): (r: string)
    ensures EndsWith(r, DllSuffix)
    ensures var stem := r[..|r| - |DllSuffix|];
      && |stem| <= |full| && stem == full[..|stem|]
      && ',' !in stem
      && (|stem| == |full| || full[|stem|] == ',')
  {
    var stem := BeforeFirst(full, ',');
    assert (stem + DllSuffix)[..|stem|] == stem;
    stem + DllSuffix
  }

  /** The `.dll` strip of `GetAssemblyGAC_MSIL`: removes exactly one
      trailing ".dll" and leaves any other name alone. */
  function StripDll(name: string): (r: string)
    ensures EndsWith(name, DllSuffix) ==> r + DllSuffix == name
    ensures !EndsWith(name, DllSuffix) ==> r == name
  {
    if EndsWith(name, DllSuffix) then name[..|name| - |DllSuffix|] else name
  }

  /** Stripping the file name built by `DllNameFromFull` gives back the
      simple name: the text of the full name before its first comma. */
  lemma StripDllNameFromFull(full: string)
    ensures StripDll(DllNameFromFull(full)) == BeforeFirst(full, ',')
  {
  }

  /** The longest comma-free prefix is unique, so the two characterisations
      of the simple name agree. */
  lemma {:induction false} BeforeFirstUnique(s: string, sep: char, p: string)
    requires |p| <= |s| && p == s[..|p|]
    requires sep !in p
    requires |p| == |s| || s[|p|] == sep
    ensures p == BeforeFirst(s, sep)
  {
    if |s| == 0 {
    } else if s[0] == sep {
    } else {
      assert |p| > 0;
      assert p[0] == s[0];
      BeforeFirstUnique(s[1..], sep, p[1..]);
      assert p == [s[0]] + p[1..];
    }
  }
}
