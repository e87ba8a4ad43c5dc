/** The argument scan of `Main` (RunDotNet/Program.cs:47-68). The scan runs
    over the whole command line from index 0, so the assembly path itself is
    forwarded unless it happens to be a flag. `/e` (any case) replaces the
    current entry with the search result for the next token, `/s` (any case)
    stops the scan and shows the current entry, anything else is forwarded. */
module Arguments {
  import opened Wrappers
  import opened Text
  import opened Descriptors
  import opened EntrySearch

  predicate IsEntryFlag(arg: string)
  {
    Lower(arg) == "/e"
  }

  predicate IsShowFlag(arg: string)
  {
    Lower(arg) == "/s"
  }

  /** A token the scan forwards when it meets it as a flag position. */
  predicate IsPlain(arg: string)
  {
    !IsEntryFlag(arg) && !IsShowFlag(arg)
  }

  /** The scan as a token-at-a-time automaton: reading tokens, waiting for
      the search text of an `/e`, or stopped by `/s`. */
  datatype ScanState =
    | Reading(entry: Option<Routine>, forwarded: seq<string>)
    | AwaitingText(forwarded: seq<string>)
    | Stopped(entry: Option<Routine>)

  function Step(asm: Assembly, st: ScanState, arg: string): ScanState
  {
    match st
    case Stopped(_) => st
    case AwaitingText(f) => Reading(SearchEntryPoint(asm, arg), f)
    case Reading(e, f) =>
      if IsEntryFlag(arg) then AwaitingText(f)
      else if IsShowFlag(arg) then Stopped(e)
      else Reading(e, f + [arg])
  }

  /** The automaton run over `args`, starting from the intrinsic entry point
      and no forwarded arguments. */
  function Fold(asm: Assembly, args: seq<string>): ScanState
  {
    if |args| == 0 then Reading(asm.entryPoint, [])
    else Step(asm, Fold(asm, args[..|args| - 1]), args[|args| - 1])
  }

  /** What the scan leads to: go on with an entry (null or not) and the
      forwarded list; show the entry and return; or index past the end of
      the arguments because the last token is an `/e` flag. */
  datatype ScanOutcome =
    | Proceed(entry: Option<Routine>, forwarded: seq<string>)
    | Show(entry: Option<Routine>)
    | MissingSearchText

  function Scan(asm: Assembly, args: seq<string>): ScanOutcome
  {
    match Fold(asm, args)
    case Reading(e, f) => Proceed(e, f)
    case AwaitingText(_) => MissingSearchText
    case Stopped(e) => Show(e)
  }

  /** Appending a token runs one more step of the automaton. */
  lemma FoldSnoc(asm: Assembly, a: seq<string>, t: string)
    ensures Fold(asm, a + [t]) == Step(asm, Fold(asm, a), t)
  {
    assert (a + [t])[..|a + [t]| - 1] == a;
  }

  /** Once stopped, nothing after the `/s` is looked at. */
  lemma {:induction false} StoppedIsFinal(asm: Assembly, a: seq<string>, b: seq<string>)
    requires Fold(asm, a).Stopped?
    ensures Fold(asm, a + b) == Fold(asm, a)
  {
    if |b| == 0 {
      assert a + b == a;
    } else {
      var b' := b[..|b| - 1];
      assert a + b == (a + b') + [b[|b| - 1]];
      StoppedIsFinal(asm, a, b');
      FoldSnoc(asm, a + b', b[|b| - 1]);
    }
  }

  /** Plain tokens are appended to the forwarded list in their original
      order and leave the entry alone. */
  lemma {:induction false} PlainTokensForwarded(asm: Assembly, a: seq<string>, b: seq<string>)
    requires Fold(asm, a).Reading?
    requires forall k :: 0 <= k < |b| ==> IsPlain(b[k])
    ensures Fold(asm, a + b) == Reading(Fold(asm, a).entry, Fold(asm, a).forwarded + b)
  {
    if |b| == 0 {
      assert a + b == a;
      assert Fold(asm, a).forwarded + b == Fold(asm, a).forwarded;
    } else {
      var b', t := b[..|b| - 1], b[|b| - 1];
      assert a + b == (a + b') + [t];
      PlainTokensForwarded(asm, a, b');
      FoldSnoc(asm, a + b', t);
      assert IsPlain(t);
      assert Fold(asm, a).forwarded + b' + [t] == Fold(asm, a).forwarded + b;
    }
  }

  /** With no flag on the command line every token is forwarded, the
      assembly path included, and the entry stays the intrinsic one. */
  lemma NoFlagsForwardsEverything(asm: Assembly, args: seq<string>)
    requires forall k :: 0 <= k < |args| ==> IsPlain(args[k])
    ensures Scan(asm, args) == Proceed(asm.entryPoint, args)
  {
    PlainTokensForwarded(asm, [], args);
    assert [] + args == args;
  }

  /** The search text of an `/e` is taken literally, even when it is itself
      a flag: "/e /s" searches for a routine named "/s". */
  lemma EntryFlagOperandIsNeverAFlag(asm: Assembly, a: seq<string>, flag: string, text: string)
    requires Fold(asm, a).Reading?
    requires IsEntryFlag(flag)
    ensures Fold(asm, a + [flag, text]) == Reading(SearchEntryPoint(asm, text), Fold(asm, a).forwarded)
  {
    FoldSnoc(asm, a, flag);
    FoldSnoc(asm, a + [flag], text);
    assert a + [flag] + [text] == a + [flag, text];
  }

  /** An `/e` consumes exactly the next token, which is never forwarded,
      and replaces the current entry with the search result for it (null
      when nothing matches); plain tokens after it are forwarded. Applied
      repeatedly, the last `/e` wins. */
  lemma EntryFlagReplacesEntry(asm: Assembly, a: seq<string>, flag: string, text: string, b: seq<string>)
    requires Fold(asm, a).Reading?
    requires IsEntryFlag(flag)
    requires forall k :: 0 <= k < |b| ==> IsPlain(b[k])
    ensures Scan(asm, a + [flag, text] + b)
         == Proceed(SearchEntryPoint(asm, text), Fold(asm, a).forwarded + b)
  {
    EntryFlagOperandIsNeverAFlag(asm, a, flag, text);
    PlainTokensForwarded(asm, a + [flag, text], b);
  }

  /** An `/e` as the last token leaves the search text missing. */
  lemma TrailingEntryFlagMissesText(asm: Assembly, a: seq<string>, flag: string)
    requires Fold(asm, a).Reading?
    requires IsEntryFlag(flag)
    ensures Scan(asm, a + [flag]) == MissingSearchText
  {
    FoldSnoc(asm, a, flag);
  }

  /** `/s` shows the entry current when it is met; whatever follows it,
      `/e` flags included, has no effect. */
  lemma ShowFlagStops(asm: Assembly, a: seq<string>, flag: string, b: seq<string>)
    requires Fold(asm, a).Reading?
    requires IsShowFlag(flag)
    ensures Scan(asm, a + [flag] + b) == Show(Fold(asm, a).entry)
  {
    FoldSnoc(asm, a, flag);
    StoppedIsFinal(asm, a + [flag], b);
  }

  /** The loop of `Main` as written: the index skips over the search text of
      an `/e`, reads `args[i]` after the increment (past the end when `/e` is
      last), and `/s` returns from inside the loop. */
  method ScanArguments(asm: Assembly, args: seq<string>) returns (outcome: ScanOutcome)
    ensures outcome == Scan(asm, args)
  {
    var entry := asm.entryPoint;
    var programArgs: seq<string> := [];
    var i := 0;
    while i < |args|
      invariant 0 <= i <= |args|
      invariant Fold(asm, args[..i]) == Reading(entry, programArgs)
    {
      var arg := args[i];
      assert args[..i + 1][..i] == args[..i];
      if IsEntryFlag(arg) {
        i := i + 1;
        if i >= |args| {
          assert args[..i] == args;
          return MissingSearchText;
        }
        var search := args[i];
        assert args[..i + 1][..i] == args[..i];
        entry := SearchEntryPoint(asm, search);
        i := i + 1;
        continue;
      } else if IsShowFlag(arg) {
        StoppedIsFinal(asm, args[..i + 1], args[i + 1..]);
        assert args[..i + 1] + args[i + 1..] == args;
        return Show(entry);
      }
      programArgs := programArgs + [arg];
      i := i + 1;
    }
    assert args[..i] == args;
    return Proceed(entry, programArgs);
  }
}
