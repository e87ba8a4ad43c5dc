/** `Main` after its argument check (RunDotNet/Program.cs:11-127): existence
    check, load, argument scan, then exactly one of: show the entry and
    return, list every routine and return, or invoke the entry once, report
    the outcome and print "Finished". */
module Runner {
  import opened Wrappers
  import opened Text
  import opened Descriptors
  import opened Arguments
  import opened Signature
  import opened Invocation

  /** The host runtime and file system: whether a path names an existing
      file, what `Assembly.LoadFile` yields for it, and what
      `MethodInfo.Invoke` does for a routine and an argument array. */
  datatype Host = Host(
    fileExists: string -> bool,
    load: string -> Result<Assembly, Fault>,
    invoke: (Routine, seq<seq<string>>) -> InvokeResult)

  /** What happens once the assembly is loaded. `IndexFault` is the
      out-of-range read of a trailing `/e`, which leaves `Main`. */
  datatype Execution =
    | IndexFault
    | Shown(entry: Option<Routine>)
    | Listed(methods: seq<Routine>)
    | Invoked(routine: Routine, margs: seq<seq<string>>, report: Report)

  /** A whole run: the help screen for an empty command line, the early
      returns for a missing or unloadable assembly, or an execution. */
  datatype RunReport =
    | Help
    | AssemblyMissing(path: string)
    | LoadFailed(path: string, fault: Fault)
    | Ran(execution: Execution)

  /** Lines 47-126: the routine is invoked exactly when the scan proceeds
      with a non-null entry, and then once, with the marshalled arguments. */
  function Execute(asm: Assembly, args: seq<string>, invoke: (Routine, seq<seq<string>>) -> InvokeResult): (e: Execution)
    ensures e.IndexFault? <==> Scan(asm, args).MissingSearchText?
    ensures e.Shown? <==> Scan(asm, args).Show?
    ensures e.Shown? ==> e.entry == Scan(asm, args).entry
    ensures e.Listed? <==> Scan(asm, args).Proceed? && Scan(asm, args).entry.None?
    ensures e.Listed? ==> e.methods == AllMethods(asm)
    ensures e.Invoked? <==> Scan(asm, args).Proceed? && Scan(asm, args).entry.Some?
    ensures e.Invoked? ==>
      && Scan(asm, args).entry == Some(e.routine)
      && e.margs == Marshal(e.routine, Scan(asm, args).forwarded)
      && e.report == ReportOf(invoke(e.routine, e.margs))
  {
    match Scan(asm, args)
    case MissingSearchText => IndexFault
    case Show(entry) => Shown(entry)
    case Proceed(None, _) => Listed(AllMethods(asm))
    case Proceed(Some(m), forwarded) =>
      var margs := Marshal(m, forwarded);
      Invoked(m, margs, ReportOf(invoke(m, margs)))
  }

  /** `Main`: no argument shows the help; otherwise `args[0]` is the
      assembly path, checked for existence and loaded before the scan. */
  function Run(args: seq<string>, host: Host): (r: RunReport)
    ensures r.Help? <==> |args| == 0
    ensures r.AssemblyMissing? ==> |args| > 0 && r.path == args[0] && !host.fileExists(args[0])
    ensures r.LoadFailed? ==> |args| > 0 && host.fileExists(args[0]) && host.load(args[0]) == Failure(r.fault)
    ensures r.Ran? <==> |args| > 0 && host.fileExists(args[0]) && host.load(args[0]).Success?
    ensures r.Ran? ==> r.execution == Execute(host.load(args[0]).value, args, host.invoke)
  {
    if |args| == 0 then Help
    else if !host.fileExists(args[0]) then AssemblyMissing(args[0])
    else
      match host.load(args[0])
      case Failure(f) => LoadFailed(args[0], f)
      case Success(asm) => Ran(Execute(asm, args, host.invoke))
  }

  const EntryNotFound: string := "Entry point not found."
  const AvailableMethods: string := "Available methods:"
  const InvokeMethod: string := "Invoke method"
  const Finished: string := "Finished"

  /** "Putting arguments in parameter 'name'." */
  function PuttingArguments(m: Routine): string
    requires |m.params| >= 1
  {
    ConLine("Putting arguments in parameter '" + m.params[0].name + "'.")
  }

  /** The signature lines of the listing, one per routine. */
  function Listing(ms: seq<Routine>): (lines: seq<string>)
    ensures |lines| == |ms|
    ensures forall k :: 0 <= k < |ms| ==> lines[k] == MethodLine(Some(ms[k]))
  {
    if |ms| == 0 then [] else [MethodLine(Some(ms[0]))] + Listing(ms[1..])
  }

  /** The runner's own lines from line 47 on, colours dropped; lines written
      by the assembly-load handler and by the invoked routine are not part of it. */
  function Transcript(e: Execution): (t: seq<string>)
    ensures e.IndexFault? ==> t == []
    ensures e.Shown? ==> t == [MethodLine(e.entry)]
    ensures e.Listed? ==>
      && |t| == 2 + |e.methods|
      && t[0] == ConLine(EntryNotFound) && t[1] == ConLine(AvailableMethods)
      && forall k :: 0 <= k < |e.methods| ==> t[2 + k] == SignatureText(e.methods[k])
    ensures e.Invoked? ==>
      var n := if TakesArguments(e.routine) then 2 else 1;
      var r := ReportLines(e.report);
      && |t| == n + 1 + |r| + (if e.report.HandlerFault? then 0 else 1)
      && t[0] == SignatureText(e.routine)
      && (TakesArguments(e.routine) ==> t[1] == PuttingArguments(e.routine))
      && t[n] == ConLine(InvokeMethod)
      && t[n + 1..n + 1 + |r|] == r
      && (!e.report.HandlerFault? ==> t[|t| - 1] == ConLine(Finished))
  {
    match e
    case IndexFault => []
    case Shown(m) => [MethodLine(m)]
    case Listed(ms) => [ConLine(EntryNotFound), ConLine(AvailableMethods)] + Listing(ms)
    case Invoked(m, _, rep) =>
      [MethodLine(Some(m))]
      + (if TakesArguments(m) then [PuttingArguments(m)] else [])
      + [ConLine(InvokeMethod)]
      + ReportLines(rep)
      + (if rep.HandlerFault? then [] else [ConLine(Finished)])
  }

  /** A signature line is never the "Finished" line. */
  lemma SignatureIsNotFinished(m: Routine)
    ensures MethodLine(Some(m)) != ConLine(Finished)
  {
    var s := SignatureText(m);
    assert s[|s| - 1] == ';';
    var f := ConLine(Finished);
    assert f[|f| - 1] == 'd';
  }

  /** "Finished" is written only on the invocation path, as the last line,
      and on it unless the exception handler itself throws; the show and
      list paths return before it and the index fault never gets there. */
  lemma {:induction false} FinishedOnlyAfterInvocation(e: Execution)
    ensures ConLine(Finished) in Transcript(e) <==> e.Invoked? && !e.report.HandlerFault?
    ensures ConLine(Finished) in Transcript(e) ==> Transcript(e)[|Transcript(e)| - 1] == ConLine(Finished)
  {
    match e
    case IndexFault =>
    case Shown(m) =>
      if m.Some? {
        SignatureIsNotFinished(m.value);
      }
    case Listed(ms) =>
      var t := Transcript(e);
      forall k | 0 <= k < |ms|
        ensures Listing(ms)[k] != ConLine(Finished)
      {
        SignatureIsNotFinished(ms[k]);
      }
      assert ConLine(Finished) !in Listing(ms);
      assert ConLine(EntryNotFound) != ConLine(Finished);
      assert ConLine(AvailableMethods) != ConLine(Finished);
    case Invoked(m, _, rep) =>
      SignatureIsNotFinished(m);
      if rep.HandlerFault? {
        assert ConLine(InvokeMethod) != ConLine(Finished);
        assert ConLine(InvocationException) != ConLine(Finished);
        if TakesArguments(m) {
          var p := PuttingArguments(m);
          assert p[|p| - 1] == '.';
          var f := ConLine(Finished);
          assert f[|f| - 1] == 'd';
        }
      }
  }

  /** With no `/e` and no `/s` anywhere, the intrinsic entry point is
      invoked, with every token (the assembly path first) as candidate
      arguments. */
  lemma IntrinsicEntryWithoutFlags(asm: Assembly, args: seq<string>, invoke: (Routine, seq<seq<string>>) -> InvokeResult)
    requires asm.entryPoint.Some?
    requires forall k :: 0 <= k < |args| ==> IsPlain(args[k])
    ensures Execute(asm, args, invoke)
         == Invoked(asm.entryPoint.value, Marshal(asm.entryPoint.value, args),
                    ReportOf(invoke(asm.entryPoint.value, Marshal(asm.entryPoint.value, args))))
  {
    NoFlagsForwardsEverything(asm, args);
  }

  /** `/s` never invokes anything and lists nothing: it shows the entry
      current when it is met, whatever comes after it. */
  lemma ShowNeverInvokes(asm: Assembly, a: seq<string>, flag: string, b: seq<string>,
                         invoke: (Routine, seq<seq<string>>) -> InvokeResult)
    requires Fold(asm, a).Reading?
    requires IsShowFlag(flag)
    ensures Execute(asm, a + [flag] + b, invoke) == Shown(Fold(asm, a).entry)
    ensures Transcript(Execute(asm, a + [flag] + b, invoke)) == [MethodLine(Fold(asm, a).entry)]
  {
    ShowFlagStops(asm, a, flag, b);
  }

  /** A null entry lists every routine of the assembly, in enumeration
      order, after the "Entry point not found." header. */
  lemma NullEntryListsAllMethods(asm: Assembly, args: seq<string>, invoke: (Routine, seq<seq<string>>) -> InvokeResult)
    requires Scan(asm, args).Proceed? && Scan(asm, args).entry.None?
    ensures var t := Transcript(Execute(asm, args, invoke));
      && |t| == 2 + |AllMethods(asm)|
      && t[0] == ConLine(EntryNotFound)
      && t[1] == ConLine(AvailableMethods)
      && forall k :: 0 <= k < |AllMethods(asm)| ==> t[2 + k] == SignatureText(AllMethods(asm)[k])
  {
  }
}
