/** Argument marshalling (RunDotNet/Program.cs:84-93) and the reporting of an
    invocation's result or exception (RunDotNet/Program.cs:95-123). The call
    itself, `MethodInfo.Invoke`, belongs to the host runtime and appears here
    only through its outcome. */
module Invocation {
  import opened Wrappers
  import opened Text
  import opened Descriptors

  /** `typeof(string[]).Name`. */
  const StringArrayTypeName: string := "String[]"

  /** The routine's first parameter is, by type name, a string array. */
  predicate TakesArguments(m: Routine)
  {
    |m.params| >= 1 && m.params[0].typeName == StringArrayTypeName
  }

  /** The invocation's argument array: either the forwarded list as the one
      argument, or no argument at all. */
  function Marshal(m: Routine, forwarded: seq<string>): (margs: seq<seq<string>>)
    ensures |margs| <= 1
    ensures |margs| == 1 <==> |m.params| >= 1 && m.params[0].typeName == StringArrayTypeName
    ensures forall a :: a in margs ==> a == forwarded
  {
    if TakesArguments(m) then [forwarded] else []
  }

  /** A routine without parameters is called with no argument, however many
      tokens were forwarded. */
  lemma NoParametersNoArguments(m: Routine, forwarded: seq<string>)
    requires |m.params| == 0
    ensures Marshal(m, forwarded) == []
  {
  }

  /** Only the first parameter is looked at, and only its type name: the
      parameters after it and the parameter names make no difference. */
  lemma MarshalLooksAtFirstTypeOnly(m1: Routine, m2: Routine, forwarded: seq<string>)
    requires |m1.params| >= 1 && |m2.params| >= 1
    requires m1.params[0].typeName == m2.params[0].typeName
    ensures Marshal(m1, forwarded) == Marshal(m2, forwarded)
  {
  }

  /** When the array is passed, the routine sees exactly the forwarded
      tokens, in order and unchanged. */
  lemma MarshalPassesForwardedUnchanged(m: Routine, forwarded: seq<string>)
    requires TakesArguments(m)
    ensures |Marshal(m, forwarded)| == 1
    ensures |Marshal(m, forwarded)[0]| == |forwarded|
    ensures forall k :: 0 <= k < |forwarded| ==> Marshal(m, forwarded)[0][k] == forwarded[k]
  {
  }

  datatype FaultKind = TargetInvocation | OtherFault

  /** An exception: whether it is a `TargetInvocationException`, its
      `GetType().Name`, its `ToString()` and its `InnerException`. */
  datatype Fault = Fault(kind: FaultKind, typeName: string, text: string, inner: Option<Fault>)

  /** A returned object: `GetType().Name` and `ToString()`. */
  datatype Value = Value(typeName: string, text: string)

  /** What `MethodInfo.Invoke` does: return an object (or null), or throw. */
  datatype InvokeResult = Returned(value: Option<Value>) | Raised(fault: Fault)

  /** How the runner reports the call. `HandlerFault` is a
      `TargetInvocationException` without inner exception: reading its
      inner exception's type inside the catch block throws again, and that
      exception leaves `Main`. */
  datatype Report =
    | ReturnedValue(value: Option<Value>)
    | CalleeFault(fault: Fault)
    | HostFault(fault: Fault)
    | HandlerFault

  /** The two catch blocks: a `TargetInvocationException` is reported through
      its inner exception, any other exception as itself. */
  function ReportOf(res: InvokeResult): (r: Report)
    ensures res.Returned? <==> r.ReturnedValue?
    ensures r.ReturnedValue? ==> r.value == res.value
    ensures r.CalleeFault? <==> res.Raised? && res.fault.kind == TargetInvocation && res.fault.inner.Some?
    ensures r.CalleeFault? ==> res.fault.inner == Some(r.fault)
    ensures r.HostFault? <==> res.Raised? && res.fault.kind == OtherFault
    ensures r.HostFault? ==> r.fault == res.fault
  {
    match res
    case Returned(v) => ReturnedValue(v)
    case Raised(f) =>
      match f.kind
      case OtherFault => HostFault(f)
      case TargetInvocation =>
        match f.inner
        case Some(i) => CalleeFault(i)
        case None => HandlerFault
  }

  /** `resultstr`: "(TypeName) text", or "null" for a null result. A
      returned object's text starts with "(", so it never reads "null". */
  function ResultText(v: Option<Value>): (r: string)
    ensures v.None? ==> r == "null"
    ensures v.Some? ==> |r| >= |v.value.typeName| + 3 && r[0] == '(' && r[1..|v.value.typeName| + 1] == v.value.typeName
    ensures v.Some? ==> r[|v.value.typeName| + 1..] == ") " + v.value.text
    ensures v.Some? ==> r != "null"
  {
    match v
    case None => "null"
    case Some(x) => "(" + x.typeName + ") " + x.text
  }

  const InvocationException: string := "Invocation exception:"

  /** The lines the runner writes for a report. */
  function ReportLines(r: Report): (lines: seq<string>)
    ensures r.CalleeFault? ==> lines == [ConLine(InvocationException), ConLine(r.fault.typeName), ConLine(r.fault.text)]
    ensures r.HostFault? ==> lines == [ConLine(r.fault.typeName), ConLine(r.fault.text)]
    ensures r.ReturnedValue? ==> lines == [ConLine("Function invoked. Returned: " + ResultText(r.value))]
    ensures r.HandlerFault? ==> lines == [ConLine(InvocationException)]
  {
    match r
    case ReturnedValue(v) => [ConLine("Function invoked. Returned: " + ResultText(v))]
    case CalleeFault(f) => [ConLine(InvocationException), ConLine(f.typeName), ConLine(f.text)]
    case HostFault(f) => [ConLine(f.typeName), ConLine(f.text)]
    case HandlerFault => [ConLine(InvocationException)]
  }

  /** An exception thrown by the invoked routine itself reaches the runner
      wrapped in a `TargetInvocationException`; the report names the
      routine's own exception type, not the wrapper's. */
  lemma CalleeExceptionUnwrapped(inner: Fault, wrapperName: string, wrapperText: string)
    ensures ReportLines(ReportOf(Raised(Fault(TargetInvocation, wrapperName, wrapperText, Some(inner)))))
         == [ConLine(InvocationException), ConLine(inner.typeName), ConLine(inner.text)]
  {
  }
}
