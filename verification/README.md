# RunDotNet runner, modelled in Dafny

RunDotNet is a command-line runner for .NET assemblies. It is called as
`RunDotNet <assembly> [/e <entry>] [/s] [arguments]`. It loads the assembly and
picks a routine to call: the assembly's own entry point, or the first static
routine whose name matches the `/e` search text. It then invokes that routine.
A routine whose first parameter is a string array gets the forwarded
command-line tokens. At the end the runner reports the return value or the
exception.

This project models the decision logic of `Main` as pure Dafny functions over
plain data. Reflection is replaced by an ordered list of routine descriptors.

- `Wrappers`: `Option` (standing in for null) and `Result`.
- `Text`: ASCII case folding, the `[run.net] ` line prefix, `GetDllNameFromFull` and the `.dll` strip.
- `Descriptors`: parameters, routines, types and assemblies, plus `GetAllMethods` (type by type, each type's routines in the order reflection reports them).
- `EntrySearch`: `SearchEntryPoint`, a single first-match scan that tests both the qualified and the bare name of each routine.
- `Arguments`: the argument scan. `Fold` is a token-at-a-time automaton that serves as the reference definition. `ScanArguments` is the loop as written, where the index jumps over the `/e` operand, and it is proved equal to the automaton.
- `Signature`: the text `PrintMethod` writes. `PrintMethod` and `WriteParams` are the methods as written, proved equal to the declarative `MethodLine`.
- `Invocation`: the argument-marshalling rule, plus reporting of the result, of an unwrapped `TargetInvocationException`, and of any other exception.
- `Runner`: `Run` covers the help, missing-file and load-failure early returns. `Execute` covers show, list or invoke once. `Transcript` gives the runner's own lines written by the scan, show, list and invoke steps.
- `Fixtures`: the repository's test library (`ClassNumberOne.ArgumentMoreThanFour`, `ClassTwo.DisplaySomethingOnScreen`) as descriptor data, with end-to-end runs.

Behaviour of the code worth knowing:

- **Qualified names have no priority.** The search makes one pass and tests each routine both ways. An earlier bare-name match therefore beats a later qualified match (`EntrySearch.BareNameBeatsLaterQualified`). This clash needs a routine whose bare name contains a dot (`EntrySearch.QualifiedClashNeedsDottedName`). `GetMethods` is asked for static routines only (RunDotNet/Program.cs:263), so ordinary explicit interface implementations, which are instance methods, never take part. In C# only static explicit implementations of static abstract interface members (C# 11 and later) can have such a name here.
- **The assembly path is forwarded.** The help text lists the assembly path apart from the arguments (RunDotNet/Program.cs:286-290). The scan loop still starts at index 0, so the path itself is forwarded. Four typed tokens reach `ArgumentMoreThanFour` as five strings (`Fixtures.PathCountsAsArgument`).
- **"Finished" is printed only after an invocation.** The `/s` path and the listing path return before it. A trailing `/e` reads past the end of the argument array, and that exception is not caught (`Runner.FinishedOnlyAfterInvocation`, `Arguments.TrailingEntryFlagMissesText`).
- **A name qualified by the short type name does not match.** The search accepts only the bare name or the name qualified by the type's full name. So `ClassTwo.DisplaySomethingOnScreen` matches nothing (`Fixtures.PartlyQualifiedNameNotFound`).

## Model

| member | source | states |
|---|---|---|
| Text.ConLine | RunDotNet/Program.cs:183 | every line written through `ConLine` is "[run.net] " followed by the given text |
| Text.Lower | RunDotNet/Program.cs:54 | case folding keeps the length, turns each capital A-Z into the matching small letter, and changes no other character |
| Text.LowerEqual | RunDotNet/Program.cs:54 | two texts fold to the same text exactly when they have the same length and agree character by character up to case |
| Text.LowerAppend | RunDotNet/Program.cs:274 | folding the type name and the method name separately and joining them gives the same result as folding the joined text |
| Text.BeforeFirst | RunDotNet/Program.cs:168 | `Split(',')[0]` is a prefix of the input that contains no comma and is followed by a comma or by the end of the input |
| Text.BeforeFirstUnique | RunDotNet/Program.cs:168 | any prefix with those three properties equals `Split(',')[0]`, so the characterisation is exact |
| Text.DllNameFromFull | RunDotNet/Program.cs:167-168 | the file name ends in ".dll", and its stem is the comma-free prefix of the full assembly name up to its first comma (or the whole name) |
| Text.StripDll | RunDotNet/Program.cs:153 | a name ending in ".dll" loses exactly that suffix; any other name is returned unchanged |
| Text.StripDllNameFromFull | RunDotNet/Program.cs:167-168 | stripping ".dll" from the file name of a full assembly name gives back the text before its first comma |
| Descriptors.MethodsOf | RunDotNet/Program.cs:257-266 | a routine is enumerated exactly when one of the assembly's types reports it |
| Descriptors.MethodsOfAppend | RunDotNet/Program.cs:262-263 | enumerating a concatenation of type lists gives the concatenation of their enumerations |
| Descriptors.MethodsOfLayout | RunDotNet/Program.cs:262-263 | each type's routines form one block in the order reflection reports them, after all routines of earlier types and before all routines of later types |
| EntrySearch.FirstMatch | RunDotNet/Program.cs:272-281 | the scan stops at a matching position with no match before it, and finds nothing exactly when no routine matches either way |
| EntrySearch.SearchEntryPoint | RunDotNet/Program.cs:268-282 | null exactly when no routine matches by qualified or bare name (case-insensitive); otherwise the first routine in enumeration order that matches either way |
| EntrySearch.FirstMatchUnique | RunDotNet/Program.cs:272-279 | the first match is unique, so the search is deterministic |
| EntrySearch.BareNameBeatsLaterQualified | RunDotNet/Program.cs:274-278 | an earlier bare-name match is returned even when a later routine matches by qualified name; qualified names have no priority |
| EntrySearch.QualifiedMatchFoldsJoinedName | RunDotNet/Program.cs:274 | folding the full type name and the method name separately and joining them with a dot gives the same test as folding the joined qualified name |
| EntrySearch.QualifiedClashNeedsDottedName | RunDotNet/Program.cs:274-278 | a text can match one routine by bare name and another by qualified name only if the first routine's name contains a dot |
| EntrySearch.SearchIgnoresCase | RunDotNet/Program.cs:274-277 | search texts that differ only in letter case find the same routine |
| Arguments.StoppedIsFinal | RunDotNet/Program.cs:61-65 | after `/s` no further token changes the state of the scan |
| Arguments.PlainTokensForwarded | RunDotNet/Program.cs:50-67 | tokens that are neither flag are appended to the forwarded list in their original order and leave the entry unchanged |
| Arguments.NoFlagsForwardsEverything | RunDotNet/Program.cs:47-68 | with no flag present, the entry stays the intrinsic entry point and every token is forwarded, the assembly path included |
| Arguments.EntryFlagOperandIsNeverAFlag | RunDotNet/Program.cs:54-59 | the token after `/e` is used as search text even when it is itself a flag, and it is not forwarded |
| Arguments.EntryFlagReplacesEntry | RunDotNet/Program.cs:54-67 | `/e text` replaces the entry with the search result for text (possibly null), and the later plain tokens are forwarded, so the last `/e` wins |
| Arguments.TrailingEntryFlagMissesText | RunDotNet/Program.cs:56-57 | `/e` as the last token reads past the end of the argument array |
| Arguments.ShowFlagStops | RunDotNet/Program.cs:61-65 | `/s` shows the entry current at that point, whatever follows it, `/e` included |
| Arguments.ScanArguments | RunDotNet/Program.cs:47-68 | the loop as written, with the index skipping the `/e` operand and `/s` returning from inside the loop, computes the same outcome as the token automaton |
| Signature.WriteParams | RunDotNet/Program.cs:215-249 | the parameter loop, which writes ", " before every parameter but the first, produces the parameters as "Type name" joined by ", " |
| Signature.PrintMethod | RunDotNet/Program.cs:185-255 | the line for a null routine is "[run.net] Method not found."; otherwise it is public/private/static in that order, the return type, `Namespace.Name`, the parameter list and ");" |
| Signature.SignatureEndsWithParen | RunDotNet/Program.cs:252 | every signature line ends with ");" |
| Signature.MethodLineDistinguishesNull | RunDotNet/Program.cs:187-191 | the "Method not found." line appears exactly for a null routine |
| Signature.SignatureOmitsTypeName | RunDotNet/Program.cs:210-213 | the declaring type's own name is not printed, so two routines that differ only in it print the same line |
| Invocation.Marshal | RunDotNet/Program.cs:84-93 | the argument array is the forwarded list as its one element when the first parameter's type name is "String[]", and empty otherwise |
| Invocation.NoParametersNoArguments | RunDotNet/Program.cs:84-89 | a routine without parameters gets no argument, however many tokens were forwarded |
| Invocation.MarshalLooksAtFirstTypeOnly | RunDotNet/Program.cs:89 | only the first parameter's type name affects marshalling; later parameters and parameter names do not |
| Invocation.MarshalPassesForwardedUnchanged | RunDotNet/Program.cs:92 | when the array is passed, the routine sees exactly the forwarded tokens, in order and unchanged |
| Invocation.ReportOf | RunDotNet/Program.cs:102-123 | a return is reported as a return; a `TargetInvocationException` is reported through its inner exception; any other exception is reported as itself |
| Invocation.ResultText | RunDotNet/Program.cs:105 | a null result reads "null"; a returned object reads "(" + its type name + ") " + its ToString text, so it never reads "null" |
| Invocation.ReportLines | RunDotNet/Program.cs:104-122 | a return is one "Function invoked. Returned: " line with the result text; a callee's exception is shown under "Invocation exception:" with its type name and text; any other exception is shown with its type name and text only; a handler fault leaves only the "Invocation exception:" line |
| Invocation.CalleeExceptionUnwrapped | RunDotNet/Program.cs:109-116 | the report names the routine's own exception, never the wrapper |
| Runner.Execute | RunDotNet/Program.cs:70-126 | a trailing `/e` faults; `/s` shows; a null entry lists every routine; otherwise the entry is invoked exactly once, with the marshalled forwarded arguments |
| Runner.Run | RunDotNet/Program.cs:11-45 | an empty command line shows help; a missing file or a failed load returns before the scan; otherwise the loaded assembly is executed |
| Runner.Listing | RunDotNet/Program.cs:77-78 | the listing has one signature line per routine, in enumeration order |
| Runner.Transcript | RunDotNet/Program.cs:63-126 | the lines of each path: nothing for the index fault; the entry's line for `/s`; "Entry point not found.", "Available methods:" and one signature per routine for a null entry; for an invocation, the signature, "Putting arguments in parameter 'name'." when the array is passed, "Invoke method", the report lines, then "Finished" unless the handler throws |
| Runner.FinishedOnlyAfterInvocation | RunDotNet/Program.cs:70-126 | "Finished" appears only on the invocation path, as its last line, and not when the exception handler itself throws |
| Runner.IntrinsicEntryWithoutFlags | RunDotNet/Program.cs:47-102 | without flags the intrinsic entry point is invoked, with all tokens (the path first) as candidate arguments |
| Runner.ShowNeverInvokes | RunDotNet/Program.cs:61-65 | `/s` neither invokes nor lists; it writes the current entry's line and nothing else |
| Runner.NullEntryListsAllMethods | RunDotNet/Program.cs:70-80 | a null entry writes "Entry point not found.", "Available methods:" and then every routine's signature in enumeration order |
| Fixtures.LibraryMethodsInOrder | TestLibraryAssembly/Class1.cs:5-15 | the test library enumerates `ArgumentMoreThanFour` and then `DisplaySomethingOnScreen` |
| Fixtures.BareNameFound | RunDotNet/Program.cs:277-278 | the bare name in lower case finds `DisplaySomethingOnScreen` |
| Fixtures.QualifiedNameFound | RunDotNet/Program.cs:274-275 | the name qualified by namespace and type finds `ArgumentMoreThanFour` |
| Fixtures.PartlyQualifiedNameNotFound | RunDotNet/Program.cs:274-281 | a name qualified by the type's short name matches nothing |
| Fixtures.FiveArgumentsReportTrue | TestLibraryAssembly/Class1.cs:7-8 | with five typed tokens `ArgumentMoreThanFour` receives six strings and returns True |
| Fixtures.PathCountsAsArgument | RunDotNet/Program.cs:50-67 | with four typed tokens the routine receives five strings, because the path is one of them, and returns True |
| Fixtures.TwoArgumentsReportFalse | TestLibraryAssembly/Class1.cs:7-8 | with two typed tokens the routine receives three strings and returns False |
| Fixtures.DisplayReportsNull | RunDotNet/Program.cs:102-106 | a parameterless routine is called with no argument, its null result is reported as "null", and the run ends with "Finished" |
| Fixtures.UnknownNameListsMethods | RunDotNet/Program.cs:70-80 | a search text that matches nothing lists both routines and invokes neither |
| Fixtures.ShowWithoutEntryPoint | RunDotNet/Program.cs:61-65 | "/S" in upper case on a library without an entry point writes only the "Method not found." line |
| Fixtures.MissingAssemblyStops | RunDotNet/Program.cs:21-27 | a path that does not exist stops the run before loading |
| Fixtures.TrailingEntryFlagFaults | RunDotNet/Program.cs:56-57 | a trailing "/e" reads past the end of the command line |

## Left out

- Console colours, the help text (`PrintHelp`) and the OS, .NET and current-directory lines are presentation only.
- Runner.Transcript: it lists only the runner's own lines from the scan on. It leaves out the "+ Assembly ..." lines that the `AssemblyLoad` handler writes whenever a dependency is loaded during the search, the listing or the invocation (RunDotNet/Program.cs:36, 170-173). It also leaves out whatever the invoked routine writes itself, such as "Hello!" from `DisplaySomethingOnScreen`. Both depend on the runtime and on foreign code.
- Runner.Run: the exceptions thrown before the scan outside any try block are not modelled. These are `new FileInfo` on an empty or malformed path (line 21) and `Directory.SetCurrentDirectory` failing (line 29). The existence check is the `fileExists` field of `Runner.Host`, taken as total.
- `FileInfo.Exists` and `Assembly.LoadFile` are file-system and runtime calls. They appear only as the `fileExists` and `load` fields of `Runner.Host`. The directory change (`Directory.SetCurrentDirectory`) is not modelled.
- `MethodInfo.Invoke` is a runtime call. It appears only as the `invoke` field of `Runner.Host`. The returned object's `GetType().Name` and `ToString()` are given as data. A `ToString()` that throws is not modelled.
- `GetTypes` and `GetMethods` are reflection calls. They are replaced by the descriptor lists of `Descriptors.Assembly`, in whatever order reflection reports; .NET promises no particular order. A `ReflectionTypeLoadException` from `GetTypes` is not modelled.
- The `AssemblyLoad` and `ModuleResolve` handlers only write a console line, and `ModuleResolve` is never registered; both are runtime callbacks.
- The `AssemblyResolve` handler, `SearchForAssembly` and the global assembly cache walk of `GetAssemblyGAC_MSIL` are file-system work. Only their pure helpers, `GetDllNameFromFull` and the `.dll` strip, are modelled.
- Text.Lower: the culture-sensitive `ToLower` is modelled as ASCII case folding. Non-ASCII letters are left unchanged.
- Text.StripDll: `EndsWith(".dll")` is culture-sensitive in .NET. It is modelled as an ordinal comparison.
- The runtime's own report of an uncaught exception is not modelled. That covers the trailing `/e` and a `TargetInvocationException` without an inner exception. The model only records that the run stops there.
- Signature lines are treated as single lines, even if a name contains a line break.
- TestProgramAssembly/Program.cs is a console-and-sleep fixture, so it is not modelled.
