/** The test library of the repository (TestLibraryAssembly/Class1.cs) as
    descriptor data, with the host behaviour of its two routines, and the
    end-to-end runs the runner is meant for. */
module Fixtures {
  import opened Wrappers
  import opened Text
  import opened Descriptors
  import opened EntrySearch
  import opened Arguments
  import opened Signature
  import opened Invocation
  import opened Runner

  const ClassNumberOne: TypeRef := TypeRef("TestLibraryAssembly.ClassNumberOne", "TestLibraryAssembly")
  const ClassTwo: TypeRef := TypeRef("TestLibraryAssembly.ClassTwo", "TestLibraryAssembly")

  /** `public static bool ArgumentMoreThanFour(string[] args)` */
  const ArgumentMoreThanFour: Routine :=
    Routine(ClassNumberOne, "ArgumentMoreThanFour", "Boolean", [Param("String[]", "args")], true, false, true)

  /** `public static void DisplaySomethingOnScreen()` */
  const DisplaySomethingOnScreen: Routine :=
    Routine(ClassTwo, "DisplaySomethingOnScreen", "Void", [], true, false, true)

  /** A class library: two types, no entry point. */
  const TestLibrary: Assembly :=
    Assembly([TypeDecl(ClassNumberOne, [ArgumentMoreThanFour]), TypeDecl(ClassTwo, [DisplaySomethingOnScreen])], None)

  /** What invoking the two routines does: `args.Length > 4` as a boxed
      Boolean, and a console write returning nothing; any other call fails in
      the invocation mechanism. */
  function LibraryInvoke(m: Routine, margs: seq<seq<string>>): InvokeResult
  {
    if m == ArgumentMoreThanFour && |margs| == 1 then
      Returned(Some(Value("Boolean", if |margs[0]| > 4 then "True" else "False")))
    else if m == DisplaySomethingOnScreen && |margs| == 0 then
      Returned(None)
    else
      Raised(Fault(OtherFault, "TargetParameterCountException", "Parameter count mismatch.", None))
  }

  lemma LibraryMethodsInOrder()
    ensures AllMethods(TestLibrary) == [ArgumentMoreThanFour, DisplaySomethingOnScreen]
  {
    var t1 := TypeDecl(ClassNumberOne, [ArgumentMoreThanFour]);
    var t2 := TypeDecl(ClassTwo, [DisplaySomethingOnScreen]);
    MethodsOfLayout([], t1, [t2]);
    MethodsOfLayout([], t2, []);
    assert [] + [t1] + [t2] == TestLibrary.types;
    assert [] + [t2] + [] == [t2];
  }

  /** The bare name finds the routine in any letter case. */
  lemma BareNameFound()
    ensures SearchEntryPoint(TestLibrary, "displaysomethingonscreen") == Some(DisplaySomethingOnScreen)
  {
    LibraryMethodsInOrder();
    var text := "displaysomethingonscreen";
    var ms := AllMethods(TestLibrary);
    LowerEqual(text, DisplaySomethingOnScreen.name);
    assert NameMatch(text, ms[1]);
    assert !Matches(text, ms[0]);
    assert IsFirstMatchAt(ms, text, 1);
    var k :| IsFirstMatchAt(ms, text, k) && ms[k] == SearchEntryPoint(TestLibrary, text).value;
    FirstMatchUnique(ms, text, 1, k);
  }

  /** The name qualified by the declaring type's full name is found. */
  lemma QualifiedNameFound()
    ensures SearchEntryPoint(TestLibrary, "TestLibraryAssembly.ClassNumberOne.ArgumentMoreThanFour") == Some(ArgumentMoreThanFour)
  {
    LibraryMethodsInOrder();
    assert QualifiedMatch("TestLibraryAssembly.ClassNumberOne.ArgumentMoreThanFour", ArgumentMoreThanFour);
  }

  /** A name qualified by the type's short name matches neither way. */
  lemma PartlyQualifiedNameNotFound()
    ensures SearchEntryPoint(TestLibrary, "ClassTwo.DisplaySomethingOnScreen") == None
  {
    LibraryMethodsInOrder();
    assert !Matches("ClassTwo.DisplaySomethingOnScreen", ArgumentMoreThanFour);
    assert !Matches("ClassTwo.DisplaySomethingOnScreen", DisplaySomethingOnScreen);
  }

  const LibraryPath: string := "TestLibraryAssembly.dll"

  /** A file system holding only the test library. */
  const LibraryHost: Host :=
    Host(p => p == LibraryPath, p => Success(TestLibrary), LibraryInvoke)

  /** "tool TestLibraryAssembly.dll /e text user..." proceeds with the search
      result and forwards the path followed by the user's tokens. */
  lemma EntryRun(text: string, user: seq<string>)
    requires forall k :: 0 <= k < |user| ==> IsPlain(user[k])
    ensures Scan(TestLibrary, [LibraryPath, "/e", text] + user)
         == Proceed(SearchEntryPoint(TestLibrary, text), [LibraryPath] + user)
  {
    assert Lower("/e") == "/e";
    assert IsPlain(LibraryPath);
    NoFlagsForwardsEverything(TestLibrary, [LibraryPath]);
    EntryFlagReplacesEntry(TestLibrary, [LibraryPath], "/e", text, user);
    assert [LibraryPath] + ["/e", text] + user == [LibraryPath, "/e", text] + user;
  }

  lemma ArgumentMoreThanFourFound()
    ensures SearchEntryPoint(TestLibrary, "ArgumentMoreThanFour") == Some(ArgumentMoreThanFour)
  {
    LibraryMethodsInOrder();
    assert NameMatch("ArgumentMoreThanFour", AllMethods(TestLibrary)[0]);
  }

  /** `ArgumentMoreThanFour` with five forwarded tokens reports True. */
  lemma FiveArgumentsReportTrue()
    ensures Execute(TestLibrary, [LibraryPath, "/e", "ArgumentMoreThanFour", "one", "two", "three", "four", "five"], LibraryInvoke)
         == Invoked(ArgumentMoreThanFour, [[LibraryPath, "one", "two", "three", "four", "five"]],
                    ReturnedValue(Some(Value("Boolean", "True"))))
  {
    ArgumentMoreThanFourFound();
    var user := ["one", "two", "three", "four", "five"];
    EntryRun("ArgumentMoreThanFour", user);
    assert [LibraryPath, "/e", "ArgumentMoreThanFour"] + user == [LibraryPath, "/e", "ArgumentMoreThanFour", "one", "two", "three", "four", "five"];
    assert [LibraryPath] + user == [LibraryPath, "one", "two", "three", "four", "five"];
    var margs := Marshal(ArgumentMoreThanFour, [LibraryPath] + user);
    assert margs == [[LibraryPath] + user];
    assert LibraryInvoke(ArgumentMoreThanFour, margs) == Returned(Some(Value("Boolean", "True")));
  }

  /** Because the scan starts at index 0, the assembly path is one of the
      routine's arguments: four tokens typed by the user are five strings
      for `ArgumentMoreThanFour`, which then reports True. */
  lemma PathCountsAsArgument()
    ensures Execute(TestLibrary, [LibraryPath, "/e", "ArgumentMoreThanFour", "one", "two", "three", "four"], LibraryInvoke)
         == Invoked(ArgumentMoreThanFour, [[LibraryPath, "one", "two", "three", "four"]],
                    ReturnedValue(Some(Value("Boolean", "True"))))
  {
    ArgumentMoreThanFourFound();
    var user := ["one", "two", "three", "four"];
    EntryRun("ArgumentMoreThanFour", user);
    assert [LibraryPath, "/e", "ArgumentMoreThanFour"] + user == [LibraryPath, "/e", "ArgumentMoreThanFour", "one", "two", "three", "four"];
    assert [LibraryPath] + user == [LibraryPath, "one", "two", "three", "four"];
    var margs := Marshal(ArgumentMoreThanFour, [LibraryPath] + user);
    assert margs == [[LibraryPath] + user];
    assert LibraryInvoke(ArgumentMoreThanFour, margs) == Returned(Some(Value("Boolean", "True")));
  }

  /** With two tokens typed the routine sees three strings and reports False. */
  lemma TwoArgumentsReportFalse()
    ensures Execute(TestLibrary, [LibraryPath, "/e", "ArgumentMoreThanFour", "one", "two"], LibraryInvoke)
         == Invoked(ArgumentMoreThanFour, [[LibraryPath, "one", "two"]],
                    ReturnedValue(Some(Value("Boolean", "False"))))
  {
    ArgumentMoreThanFourFound();
    var user := ["one", "two"];
    EntryRun("ArgumentMoreThanFour", user);
    assert [LibraryPath, "/e", "ArgumentMoreThanFour"] + user == [LibraryPath, "/e", "ArgumentMoreThanFour", "one", "two"];
    assert [LibraryPath] + user == [LibraryPath, "one", "two"];
    var margs := Marshal(ArgumentMoreThanFour, [LibraryPath] + user);
    assert margs == [[LibraryPath] + user];
    assert LibraryInvoke(ArgumentMoreThanFour, margs) == Returned(Some(Value("Boolean", "False")));
  }

  /** A routine without parameters is called with no argument; its null
      result is reported as "null" and the run finishes. */
  lemma DisplayReportsNull()
    ensures var e := Execute(TestLibrary, [LibraryPath, "/e", "displaysomethingonscreen", "ignored"], LibraryInvoke);
      && e == Invoked(DisplaySomethingOnScreen, [], ReturnedValue(None))
      && Transcript(e) == [SignatureText(DisplaySomethingOnScreen), ConLine(InvokeMethod),
                           ConLine("Function invoked. Returned: null"), ConLine(Finished)]
  {
    BareNameFound();
    var args := [LibraryPath, "/e", "displaysomethingonscreen", "ignored"];
    EntryRun("displaysomethingonscreen", ["ignored"]);
    assert [LibraryPath, "/e", "displaysomethingonscreen"] + ["ignored"] == args;
    assert Marshal(DisplaySomethingOnScreen, [LibraryPath, "ignored"]) == [];
    assert LibraryInvoke(DisplaySomethingOnScreen, []) == Returned(None);
    var e := Execute(TestLibrary, args, LibraryInvoke);
    assert e == Invoked(DisplaySomethingOnScreen, [], ReturnedValue(None));
    NullResultTranscript();
  }

  lemma NullResultTranscript()
    ensures Transcript(Invoked(DisplaySomethingOnScreen, [], ReturnedValue(None)))
         == [SignatureText(DisplaySomethingOnScreen), ConLine(InvokeMethod),
             ConLine("Function invoked. Returned: null"), ConLine(Finished)]
  {
    assert !TakesArguments(DisplaySomethingOnScreen);
    assert "Function invoked. Returned: " + ResultText(None) == "Function invoked. Returned: null";
  }

  /** A search text matching nothing lists both routines and invokes none. */
  lemma UnknownNameListsMethods()
    ensures Execute(TestLibrary, [LibraryPath, "/e", "ClassTwo.DisplaySomethingOnScreen"], LibraryInvoke)
         == Listed([ArgumentMoreThanFour, DisplaySomethingOnScreen])
  {
    PartlyQualifiedNameNotFound();
    EntryRun("ClassTwo.DisplaySomethingOnScreen", []);
    assert [LibraryPath, "/e", "ClassTwo.DisplaySomethingOnScreen"] + [] == [LibraryPath, "/e", "ClassTwo.DisplaySomethingOnScreen"];
    LibraryMethodsInOrder();
  }

  /** A class library has no entry point: "/s" alone shows the null line. */
  lemma ShowWithoutEntryPoint()
    ensures Transcript(Execute(TestLibrary, [LibraryPath, "/S"], LibraryInvoke)) == [ConLine(MethodNotFound)]
  {
    assert IsPlain(LibraryPath);
    LowerEqual("/S", "/s");
    assert Lower("/s") == "/s";
    NoFlagsForwardsEverything(TestLibrary, [LibraryPath]);
    ShowNeverInvokes(TestLibrary, [LibraryPath], "/S", [], LibraryInvoke);
    assert [LibraryPath] + ["/S"] + [] == [LibraryPath, "/S"];
  }

  /** A path that does not exist stops the run before loading. */
  lemma MissingAssemblyStops()
    ensures Run(["Missing.dll", "/e", "ArgumentMoreThanFour"], LibraryHost) == AssemblyMissing("Missing.dll")
  {
  }

  /** A trailing "/e" reads past the end of the command line. */
  lemma TrailingEntryFlagFaults()
    ensures Run([LibraryPath, "/e"], LibraryHost) == Ran(IndexFault)
  {
    assert IsPlain(LibraryPath);
    assert Lower("/e") == "/e";
    NoFlagsForwardsEverything(TestLibrary, [LibraryPath]);
    TrailingEntryFlagMissesText(TestLibrary, [LibraryPath], "/e");
    assert [LibraryPath] + ["/e"] == [LibraryPath, "/e"];
    assert LibraryHost.fileExists(LibraryPath);
    assert LibraryHost.load(LibraryPath) == Success(TestLibrary);
  }
}
