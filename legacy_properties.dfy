/** What the older handler of src/lib/commands.js promises: every argument
    of mkdir, touch and rm is tried and reported whatever happened to the
    ones before, the prompt always shows the current directory, rm's `-f`
    has no effect, git and vi only hand the call over, and where the two
    handlers overlap they agree with each other. */
module LegacyProperties {
  import opened Results
  import opened Paths
  import opened Tree
  import opened FsSpec
  import opened Tokenizer
  import opened Terminal
  import CommandSpec
  import CommandProperties
  import opened LegacySpec

  /** `r` only appended to the log of `st` and left its current directory,
      prompt, mode, Python state and external calls alone. */
  predicate Keeps(st: State, r: State) {
    st.out <= r.out && r.fs.cwd == st.fs.cwd && r.currentDir == st.currentDir &&
    r.mode == st.mode && r.loaded == st.loaded && r.history == st.history && r.external == st.external
  }

  lemma LsKeeps(st: State, args: seq<string>)
    ensures Keeps(st, LsCmd(st, args)) && LsCmd(st, args).fs == st.fs
  {
  }

  lemma AttemptKeeps(op: CommandSpec.Op, st: State, arg: string)
    ensures Keeps(st, Attempt(op, st, arg)) && Attempt(op, st, arg).fs.cwd == st.fs.cwd
  {
    match CommandSpec.Apply(op, st.fs, arg)
    case Ok(r) =>
      var st1 := Emit(st.(fs := st.fs.(root := r)), [Echo(Done(op, arg))]);
      LsKeeps(st1, [Pwd(st1.fs)]);
    case Err(_) =>
  }

  lemma {:induction false} EachArgKeeps(op: CommandSpec.Op, st: State, args: seq<string>)
    ensures Keeps(st, EachArg(op, st, args))
    decreases |args|
  {
    if args != [] {
      AttemptKeeps(op, st, args[0]);
      EachArgKeeps(op, Attempt(op, st, args[0]), args[1..]);
    }
  }

  /** Echoing a prompt keeps what `x` kept and changes no file. */
  lemma PromptedKeeps(st: State, x: State)
    requires Keeps(st, x)
    ensures Keeps(st, Prompted(x)) && Prompted(x).fs == x.fs
  {
  }

  lemma {:induction false} EachVerbKeeps(op: CommandSpec.Op, st: State, args: seq<string>)
    ensures Keeps(st, Prompted(EachArg(op, st, args)))
  {
    EachArgKeeps(op, st, args);
    PromptedKeeps(st, EachArg(op, st, args));
  }

  lemma CpKeeps(st: State, args: seq<string>)
    ensures Keeps(st, CpCmd(st, args))
  {
    if |args| == 2 {
      match Cp(st.fs, args[0], args[1]) {
        case Ok(r) =>
          var st1 := Emit(st.(fs := st.fs.(root := r)), [Echo("Copied: " + args[0] + " to " + args[1])]);
          LsKeeps(st1, [Pwd(st1.fs)]);
          PromptedKeeps(st, Refresh(st1));
        case Err(_) =>
      }
    }
  }

  lemma MvKeeps(st: State, args: seq<string>)
    ensures Keeps(st, MvCmd(st, args))
  {
    if |args| == 2 {
      var eff := Mv(st.fs, args[0], args[1]);
      var st2 := Emit(st.(fs := st.fs.(root := eff.root)), [Echo("Moved: " + args[0] + " to " + args[1])]);
      LsKeeps(st2, [Pwd(st2.fs)]);
      PromptedKeeps(st, Refresh(st2));
    }
  }

  /** The handlers that change the tree keep everything else. */
  lemma TreeVerbsKeep(st: State, args: seq<string>)
    ensures Keeps(st, MkdirCmd(st, args)) && Keeps(st, TouchCmd(st, args)) && Keeps(st, RmCmd(st, args))
    ensures Keeps(st, CpCmd(st, args)) && Keeps(st, MvCmd(st, args))
  {
    EachVerbKeeps(CommandSpec.MkdirOp, st, args);
    EachVerbKeeps(CommandSpec.TouchOp, st, args);
    EachVerbKeeps(CommandSpec.RmOp("-r" in args || "-rf" in args), st, Operands(args));
    CpKeeps(st, args);
    MvKeeps(st, args);
  }

  lemma CatKeeps(st: State, args: seq<string>)
    ensures Keeps(st, CatCmd(st, args)) && CatCmd(st, args).fs == st.fs
  {
    if args != [] {
      PromptedKeeps(st, Emit(st, ReadLines(st.fs, args)));
    }
  }

  lemma PrintingKeeps(st: State, lines: seq<Line>)
    ensures Keeps(st, Prompted(Emit(st, lines))) && Prompted(Emit(st, lines)).fs == st.fs
  {
    PromptedKeeps(st, Emit(st, lines));
  }

  /** The handlers that only print keep the tree as well. */
  lemma ReadVerbsKeep(st: State, args: seq<string>)
    ensures Keeps(st, LsCmd(st, args)) && LsCmd(st, args).fs == st.fs
    ensures Keeps(st, CatCmd(st, args)) && CatCmd(st, args).fs == st.fs
    ensures Keeps(st, PwdCmd(st)) && PwdCmd(st).fs == st.fs
    ensures Keeps(st, EchoCmd(st, args)) && EchoCmd(st, args).fs == st.fs
    ensures Keeps(st, HelpCmd(st)) && HelpCmd(st).fs == st.fs
  {
    LsKeeps(st, args);
    CatKeeps(st, args);
    PrintingKeeps(st, [Echo(Pwd(st.fs))]);
    PrintingKeeps(st, [Echo(Join(args, " "))]);
    PrintingKeeps(st, [Echo(HelpText())]);
  }

  /** Every verb but cd, python, git and vi keeps the current directory, the
      prompt, the mode and the Python state, and only appends to the log. */
  lemma DispatchKeeps(py: Python, st: State, cmd: string, args: seq<string>)
    requires cmd != "git" && cmd != "vi"
    requires CommandSpec.VerbOf(cmd) != CommandSpec.CdVerb && CommandSpec.VerbOf(cmd) != CommandSpec.PythonVerb
    ensures Keeps(st, Dispatch(py, st, cmd, args))
  {
    TreeVerbsKeep(st, args);
    ReadVerbsKeep(st, args);
  }

  /** cd changes no file and, when it moves, moves the prompt with it. */
  lemma CdSyncs(st: State, args: seq<string>)
    ensures var r := CdCmd(st, args);
      st.out <= r.out && r.fs.root == st.fs.root && r.mode == st.mode && r.loaded == st.loaded &&
      r.history == st.history && r.external == st.external
    ensures var r := CdCmd(st, args);
      r.currentDir == st.currentDir || r.currentDir == r.fs.cwd
    ensures var r := CdCmd(st, args);
      r.fs.cwd == st.fs.cwd || r.currentDir == r.fs.cwd
  {
    if |args| == 1 && Cd(st.fs, args[0]).Ok? {
      var p := Cd(st.fs, args[0]).value;
      LsKeeps(Prompted(st.(fs := st.fs.(cwd := p), currentDir := p)), [p]);
    }
  }

  /** A successful cd sets `currentDir` to the resolved path and echoes the
      prompt and the listing of the new directory; a failed one reports
      the error and moves nothing. */
  lemma CdMoves(st: State, path: string)
    ensures Cd(st.fs, path).Ok? ==>
      var p := Resolve(st.fs.cwd, path);
      var r := CdCmd(st, [path]);
      r.fs == st.fs.(cwd := p) && r.currentDir == p &&
      r.out == st.out + [Prompt(p), ListLine(st.fs.(cwd := p), p, false), Prompt(p)]
    ensures Cd(st.fs, path).Err? ==>
      CdCmd(st, [path]) == Emit(st, [Error("Error changing directory: " + Message(Cd(st.fs, path).error))])
  {
    if Cd(st.fs, path).Ok? {
      var p := Resolve(st.fs.cwd, path);
      assert Operands([p]) == [p] && Flags([p]) == [] by {
        assert StartsWith(p, '/');
      }
    }
  }

  /** A line without any argument changes nothing, not even the prompt. */
  lemma BlankLine(py: Python, st: State, command: string)
    requires Blank(command)
    ensures Exec(py, st, command) == st
  {
    NoTokens(command);
  }

  /** An unknown verb adds exactly one error line and no prompt. */
  lemma UnknownVerb(py: Python, st: State, command: string)
    requires Args(command) != [] && Args(command)[0] !in CommandSpec.Verbs
    requires Args(command)[0] != "git" && Args(command)[0] != "vi"
    ensures Exec(py, st, command) == Emit(st, [Error("Command not found: " + Args(command)[0])])
  {
  }

  /** Each arity check adds its usage line, no prompt, and changes nothing else. */
  lemma ArityChecks(st: State, args: seq<string>)
    ensures |args| != 1 ==> CdCmd(st, args) == Emit(st, [Error("Usage: cd <directory>")])
    ensures |args| != 2 ==> CpCmd(st, args) == Emit(st, [Error("Usage: cp <source> <destination>")])
    ensures |args| != 2 ==> MvCmd(st, args) == Emit(st, [Error("Usage: mv <source> <destination>")])
    ensures args == [] ==> MkdirCmd(st, args) == Emit(st, [Error("Usage: mkdir <directory>")])
    ensures args == [] ==> TouchCmd(st, args) == Emit(st, [Error("Usage: touch <file>")])
    ensures args == [] ==> CatCmd(st, args) == Emit(st, [Error("Usage: cat <file>")])
    ensures (forall i :: 0 <= i < |args| ==> StartsWith(args[i], '-')) ==>
      RmCmd(st, args) == Emit(st, [Error("Usage: rm [-r] [-f] <file>")])
  {
    if forall i :: 0 <= i < |args| ==> StartsWith(args[i], '-') {
      CommandProperties.OperandsNone(args);
    }
  }

  /** python runs the same code as the newer handler and shows no prompt. */
  lemma PythonKeepsTree(py: Python, st: State, args: seq<string>)
    ensures var r := PythonCmd(py, st, args);
      st.out <= r.out && r.fs == st.fs && r.currentDir == st.currentDir && r.external == st.external
  {
    CommandProperties.PythonKeepsTree(py, Core(st), args);
  }

  /** git and vi hand the call over and change nothing else. */
  lemma ExternalCalls(py: Python, st: State, args: seq<string>)
    ensures var r := Dispatch(py, st, "git", args);
      r.external == st.external + [["git"] + args] && r.(external := st.external) == st
    ensures var r := Dispatch(py, st, "vi", args);
      r.external == st.external + [["vi"]] && r.(external := st.external) == st
  {
  }

  /** The two verbs that move the prompt or the mode are recognised by name. */
  lemma VerbOfCdPython(cmd: string)
    ensures CommandSpec.VerbOf(cmd) == CommandSpec.CdVerb <==> cmd == "cd"
    ensures CommandSpec.VerbOf(cmd) == CommandSpec.PythonVerb <==> cmd == "python"
  {
    assert CommandSpec.Name(CommandSpec.CdVerb) == "cd";
    assert CommandSpec.Name(CommandSpec.PythonVerb) == "python";
  }

  /** Every handler only appends to the terminal log. */
  lemma DispatchGrows(py: Python, st: State, cmd: string, args: seq<string>)
    ensures st.out <= Dispatch(py, st, cmd, args).out
  {
    VerbOfCdPython(cmd);
    if cmd == "git" || cmd == "vi" {
    } else if cmd == "cd" {
      assert Dispatch(py, st, cmd, args) == CdCmd(st, args);
      CdSyncs(st, args);
    } else if cmd == "python" {
      assert Dispatch(py, st, cmd, args) == PythonCmd(py, st, args);
      PythonKeepsTree(py, st, args);
    } else {
      DispatchKeeps(py, st, cmd, args);
    }
  }

  lemma OutputGrows(py: Python, st: State, line: string)
    ensures st.out <= Input(py, st, line).out
  {
    if st.mode == Shell && Args(line) != [] {
      DispatchGrows(py, st, Args(line)[0], Args(line)[1..]);
    }
  }

  /** Only cd moves the current directory and the prompt, only python
      changes the mode or touches Pyodide, only git and vi call out, and cd
      changes no file. */
  lemma Frames(py: Python, st: State, cmd: string, args: seq<string>)
    ensures cmd != "cd" ==> Dispatch(py, st, cmd, args).fs.cwd == st.fs.cwd
    ensures cmd != "cd" ==> Dispatch(py, st, cmd, args).currentDir == st.currentDir
    ensures cmd != "python" ==> Dispatch(py, st, cmd, args).mode == st.mode
    ensures cmd != "python" ==> Dispatch(py, st, cmd, args).loaded == st.loaded
    ensures cmd != "python" ==> Dispatch(py, st, cmd, args).history == st.history
    ensures cmd != "git" && cmd != "vi" ==> Dispatch(py, st, cmd, args).external == st.external
    ensures cmd == "cd" ==> Dispatch(py, st, cmd, args).fs.root == st.fs.root
  {
    VerbOfCdPython(cmd);
    if cmd == "git" || cmd == "vi" {
    } else if cmd == "cd" {
      assert Dispatch(py, st, cmd, args) == CdCmd(st, args);
      CdSyncs(st, args);
    } else if cmd == "python" {
      assert Dispatch(py, st, cmd, args) == PythonCmd(py, st, args);
      PythonKeepsTree(py, st, args);
    } else {
      DispatchKeeps(py, st, cmd, args);
    }
  }

  /** The prompt shows the current path of the filesystem. */
  predicate Synced(st: State) {
    st.currentDir == st.fs.cwd
  }

  /** Synced holds of a fresh handler and every input keeps it, so the
      prompt always names the directory relative paths resolve against. */
  lemma InputSynced(py: Python, st: State, line: string)
    ensures Synced(LegacySpec.Init())
    ensures Synced(st) ==> Synced(Input(py, st, line))
  {
    if st.mode == Shell && Args(line) != [] {
      Frames(py, st, Args(line)[0], Args(line)[1..]);
      if Args(line)[0] == "cd" {
        CdSyncs(st, Args(line)[1..]);
      }
    }
  }

  // ---------------------------------------------------------------------
  // Per-argument recovery

  /** A failing argument is reported with the operation's message and the
      loop goes on from the same tree, where the newer handler stops. */
  lemma FailureGoesOn(op: CommandSpec.Op, st: State, arg: string, rest: seq<string>)
    requires CommandSpec.Apply(op, st.fs, arg).Err?
    ensures var e := CommandSpec.Apply(op, st.fs, arg).error;
      EachArg(op, st, [arg] + rest) == EachArg(op, Emit(st, [Error(Failed(op, arg, e))]), rest)
    ensures var e := CommandSpec.Apply(op, st.fs, arg).error;
      CommandSpec.Each(op, st.fs, [arg] + rest) == Effect(st.fs.root, Fail(e))
  {
    assert ([arg] + rest)[0] == arg && ([arg] + rest)[1..] == rest;
  }

  /** Trying `a + b` is trying `a`, then `b` from where `a` left off. */
  lemma {:induction false} EachArgAppend(op: CommandSpec.Op, st: State, a: seq<string>, b: seq<string>)
    ensures EachArg(op, st, a + b) == EachArg(op, EachArg(op, st, a), b)
    decreases |a|
  {
    if a == [] {
      assert a + b == b;
    } else {
      assert (a + b)[0] == a[0] && (a + b)[1..] == a[1..] + b;
      EachArgAppend(op, Attempt(op, st, a[0]), a[1..], b);
    }
  }

  /** Every argument is reported: one error line, or its message, a listing
      and a prompt. */
  lemma {:induction false} EachArgReports(op: CommandSpec.Op, st: State, args: seq<string>)
    ensures |st.out| + |args| <= |EachArg(op, st, args).out| <= |st.out| + 3 * |args|
    decreases |args|
  {
    if args != [] {
      var st1 := Attempt(op, st, args[0]);
      assert |st.out| + 1 <= |st1.out| <= |st.out| + 3 by {
        AttemptLines(op, st, args[0]);
      }
      EachArgReports(op, st1, args[1..]);
    }
  }

  lemma AttemptLines(op: CommandSpec.Op, st: State, arg: string)
    ensures |st.out| + 1 <= |Attempt(op, st, arg).out| <= |st.out| + 3
  {
    match CommandSpec.Apply(op, st.fs, arg)
    case Ok(r) =>
      var st1 := Emit(st.(fs := st.fs.(root := r)), [Echo(Done(op, arg))]);
      assert |Operands([Pwd(st1.fs)])| <= 1;
    case Err(_) =>
  }

  /** The tree after trying every argument and skipping those that fail. */
  function Survivors(op: CommandSpec.Op, s: FsState, args: seq<string>): Node
    decreases |args|
  {
    if args == [] then s.root
    else match CommandSpec.Apply(op, s, args[0])
      case Ok(r) => Survivors(op, FsState(r, s.cwd), args[1..])
      case Err(_) => Survivors(op, s, args[1..])
  }

  /** The loop leaves the tree that the successful arguments make. */
  lemma {:induction false} EachArgTree(op: CommandSpec.Op, st: State, args: seq<string>)
    ensures EachArg(op, st, args).fs == FsState(Survivors(op, st.fs, args), st.fs.cwd)
    decreases |args|
  {
    if args != [] {
      var st1 := Attempt(op, st, args[0]);
      assert st1.fs == match CommandSpec.Apply(op, st.fs, args[0])
        case Ok(r) => FsState(r, st.fs.cwd)
        case Err(_) => st.fs
      by {
        AttemptTree(op, st, args[0]);
      }
      EachArgTree(op, st1, args[1..]);
    }
  }

  lemma AttemptTree(op: CommandSpec.Op, st: State, arg: string)
    ensures Attempt(op, st, arg).fs == match CommandSpec.Apply(op, st.fs, arg)
      case Ok(r) => FsState(r, st.fs.cwd)
      case Err(_) => st.fs
  {
    match CommandSpec.Apply(op, st.fs, arg)
    case Ok(r) =>
      var st1 := Emit(st.(fs := st.fs.(root := r)), [Echo(Done(op, arg))]);
      LsKeeps(st1, [Pwd(st1.fs)]);
    case Err(_) =>
  }

  /** When no argument fails the two handlers leave the same tree. */
  lemma {:induction false} AgreeWithoutFailures(op: CommandSpec.Op, s: FsState, args: seq<string>)
    ensures CommandSpec.Each(op, s, args).outcome.Pass? ==> CommandSpec.Each(op, s, args).root == Survivors(op, s, args)
    decreases |args|
  {
    if args != [] {
      match CommandSpec.Apply(op, s, args[0])
      case Ok(r) => AgreeWithoutFailures(op, FsState(r, s.cwd), args[1..]);
      case Err(_) =>
    }
  }

  // ---------------------------------------------------------------------
  // rm's flags

  /** `force` has no effect: `-f` changes nothing and `-rf` is `-r`. */
  lemma ForceIgnored(st: State, args: seq<string>)
    ensures RmCmd(st, ["-f"] + args) == RmCmd(st, args)
    ensures RmCmd(st, ["-rf"] + args) == RmCmd(st, ["-r"] + args)
  {
    assert "-f" != "-r" && "-f" != "-rf" && "-rf" != "-r";
    assert forall x :: x in ["-f"] + args <==> x == "-f" || x in args;
    assert forall x :: x in ["-rf"] + args <==> x == "-rf" || x in args;
    assert forall x :: x in ["-r"] + args <==> x == "-r" || x in args;
    assert Operands(["-f"] + args) == Operands(args);
    assert Operands(["-rf"] + args) == Operands(args);
    assert Operands(["-r"] + args) == Operands(args);
  }

  // ---------------------------------------------------------------------
  // The prompt

  /** The last line echoed is the prompt for the current directory. */
  predicate PromptShown(r: State) {
    r.out != [] && r.out[|r.out| - 1] == Prompt(r.currentDir)
  }

  lemma PromptedShown(x: State)
    ensures PromptShown(Prompted(x))
  {
  }

  /** Listing with `ls` keeps the directory the prompt shows. */
  lemma LsShown(st: State, args: seq<string>)
    ensures PromptShown(LsCmd(st, args)) && LsCmd(st, args).currentDir == st.currentDir
  {
    PromptedShown(Emit(st, ListLines(st.fs, Operands(args), "-a" in Flags(args))));
  }

  lemma PrintingShown(st: State, args: seq<string>)
    ensures PromptShown(PwdCmd(st)) && PromptShown(EchoCmd(st, args)) && PromptShown(HelpCmd(st))
    ensures args != [] ==> PromptShown(CatCmd(st, args))
  {
    PromptedShown(Emit(st, [Echo(Pwd(st.fs))]));
    PromptedShown(Emit(st, [Echo(Join(args, " "))]));
    PromptedShown(Emit(st, [Echo(HelpText())]));
    PromptedShown(Emit(st, ReadLines(st.fs, args)));
  }

  lemma MkdirShown(st: State, args: seq<string>)
    ensures args != [] ==> PromptShown(MkdirCmd(st, args))
  {
    PromptedShown(EachArg(CommandSpec.MkdirOp, st, args));
  }

  lemma TouchShown(st: State, args: seq<string>)
    ensures args != [] ==> PromptShown(TouchCmd(st, args))
  {
    PromptedShown(EachArg(CommandSpec.TouchOp, st, args));
  }

  lemma RmShown(st: State, args: seq<string>)
    ensures Operands(args) != [] ==> PromptShown(RmCmd(st, args))
  {
    PromptedShown(EachArg(CommandSpec.RmOp("-r" in args || "-rf" in args), st, Operands(args)));
  }

  lemma CpShown(st: State, args: seq<string>)
    ensures |args| == 2 ==> PromptShown(CpCmd(st, args))
  {
    if |args| == 2 {
      match Cp(st.fs, args[0], args[1]) {
        case Ok(r) =>
          PromptedShown(Refresh(Emit(st.(fs := st.fs.(root := r)), [Echo("Copied: " + args[0] + " to " + args[1])])));
        case Err(e) =>
          PromptedShown(Emit(st, [Error("Error copying file: " + Message(e))]));
      }
    }
  }

  lemma MvShown(st: State, args: seq<string>)
    ensures |args| == 2 ==> PromptShown(MvCmd(st, args))
  {
    if |args| == 2 {
      var eff := Mv(st.fs, args[0], args[1]);
      var moved := st.(fs := st.fs.(root := eff.root));
      match eff.outcome {
        case Pass => PromptedShown(Refresh(Emit(moved, [Echo("Moved: " + args[0] + " to " + args[1])])));
        case Fail(e) => PromptedShown(Emit(moved, [Error("Error moving file: " + Message(e))]));
      }
    }
  }

  lemma CdShown(st: State, args: seq<string>)
    ensures |args| == 1 && Cd(st.fs, args[0]).Ok? ==> PromptShown(CdCmd(st, args))
  {
    if |args| == 1 && Cd(st.fs, args[0]).Ok? {
      var p := Cd(st.fs, args[0]).value;
      var moved := Prompted(st.(fs := st.fs.(cwd := p), currentDir := p));
      LsShown(moved, [Pwd(moved.fs)]);
    }
  }

  // ---------------------------------------------------------------------
  // The help text

  lemma HelpLinesChanged()
    ensures LegacySpec.HelpLines == CommandSpec.HelpLines[6 := "  rm [-r] [-f] <file>  Remove file or directory"]
  {
  }

  /** Every verb of the shared switch is documented, on the same line as in
      the newer help text. */
  lemma HelpCoversVerbs()
    ensures |LegacySpec.HelpLines| == |CommandSpec.Verbs| + 1
    ensures forall k :: 1 <= k < |LegacySpec.HelpLines| ==> Documents(LegacySpec.HelpLines[k], CommandSpec.Verbs[k - 1])
  {
    HelpLinesChanged();
    CommandProperties.HelpCoversVerbs();
    HelpRm();
  }

  lemma HelpRm()
    ensures Documents(LegacySpec.HelpLines[6], CommandSpec.Verbs[5])
  {
    assert CommandSpec.Verbs[5] == "rm";
    var line := LegacySpec.HelpLines[6];
    assert line == "  rm " + "[-r] [-f] <file>  Remove file or directory";
  }

  /** A line documents `verb` only if its third character is the verb's first. */
  lemma NotDocumented(line: string, verb: string)
    requires verb != [] && (|line| <= 2 || line[2] != verb[0])
    ensures !Documents(line, verb)
  {
  }

  /** git and vi are in the switch but not in the help text. */
  lemma HelpOmitsExternal()
    ensures forall k :: 0 <= k < |LegacySpec.HelpLines| ==>
      !Documents(LegacySpec.HelpLines[k], "git") && !Documents(LegacySpec.HelpLines[k], "vi")
  {
    forall k | 0 <= k < |LegacySpec.HelpLines|
      ensures !Documents(LegacySpec.HelpLines[k], "git") && !Documents(LegacySpec.HelpLines[k], "vi")
    {
      var line := LegacySpec.HelpLines[k];
      assert line[2] in "alcpmtrcmceph";
      NotDocumented(line, "git");
      NotDocumented(line, "vi");
    }
  }

  // ---------------------------------------------------------------------
  // Agreement with the newer handler

  /** The REPL and the python command behave as in the newer handler. */
  lemma SamePython(py: Python, st: State, line: string)
    requires st.mode == Repl || (Args(line) != [] && Args(line)[0] == "python")
    ensures Core(Input(py, st, line)) == CommandSpec.Input(py, Core(st), line)
    ensures Input(py, st, line).currentDir == st.currentDir && Input(py, st, line).external == st.external
  {
  }

  lemma SameCd(st: State, args: seq<string>)
    ensures CdCmd(st, args).fs == CommandSpec.CdCmd(Core(st), args).fs
  {
    if |args| == 1 && Cd(st.fs, args[0]).Ok? {
      CdMoves(st, args[0]);
    }
  }

  lemma SameCopy(st: State, args: seq<string>)
    ensures CpCmd(st, args).fs == CommandSpec.CpCmd(Core(st), args).fs
  {
    CpKeeps(st, args);
    if |args| == 2 {
      match Cp(st.fs, args[0], args[1]) {
        case Ok(r) =>
          var st1 := Emit(st.(fs := st.fs.(root := r)), [Echo("Copied: " + args[0] + " to " + args[1])]);
          LsKeeps(st1, [Pwd(st1.fs)]);
        case Err(_) =>
      }
    }
  }

  lemma SameMove(st: State, args: seq<string>)
    ensures MvCmd(st, args).fs == CommandSpec.MvCmd(Core(st), args).fs
  {
    if |args| == 2 {
      var eff := Mv(st.fs, args[0], args[1]);
      var st2 := Emit(st.(fs := st.fs.(root := eff.root)), [Echo("Moved: " + args[0] + " to " + args[1])]);
      LsKeeps(st2, [Pwd(st2.fs)]);
      ReportTree(Core(st), eff);
    }
  }

  /** The newer handler's report of an effect keeps the tree the effect left. */
  lemma ReportTree(c: CommandSpec.State, eff: Effect)
    ensures CommandSpec.Report(c, eff).fs == c.fs.(root := eff.root)
  {
  }

  /** cd, cp, mv and the printing verbs leave the same tree and current path
      in both handlers. mkdir, touch and rm are left to AgreeWithoutFailures,
      which shows they agree when no argument fails. */
  lemma SameTree(py: Python, st: State, cmd: string, args: seq<string>)
    requires cmd != "git" && cmd != "vi"
    requires CommandSpec.VerbOf(cmd) !in {CommandSpec.MkdirVerb, CommandSpec.TouchVerb, CommandSpec.RmVerb}
    ensures Dispatch(py, st, cmd, args).fs == CommandSpec.Dispatch(py, Core(st), cmd, args).fs
  {
    var v := CommandSpec.VerbOf(cmd);
    if v == CommandSpec.CdVerb {
      SameCd(st, args);
    } else if v == CommandSpec.CpVerb {
      SameCopy(st, args);
    } else if v == CommandSpec.MvVerb {
      SameMove(st, args);
    } else if v != CommandSpec.PythonVerb && v != CommandSpec.NotFound {
      ReadVerbsKeep(st, args);
    }
  }
}
