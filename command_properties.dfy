/** What handleCommand of src/lib/commands.ts promises: blank lines do
    nothing, unknown verbs and bad arities produce one error and touch
    nothing, the terminal log only grows, mkdir/touch/rm stop at the first
    failure while ls/cat go on, and the REPL hands every line but `exit()`
    to Python. */
module CommandProperties {
  import opened Results
  import opened Paths
  import opened Tree
  import opened FsSpec
  import opened Tokenizer
  import opened Terminal
  import opened CommandSpec

  /** A line without any argument changes nothing. */
  lemma BlankLine(py: Python, st: State, command: string)
    requires Blank(command)
    ensures Exec(py, st, command) == st
  {
    NoTokens(command);
  }

  /** An unknown verb adds exactly one error line and changes nothing else. */
  lemma UnknownVerb(py: Python, st: State, command: string)
    requires Args(command) != [] && Args(command)[0] !in Verbs
    ensures Exec(py, st, command) == Emit(st, [Error("Command not found: " + Args(command)[0])])
  {
    var args := Args(command);
    assert VerbOf(args[0]) == NotFound;
    assert Dispatch(py, st, args[0], args[1..]) == Emit(st, [Error("Command not found: " + args[0])]);
  }

  /** Each arity check adds its usage line and changes nothing else. */
  lemma ArityChecks(st: State, args: seq<string>)
    ensures |args| != 1 ==> CdCmd(st, args) == Emit(st, [Error("Usage: cd <directory>")])
    ensures |args| != 2 ==> CpCmd(st, args) == Emit(st, [Error("Usage: cp <source> <destination>")])
    ensures |args| != 2 ==> MvCmd(st, args) == Emit(st, [Error("Usage: mv <source> <destination>")])
    ensures args == [] ==> MkdirCmd(st, args) == Emit(st, [Error("Usage: mkdir <directory>")])
    ensures args == [] ==> TouchCmd(st, args) == Emit(st, [Error("Usage: touch <file>")])
    ensures args == [] ==> CatCmd(st, args) == Emit(st, [Error("Usage: cat <file>")])
    ensures (forall i :: 0 <= i < |args| ==> StartsWith(args[i], '-')) ==>
      RmCmd(st, args) == Emit(st, [Error("Usage: rm [-r] <file>")])
  {
    if forall i :: 0 <= i < |args| ==> StartsWith(args[i], '-') {
      OperandsNone(args);
    }
  }

  /** `r` only appended to the log of `st` and left its current directory,
      mode and Python state alone. */
  predicate Keeps(st: State, r: State) {
    st.out <= r.out && r.fs.cwd == st.fs.cwd && r.mode == st.mode &&
    r.loaded == st.loaded && r.history == st.history
  }

  lemma ReportKeeps(st: State, eff: Effect)
    ensures Keeps(st, Report(st, eff))
  {
  }

  /** The handlers that change the tree keep everything else. */
  lemma TreeVerbsKeep(st: State, args: seq<string>)
    ensures Keeps(st, MkdirCmd(st, args)) && Keeps(st, TouchCmd(st, args))
    ensures Keeps(st, RmCmd(st, args)) && Keeps(st, CpCmd(st, args)) && Keeps(st, MvCmd(st, args))
  {
    ReportKeeps(st, Each(MkdirOp, st.fs, args));
    ReportKeeps(st, Each(TouchOp, st.fs, args));
    ReportKeeps(st, Each(RmOp("-r" in args || "-rf" in args), st.fs, Operands(args)));
    if |args| == 2 {
      ReportKeeps(st, Mv(st.fs, args[0], args[1]));
    }
  }

  /** cd prints at most an error and changes no file. */
  lemma CdKeepsTree(st: State, args: seq<string>)
    ensures var r := CdCmd(st, args);
      st.out <= r.out && r.fs.root == st.fs.root && r.mode == st.mode &&
      r.loaded == st.loaded && r.history == st.history
  {
  }

  /** python only appends to the log and changes no file. */
  lemma PythonKeepsTree(py: Python, st: State, args: seq<string>)
    ensures st.out <= PythonCmd(py, st, args).out && PythonCmd(py, st, args).fs == st.fs
  {
    assert st.out <= Load(st).out;
  }

  /** Every verb but cd and python keeps the current directory, the mode and
      the Python state, and only appends to the log. */
  lemma DispatchKeeps(py: Python, st: State, cmd: string, args: seq<string>)
    requires VerbOf(cmd) != CdVerb && VerbOf(cmd) != PythonVerb
    ensures Keeps(st, Dispatch(py, st, cmd, args))
  {
    TreeVerbsKeep(st, args);
  }

  /** Every handler only appends to the terminal log. */
  lemma DispatchGrows(py: Python, st: State, cmd: string, args: seq<string>)
    ensures st.out <= Dispatch(py, st, cmd, args).out
  {
    if VerbOf(cmd) == CdVerb {
      CdKeepsTree(st, args);
    } else if VerbOf(cmd) == PythonVerb {
      PythonKeepsTree(py, st, args);
    } else {
      DispatchKeeps(py, st, cmd, args);
    }
  }

  lemma OutputGrows(py: Python, st: State, line: string)
    ensures st.out <= Input(py, st, line).out
  {
    if st.mode == Shell && Args(line) != [] {
      DispatchGrows(py, st, Args(line)[0], Args(line)[1..]);
    }
  }

  /** The verbs that only read: the filesystem, the mode and the Python state stay. */
  lemma ReadOnlyVerbs(py: Python, st: State, cmd: string, args: seq<string>)
    requires VerbOf(cmd) in {LsVerb, PwdVerb, CatVerb, EchoVerb, HelpVerb, NotFound}
    ensures var r := Dispatch(py, st, cmd, args);
      r.fs == st.fs && r.mode == st.mode && r.loaded == st.loaded && r.history == st.history
  {
  }

  /** Only cd moves the current directory, only python changes the mode
      or touches Pyodide, and cd changes no file. */
  lemma Frames(py: Python, st: State, cmd: string, args: seq<string>)
    ensures cmd != "cd" ==> Dispatch(py, st, cmd, args).fs.cwd == st.fs.cwd
    ensures cmd != "python" ==> Dispatch(py, st, cmd, args).mode == st.mode
    ensures cmd != "python" ==> Dispatch(py, st, cmd, args).loaded == st.loaded
    ensures cmd != "python" ==> Dispatch(py, st, cmd, args).history == st.history
    ensures cmd == "cd" ==> Dispatch(py, st, cmd, args).fs.root == st.fs.root
  {
    if VerbOf(cmd) == CdVerb {
      CdKeepsTree(st, args);
    } else if VerbOf(cmd) == PythonVerb {
      PythonKeepsTree(py, st, args);
    } else {
      DispatchKeeps(py, st, cmd, args);
    }
  }

  /** A successful cd moves to the resolved directory and prints nothing. */
  lemma CdMoves(st: State, path: string)
    requires Cd(st.fs, path).Ok?
    ensures CdCmd(st, [path]) == st.(fs := st.fs.(cwd := Resolve(st.fs.cwd, path)))
  {
  }

  /** `ls` with options only, or with nothing, lists nothing at all. */
  lemma LsWithoutPaths(st: State, args: seq<string>)
    requires forall i :: 0 <= i < |args| ==> StartsWith(args[i], '-')
    ensures LsCmd(st, args) == st
  {
    OperandsNone(args);
    assert st.out + [] == st.out;
  }

  // ---------------------------------------------------------------------
  // rm's flags

  /** `-f` and any other option but `-r` and `-rf` change nothing: `rm -rf`
      is `rm -r`, while `rm -fr` or `rm -R` are not recursive. */
  lemma RmFlags(st: State, flag: string, args: seq<string>)
    requires StartsWith(flag, '-')
    ensures RmCmd(st, ["-rf"] + args) == RmCmd(st, ["-r"] + args)
    ensures flag != "-r" && flag != "-rf" ==> RmCmd(st, [flag] + args) == RmCmd(st, args)
  {
    assert Operands(["-rf"] + args) == Operands(args);
    assert Operands(["-r"] + args) == Operands(args);
    assert Operands([flag] + args) == Operands(args);
    assert "-r" in ["-r"] + args && "-rf" in ["-rf"] + args;
    assert ("-r" in [flag] + args) == ("-r" in args || flag == "-r");
    assert ("-rf" in [flag] + args) == ("-rf" in args || flag == "-rf");
  }

  // ---------------------------------------------------------------------
  // Iteration over the arguments

  /** Running the loop over `a + b` is running it over `a`, then over `b`
      from where it left off, unless `a` already failed. */
  lemma {:induction false} EachAppend(op: Op, s: FsState, a: seq<string>, b: seq<string>)
    ensures Each(op, s, a + b) ==
      var first := Each(op, s, a);
      if first.outcome.Fail? then first else Each(op, FsState(first.root, s.cwd), b)
    decreases |a|
  {
    if a == [] {
      assert a + b == b;
    } else {
      assert (a + b)[0] == a[0] && (a + b)[1..] == a[1..] + b;
      match Apply(op, s, a[0])
      case Err(e) =>
      case Ok(r) => EachAppend(op, FsState(r, s.cwd), a[1..], b);
    }
  }

  /** mkdir, touch and rm stop at the first failing argument: once the first
      arguments fail, the later ones are never tried; otherwise the command is
      the same as two commands, one after the other. */
  lemma MkdirSequence(st: State, a: seq<string>, b: seq<string>)
    requires a != [] && b != []
    ensures Each(MkdirOp, st.fs, a).outcome.Fail? ==> MkdirCmd(st, a + b) == MkdirCmd(st, a)
    ensures Each(MkdirOp, st.fs, a).outcome.Pass? ==> MkdirCmd(st, a + b) == MkdirCmd(MkdirCmd(st, a), b)
  {
    EachAppend(MkdirOp, st.fs, a, b);
  }

  lemma TouchSequence(st: State, a: seq<string>, b: seq<string>)
    requires a != [] && b != []
    ensures Each(TouchOp, st.fs, a).outcome.Fail? ==> TouchCmd(st, a + b) == TouchCmd(st, a)
    ensures Each(TouchOp, st.fs, a).outcome.Pass? ==> TouchCmd(st, a + b) == TouchCmd(TouchCmd(st, a), b)
  {
    EachAppend(TouchOp, st.fs, a, b);
  }

  lemma {:induction false} CatLinesAppend(s: FsState, a: seq<string>, b: seq<string>)
    ensures CatLines(s, a + b) == CatLines(s, a) + CatLines(s, b)
    decreases |b|
  {
    if b == [] {
      assert a + b == a;
    } else {
      var b' := b[..|b| - 1];
      assert (a + b)[..|a + b| - 1] == a + b';
      assert (a + b)[|a + b| - 1] == b[|b| - 1];
      CatLinesAppend(s, a, b');
    }
  }

  lemma {:induction false} LsLinesAppend(s: FsState, a: seq<string>, b: seq<string>, showHidden: bool)
    ensures LsLines(s, a + b, showHidden) == LsLines(s, a, showHidden) + LsLines(s, b, showHidden)
    decreases |b|
  {
    if b == [] {
      assert a + b == a;
    } else {
      var b' := b[..|b| - 1];
      assert (a + b)[..|a + b| - 1] == a + b';
      assert (a + b)[|a + b| - 1] == b[|b| - 1];
      LsLinesAppend(s, a, b', showHidden);
    }
  }

  /** cat reports every file and goes on after a failure: `cat a b` is `cat a`
      then `cat b`. */
  lemma CatSequence(st: State, a: seq<string>, b: seq<string>)
    requires a != [] && b != []
    ensures CatCmd(st, a + b) == CatCmd(CatCmd(st, a), b)
  {
    var st1 := CatCmd(st, a);
    assert st1 == Emit(st, CatLines(st.fs, a));
    assert CatCmd(st1, b) == Emit(st1, CatLines(st.fs, b));
    assert CatCmd(st, a + b) == Emit(st, CatLines(st.fs, a + b));
    CatLinesAppend(st.fs, a, b);
    EmitTwice(st, CatLines(st.fs, a), CatLines(st.fs, b));
  }

  /** ls with plain paths lists each of them without hidden entries. */
  lemma LsPlain(st: State, a: seq<string>)
    requires forall i :: 0 <= i < |a| ==> !StartsWith(a[i], '-')
    ensures LsCmd(st, a) == Emit(st, LsLines(st.fs, a, false))
  {
    OperandsPlain(a);
    FlagsNone(a);
  }

  lemma PlainAppend(a: seq<string>, b: seq<string>)
    requires forall i :: 0 <= i < |a| ==> !StartsWith(a[i], '-')
    requires forall i :: 0 <= i < |b| ==> !StartsWith(b[i], '-')
    ensures forall i :: 0 <= i < |a + b| ==> !StartsWith((a + b)[i], '-')
  {
    forall i | 0 <= i < |a + b| ensures !StartsWith((a + b)[i], '-') {
      if i < |a| { assert (a + b)[i] == a[i]; } else { assert (a + b)[i] == b[i - |a|]; }
    }
  }

  lemma EmitTwice(st: State, x: seq<Line>, y: seq<Line>)
    ensures Emit(Emit(st, x), y) == Emit(st, x + y)
  {
    assert st.out + x + y == st.out + (x + y);
  }

  /** ls reports every path and goes on after a failure. */
  lemma LsSequence(st: State, a: seq<string>, b: seq<string>)
    requires forall i :: 0 <= i < |a| ==> !StartsWith(a[i], '-')
    requires forall i :: 0 <= i < |b| ==> !StartsWith(b[i], '-')
    ensures LsCmd(st, a + b) == LsCmd(LsCmd(st, a), b)
  {
    PlainAppend(a, b);
    LsPlain(st, a);
    LsPlain(st, a + b);
    var st1 := LsCmd(st, a);
    LsPlain(st1, b);
    assert st1.fs == st.fs;
    LsLinesAppend(st.fs, a, b, false);
    EmitTwice(st, LsLines(st.fs, a, false), LsLines(st.fs, b, false));
  }

  lemma {:induction false} OperandsPlain(a: seq<string>)
    requires forall i :: 0 <= i < |a| ==> !StartsWith(a[i], '-')
    ensures Operands(a) == a
  {
    if a != [] {
      OperandsPlain(a[1..]);
    }
  }

  lemma {:induction false} FlagsNone(a: seq<string>)
    requires forall i :: 0 <= i < |a| ==> !StartsWith(a[i], '-')
    ensures Flags(a) == []
  {
    if a != [] {
      FlagsNone(a[1..]);
    }
  }

  lemma {:induction false} OperandsNone(a: seq<string>)
    requires forall i :: 0 <= i < |a| ==> StartsWith(a[i], '-')
    ensures Operands(a) == []
  {
    if a != [] {
      OperandsNone(a[1..]);
    }
  }

  // ---------------------------------------------------------------------
  // help

  /** The help text is a heading and then one line per verb of the switch,
      in the order of the switch. */
  lemma HelpCoversVerbs()
    ensures |HelpLines| == |Verbs| + 1
    ensures forall k :: 1 <= k < |HelpLines| ==> Documents(HelpLines[k], Verbs[k - 1])
  {
    HelpLsCd();
    HelpPwdMkdir();
    HelpTouchRm();
    HelpCpMv();
    HelpCatEcho();
    HelpPythonHelp();
  }

  lemma HelpLsCd()
    ensures Documents(HelpLines[1], Verbs[0]) && Documents(HelpLines[2], Verbs[1])
  {
    assert Documents(HelpLines[1], Verbs[0]);
  }

  lemma HelpPwdMkdir()
    ensures Documents(HelpLines[3], Verbs[2]) && Documents(HelpLines[4], Verbs[3])
  {
    assert Documents(HelpLines[3], Verbs[2]);
  }

  lemma HelpTouchRm()
    ensures Documents(HelpLines[5], Verbs[4]) && Documents(HelpLines[6], Verbs[5])
  {
    assert Documents(HelpLines[5], Verbs[4]);
  }

  lemma HelpCpMv()
    ensures Documents(HelpLines[7], Verbs[6]) && Documents(HelpLines[8], Verbs[7])
  {
    assert Documents(HelpLines[7], Verbs[6]);
  }

  lemma HelpCatEcho()
    ensures Documents(HelpLines[9], Verbs[8]) && Documents(HelpLines[10], Verbs[9])
  {
    assert Documents(HelpLines[9], Verbs[8]);
  }

  lemma HelpPythonHelp()
    ensures Documents(HelpLines[11], Verbs[10]) && Documents(HelpLines[12], Verbs[11])
  {
    assert Documents(HelpLines[11], Verbs[10]);
  }

  // ---------------------------------------------------------------------
  // python and the REPL

  /** Pyodide is loaded by the first python command and announced once. */
  lemma PythonLoadsOnce(py: Python, st: State, args: seq<string>)
    ensures PythonCmd(py, st, args).loaded
    ensures PythonCmd(py, st, args).fs == st.fs
    ensures st.loaded ==> (PythonCmd(py, st, args).out ==
      st.out + if args != [] then RunLines(py(st.history, Join(args, " "))) else BannerLines)
    ensures !st.loaded ==> (PythonCmd(py, st, args).out ==
      st.out + LoadLines + if args != [] then RunLines(py(st.history, Join(args, " "))) else BannerLines)
    ensures PythonCmd(py, st, args) == PythonCmd(py, Load(st), args)
  {
  }

  /** With arguments, python runs exactly their space-joined text and stays in
      the shell; without, it enters the REPL and runs nothing. */
  lemma PythonRuns(py: Python, st: State, args: seq<string>)
    ensures args != [] ==> PythonCmd(py, st, args).history == st.history + [Join(args, " ")]
    ensures args != [] ==> PythonCmd(py, st, args).mode == st.mode
    ensures args == [] ==> PythonCmd(py, st, args).history == st.history
    ensures args == [] ==> PythonCmd(py, st, args).mode == Repl
  {
  }

  /** In the REPL, a line that trims to `exit()` returns to the shell and
      reaches no evaluator; any other line, shell verbs included, is run as
      Python exactly as typed. */
  lemma ReplInput(py: Python, st: State, line: string)
    requires st.mode == Repl
    ensures Trim(line) == "exit()" ==> Input(py, st, line) == st.(mode := Shell)
    ensures Trim(line) != "exit()" ==> (Input(py, st, line) ==
      st.(out := st.out + RunLines(py(st.history, line)), history := st.history + [line]))
  {
  }

  lemma ArgsOfVerb(verb: string)
    requires IsWord(verb)
    ensures Args(verb) == [verb]
  {
    ArgsOfWords([verb]);
  }

  lemma TrimExit()
    ensures Trim("exit()") == "exit()"
  {
    var s := "exit()";
    assert !IsSpace(s[0]) && !IsSpace(s[|s| - 1]);
    assert TrimStart(s) == s;
    assert TrimEnd(s) == s;
  }

  /** A line that is just `python` loads Pyodide, prints the banner and
      enters the REPL. */
  lemma PythonAlone(py: Python, st: State, line: string)
    requires st.mode == Shell && Args(line) == ["python"]
    ensures Input(py, st, line) == Emit(Load(st), BannerLines).(mode := Repl)
  {
    assert Args(line)[1..] == [];
  }

  /** `python` then a line that trims to `exit()` leaves the shell as it was,
      with Pyodide loaded and the banner printed. */
  lemma PythonThenExit(py: Python, st: State, enter: string, leave: string)
    requires st.mode == Shell && Args(enter) == ["python"] && Trim(leave) == "exit()"
    ensures Input(py, Input(py, st, enter), leave) == Emit(Load(st), BannerLines)
  {
    PythonAlone(py, st, enter);
    ReplInput(py, Emit(Load(st), BannerLines).(mode := Repl), leave);
  }

  /** Typing `python` and then `exit()` is such a pair of lines. */
  lemma PythonExitLines()
    ensures Args("python") == ["python"] && Trim("exit()") == "exit()"
  {
    ArgsOfVerb("python");
    TrimExit();
  }
}
