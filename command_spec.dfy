/** The CommandHandler of src/lib/commands.ts as a function of its state:
    the filesystem, the terminal log and mode, whether Pyodide is loaded,
    and the Python code run so far. The class in module Commands is proved
    to compute it. */
module CommandSpec {
  import opened Results
  import opened Paths
  import opened Tree
  import opened FsSpec
  import opened Tokenizer
  import opened Terminal

  datatype State = State(fs: FsState, out: seq<Line>, mode: Mode, loaded: bool, history: seq<string>)

  /** A fresh handler: a fresh filesystem, nothing printed, Pyodide not loaded. */
  function Init(): State {
    State(FsSpec.Init(), [], Shell, false, [])
  }

  function Emit(st: State, lines: seq<Line>): State {
    st.(out := st.out + lines)
  }

  /** The verbs of the switch in handleCommand. */
  const Verbs: seq<string> := ["ls", "cd", "pwd", "mkdir", "touch", "rm", "cp", "mv", "cat", "echo", "python", "help"]

  /** The help text, one element per line; the source joins them with '\n'. */
  const HelpLines: seq<string> := [
    "Available commands:",
    "  ls [-a] [path]    List directory contents",
    "  cd <path>        Change directory",
    "  pwd             Print working directory",
    "  mkdir <dir>     Create directory",
    "  touch <file>    Create empty file",
    "  rm [-r] <file>  Remove file or directory",
    "  cp <src> <dst>  Copy file",
    "  mv <src> <dst>  Move file",
    "  cat <file>      Display file contents",
    "  echo <text>     Display text",
    "  python          Start Python REPL",
    "  help            Show this help message"
  ]

  function HelpText(): string {
    Join(HelpLines, "\n")
  }

  // ---------------------------------------------------------------------
  // The filesystem operations the loops of mkdir, touch and rm call

  datatype Op = MkdirOp | TouchOp | RmOp(recursive: bool)

  function Apply(op: Op, s: FsState, arg: string): Result<Node, FsError> {
    match op
    case MkdirOp => Mkdir(s, arg)
    case TouchOp => Touch(s, arg)
    case RmOp(recursive) => Rm(s, arg, recursive)
  }

  /** `args.forEach(a => this.fs.op(a))` without a catch: the first failure
      ends the loop, and the changes before it stay. */
  function Each(op: Op, s: FsState, args: seq<string>): Effect
    decreases |args|
  {
    if args == [] then Effect(s.root, Pass)
    else match Apply(op, s, args[0])
      case Err(e) => Effect(s.root, Fail(e))
      case Ok(r) => Each(op, FsState(r, s.cwd), args[1..])
  }

  /** The catch of handleCommand: an error a handler threw is logged by its
      message. */
  function Catch(st: State, thrown: Outcome<FsError>): State {
    match thrown
    case Pass => st
    case Fail(e) => Emit(st, [Error(Message(e))])
  }

  /** The new tree, and the caught error's message if there was one. */
  function Report(st: State, eff: Effect): State {
    Catch(st.(fs := st.fs.(root := eff.root)), eff.outcome)
  }

  // ---------------------------------------------------------------------
  // The handlers

  function LsLine(s: FsState, path: string, showHidden: bool): Line {
    match Ls(s, path, showHidden)
    case Ok(files) => Echo(Join(files, "  "))
    case Err(e) => Error(Message(e))
  }

  /** One line per path, in order; a failing path does not stop the others. */
  function LsLines(s: FsState, paths: seq<string>, showHidden: bool): (r: seq<Line>)
    ensures |r| == |paths|
    decreases |paths|
  {
    if paths == [] then []
    else LsLines(s, paths[..|paths| - 1], showHidden) + [LsLine(s, paths[|paths| - 1], showHidden)]
  }

  /** Only the non-option arguments are listed; with none nothing is, since
      the `|| ['.']` fallback applies to an array and never fires. */
  function LsCmd(st: State, args: seq<string>): State {
    Emit(st, LsLines(st.fs, Operands(args), "-a" in Flags(args)))
  }

  function CdCmd(st: State, args: seq<string>): State {
    if |args| != 1 then Emit(st, [Error("Usage: cd <directory>")])
    else match Cd(st.fs, args[0])
      case Ok(p) => st.(fs := st.fs.(cwd := p))
      case Err(e) => Emit(st, [Error(Message(e))])
  }

  function PwdCmd(st: State): State {
    Emit(st, [Echo(Pwd(st.fs))])
  }

  function MkdirCmd(st: State, args: seq<string>): State {
    if args == [] then Emit(st, [Error("Usage: mkdir <directory>")])
    else Report(st, Each(MkdirOp, st.fs, args))
  }

  function TouchCmd(st: State, args: seq<string>): State {
    if args == [] then Emit(st, [Error("Usage: touch <file>")])
    else Report(st, Each(TouchOp, st.fs, args))
  }

  /** Recursive only on a literal `-r` or `-rf`; every `-` argument is
      dropped from the files. */
  function RmCmd(st: State, args: seq<string>): State {
    var recursive := "-r" in args || "-rf" in args;
    var files := Operands(args);
    if files == [] then Emit(st, [Error("Usage: rm [-r] <file>")])
    else Report(st, Each(RmOp(recursive), st.fs, files))
  }

  function CpCmd(st: State, args: seq<string>): State {
    if |args| != 2 then Emit(st, [Error("Usage: cp <source> <destination>")])
    else match Cp(st.fs, args[0], args[1])
      case Ok(r) => st.(fs := st.fs.(root := r))
      case Err(e) => Emit(st, [Error(Message(e))])
  }

  function MvCmd(st: State, args: seq<string>): State {
    if |args| != 2 then Emit(st, [Error("Usage: mv <source> <destination>")])
    else Report(st, Mv(st.fs, args[0], args[1]))
  }

  function CatLine(s: FsState, file: string): Line {
    match ReadFile(s, file)
    case Ok(c) => Echo(c)
    case Err(e) => Error(Message(e))
  }

  /** One line per file, in order; a failing file does not stop the others. */
  function CatLines(s: FsState, files: seq<string>): (r: seq<Line>)
    ensures |r| == |files|
    decreases |files|
  {
    if files == [] then []
    else CatLines(s, files[..|files| - 1]) + [CatLine(s, files[|files| - 1])]
  }

  function CatCmd(st: State, args: seq<string>): State {
    if args == [] then Emit(st, [Error("Usage: cat <file>")])
    else Emit(st, CatLines(st.fs, args))
  }

  function EchoCmd(st: State, args: seq<string>): State {
    Emit(st, [Echo(Join(args, " "))])
  }

  /** initPyodide: the first call loads Pyodide and says so. */
  function Load(st: State): State {
    if st.loaded then st else Emit(st, LoadLines).(loaded := true)
  }

  /** One runPythonAsync call, its output and its value. */
  function Run(py: Python, st: State, code: string): State {
    var run := py(st.history, code);
    st.(out := st.out + RunLines(run), history := st.history + [code])
  }

  /** With arguments, their space-joined text is run as code (their quotes
      already stripped); without, the REPL is pushed. */
  function PythonCmd(py: Python, st: State, args: seq<string>): State {
    var st1 := Load(st);
    if args != [] then Run(py, st1, Join(args, " "))
    else Emit(st1, BannerLines).(mode := Repl)
  }

  function HelpCmd(st: State): State {
    Emit(st, [Echo(HelpText())])
  }

  /** The cases of the switch in handleCommand. */
  datatype Verb = LsVerb | CdVerb | PwdVerb | MkdirVerb | TouchVerb | RmVerb | CpVerb | MvVerb
                | CatVerb | EchoVerb | PythonVerb | HelpVerb | NotFound

  function Name(v: Verb): string {
    match v
    case LsVerb => "ls"
    case CdVerb => "cd"
    case PwdVerb => "pwd"
    case MkdirVerb => "mkdir"
    case TouchVerb => "touch"
    case RmVerb => "rm"
    case CpVerb => "cp"
    case MvVerb => "mv"
    case CatVerb => "cat"
    case EchoVerb => "echo"
    case PythonVerb => "python"
    case HelpVerb => "help"
    case NotFound => ""
  }

  /** The case label `cmd` matches, or the default branch. */
  function VerbOf(cmd: string): (v: Verb)
    ensures v != NotFound ==> Name(v) == cmd
    ensures v == NotFound <==> cmd !in Verbs
  {
    if cmd == "ls" then LsVerb
    else if cmd == "cd" then CdVerb
    else if cmd == "pwd" then PwdVerb
    else if cmd == "mkdir" then MkdirVerb
    else if cmd == "touch" then TouchVerb
    else if cmd == "rm" then RmVerb
    else if cmd == "cp" then CpVerb
    else if cmd == "mv" then MvVerb
    else if cmd == "cat" then CatVerb
    else if cmd == "echo" then EchoVerb
    else if cmd == "python" then PythonVerb
    else if cmd == "help" then HelpVerb
    else NotFound
  }

  /** The switch of handleCommand; every handler's error is caught and logged. */
  function Dispatch(py: Python, st: State, cmd: string, args: seq<string>): State {
    match VerbOf(cmd)
    case LsVerb => LsCmd(st, args)
    case CdVerb => CdCmd(st, args)
    case PwdVerb => PwdCmd(st)
    case MkdirVerb => MkdirCmd(st, args)
    case TouchVerb => TouchCmd(st, args)
    case RmVerb => RmCmd(st, args)
    case CpVerb => CpCmd(st, args)
    case MvVerb => MvCmd(st, args)
    case CatVerb => CatCmd(st, args)
    case EchoVerb => EchoCmd(st, args)
    case PythonVerb => PythonCmd(py, st, args)
    case HelpVerb => HelpCmd(st)
    case NotFound => Emit(st, [Error("Command not found: " + cmd)])
  }

  /** handleCommand: split the line, ignore it if it has no argument,
      otherwise dispatch on the first. */
  function Exec(py: Python, st: State, command: string): State {
    var args := Args(command);
    if args == [] then st else Dispatch(py, st, args[0], args[1..])
  }

  /** The interpreter pushed by `python`: `exit()` (after trim) pops it,
      anything else is run as it was typed. */
  function ReplLine(py: Python, st: State, line: string): State {
    if Trim(line) == "exit()" then st.(mode := Shell) else Run(py, st, line)
  }

  /** A line typed at the terminal goes to the interpreter on top. */
  function Input(py: Python, st: State, line: string): State {
    match st.mode
    case Shell => Exec(py, st, line)
    case Repl => ReplLine(py, st, line)
  }
}
