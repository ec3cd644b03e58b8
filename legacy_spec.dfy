/** The older CommandHandler of src/lib/commands.js as a function of its
    state. It shares the tokenizer, the filesystem and the Python handling
    of src/lib/commands.ts, but every filesystem handler catches its own
    errors with a message that names the operation, refreshes the listing
    of the current directory after each success, and echoes a prompt
    showing `currentDir`. The class in module LegacyCommands is proved to
    compute it. */
module LegacySpec {
  import opened Results
  import opened Paths
  import opened Tree
  import opened FsSpec
  import opened Tokenizer
  import opened Terminal
  import CommandSpec

  /** The state of the newer handler, plus the directory the prompt shows and
      the calls handed to the git and vi handlers, which are not modelled. */
  datatype State = State(fs: FsState, out: seq<Line>, mode: Mode, loaded: bool, history: seq<string>,
                         currentDir: string, external: seq<seq<string>>)

  /** A fresh handler: `currentDir = '/'` and a fresh filesystem. */
  function Init(): State {
    State(FsSpec.Init(), [], Shell, false, [], "/", [])
  }

  /** The part of the state the newer handler also has. */
  function Core(st: State): CommandSpec.State {
    CommandSpec.State(st.fs, st.out, st.mode, st.loaded, st.history)
  }

  /** `st` with its shared part replaced by `c`. */
  function WithCore(st: State, c: CommandSpec.State): State {
    st.(fs := c.fs, out := c.out, mode := c.mode, loaded := c.loaded, history := c.history)
  }

  function Emit(st: State, lines: seq<Line>): State {
    st.(out := st.out + lines)
  }

  /** The line updatePrompt echoes. */
  function Prompt(currentDir: string): Line {
    Echo("\n" + currentDir + " \U{276F} ")
  }

  /** updatePrompt, at the end of a handler. */
  function Prompted(st: State): State {
    Emit(st, [Prompt(st.currentDir)])
  }

  /** The help text; unlike the newer one it shows `-f` for rm. It does not
      mention git or vi. */
  const HelpLines: seq<string> := [
    "Available commands:",
    "  ls [-a] [path]    List directory contents",
    "  cd <path>        Change directory",
    "  pwd             Print working directory",
    "  mkdir <dir>     Create directory",
    "  touch <file>    Create empty file",
    "  rm [-r] [-f] <file>  Remove file or directory",
    "  cp <src> <dst>  Copy file",
    "  mv <src> <dst>  Move file",
    "  cat <file>      Display file contents",
    "  echo <text>     Display text",
    "  python          Start Python REPL",
    "  help            Show this help message"
  ]

  function HelpText(): string {
    Join(HelpLines, "\n")
  }

  // ---------------------------------------------------------------------
  // The handlers

  function ListLine(s: FsState, path: string, showHidden: bool): Line {
    match Ls(s, path, showHidden)
    case Ok(files) => Echo(Join(files, "  "))
    case Err(e) => Error("Error listing directory: " + Message(e))
  }

  /** One line per path, in order; a failing path does not stop the others. */
  function ListLines(s: FsState, paths: seq<string>, showHidden: bool): (r: seq<Line>)
    ensures |r| == |paths|
    decreases |paths|
  {
    if paths == [] then []
    else ListLines(s, paths[..|paths| - 1], showHidden) + [ListLine(s, paths[|paths| - 1], showHidden)]
  }

  /** As in the newer handler the `|| ['.']` fallback never fires. */
  function LsCmd(st: State, args: seq<string>): State {
    Prompted(Emit(st, ListLines(st.fs, Operands(args), "-a" in Flags(args))))
  }

  /** `this.ls([this.fs.pwd()])`, run after every change that succeeded. */
  function Refresh(st: State): State {
    LsCmd(st, [Pwd(st.fs)])
  }

  /** On success `currentDir` follows the filesystem, then the prompt and a
      listing of the new directory are echoed. */
  function CdCmd(st: State, args: seq<string>): State {
    if |args| != 1 then Emit(st, [Error("Usage: cd <directory>")])
    else match Cd(st.fs, args[0])
      case Ok(p) => Refresh(Prompted(st.(fs := st.fs.(cwd := p), currentDir := p)))
      case Err(e) => Emit(st, [Error("Error changing directory: " + Message(e))])
  }

  function PwdCmd(st: State): State {
    Prompted(Emit(st, [Echo(Pwd(st.fs))]))
  }

  /** What a successful call for one argument of mkdir, touch or rm echoes. */
  function Done(op: CommandSpec.Op, arg: string): string {
    match op
    case MkdirOp => "Directory created: " + arg
    case TouchOp => "File created: " + arg
    case RmOp(_) => "Removed: " + arg
  }

  /** What the catch of one argument of mkdir, touch or rm reports. */
  function Failed(op: CommandSpec.Op, arg: string, e: FsError): string {
    match op
    case MkdirOp => "Error creating directory " + arg + ": " + Message(e)
    case TouchOp => "Error creating file " + arg + ": " + Message(e)
    case RmOp(_) => "Error removing file: " + arg + ". " + Message(e)
  }

  /** The body of the forEach of mkdir, touch and rm: the call, then its
      message and a refreshed listing, or the caught error. */
  function Attempt(op: CommandSpec.Op, st: State, arg: string): State {
    match CommandSpec.Apply(op, st.fs, arg)
    case Ok(r) => Refresh(Emit(st.(fs := st.fs.(root := r)), [Echo(Done(op, arg))]))
    case Err(e) => Emit(st, [Error(Failed(op, arg, e))])
  }

  /** Every argument is tried in order, whatever happened to the ones before. */
  function EachArg(op: CommandSpec.Op, st: State, args: seq<string>): State
    decreases |args|
  {
    if args == [] then st else EachArg(op, Attempt(op, st, args[0]), args[1..])
  }

  /** The fold from argument `i` is the attempt at it, then the fold from the next. */
  lemma EachArgStep(op: CommandSpec.Op, st: State, args: seq<string>, i: nat)
    requires i < |args|
    ensures EachArg(op, st, args[i..]) == EachArg(op, Attempt(op, st, args[i]), args[i + 1..])
  {
    assert args[i..][0] == args[i] && args[i..][1..] == args[i + 1..];
  }

  function MkdirCmd(st: State, args: seq<string>): State {
    if args == [] then Emit(st, [Error("Usage: mkdir <directory>")])
    else Prompted(EachArg(CommandSpec.MkdirOp, st, args))
  }

  function TouchCmd(st: State, args: seq<string>): State {
    if args == [] then Emit(st, [Error("Usage: touch <file>")])
    else Prompted(EachArg(CommandSpec.TouchOp, st, args))
  }

  /** `force` is computed from `-f` and `-rf` and passed to rm, which takes
      only two parameters, so it has no effect. */
  function RmCmd(st: State, args: seq<string>): State {
    var recursive := "-r" in args || "-rf" in args;
    var files := Operands(args);
    if files == [] then Emit(st, [Error("Usage: rm [-r] [-f] <file>")])
    else Prompted(EachArg(CommandSpec.RmOp(recursive), st, files))
  }

  function CpCmd(st: State, args: seq<string>): State {
    if |args| != 2 then Emit(st, [Error("Usage: cp <source> <destination>")])
    else match Cp(st.fs, args[0], args[1])
      case Ok(r) =>
        Prompted(Refresh(Emit(st.(fs := st.fs.(root := r)), [Echo("Copied: " + args[0] + " to " + args[1])])))
      case Err(e) => Prompted(Emit(st, [Error("Error copying file: " + Message(e))]))
  }

  /** A move whose rm half fails keeps the copy it made. */
  function MvCmd(st: State, args: seq<string>): State {
    if |args| != 2 then Emit(st, [Error("Usage: mv <source> <destination>")])
    else
      var eff := Mv(st.fs, args[0], args[1]);
      var moved := st.(fs := st.fs.(root := eff.root));
      match eff.outcome
      case Pass => Prompted(Refresh(Emit(moved, [Echo("Moved: " + args[0] + " to " + args[1])])))
      case Fail(e) => Prompted(Emit(moved, [Error("Error moving file: " + Message(e))]))
  }

  function ReadLine(s: FsState, file: string): Line {
    match ReadFile(s, file)
    case Ok(c) => Echo(c)
    case Err(e) => Error("Error reading file " + file + ": " + Message(e))
  }

  /** One line per file, in order; a failing file does not stop the others. */
  function ReadLines(s: FsState, files: seq<string>): (r: seq<Line>)
    ensures |r| == |files|
    decreases |files|
  {
    if files == [] then []
    else ReadLines(s, files[..|files| - 1]) + [ReadLine(s, files[|files| - 1])]
  }

  function CatCmd(st: State, args: seq<string>): State {
    if args == [] then Emit(st, [Error("Usage: cat <file>")])
    else Prompted(Emit(st, ReadLines(st.fs, args)))
  }

  function EchoCmd(st: State, args: seq<string>): State {
    Prompted(Emit(st, [Echo(Join(args, " "))]))
  }

  /** The same python handler as the newer one; it echoes no prompt. */
  function PythonCmd(py: Python, st: State, args: seq<string>): State {
    WithCore(st, CommandSpec.PythonCmd(py, Core(st), args))
  }

  function HelpCmd(st: State): State {
    Prompted(Emit(st, [Echo(HelpText())]))
  }

  /** git and vi: the call is recorded and nothing else is modelled. */
  function External(st: State, call: seq<string>): State {
    st.(external := st.external + [call])
  }

  /** The switch of handleCommand. Every handler catches its own filesystem
      errors, so no error reaches the catch around it. */
  function Dispatch(py: Python, st: State, cmd: string, args: seq<string>): State {
    if cmd == "git" then External(st, ["git"] + args)
    else if cmd == "vi" then External(st, ["vi"])
    else match CommandSpec.VerbOf(cmd)
      case LsVerb => LsCmd(st, args)
      case CdVerb => CdCmd(st, args)
      case PwdVerb => PwdCmd(st)
      case MkdirVerb => MkdirCmd(st, args)
      case TouchVerb => TouchCmd(st, args)
      case RmVerb => RmCmd(st, args)
      case CpVerb => CpCmd(st, args)
      case MvVerb => MvCmd(st, args)
      case CatVerb => CatCmd(st, args)
      case EchoVerb => EchoCmd(st, args)
      case PythonVerb => PythonCmd(py, st, args)
      case HelpVerb => HelpCmd(st)
      case NotFound => Emit(st, [Error("Command not found: " + cmd)])
  }

  function Exec(py: Python, st: State, command: string): State {
    var args := Args(command);
    if args == [] then st else Dispatch(py, st, args[0], args[1..])
  }

  /** A line typed at the terminal goes to the interpreter on top. */
  function Input(py: Python, st: State, line: string): State {
    match st.mode
    case Shell => Exec(py, st, line)
    case Repl => WithCore(st, CommandSpec.ReplLine(py, Core(st), line))
  }
}
