/** The older CommandHandler class of src/lib/commands.js: the same
    filesystem and Pyodide handling as the newer class, with catches inside
    the handlers, a `currentDir` field shown by the prompt, and git and vi
    cases. Every method is proved to compute the function of LegacySpec of
    the same name. */
module LegacyCommands {
  import opened Results
  import opened Paths
  import opened Tree
  import opened FsSpec
  import opened Tokenizer
  import opened Terminal
  import CommandSpec
  import opened LegacySpec
  import FileSystem

  class LegacyCommandHandler {
    const fs: FileSystem.VirtualFileSystem
    const py: Python
    var output: seq<Line>
    var mode: Mode
    var loaded: bool
    var history: seq<string>
    /** The directory the prompt shows, set from the filesystem by cd. */
    var currentDir: string
    /** The calls handed to git and vi. */
    var external: seq<seq<string>>

    ghost predicate Valid()
      reads this, fs
    {
      fs.Valid()
    }

    function State(): LegacySpec.State
      reads this, fs
    {
      LegacySpec.State(fs.State(), output, mode, loaded, history, currentDir, external)
    }

    constructor (py: Python)
      ensures Valid() && State() == LegacySpec.Init() && this.py == py
    {
      fs := new FileSystem.VirtualFileSystem();
      this.py := py;
      output := [];
      mode := Shell;
      loaded := false;
      history := [];
      currentDir := "/";
      external := [];
    }

    method InitPyodide()
      modifies this
      ensures State() == WithCore(old(State()), CommandSpec.Load(Core(old(State()))))
    {
      if !loaded {
        output := output + [Echo("Loading Pyodide...")];
        loaded := true;
        output := output + [Echo("Pyodide loaded successfully!")];
      }
    }

    method RunCode(code: string)
      modifies this
      ensures State() == WithCore(old(State()), CommandSpec.Run(py, Core(old(State())), code))
    {
      var run := py(history, code);
      output := output + run.printed;
      match run.value {
        case Undefined =>
        case Value(t) => output := output + [Echo(t)];
        case Raised(m) => output := output + [Error(m)];
      }
      history := history + [code];
    }

    method Input(line: string)
      requires Valid()
      modifies this, fs
      ensures Valid() && State() == LegacySpec.Input(py, old(State()), line)
    {
      match mode
      case Shell =>
        HandleCommand(line);
      case Repl =>
        if Trim(line) == "exit()" {
          mode := Shell;
        } else {
          RunCode(line);
        }
    }

    method HandleCommand(command: string)
      requires Valid()
      modifies this, fs
      ensures Valid() && State() == Exec(py, old(State()), command)
    {
      var args := Args(command);
      if args == [] {
        return;
      }
      Switch(args[0], args[1..]);
    }

    /** The switch; its cases are taken in groups of like handlers. */
    method Switch(cmd: string, cmdArgs: seq<string>)
      requires Valid()
      modifies this, fs
      ensures Valid() && State() == Dispatch(py, old(State()), cmd, cmdArgs)
    {
      if cmd == "git" {
        external := external + [["git"] + cmdArgs];
      } else if cmd == "vi" {
        external := external + [["vi"]];
      } else if CommandSpec.VerbOf(cmd) in {CommandSpec.CdVerb, CommandSpec.CpVerb, CommandSpec.MvVerb,
                                            CommandSpec.MkdirVerb, CommandSpec.TouchVerb, CommandSpec.RmVerb} {
        SwitchChanging(cmd, cmdArgs);
      } else {
        SwitchReading(cmd, cmdArgs);
      }
    }

    /** The cases whose handler changes the filesystem. */
    method SwitchChanging(cmd: string, cmdArgs: seq<string>)
      requires Valid() && cmd != "git" && cmd != "vi"
      requires CommandSpec.VerbOf(cmd) in {CommandSpec.CdVerb, CommandSpec.CpVerb, CommandSpec.MvVerb,
                                           CommandSpec.MkdirVerb, CommandSpec.TouchVerb, CommandSpec.RmVerb}
      modifies this, fs
      ensures Valid() && State() == Dispatch(py, old(State()), cmd, cmdArgs)
    {
      if CommandSpec.VerbOf(cmd) in {CommandSpec.CdVerb, CommandSpec.CpVerb, CommandSpec.MvVerb} {
        SwitchSingleCall(cmd, cmdArgs);
      } else {
        SwitchPerArgument(cmd, cmdArgs);
      }
    }

    method SwitchSingleCall(cmd: string, cmdArgs: seq<string>)
      requires Valid() && cmd != "git" && cmd != "vi"
      requires CommandSpec.VerbOf(cmd) in {CommandSpec.CdVerb, CommandSpec.CpVerb, CommandSpec.MvVerb}
      modifies this, fs
      ensures Valid() && State() == Dispatch(py, old(State()), cmd, cmdArgs)
    {
      var verb := CommandSpec.VerbOf(cmd);
      if verb == CommandSpec.CdVerb {
        Cd(cmdArgs);
      } else if verb == CommandSpec.CpVerb {
        Cp(cmdArgs);
      } else {
        Mv(cmdArgs);
      }
    }

    method SwitchPerArgument(cmd: string, cmdArgs: seq<string>)
      requires Valid() && cmd != "git" && cmd != "vi"
      requires CommandSpec.VerbOf(cmd) in {CommandSpec.MkdirVerb, CommandSpec.TouchVerb, CommandSpec.RmVerb}
      modifies this, fs
      ensures Valid() && State() == Dispatch(py, old(State()), cmd, cmdArgs)
    {
      var verb := CommandSpec.VerbOf(cmd);
      if verb == CommandSpec.MkdirVerb {
        Mkdir(cmdArgs);
      } else if verb == CommandSpec.TouchVerb {
        Touch(cmdArgs);
      } else {
        Rm(cmdArgs);
      }
    }

    /** The cases whose handler leaves the filesystem alone. */
    method SwitchReading(cmd: string, cmdArgs: seq<string>)
      requires Valid() && cmd != "git" && cmd != "vi"
      requires CommandSpec.VerbOf(cmd) in {CommandSpec.LsVerb, CommandSpec.CatVerb, CommandSpec.PwdVerb,
                                           CommandSpec.EchoVerb, CommandSpec.HelpVerb, CommandSpec.PythonVerb,
                                           CommandSpec.NotFound}
      modifies this
      ensures Valid() && State() == Dispatch(py, old(State()), cmd, cmdArgs)
    {
      var verb := CommandSpec.VerbOf(cmd);
      if verb in {CommandSpec.LsVerb, CommandSpec.CatVerb} {
        SwitchReporting(cmd, cmdArgs);
      } else if verb in {CommandSpec.PwdVerb, CommandSpec.EchoVerb, CommandSpec.HelpVerb} {
        SwitchPrinting(cmd, cmdArgs);
      } else {
        SwitchOther(cmd, cmdArgs);
      }
    }

    method SwitchReporting(cmd: string, cmdArgs: seq<string>)
      requires Valid() && cmd != "git" && cmd != "vi"
      requires CommandSpec.VerbOf(cmd) in {CommandSpec.LsVerb, CommandSpec.CatVerb}
      modifies this
      ensures Valid() && State() == Dispatch(py, old(State()), cmd, cmdArgs)
    {
      if CommandSpec.VerbOf(cmd) == CommandSpec.LsVerb {
        Ls(cmdArgs);
      } else {
        Cat(cmdArgs);
      }
    }

    method SwitchPrinting(cmd: string, cmdArgs: seq<string>)
      requires Valid() && cmd != "git" && cmd != "vi"
      requires CommandSpec.VerbOf(cmd) in {CommandSpec.PwdVerb, CommandSpec.EchoVerb, CommandSpec.HelpVerb}
      modifies this
      ensures Valid() && State() == Dispatch(py, old(State()), cmd, cmdArgs)
    {
      var verb := CommandSpec.VerbOf(cmd);
      if verb == CommandSpec.PwdVerb {
        Pwd();
      } else if verb == CommandSpec.EchoVerb {
        EchoArgs(cmdArgs);
      } else {
        Help();
      }
    }

    method SwitchOther(cmd: string, cmdArgs: seq<string>)
      requires Valid() && cmd != "git" && cmd != "vi"
      requires CommandSpec.VerbOf(cmd) in {CommandSpec.PythonVerb, CommandSpec.NotFound}
      modifies this
      ensures Valid() && State() == Dispatch(py, old(State()), cmd, cmdArgs)
    {
      if CommandSpec.VerbOf(cmd) == CommandSpec.PythonVerb {
        Python(cmdArgs);
      } else {
        output := output + [Error("Command not found: " + cmd)];
      }
    }

    method UpdatePrompt()
      modifies this
      ensures State() == Prompted(old(State()))
    {
      output := output + [Prompt(currentDir)];
    }

    method Ls(args: seq<string>)
      modifies this
      ensures State() == LsCmd(old(State()), args)
    {
      var options := Flags(args);
      var paths := Operands(args);
      var showHidden := "-a" in options;
      ListEach(paths, showHidden);
      UpdatePrompt();
    }

    /** `paths.forEach` with a try inside: every path is reported in order. */
    method ListEach(paths: seq<string>, showHidden: bool)
      modifies this
      ensures State() == Emit(old(State()), ListLines(fs.State(), paths, showHidden))
    {
      var i := 0;
      while i < |paths|
        invariant 0 <= i <= |paths|
        invariant State() == Emit(old(State()), ListLines(fs.State(), paths[..i], showHidden))
      {
        ListOne(paths[i], showHidden);
        assert paths[..i + 1][..i] == paths[..i];
        i := i + 1;
      }
      assert paths[..i] == paths;
    }

    method ListOne(path: string, showHidden: bool)
      modifies this
      ensures State() == Emit(old(State()), [ListLine(fs.State(), path, showHidden)])
    {
      var r := fs.Ls(path, showHidden);
      match r {
        case Ok(files) => output := output + [Echo(Join(files, "  "))];
        case Err(e) => output := output + [Error("Error listing directory: " + Message(e))];
      }
    }

    /** `this.ls([this.fs.pwd()])`. */
    method Refresh()
      modifies this
      ensures State() == LegacySpec.Refresh(old(State()))
    {
      var p := fs.Pwd();
      Ls([p]);
    }

    method Cd(args: seq<string>)
      requires Valid()
      modifies this, fs
      ensures Valid() && State() == CdCmd(old(State()), args)
    {
      if |args| != 1 {
        output := output + [Error("Usage: cd <directory>")];
        return;
      }
      var out := fs.Cd(args[0]);
      match out {
        case Fail(e) =>
          output := output + [Error("Error changing directory: " + Message(e))];
        case Pass =>
          currentDir := fs.Pwd();
          UpdatePrompt();
          Refresh();
      }
    }

    method Pwd()
      modifies this
      ensures State() == PwdCmd(old(State()))
    {
      var p := fs.Pwd();
      output := output + [Echo(p)];
      UpdatePrompt();
    }

    /** `args.forEach` with a try inside: every argument is tried. */
    method EachArgument(op: CommandSpec.Op, args: seq<string>)
      requires Valid()
      modifies this, fs
      ensures Valid() && State() == EachArg(op, old(State()), args)
    {
      var i := 0;
      while i < |args|
        invariant 0 <= i <= |args|
        invariant Valid()
        invariant EachArg(op, old(State()), args) == EachArg(op, State(), args[i..])
      {
        EachArgStep(op, State(), args, i);
        TryOne(op, args[i]);
        i := i + 1;
      }
    }

    /** The body of the forEach: the call, then its message and a refreshed
        listing, or the error caught. */
    method TryOne(op: CommandSpec.Op, arg: string)
      requires Valid()
      modifies this, fs
      ensures Valid() && State() == Attempt(op, old(State()), arg)
    {
      var out: Outcome<FsError>;
      match op {
        case MkdirOp => out := fs.Mkdir(arg);
        case TouchOp => out := fs.Touch(arg);
        case RmOp(recursive) => out := fs.Rm(arg, recursive);
      }
      match out {
        case Fail(e) =>
          output := output + [Error(Failed(op, arg, e))];
        case Pass =>
          output := output + [Echo(Done(op, arg))];
          Refresh();
      }
    }

    method Mkdir(args: seq<string>)
      requires Valid()
      modifies this, fs
      ensures Valid() && State() == MkdirCmd(old(State()), args)
    {
      if args == [] {
        output := output + [Error("Usage: mkdir <directory>")];
        return;
      }
      EachArgument(CommandSpec.MkdirOp, args);
      UpdatePrompt();
    }

    method Touch(args: seq<string>)
      requires Valid()
      modifies this, fs
      ensures Valid() && State() == TouchCmd(old(State()), args)
    {
      if args == [] {
        output := output + [Error("Usage: touch <file>")];
        return;
      }
      EachArgument(CommandSpec.TouchOp, args);
      UpdatePrompt();
    }

    method Rm(args: seq<string>)
      requires Valid()
      modifies this, fs
      ensures Valid() && State() == RmCmd(old(State()), args)
    {
      var recursive := "-r" in args || "-rf" in args;
      var files := Operands(args);
      if files == [] {
        output := output + [Error("Usage: rm [-r] [-f] <file>")];
        return;
      }
      EachArgument(CommandSpec.RmOp(recursive), files);
      UpdatePrompt();
    }

    method Cp(args: seq<string>)
      requires Valid()
      modifies this, fs
      ensures Valid() && State() == CpCmd(old(State()), args)
    {
      if |args| != 2 {
        output := output + [Error("Usage: cp <source> <destination>")];
        return;
      }
      var out := fs.Cp(args[0], args[1]);
      match out {
        case Fail(e) =>
          output := output + [Error("Error copying file: " + Message(e))];
        case Pass =>
          output := output + [Echo("Copied: " + args[0] + " to " + args[1])];
          Refresh();
      }
      UpdatePrompt();
    }

    method Mv(args: seq<string>)
      requires Valid()
      modifies this, fs
      ensures Valid() && State() == MvCmd(old(State()), args)
    {
      if |args| != 2 {
        output := output + [Error("Usage: mv <source> <destination>")];
        return;
      }
      var out := fs.Mv(args[0], args[1]);
      match out {
        case Fail(e) =>
          output := output + [Error("Error moving file: " + Message(e))];
        case Pass =>
          output := output + [Echo("Moved: " + args[0] + " to " + args[1])];
          Refresh();
      }
      UpdatePrompt();
    }

    method Cat(args: seq<string>)
      modifies this
      ensures State() == CatCmd(old(State()), args)
    {
      if args == [] {
        output := output + [Error("Usage: cat <file>")];
        return;
      }
      ReadEach(args);
      UpdatePrompt();
    }

    /** `args.forEach` with a try inside: every file is reported in order. */
    method ReadEach(files: seq<string>)
      modifies this
      ensures State() == Emit(old(State()), ReadLines(fs.State(), files))
    {
      var i := 0;
      while i < |files|
        invariant 0 <= i <= |files|
        invariant State() == Emit(old(State()), ReadLines(fs.State(), files[..i]))
      {
        ReadOne(files[i]);
        assert files[..i + 1][..i] == files[..i];
        i := i + 1;
      }
      assert files[..i] == files;
    }

    method ReadOne(file: string)
      modifies this
      ensures State() == Emit(old(State()), [ReadLine(fs.State(), file)])
    {
      var r := fs.ReadFile(file);
      match r {
        case Ok(content) => output := output + [Echo(content)];
        case Err(e) => output := output + [Error("Error reading file " + file + ": " + Message(e))];
      }
    }

    method EchoArgs(args: seq<string>)
      modifies this
      ensures State() == EchoCmd(old(State()), args)
    {
      output := output + [Echo(Join(args, " "))];
      UpdatePrompt();
    }

    method Python(args: seq<string>)
      modifies this
      ensures State() == PythonCmd(py, old(State()), args)
    {
      InitPyodide();
      if |args| > 0 {
        RunCode(Join(args, " "));
      } else {
        output := output + [Echo("Python 3.11.3 (Pyodide)")];
        output := output + [Echo("Type \"exit()\" to return to shell")];
        mode := Repl;
      }
    }

    method Help()
      modifies this
      ensures State() == HelpCmd(old(State()))
    {
      output := output + [Echo(HelpText())];
      UpdatePrompt();
    }
  }
}
