/** The CommandHandler class of src/lib/commands.ts: it owns a virtual
    filesystem, writes to the terminal, and loads Pyodide on first use.
    Every method is proved to compute the function of CommandSpec of the
    same name, so the properties of module CommandProperties hold of it. */
module Commands {
  import opened Results
  import opened Paths
  import opened Tree
  import opened FsSpec
  import opened Tokenizer
  import opened Terminal
  import opened CommandSpec
  import FileSystem

  class CommandHandler {
    const fs: FileSystem.VirtualFileSystem
    /** What the Pyodide instance computes; it is fetched from the network
        on first use, which `loaded` records. */
    const py: Python
    /** The terminal: the lines echoed so far and the interpreter on top. */
    var output: seq<Line>
    var mode: Mode
    var loaded: bool
    /** The code the Pyodide instance has run, in order. */
    var history: seq<string>

    ghost predicate Valid()
      reads this, fs
    {
      fs.Valid()
    }

    function State(): CommandSpec.State
      reads this, fs
    {
      CommandSpec.State(fs.State(), output, mode, loaded, history)
    }

    constructor (py: Python)
      ensures Valid() && State() == CommandSpec.Init() && this.py == py
    {
      fs := new FileSystem.VirtualFileSystem();
      this.py := py;
      output := [];
      mode := Shell;
      loaded := false;
      history := [];
    }

    method InitPyodide()
      modifies this
      ensures State() == Load(old(State()))
    {
      if !loaded {
        output := output + [Echo("Loading Pyodide...")];
        loaded := true;
        output := output + [Echo("Pyodide loaded successfully!")];
      }
    }

    /** `runPythonAsync(code)` under a try: what it prints goes through the
        stdout and stderr callbacks, then its value or error is echoed. */
    method RunCode(code: string)
      modifies this
      ensures State() == Run(py, old(State()), code)
    {
      var run := py(history, code);
      output := output + run.printed;
      match run.value {
        case Undefined =>
        case Value(t) => output := output + [Echo(t)];
        case Raised(m) => output := output + [Error(m)];
      }
      history := history + [code];
    }

    /** A line typed at the terminal: to handleCommand in the shell, to the
        interpreter pushed by `python` in the REPL. */
    method Input(line: string)
      requires Valid()
      modifies this, fs
      ensures Valid() && State() == CommandSpec.Input(py, old(State()), line)
    {
      match mode
      case Shell =>
        HandleCommand(line);
      case Repl =>
        if Trim(line) == "exit()" {
          mode := Shell;
        } else {
          RunCode(line);
        }
    }

    method HandleCommand(command: string)
      requires Valid()
      modifies this, fs
      ensures Valid() && State() == Exec(py, old(State()), command)
    {
      var args := Args(command);
      if args == [] {
        return;
      }
      var thrown := Switch(args[0], args[1..]);
      // the catch around the switch
      if thrown.Fail? {
        output := output + [Error(Message(thrown.error))];
      }
    }

    /** The switch; its cases are taken in groups of like handlers. */
    method Switch(cmd: string, cmdArgs: seq<string>) returns (thrown: Outcome<FsError>)
      requires Valid()
      modifies this, fs
      ensures Valid() && Catch(State(), thrown) == Dispatch(py, old(State()), cmd, cmdArgs)
    {
      if VerbOf(cmd) in {CdVerb, CpVerb, MvVerb, MkdirVerb, TouchVerb, RmVerb} {
        thrown := SwitchThrowing(cmd, cmdArgs);
      } else {
        SwitchCatching(cmd, cmdArgs);
        thrown := Pass;
      }
    }

    /** The cases whose handler lets a filesystem error reach the catch. */
    method SwitchThrowing(cmd: string, cmdArgs: seq<string>) returns (thrown: Outcome<FsError>)
      requires Valid() && VerbOf(cmd) in {CdVerb, CpVerb, MvVerb, MkdirVerb, TouchVerb, RmVerb}
      modifies this, fs
      ensures Valid() && Catch(State(), thrown) == Dispatch(py, old(State()), cmd, cmdArgs)
    {
      if VerbOf(cmd) in {CdVerb, CpVerb, MvVerb} {
        thrown := SwitchSingleCall(cmd, cmdArgs);
      } else {
        thrown := SwitchPerArgument(cmd, cmdArgs);
      }
    }

    /** Handlers that make one filesystem call. */
    method SwitchSingleCall(cmd: string, cmdArgs: seq<string>) returns (thrown: Outcome<FsError>)
      requires Valid() && VerbOf(cmd) in {CdVerb, CpVerb, MvVerb}
      modifies this, fs
      ensures Valid() && Catch(State(), thrown) == Dispatch(py, old(State()), cmd, cmdArgs)
    {
      var verb := VerbOf(cmd);
      if verb == CdVerb {
        thrown := Cd(cmdArgs);
      } else if verb == CpVerb {
        thrown := Cp(cmdArgs);
      } else {
        thrown := Mv(cmdArgs);
      }
    }

    /** Handlers that call the filesystem once per argument. */
    method SwitchPerArgument(cmd: string, cmdArgs: seq<string>) returns (thrown: Outcome<FsError>)
      requires Valid() && VerbOf(cmd) in {MkdirVerb, TouchVerb, RmVerb}
      modifies this, fs
      ensures Valid() && Catch(State(), thrown) == Dispatch(py, old(State()), cmd, cmdArgs)
    {
      var verb := VerbOf(cmd);
      if verb == MkdirVerb {
        thrown := Mkdir(cmdArgs);
      } else if verb == TouchVerb {
        thrown := Touch(cmdArgs);
      } else {
        thrown := Rm(cmdArgs);
      }
    }

    /** The cases that throw nothing to the catch. */
    method SwitchCatching(cmd: string, cmdArgs: seq<string>)
      requires Valid() && VerbOf(cmd) in {LsVerb, CatVerb, PwdVerb, EchoVerb, HelpVerb, PythonVerb, NotFound}
      modifies this
      ensures Valid() && State() == Dispatch(py, old(State()), cmd, cmdArgs)
    {
      var verb := VerbOf(cmd);
      if verb in {LsVerb, CatVerb} {
        SwitchReporting(cmd, cmdArgs);
      } else if verb in {PwdVerb, EchoVerb, HelpVerb} {
        SwitchPrinting(cmd, cmdArgs);
      } else {
        SwitchOther(cmd, cmdArgs);
      }
    }

    /** Handlers that catch the error of each argument and go on. */
    method SwitchReporting(cmd: string, cmdArgs: seq<string>)
      requires Valid() && VerbOf(cmd) in {LsVerb, CatVerb}
      modifies this
      ensures Valid() && State() == Dispatch(py, old(State()), cmd, cmdArgs)
    {
      if VerbOf(cmd) == LsVerb {
        Ls(cmdArgs);
      } else {
        Cat(cmdArgs);
      }
    }

    /** Handlers that echo one line. */
    method SwitchPrinting(cmd: string, cmdArgs: seq<string>)
      requires Valid() && VerbOf(cmd) in {PwdVerb, EchoVerb, HelpVerb}
      modifies this
      ensures Valid() && State() == Dispatch(py, old(State()), cmd, cmdArgs)
    {
      var verb := VerbOf(cmd);
      if verb == PwdVerb {
        Pwd();
      } else if verb == EchoVerb {
        EchoArgs(cmdArgs);
      } else {
        Help();
      }
    }

    /** python, and the default case. */
    method SwitchOther(cmd: string, cmdArgs: seq<string>)
      requires Valid() && VerbOf(cmd) in {PythonVerb, NotFound}
      modifies this
      ensures Valid() && State() == Dispatch(py, old(State()), cmd, cmdArgs)
    {
      if VerbOf(cmd) == PythonVerb {
        Python(cmdArgs);
      } else {
        output := output + [Error("Command not found: " + cmd)];
      }
    }

    method Ls(args: seq<string>)
      modifies this
      ensures State() == LsCmd(old(State()), args)
    {
      var options := Flags(args);
      var paths := Operands(args);
      var showHidden := "-a" in options;
      LsEach(paths, showHidden);
    }

    /** `for (const path of paths)` with a try inside: every path is reported
        in order. */
    method LsEach(paths: seq<string>, showHidden: bool)
      modifies this
      ensures output == old(output) + LsLines(fs.State(), paths, showHidden)
      ensures mode == old(mode) && loaded == old(loaded) && history == old(history)
    {
      var i := 0;
      while i < |paths|
        invariant 0 <= i <= |paths|
        invariant mode == old(mode) && loaded == old(loaded) && history == old(history)
        invariant output == old(output) + LsLines(fs.State(), paths[..i], showHidden)
      {
        ListOne(paths[i], showHidden);
        assert paths[..i + 1][..i] == paths[..i];
        i := i + 1;
      }
      assert paths[..i] == paths;
    }

    /** The body of ls's loop: one listing, or the error caught for this path. */
    method ListOne(path: string, showHidden: bool)
      modifies this
      ensures output == old(output) + [LsLine(fs.State(), path, showHidden)]
      ensures mode == old(mode) && loaded == old(loaded) && history == old(history)
    {
      var r := fs.Ls(path, showHidden);
      match r {
        case Ok(files) => output := output + [Echo(Join(files, "  "))];
        case Err(e) => output := output + [Error(Message(e))];
      }
    }

    method Cd(args: seq<string>) returns (thrown: Outcome<FsError>)
      requires Valid()
      modifies this, fs
      ensures Valid() && Catch(State(), thrown) == CdCmd(old(State()), args)
    {
      if |args| != 1 {
        output := output + [Error("Usage: cd <directory>")];
        return Pass;
      }
      thrown := fs.Cd(args[0]);
    }

    method Pwd()
      modifies this
      ensures State() == PwdCmd(old(State()))
    {
      var p := fs.Pwd();
      output := output + [Echo(p)];
    }

    /** `args.forEach(a => this.fs.op(a))`: the first throw leaves the loop
        with the changes made so far. */
    method ForEach(op: Op, args: seq<string>) returns (thrown: Outcome<FsError>)
      requires Valid()
      modifies fs
      ensures Valid() && fs.currentPath == old(fs.currentPath)
      ensures Each(op, old(fs.State()), args) == FsSpec.Effect(fs.root, thrown)
    {
      var i := 0;
      while i < |args|
        invariant 0 <= i <= |args|
        invariant Valid() && fs.currentPath == old(fs.currentPath)
        invariant Each(op, old(fs.State()), args) == Each(op, fs.State(), args[i..])
      {
        assert args[i..][0] == args[i] && args[i..][1..] == args[i + 1..];
        var out := ApplyOne(op, args[i]);
        if out.Fail? {
          return out;
        }
        i := i + 1;
      }
      return Pass;
    }

    /** The callback of the forEach: one filesystem call. */
    method ApplyOne(op: Op, arg: string) returns (out: Outcome<FsError>)
      requires Valid()
      modifies fs
      ensures Valid() && fs.currentPath == old(fs.currentPath)
      ensures match Apply(op, old(fs.State()), arg)
        case Ok(r) => fs.root == r && out == Pass
        case Err(e) => fs.root == old(fs.root) && out == Fail(e)
    {
      match op {
        case MkdirOp => out := fs.Mkdir(arg);
        case TouchOp => out := fs.Touch(arg);
        case RmOp(recursive) => out := fs.Rm(arg, recursive);
      }
    }

    method Mkdir(args: seq<string>) returns (thrown: Outcome<FsError>)
      requires Valid()
      modifies this, fs
      ensures Valid() && Catch(State(), thrown) == MkdirCmd(old(State()), args)
    {
      if args == [] {
        output := output + [Error("Usage: mkdir <directory>")];
        return Pass;
      }
      thrown := ForEach(MkdirOp, args);
    }

    method Touch(args: seq<string>) returns (thrown: Outcome<FsError>)
      requires Valid()
      modifies this, fs
      ensures Valid() && Catch(State(), thrown) == TouchCmd(old(State()), args)
    {
      if args == [] {
        output := output + [Error("Usage: touch <file>")];
        return Pass;
      }
      thrown := ForEach(TouchOp, args);
    }

    method Rm(args: seq<string>) returns (thrown: Outcome<FsError>)
      requires Valid()
      modifies this, fs
      ensures Valid() && Catch(State(), thrown) == RmCmd(old(State()), args)
    {
      var recursive := "-r" in args || "-rf" in args;
      var files := Operands(args);
      if files == [] {
        output := output + [Error("Usage: rm [-r] <file>")];
        return Pass;
      }
      thrown := ForEach(RmOp(recursive), files);
    }

    method Cp(args: seq<string>) returns (thrown: Outcome<FsError>)
      requires Valid()
      modifies this, fs
      ensures Valid() && Catch(State(), thrown) == CpCmd(old(State()), args)
    {
      if |args| != 2 {
        output := output + [Error("Usage: cp <source> <destination>")];
        return Pass;
      }
      thrown := fs.Cp(args[0], args[1]);
    }

    method Mv(args: seq<string>) returns (thrown: Outcome<FsError>)
      requires Valid()
      modifies this, fs
      ensures Valid() && Catch(State(), thrown) == MvCmd(old(State()), args)
    {
      if |args| != 2 {
        output := output + [Error("Usage: mv <source> <destination>")];
        return Pass;
      }
      thrown := fs.Mv(args[0], args[1]);
    }

    method Cat(args: seq<string>)
      modifies this
      ensures State() == CatCmd(old(State()), args)
    {
      if args == [] {
        output := output + [Error("Usage: cat <file>")];
      } else {
        CatEach(args);
      }
    }

    /** `args.forEach` with a try inside: every file is reported in order. */
    method CatEach(files: seq<string>)
      modifies this
      ensures output == old(output) + CatLines(fs.State(), files)
      ensures mode == old(mode) && loaded == old(loaded) && history == old(history)
    {
      var i := 0;
      while i < |files|
        invariant 0 <= i <= |files|
        invariant mode == old(mode) && loaded == old(loaded) && history == old(history)
        invariant output == old(output) + CatLines(fs.State(), files[..i])
      {
        CatOne(files[i]);
        assert files[..i + 1][..i] == files[..i];
        i := i + 1;
      }
      assert files[..i] == files;
    }

    /** The body of cat's loop: the content, or the error caught for this file. */
    method CatOne(file: string)
      modifies this
      ensures output == old(output) + [CatLine(fs.State(), file)]
      ensures mode == old(mode) && loaded == old(loaded) && history == old(history)
    {
      var r := fs.ReadFile(file);
      match r {
        case Ok(content) => output := output + [Echo(content)];
        case Err(e) => output := output + [Error(Message(e))];
      }
    }

    method EchoArgs(args: seq<string>)
      modifies this
      ensures State() == EchoCmd(old(State()), args)
    {
      output := output + [Echo(Join(args, " "))];
    }

    method Python(args: seq<string>)
      modifies this
      ensures State() == PythonCmd(py, old(State()), args)
    {
      InitPyodide();
      if |args| > 0 {
        RunCode(Join(args, " "));
      } else {
        output := output + [Echo("Python 3.11.3 (Pyodide)")];
        output := output + [Echo("Type \"exit()\" to return to shell")];
        mode := Repl;
      }
    }

    method Help()
      modifies this
      ensures State() == HelpCmd(old(State()))
    {
      output := output + [Echo(HelpText())];
    }
  }
}
