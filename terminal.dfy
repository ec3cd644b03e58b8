/** What both command handlers share: the terminal they write to, modelled
    as an append-only log of echoed and error lines plus the mode that
    jQuery Terminal's interpreter stack puts it in, and the Python evaluator,
    modelled as an opaque function of the code run so far. */
module Terminal {
  import opened Paths
  import opened Tokenizer

  /** `terminal.echo(text)` and `terminal.error(text)`. */
  datatype Line = Echo(text: string) | Error(text: string)

  /** Shell: lines go to handleCommand. Repl: the interpreter pushed by
      `python` without arguments receives them. */
  datatype Mode = Shell | Repl

  /** What `await pyodide.runPythonAsync(code)` gives: undefined (Python's
      None), a value the terminal echoes, or an exception with its message. */
  datatype PyValue = Undefined | Value(text: string) | Raised(message: string)

  /** One evaluation: the lines printed through the stdout and stderr
      callbacks while it ran, then its value. */
  datatype PyRun = PyRun(printed: seq<Line>, value: PyValue)

  /** Pyodide: the outcome of running `code` after everything in `history`
      ran in the same interpreter. */
  type Python = (seq<string>, string) -> PyRun

  /** The lines the value of an evaluation adds: nothing for undefined, an
      echo of the value, or the caught error's message. */
  function ValueLines(v: PyValue): (r: seq<Line>)
    ensures |r| <= 1
    ensures v.Undefined? <==> r == []
  {
    match v
    case Undefined => []
    case Value(t) => [Echo(t)]
    case Raised(m) => [Error(m)]
  }

  /** The lines an evaluation adds to the log, in order. */
  function RunLines(run: PyRun): seq<Line> {
    run.printed + ValueLines(run.value)
  }

  /** What initPyodide echoes around the first load. */
  const LoadLines: seq<Line> := [Echo("Loading Pyodide..."), Echo("Pyodide loaded successfully!")]

  /** What `python` without arguments echoes before pushing the REPL. */
  const BannerLines: seq<Line> := [Echo("Python 3.11.3 (Pyodide)"), Echo("Type \"exit()\" to return to shell")]

  /** The prompt of the pushed REPL interpreter. */
  const ReplPrompt: string := ">>> "

  /** String.prototype.trim: white space and line terminators off both ends. */
  function Trim(s: string): (r: string)
    ensures |r| <= |s|
    ensures r != [] ==> !IsSpace(r[0]) && !IsSpace(r[|r| - 1])
    ensures r == [] <==> forall i :: 0 <= i < |s| ==> IsSpace(s[i])
  {
    var t := TrimStart(s);
    var r := TrimEnd(t);
    TrimBlank(s, t, r);
    r
  }

  lemma TrimBlank(s: string, t: string, r: string)
    requires t == TrimStart(s) && r == TrimEnd(t)
    ensures r != [] ==> !IsSpace(r[0])
    ensures r == [] <==> forall i :: 0 <= i < |s| ==> IsSpace(s[i])
  {
    var k := |s| - |t|;
    if r == [] {
      forall i | 0 <= i < |s| ensures IsSpace(s[i]) {
        if i >= k {
          assert s[i] == t[i - k];
        }
      }
    } else {
      assert r[0] == t[0] && t[0] == s[k];
    }
  }

  function TrimStart(s: string): (r: string)
    ensures |r| <= |s| && r == s[|s| - |r|..]
    ensures r != [] ==> !IsSpace(r[0])
    ensures forall i :: 0 <= i < |s| - |r| ==> IsSpace(s[i])
  {
    if s != [] && IsSpace(s[0]) then
      var r := TrimStart(s[1..]);
      assert forall i :: 1 <= i < |s| ==> s[i] == s[1..][i - 1];
      r
    else s
  }

  function TrimEnd(s: string): (r: string)
    ensures |r| <= |s| && r == s[..|r|]
    ensures r != [] ==> !IsSpace(r[|r| - 1])
    ensures forall i :: |r| <= i < |s| ==> IsSpace(s[i])
  {
    if s != [] && IsSpace(s[|s| - 1]) then
      var r := TrimEnd(s[..|s| - 1]);
      assert forall i :: 0 <= i < |s| - 1 ==> s[i] == s[..|s| - 1][i];
      r
    else s
  }

  /** `args.filter(arg => arg.startsWith('-'))`. */
  function Flags(args: seq<string>): (r: seq<string>)
    ensures forall x :: x in r <==> x in args && StartsWith(x, '-')
  {
    if args == [] then []
    else if StartsWith(args[0], '-') then [args[0]] + Flags(args[1..])
    else Flags(args[1..])
  }

  /** `args.filter(arg => !arg.startsWith('-'))`. */
  function Operands(args: seq<string>): (r: seq<string>)
    ensures forall x :: x in r <==> x in args && !StartsWith(x, '-')
    ensures |r| <= |args|
  {
    if args == [] then []
    else if StartsWith(args[0], '-') then Operands(args[1..])
    else [args[0]] + Operands(args[1..])
  }

  lemma {:induction false} FilterSplit(args: seq<string>)
    ensures |Flags(args)| + |Operands(args)| == |args|
  {
    if args != [] {
      FilterSplit(args[1..]);
    }
  }

  /** A help line that documents `verb`: two spaces, the verb, a space. */
  predicate Documents(line: string, verb: string) {
    "  " + verb + " " <= line
  }
}
