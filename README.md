# bolt-terminal: the virtual filesystem and the command handlers

bolt-terminal is a browser terminal. Its core is two classes.

- `VirtualFileSystem` keeps an in-memory tree. A directory is an object keyed
  by child name, and a file is a string. It also keeps a current path. It
  offers `resolvePath`, `getNode`, `mkdir`, `cd`, `ls`, `pwd`, `touch`,
  `writeFile`, `readFile`, `rm`, `cp` and `mv` (`src/lib/filesystem.ts`).
  `src/lib/filesystem.js` is the same logic as emitted JavaScript, at the
  lines given at the end of this file.
- `CommandHandler` splits a typed line with a quote-aware regular
  expression. It dispatches on the first word to a handler that calls the
  filesystem and writes to the terminal. `python` either runs code through
  Pyodide or pushes a Python REPL onto the terminal (`src/lib/commands.ts`).
  The older `src/lib/commands.js` has the same tokenizer and verbs. Each of
  its filesystem handlers catches its own errors, refreshes the listing
  after each success, and echoes a prompt showing its own `currentDir`
  field. It also has `git` and `vi`.

The model has three layers.

- **Values.** A directory is `Tree.Node.Dir`, an association list in
  insertion order, which is the order `Object.keys` gives. A file is
  `File(content)`. An empty file is falsy in JavaScript, so every walk
  treats it as missing (`Tree.Live`). The walks of `getNode`, `mkdir`,
  `touch`/`writeFile` and `rm` are the functions `Lookup`, `MkdirAt`,
  `WriteAt` and `RmAt`. The operations of the class are the functions of
  `FsSpec`, over the pair (tree, current path).
- **Classes.**
  - `FileSystem.VirtualFileSystem` has the source's fields `root` and
    `currentPath`. Its methods walk a cursor down the tree in `while`
    loops, exactly as the source does. The cursor is a zipper of frames,
    and each method rebuilds the tree upward when it writes. Each method is
    proved to leave the state, the result and the error that the `FsSpec`
    function gives.
  - `Commands.CommandHandler` and `LegacyCommands.LegacyCommandHandler` own
    a `VirtualFileSystem`, the terminal log, the mode and the Python state.
    Each `handleCommand` is proved equal to a function of the state:
    `CommandSpec.Exec` for the newer handler, `LegacySpec.Exec` for the
    older one.
- **Properties** (modules `TreeProperties`, `FsProperties`,
  `CommandProperties` and `LegacyProperties`) are lemmas over those
  functions.

The terminal is an append-only log of `Echo(text)` and `Error(text)` lines.
jQuery Terminal's interpreter stack is the mode `Shell` or `Repl`. Pyodide's
`runPythonAsync` is a parameter `py` of type `Terminal.Python`: an opaque
function from the code run so far and the new code to the lines it prints
and its value. Loading Pyodide always succeeds in the model. A
thrown JavaScript error is a `Tree.FsError` carried by `Result` or
`Outcome`, and `Tree.Message` gives its `error.message`.

Where the code and its documentation disagree, this model follows the
code. Four cases:

- An absolute path is returned by `resolvePath` unchanged, so `/a/../b`
  looks up a child literally named `..`.
- The current path can name something that no longer exists: only `cd`
  checks it (`FsProperties.CwdCanDangle`).
- `ls` without a path argument lists nothing. `args.filter(...)` is an
  array, and an empty array is truthy, so the `|| ['.']` fallback never
  applies (`CommandProperties.LsWithoutPaths`).
- The help text of `src/lib/commands.js` advertises `rm -f`, and `force` is
  passed to `rm`, but `rm` takes two parameters, so it has no effect
  (`LegacyProperties.ForceIgnored`).

## Model

| member | source | states |
|---|---|---|
| Paths.Resolve | src/lib/filesystem.ts:9-24 | the result always starts with `/`, and an absolute path comes back verbatim |
| Paths.ResolveSegments | src/lib/filesystem.ts:9-24 | the segments of the result are those of an absolute path, or the walk of the relative path's segments from the current path |
| Paths.ResolveRelativeClean | src/lib/filesystem.ts:12-23 | from a clean current path, a relative path resolves to segments with no empty, `.` or `..` entry |
| Paths.WalkClean | src/lib/filesystem.ts:15-21 | the push/pop loop keeps a clean segment list clean when given non-empty parts |
| Paths.ResolveIdempotent | src/lib/filesystem.ts:9-24 | resolving a resolved path gives it back, whatever the current path |
| Paths.SegmentsOfRooted | src/lib/filesystem.ts:23-27 | `'/' + parts.join('/')` split on `/` and filtered for empties gives `parts` back |
| Paths.JoinSplit | src/lib/filesystem.ts:23-27 | joining a split with the same separator gives the string back |
| Paths.SplitJoin | src/lib/filesystem.ts:23-27 | splitting a join of separator-free parts gives the parts back |
| Paths.NonEmptyIdentity | src/lib/filesystem.ts:27 | `filter(Boolean)` leaves a list without empty strings unchanged |
| Paths.WalkSegments | src/lib/filesystem.ts:15-21 | the loop over segment-shaped parts yields segment-shaped parts |
| Paths.Split | src/lib/filesystem.ts:27 | `split('/')` yields at least one piece and no piece holds the separator |
| Paths.NonEmpty | src/lib/filesystem.ts:27 | `filter(Boolean)` keeps exactly the non-empty pieces |
| Paths.Segments | src/lib/filesystem.ts:27 | every segment is non-empty and free of `/` |
| Paths.Step | src/lib/filesystem.ts:16-20 | definition of one iteration of the resolve loop: `..` pops (nothing at the root), `.` is skipped, anything else is pushed; WalkClean and WalkSegments are about it |
| Paths.Walk | src/lib/filesystem.ts:15-21 | definition of the resolve loop over all parts, left to right; WalkClean and WalkSegments are about it |
| Paths.Join | src/lib/filesystem.ts:23 | definition of `Array.join`: the parts with the separator between them; JoinSplit and SplitJoin are about it |
| Tree.Get | src/lib/filesystem.ts:31 | a child is found exactly when its key is present |
| Tree.Set | src/lib/filesystem.ts:45 | assigning a key gives that key the value, keeps every other key, and appends a new key at the end of the key order |
| Tree.Remove | src/lib/filesystem.ts:139 | `delete` leaves the key absent, every other key unchanged, and no entry added |
| Tree.SetExisting | src/lib/filesystem.ts:45 | assigning a key its own value changes nothing |
| Tree.RemoveUnique | src/lib/filesystem.ts:139 | deleting keeps the keys distinct and adds no entry |
| Tree.SetMembers | src/lib/filesystem.ts:45 | assigning adds no entry other than the assigned one |
| Tree.GetWF | src/lib/filesystem.ts:32 | a child of a well-formed directory is well formed |
| Tree.SetWF | src/lib/filesystem.ts:45 | assigning a well-formed node at a segment keeps the directory well formed |
| Tree.RemoveWF | src/lib/filesystem.ts:139 | deleting keeps the directory well formed |
| Tree.Descend | src/lib/filesystem.ts:44-47 | the node the creating walks move to is never falsy |
| Tree.MkdirAt | src/lib/filesystem.ts:41-48 | a successful mkdir walk yields a directory |
| Tree.WriteAt | src/lib/filesystem.ts:81-92 | a successful touch or writeFile walk yields a directory |
| Tree.RmAt | src/lib/filesystem.ts:128-140 | a successful rm walk keeps a directory a directory and leaves a file alone |
| Tree.Message | src/lib/filesystem.ts:31-137 | definition of `error.message` of each thrown error, with the messages of lines 31, 56, 67, 118, 131 and 137 and the strict-mode TypeError of an assignment on a string |
| Tree.Lookup | src/lib/filesystem.ts:26-36 | definition of getNode's loop: each segment needs a truthy child of a directory, and a walk into a string finds nothing; LookupAppend, LookupLive, LookupSet and LookupRemove are about it |
| Tree.RmVerdict | src/lib/filesystem.ts:128-140 | reference definition of rm's outcome, read off the parent of the target before any change; RmAtVerdict proves RmAt agrees with it |
| TreeProperties.LookupAppend | src/lib/filesystem.ts:30-33 | looking up `a + b` is looking up `b` from where `a` ends |
| TreeProperties.LookupLive | src/lib/filesystem.ts:31 | what a non-empty path finds is never an empty file |
| TreeProperties.LookupWF | src/lib/filesystem.ts:30-35 | what a lookup finds in a well-formed tree is well formed |
| TreeProperties.DescendWF | src/lib/filesystem.ts:44-47 | the node a creating walk moves to is well formed |
| TreeProperties.LookupSet | src/lib/filesystem.ts:45 | a lookup after an assignment sees the new child on its key and the old tree elsewhere |
| TreeProperties.LookupRemove | src/lib/filesystem.ts:139 | a lookup after a delete finds nothing under the key and the old tree elsewhere |
| TreeProperties.BlockedStep | src/lib/filesystem.ts:43-48 | a path runs into a file exactly when its tail does from the first step |
| TreeProperties.MkdirAtFails | src/lib/filesystem.ts:41-48 | the mkdir walk fails exactly when a proper prefix names a non-empty file |
| TreeProperties.MkdirAtTarget | src/lib/filesystem.ts:41-48 | afterwards the path holds what it held, or an empty directory if it was missing |
| TreeProperties.MkdirAtFrame | src/lib/filesystem.ts:41-48 | no path that is not a prefix of the created path changes: only the directories along it gain a child |
| TreeProperties.MkdirAtIdempotent | src/lib/filesystem.ts:41-48 | a second mkdir walk succeeds with the same tree |
| TreeProperties.MkdirAtWF | src/lib/filesystem.ts:41-48 | the mkdir walk keeps the tree well formed |
| TreeProperties.WriteAtFails | src/lib/filesystem.ts:81-92 | the touch/writeFile walk fails exactly when a proper prefix names a non-empty file |
| TreeProperties.WriteAtTarget | src/lib/filesystem.ts:81-92 | afterwards the path holds the written node, or reads as missing if it is the empty file |
| TreeProperties.WriteAtFrame | src/lib/filesystem.ts:81-92 | no path that is neither a prefix nor an extension of the target changes |
| TreeProperties.WriteAtWF | src/lib/filesystem.ts:81-92 | the write walk keeps the tree well formed |
| TreeProperties.RmAtVerdict | src/lib/filesystem.ts:128-140 | the rm walk fails exactly as the independent verdict says (missing or falsy intermediate, or a directory without `recursive`), with the same error |
| TreeProperties.RmAtTarget | src/lib/filesystem.ts:128-140 | after a successful rm the parent exists, the target is absent, and only its entry left the parent (a file parent is left alone) |
| TreeProperties.RmLastTarget | src/lib/filesystem.ts:135-140 | the last step deletes the key from a directory and leaves a file alone |
| TreeProperties.RmAtFrame | src/lib/filesystem.ts:128-140 | no path that is neither a prefix nor an extension of the target changes |
| TreeProperties.RmAtWF | src/lib/filesystem.ts:128-140 | the rm walk keeps the tree well formed |
| FileSystem.MkdirStep | src/lib/filesystem.ts:43-48 | one iteration of mkdir's loop moves the walk one frame down without changing its outcome |
| FileSystem.WriteStep | src/lib/filesystem.ts:83-88 | one iteration of touch's loop moves the walk one frame down without changing its outcome |
| FileSystem.RmStep | src/lib/filesystem.ts:130-133 | one iteration of rm's loop moves the walk one frame down without changing its outcome |
| FileSystem.RmMissing | src/lib/filesystem.ts:131 | a missing or falsy intermediate fails with "No such file or directory" and the caller's path |
| FileSystem.RmLast | src/lib/filesystem.ts:135-140 | the final step of rm: nothing on a file, "Cannot remove directory" without `recursive`, otherwise the key deleted |
| FileSystem.Rebuild | src/lib/filesystem.ts:45 | rebuilding the frames around a node gives the whole tree |
| FileSystem.VirtualFileSystem.constructor | src/lib/filesystem.ts:5-7 | an empty root directory and current path `/` |
| FileSystem.VirtualFileSystem.ResolvePath | src/lib/filesystem.ts:9-24 | the loop computes `Resolve` of the current path and the argument |
| FileSystem.VirtualFileSystem.GetNode | src/lib/filesystem.ts:26-36 | the loop returns the node at the path, or "No such file or directory" quoting the path |
| FileSystem.VirtualFileSystem.Mkdir | src/lib/filesystem.ts:38-49 | the loop leaves the tree of `FsSpec.Mkdir`, or its error with the tree unchanged; the current path does not move |
| FileSystem.VirtualFileSystem.Cd | src/lib/filesystem.ts:51-60 | on success the current path is the resolved path, on failure it is unchanged with the error of `FsSpec.Cd`; the tree never changes |
| FileSystem.VirtualFileSystem.Ls | src/lib/filesystem.ts:62-71 | returns `FsSpec.Ls` and changes nothing |
| FileSystem.VirtualFileSystem.Pwd | src/lib/filesystem.ts:73-75 | returns the current path |
| FileSystem.VirtualFileSystem.WriteNode | src/lib/filesystem.ts:95-111 | the shared walk of touch and writeFile leaves the tree of `FsSpec.Put`, or its error with the tree unchanged |
| FileSystem.VirtualFileSystem.WriteLast | src/lib/filesystem.ts:108-110 | the final assignment: a property on a string throws, a directory gets the key set |
| FileSystem.VirtualFileSystem.Touch | src/lib/filesystem.ts:77-93 | leaves the tree of `FsSpec.Touch`, or its error with the tree unchanged |
| FileSystem.VirtualFileSystem.WriteFile | src/lib/filesystem.ts:95-111 | leaves the tree of `FsSpec.WriteFile`, or its error with the tree unchanged |
| FileSystem.VirtualFileSystem.ReadFile | src/lib/filesystem.ts:113-122 | returns `FsSpec.ReadFile` and changes nothing |
| FileSystem.VirtualFileSystem.Rm | src/lib/filesystem.ts:124-141 | leaves the tree of `FsSpec.Rm`, or its error with the tree unchanged |
| FileSystem.VirtualFileSystem.RemoveAt | src/lib/filesystem.ts:128-140 | the loop over the intermediates, then the final step, compute `RmAt` |
| FileSystem.VirtualFileSystem.RemoveLast | src/lib/filesystem.ts:135-140 | the final step of rm under the frames computes `RmAt` of one segment |
| FileSystem.VirtualFileSystem.Cp | src/lib/filesystem.ts:143-149 | leaves the tree of `FsSpec.Cp`, or its error with the tree unchanged |
| FileSystem.VirtualFileSystem.Mv | src/lib/filesystem.ts:151-154 | leaves the tree and outcome of `FsSpec.Mv`: the copy stays if the rm half fails |
| FsSpec.Init | src/lib/filesystem.ts:2-7 | definition of the constructed state: an empty root directory and current path `/` |
| FsSpec.GetNode | src/lib/filesystem.ts:26-36 | definition: the node Lookup finds, or "No such file or directory" quoting the path; ReadABF is about it |
| FsSpec.Mkdir | src/lib/filesystem.ts:38-49 | definition: the mkdir walk on the resolved path; MkdirFails, MkdirIdempotent, MkdirThenCd and MkdirFrame are about it |
| FsSpec.Cd | src/lib/filesystem.ts:51-60 | definition: the resolved path if it names a directory, else getNode's error or "Not a directory" quoting the argument; CdOutcome is about it |
| FsSpec.Ls | src/lib/filesystem.ts:62-71 | definition: the visible keys of the directory, in key order, or getNode's error or "Not a directory"; LsExact and LsOfFile are about it |
| FsSpec.Pwd | src/lib/filesystem.ts:73-75 | definition: the current path |
| FsSpec.Put | src/lib/filesystem.ts:79-110 | definition of the walk touch and writeFile share; the root path, which has no file name, changes nothing; WriteFileFails and WriteOnly are about it |
| FsSpec.Touch | src/lib/filesystem.ts:77-93 | definition: Put of the empty file at the resolved path; TouchThenRead is about it |
| FsSpec.WriteFile | src/lib/filesystem.ts:95-111 | definition: Put of the content at the resolved path; WriteFileFails, WriteThenRead and WriteFileFrame are about it |
| FsSpec.ReadFile | src/lib/filesystem.ts:113-122 | definition: the file's content, or getNode's error or "Not a file"; ReadNeverEmpty and ReadFileOfDir are about it |
| FsSpec.Rm | src/lib/filesystem.ts:124-141 | definition: the rm walk on the resolved path, with no change for the root path; RmFails, RmRemoves, RmAbsent and RmRoot are about it |
| FsSpec.Cp | src/lib/filesystem.ts:143-149 | definition: the source node read first, then written at the destination; CpFails, CpCopies and CpFrame are about it |
| FsSpec.Mv | src/lib/filesystem.ts:151-154 | definition: cp, then a recursive rm from the state cp left, keeping the copy when rm fails; MvCopyFails, MvRemovesSource, MvMoves and MvFrame are about it |
| FsSpec.Visible | src/lib/filesystem.ts:70 | keeps exactly the names allowed by `showHidden`, in order |
| FsProperties.TargetOfResolved | src/lib/filesystem.ts:143-148 | cp's second resolution of the destination changes nothing |
| FsProperties.ReadNeverEmpty | src/lib/filesystem.ts:113-122 | readFile never returns the empty string |
| FsProperties.WriteFileFails | src/lib/filesystem.ts:95-111 | writeFile fails exactly when a proper prefix of the target is a non-empty file; a root path changes nothing |
| FsProperties.WriteThenRead | src/lib/filesystem.ts:95-122 | after writeFile, readFile gives the content, or "No such file" if it was empty |
| FsProperties.TouchThenRead | src/lib/filesystem.ts:77-122 | reading a freshly touched file fails with "No such file or directory" |
| FsProperties.WriteFileFrame | src/lib/filesystem.ts:95-111 | writeFile changes no path that is neither a prefix nor an extension of the target |
| FsProperties.ReadFileOfDir | src/lib/filesystem.ts:113-122 | reading a directory fails with "Not a file" |
| FsProperties.MkdirFails | src/lib/filesystem.ts:38-49 | mkdir fails exactly when it runs into a non-empty file; `mkdir('/')` changes nothing |
| FsProperties.MkdirIdempotent | src/lib/filesystem.ts:38-49 | a second mkdir of the same path succeeds with the same tree |
| FsProperties.MkdirThenCd | src/lib/filesystem.ts:38-60 | after mkdir, cd into the path succeeds unless a non-empty file already sat there |
| FsProperties.MkdirFrame | src/lib/filesystem.ts:38-49 | no path that is not a prefix of the created path changes: only the directories along it gain a child |
| FsProperties.CdOutcome | src/lib/filesystem.ts:51-60 | cd succeeds exactly on a directory and moves to the resolved path; a missing node fails "No such file or directory" with the resolved path, a file "Not a directory" with the argument |
| FsProperties.CdThenLs | src/lib/filesystem.ts:51-71 | after cd, `ls .` lists what `ls path` listed |
| FsProperties.VisibleUnique | src/lib/filesystem.ts:70 | the filter keeps names distinct |
| FsProperties.LsExact | src/lib/filesystem.ts:62-71 | ls lists exactly the keys of the directory that the hidden filter admits, each once |
| FsProperties.LsOfFile | src/lib/filesystem.ts:62-71 | ls of a file fails with "Not a directory" |
| FsProperties.RmAtAbsent | src/lib/filesystem.ts:135-140 | deleting an absent final name under a directory succeeds with no change |
| FsProperties.RemoveAbsent | src/lib/filesystem.ts:139 | deleting an absent key changes nothing |
| FsProperties.RmFails | src/lib/filesystem.ts:124-141 | rm fails exactly as the verdict says, with the same error |
| FsProperties.RmRemoves | src/lib/filesystem.ts:124-141 | afterwards the target is absent, only its entry left the parent, and nothing unrelated changed |
| FsProperties.RmAbsent | src/lib/filesystem.ts:135-140 | rm of an absent final name succeeds with no change |
| FsProperties.RmRoot | src/lib/filesystem.ts:135 | rm of the root path changes nothing |
| FsProperties.CpFails | src/lib/filesystem.ts:143-149 | cp fails exactly when the source is missing or empty or the destination walk runs into a file; a missing source reports its resolved path |
| FsProperties.CpCopies | src/lib/filesystem.ts:143-149 | after cp the destination holds the source node and, when the two paths are unrelated, the source is unchanged |
| FsProperties.CpFrame | src/lib/filesystem.ts:143-149 | cp changes no path that is neither a prefix nor an extension of the destination |
| FsProperties.MvCopyFails | src/lib/filesystem.ts:151-154 | a failed cp makes mv fail with the tree unchanged |
| FsProperties.MvRemovesSource | src/lib/filesystem.ts:151-154 | after a successful mv of anything but the root the source is absent, wherever the destination is |
| FsProperties.MvMoves | src/lib/filesystem.ts:151-154 | after a successful mv between unrelated paths the destination holds the node the source held |
| FsProperties.MvFrame | src/lib/filesystem.ts:151-154 | mv changes no path unrelated to the source and the destination |
| FsProperties.SegmentsOf | src/lib/filesystem.ts:27 | a rooted join of segments splits back into them |
| FsProperties.Dot | src/lib/filesystem.ts:9-24 | `.` resolves to the normalised current path |
| FsProperties.SegmentsABF | src/lib/filesystem.ts:27 | `/a/b/f` has segments `a`, `b`, `f` |
| FsProperties.CopyOntoAncestor | src/lib/filesystem.ts:143-149 | copying `/a/b/f` onto `/a` replaces the directory `a` by the file |
| FsProperties.ReadABF | src/lib/filesystem.ts:26-36 | getNode finds the file at `/a/b/f` |
| FsProperties.LookupOnly | src/lib/filesystem.ts:30-33 | looking up through a one-child directory is looking up in the child |
| FsProperties.PutOnA | src/lib/filesystem.ts:95-111 | writing a file at `/a` replaces the directory there |
| FsProperties.RmThroughFile | src/lib/filesystem.ts:130-133 | rm through a file fails with "No such file or directory" |
| FsProperties.MvFailsAfterCopy | src/lib/filesystem.ts:151-154 | moving `/a/b/f` onto `/a` fails in its rm half and keeps the copy |
| FsProperties.MvIntoItself | src/lib/filesystem.ts:151-154 | moving `/a` into `/a/b` removes `a` altogether |
| FsProperties.CpIntoItself | src/lib/filesystem.ts:143-149 | copying `/a` into `/a/b` nests a copy of the old `a` |
| FsProperties.WriteOnly | src/lib/filesystem.ts:101-110 | writing through a one-child directory is writing in the child |
| FsProperties.RmCopy | src/lib/filesystem.ts:124-141 | rm -r of `/a` empties the root |
| FsProperties.CwdCanDangle | src/lib/filesystem.ts:124-141 | removing the directory the current path names succeeds, and `ls .` then fails |
| Tokenizer.IndexOf | src/lib/commands.ts:28 | the first index of a character, or -1 exactly when it is absent |
| Tokenizer.TokenLen | src/lib/commands.ts:28 | a token never runs past the input |
| Tokenizer.Unquote | src/lib/commands.ts:29 | only a token that starts and ends with `"` loses exactly its two outer quotes |
| Tokenizer.UnquoteAll | src/lib/commands.ts:28-30 | the map unquotes each token in place |
| Tokenizer.Tokens | src/lib/commands.ts:28 | definition of the global match: maximal tokens left to right, a position where nothing matches skipped; NoTokens, TokenShape and TokensOfWords are about it |
| Tokenizer.Args | src/lib/commands.ts:28-30 | definition of the argument vector: the matches unquoted, or `[]` when nothing matches; ArgsOfWords and QuotedArgument are about it |
| Tokenizer.QuotesNone | src/lib/commands.ts:28 | no quote is counted exactly when there is none |
| Tokenizer.NoTokens | src/lib/commands.ts:28-32 | a line has no token exactly when it is blank |
| Tokenizer.SpacesGiveNothing | src/lib/commands.ts:28-32 | a line of white space gives no argument |
| Tokenizer.TokenLenWord | src/lib/commands.ts:28 | a plain word followed by a space or the end is one whole token |
| Tokenizer.ArgsOfWords | src/lib/commands.ts:28-30 | plain words joined by spaces tokenize back to the words |
| Tokenizer.TokensOfWords | src/lib/commands.ts:28 | the regular expression matches each plain word |
| Tokenizer.UnquoteWords | src/lib/commands.ts:29 | plain words are not unquoted |
| Tokenizer.TokenShape | src/lib/commands.ts:28 | every token is non-empty and holds an even number of quotes |
| Tokenizer.QuotesAppend | src/lib/commands.ts:28 | quote counts add up over concatenation |
| Tokenizer.IndexOfAppend | src/lib/commands.ts:28 | the closing quote is found right after a quote-free body |
| Tokenizer.QuotedLen | src/lib/commands.ts:28 | a quoted group is one unit of the token, spaces included |
| Tokenizer.QuotedSplit | src/lib/commands.ts:28 | a matched quote splits into quote, body, quote and rest |
| Tokenizer.TokenEven | src/lib/commands.ts:28 | a token holds an even number of quotes |
| Tokenizer.PlainQuotes | src/lib/commands.ts:28 | a plain first character adds no quote |
| Tokenizer.QuotedQuotes | src/lib/commands.ts:28 | a quoted group adds exactly two quotes |
| Tokenizer.TokensStep | src/lib/commands.ts:28 | a whole word followed by a space is the first token |
| Tokenizer.TokensWhole | src/lib/commands.ts:28 | a line that is one whole token is that token |
| Tokenizer.QuotedArgument | src/lib/commands.ts:28-30 | `cmd "a b"` gives `cmd` and `a b`: quoted spaces stay in one argument, without the quotes |
| Tokenizer.QuotedTokens | src/lib/commands.ts:28 | `cmd "a b"` matches two tokens, the second with its quotes |
| Tokenizer.QuotedWhole | src/lib/commands.ts:28 | a quoted group alone is one token |
| Tokenizer.InnerQuotes | src/lib/commands.ts:28-30 | quotes inside a word stay, since the token does not start with one |
| Tokenizer.TokenLenPrefix | src/lib/commands.ts:28 | plain characters extend the token |
| Tokenizer.UnmatchedQuote | src/lib/commands.ts:28-30 | an unmatched `"` is dropped and the word after it is an argument |
| Terminal.ValueLines | src/lib/commands.ts:180-186 | an undefined result echoes nothing, any other value or error one line |
| Terminal.Trim | src/lib/commands.ts:194 | `trim` removes white space at both ends only, and gives the empty string exactly for a blank line |
| Terminal.TrimBlank | src/lib/commands.ts:194 | trimming the start, then the end, leaves no white space at either end |
| Terminal.TrimStart | src/lib/commands.ts:194 | the leading white space is removed and nothing else |
| Terminal.TrimEnd | src/lib/commands.ts:194 | the trailing white space is removed and nothing else |
| Terminal.Flags | src/lib/commands.ts:84 | exactly the arguments starting with `-` |
| Terminal.Operands | src/lib/commands.ts:85 | exactly the arguments not starting with `-` |
| Terminal.FilterSplit | src/lib/commands.ts:84-85 | every argument is either a flag or an operand |
| CommandSpec.Init | src/lib/commands.ts:5-12 | definition of the constructed handler: a fresh filesystem, an empty log, the shell mode, Pyodide not loaded |
| CommandSpec.Apply | src/lib/commands.ts:115-135 | definition of one filesystem call of mkdir, touch or rm |
| CommandSpec.Each | src/lib/commands.ts:115-135 | definition of `forEach` without a catch: the first failure ends the loop and the changes before it stay; EachAppend is about it |
| CommandSpec.Catch | src/lib/commands.ts:78-80 | definition of the outer catch: a thrown error is logged by its message |
| CommandSpec.Report | src/lib/commands.ts:78-80 | definition: the tree a handler left, then its caught error; ReportKeeps is about it |
| CommandSpec.LsLine | src/lib/commands.ts:89-94 | definition of one listing: the names joined by two spaces, or the bare error message |
| CommandSpec.LsCmd | src/lib/commands.ts:83-96 | definition of ls over the operands with `-a`; LsWithoutPaths, LsPlain and LsSequence are about it |
| CommandSpec.CdCmd | src/lib/commands.ts:98-104 | definition of cd: the usage error, the new current path or the error; CdMoves and CdKeepsTree are about it |
| CommandSpec.PwdCmd | src/lib/commands.ts:106-108 | definition: one line with the current path |
| CommandSpec.MkdirCmd | src/lib/commands.ts:110-116 | definition: the usage error, or the loop reported; MkdirSequence is about it |
| CommandSpec.TouchCmd | src/lib/commands.ts:118-124 | definition: the usage error, or the loop reported; TouchSequence is about it |
| CommandSpec.RmCmd | src/lib/commands.ts:126-136 | definition: the usage error, or the loop over the operands reported; RmFlags is about it |
| CommandSpec.CpCmd | src/lib/commands.ts:138-144 | definition: the usage error, the new tree or the error |
| CommandSpec.MvCmd | src/lib/commands.ts:146-152 | definition: the usage error, or mv's effect reported with a failed rm half keeping the copy |
| CommandSpec.CatLine | src/lib/commands.ts:160-165 | definition of one file's line: its content or the bare error message |
| CommandSpec.CatCmd | src/lib/commands.ts:154-167 | definition: the usage error, or one line per file; CatSequence is about it |
| CommandSpec.EchoCmd | src/lib/commands.ts:169-171 | definition: one line with the arguments joined by a space |
| CommandSpec.Load | src/lib/commands.ts:14-25 | definition of initPyodide: the two load lines and the loaded flag on the first call only; PythonLoadsOnce is about it |
| CommandSpec.Run | src/lib/commands.ts:180-186 | definition of one runPythonAsync call: its printed lines, its value or error, the code recorded |
| CommandSpec.PythonCmd | src/lib/commands.ts:173-211 | definition of python: load, then run the joined arguments or enter the REPL; PythonRuns, PythonKeepsTree and PythonAlone are about it |
| CommandSpec.HelpCmd | src/lib/commands.ts:213-228 | definition: one line with the help text; HelpCoversVerbs is about it |
| CommandSpec.Dispatch | src/lib/commands.ts:37-80 | definition of the switch with its catch; DispatchKeeps, DispatchGrows, Frames and UnknownVerb are about it |
| CommandSpec.Exec | src/lib/commands.ts:27-81 | definition of handleCommand: nothing for a blank line, else dispatch on the first argument; BlankLine is about it |
| CommandSpec.ReplLine | src/lib/commands.ts:193-206 | definition of the pushed interpreter: a trimmed `exit()` pops it, anything else runs untrimmed; ReplInput is about it |
| CommandSpec.Input | src/lib/commands.ts:27-209 | definition: a line goes to the shell or the REPL by mode; OutputGrows is about it |
| CommandSpec.LsLines | src/lib/commands.ts:88-95 | one line per path |
| CommandSpec.CatLines | src/lib/commands.ts:159-166 | one line per file |
| CommandSpec.VerbOf | src/lib/commands.ts:38-77 | a known verb is recognised by its own name; the default case is taken exactly for a word outside the twelve verbs |
| CommandProperties.BlankLine | src/lib/commands.ts:28-32 | a blank line changes nothing |
| CommandProperties.UnknownVerb | src/lib/commands.ts:75-76 | an unknown verb adds one "Command not found" line and nothing else |
| CommandProperties.ArityChecks | src/lib/commands.ts:98-157 | each bad arity adds its one usage line and changes nothing else; flags count as arguments |
| CommandProperties.ReportKeeps | src/lib/commands.ts:78-80 | reporting a caught error only appends to the log |
| CommandProperties.TreeVerbsKeep | src/lib/commands.ts:110-152 | mkdir, touch, rm, cp and mv keep the current path, mode and Python state and only append to the log |
| CommandProperties.CdKeepsTree | src/lib/commands.ts:98-104 | cd changes no file |
| CommandProperties.PythonKeepsTree | src/lib/commands.ts:173-211 | python changes no file and only appends to the log |
| CommandProperties.DispatchKeeps | src/lib/commands.ts:37-80 | every verb but cd and python keeps the current path, mode and Python state |
| CommandProperties.DispatchGrows | src/lib/commands.ts:37-80 | every handler only appends to the log |
| CommandProperties.OutputGrows | src/lib/commands.ts:27-80 | every typed line only appends to the log |
| CommandProperties.ReadOnlyVerbs | src/lib/commands.ts:83-108 | ls, pwd, cat, echo, help and unknown verbs change no state but the log |
| CommandProperties.Frames | src/lib/commands.ts:37-80 | only cd moves the current path, only python changes the mode or Python state, and cd changes no file |
| CommandProperties.CdMoves | src/lib/commands.ts:98-104 | a successful cd moves to the resolved path and prints nothing |
| CommandProperties.LsWithoutPaths | src/lib/commands.ts:83-96 | ls with only flags prints nothing: the `['.']` fallback never applies |
| CommandProperties.RmFlags | src/lib/commands.ts:126-136 | `-rf` is `-r`, and any other flag is ignored |
| CommandProperties.EachAppend | src/lib/commands.ts:115 | the loop over `a + b` stops in `a` at its first failure, else goes on in `b` |
| CommandProperties.MkdirSequence | src/lib/commands.ts:110-116 | `mkdir a b` is `mkdir a` when that fails, else `mkdir a` then `mkdir b` |
| CommandProperties.TouchSequence | src/lib/commands.ts:118-124 | `touch a b` is `touch a` when that fails, else `touch a` then `touch b` |
| CommandProperties.CatLinesAppend | src/lib/commands.ts:159-166 | cat's lines for `a + b` are those for `a`, then for `b` |
| CommandProperties.LsLinesAppend | src/lib/commands.ts:88-95 | ls's lines for `a + b` are those for `a`, then for `b` |
| CommandProperties.CatSequence | src/lib/commands.ts:154-167 | `cat a b` is `cat a` then `cat b`: a failing file does not stop the rest |
| CommandProperties.LsPlain | src/lib/commands.ts:83-96 | ls of plain paths lists each without hidden names |
| CommandProperties.LsSequence | src/lib/commands.ts:83-96 | `ls a b` is `ls a` then `ls b` |
| CommandProperties.OperandsPlain | src/lib/commands.ts:85 | plain arguments are all operands |
| CommandProperties.FlagsNone | src/lib/commands.ts:84 | plain arguments hold no flag |
| CommandProperties.OperandsNone | src/lib/commands.ts:128 | flags alone leave no operand |
| CommandProperties.HelpCoversVerbs | src/lib/commands.ts:213-228 | every verb of the switch is documented, in the order of the switch |
| CommandProperties.PythonLoadsOnce | src/lib/commands.ts:14-25 | python leaves Pyodide loaded and the tree alone; the log gains the two load lines only when Pyodide was not loaded, then the code's output or the banner; python on an unloaded state equals python after the load |
| CommandProperties.PythonRuns | src/lib/commands.ts:173-211 | `python code` runs the code and stays in the shell; `python` alone enters the REPL and runs nothing |
| CommandProperties.ReplInput | src/lib/commands.ts:193-209 | in the REPL, a line trimming to `exit()` returns to the shell and reaches no evaluator, and any other line is run and its output logged |
| CommandProperties.ArgsOfVerb | src/lib/commands.ts:28-30 | a plain word is its own single argument |
| CommandProperties.TrimExit | src/lib/commands.ts:194 | `exit()` trims to itself |
| CommandProperties.PythonAlone | src/lib/commands.ts:187-210 | `python` alone loads Pyodide, prints the banner and enters the REPL |
| CommandProperties.PythonThenExit | src/lib/commands.ts:187-210 | `python` then `exit()` returns to the shell with only the load lines and banner added |
| CommandProperties.PythonExitLines | src/lib/commands.ts:193-194 | `python` tokenizes to itself and `exit()` trims to itself |
| Commands.CommandHandler.constructor | src/lib/commands.ts:9-12 | a fresh filesystem and log, Pyodide not loaded |
| Commands.CommandHandler.InitPyodide | src/lib/commands.ts:14-25 | loads once and says so |
| Commands.CommandHandler.RunCode | src/lib/commands.ts:180-186 | logs what the code prints and its value or error |
| Commands.CommandHandler.Input | src/lib/commands.ts:193-209 | a line goes to the shell or the REPL according to the mode |
| Commands.CommandHandler.HandleCommand | src/lib/commands.ts:27-81 | the state afterwards is `CommandSpec.Exec` of the state before, with every thrown error caught and logged |
| Commands.CommandHandler.Switch | src/lib/commands.ts:37-80 | the switch, with its catch, computes `CommandSpec.Dispatch` |
| Commands.CommandHandler.SwitchThrowing | src/lib/commands.ts:42-62 | the verbs that can throw compute `Dispatch` once their error is caught |
| Commands.CommandHandler.SwitchSingleCall | src/lib/commands.ts:42-62 | cd, cp and mv compute `Dispatch` once their error is caught |
| Commands.CommandHandler.SwitchPerArgument | src/lib/commands.ts:48-56 | mkdir, touch and rm compute `Dispatch` once their error is caught |
| Commands.CommandHandler.SwitchCatching | src/lib/commands.ts:39-76 | the verbs that throw nothing compute `Dispatch` |
| Commands.CommandHandler.SwitchReporting | src/lib/commands.ts:39-65 | ls and cat compute `Dispatch` |
| Commands.CommandHandler.SwitchPrinting | src/lib/commands.ts:45-74 | pwd, echo and help compute `Dispatch` |
| Commands.CommandHandler.SwitchOther | src/lib/commands.ts:69-76 | python and unknown verbs compute `Dispatch` |
| Commands.CommandHandler.Ls | src/lib/commands.ts:83-96 | computes `CommandSpec.LsCmd` |
| Commands.CommandHandler.LsEach | src/lib/commands.ts:88-95 | the loop logs one line per path and changes nothing else |
| Commands.CommandHandler.ListOne | src/lib/commands.ts:89-94 | one path's listing or its caught error |
| Commands.CommandHandler.Cd | src/lib/commands.ts:98-104 | computes `CommandSpec.CdCmd` once the error is caught |
| Commands.CommandHandler.Pwd | src/lib/commands.ts:106-108 | computes `CommandSpec.PwdCmd` |
| Commands.CommandHandler.ForEach | src/lib/commands.ts:115 | the loop leaves the tree and outcome of `CommandSpec.Each`: the first failure stops it, keeping earlier changes |
| Commands.CommandHandler.ApplyOne | src/lib/commands.ts:115 | one call of mkdir, touch or rm |
| Commands.CommandHandler.Mkdir | src/lib/commands.ts:110-116 | computes `CommandSpec.MkdirCmd` once the error is caught |
| Commands.CommandHandler.Touch | src/lib/commands.ts:118-124 | computes `CommandSpec.TouchCmd` once the error is caught |
| Commands.CommandHandler.Rm | src/lib/commands.ts:126-136 | computes `CommandSpec.RmCmd` once the error is caught |
| Commands.CommandHandler.Cp | src/lib/commands.ts:138-144 | computes `CommandSpec.CpCmd` once the error is caught |
| Commands.CommandHandler.Mv | src/lib/commands.ts:146-152 | computes `CommandSpec.MvCmd` once the error is caught |
| Commands.CommandHandler.Cat | src/lib/commands.ts:154-167 | computes `CommandSpec.CatCmd` |
| Commands.CommandHandler.CatEach | src/lib/commands.ts:159-166 | the loop logs one line per file and changes nothing else |
| Commands.CommandHandler.CatOne | src/lib/commands.ts:160-165 | one file's content or its caught error |
| Commands.CommandHandler.EchoArgs | src/lib/commands.ts:169-171 | computes `CommandSpec.EchoCmd` |
| Commands.CommandHandler.Python | src/lib/commands.ts:173-211 | computes `CommandSpec.PythonCmd` |
| Commands.CommandHandler.Help | src/lib/commands.ts:213-228 | computes `CommandSpec.HelpCmd` |
| LegacySpec.Init | src/lib/commands.js:5-13 | definition of the constructed handler: the newer one's state with `currentDir = '/'` and no external call |
| LegacySpec.Prompt | src/lib/commands.js:411-413 | definition of the prompt line for a directory |
| LegacySpec.Prompted | src/lib/commands.js:411-413 | definition of updatePrompt: the prompt for `currentDir` appended; PromptedKeeps and PromptedShown are about it |
| LegacySpec.ListLine | src/lib/commands.js:206-211 | definition of one listing, or "Error listing directory: " and the message |
| LegacySpec.LsCmd | src/lib/commands.js:200-215 | definition: one line per operand, then the prompt; LsKeeps and LsShown are about it |
| LegacySpec.Refresh | src/lib/commands.js:249 | definition of `this.ls([this.fs.pwd()])` |
| LegacySpec.CdCmd | src/lib/commands.js:218-231 | definition of cd: the usage error; or the new directory, the prompt and its listing; or the prefixed error; CdSyncs, CdMoves and CdShown are about it |
| LegacySpec.PwdCmd | src/lib/commands.js:234-237 | definition: the current path, then the prompt |
| LegacySpec.Done | src/lib/commands.js:248-289 | definition of the success message of one mkdir, touch or rm argument |
| LegacySpec.Failed | src/lib/commands.js:251-292 | definition of the caught message of one mkdir, touch or rm argument |
| LegacySpec.Attempt | src/lib/commands.js:246-252 | definition of one forEach body: the call, its message and a refresh, or the caught error; AttemptLines and AttemptTree are about it |
| LegacySpec.EachArg | src/lib/commands.js:245-253 | definition of the forEach: every argument tried in order; FailureGoesOn, EachArgAppend and EachArgTree are about it |
| LegacySpec.MkdirCmd | src/lib/commands.js:240-255 | definition: the usage error, or the loop and the prompt; MkdirShown is about it |
| LegacySpec.TouchCmd | src/lib/commands.js:258-273 | definition: the usage error, or the loop and the prompt; TouchShown is about it |
| LegacySpec.RmCmd | src/lib/commands.js:276-296 | definition: the usage error, or the loop over the operands and the prompt, with `force` not passed on; ForceIgnored and RmShown are about it |
| LegacySpec.CpCmd | src/lib/commands.js:299-313 | definition: the usage error, or the copy, its message and a refresh, or the prefixed error, then the prompt; CpShown and SameCopy are about it |
| LegacySpec.MvCmd | src/lib/commands.js:316-330 | definition: as cp, with a failed rm half keeping the copy; MvShown and SameMove are about it |
| LegacySpec.ReadLine | src/lib/commands.js:339-344 | definition of one file's line: its content or "Error reading file f: " and the message |
| LegacySpec.CatCmd | src/lib/commands.js:333-347 | definition: the usage error, or one line per file and the prompt; CatKeeps is about it |
| LegacySpec.EchoCmd | src/lib/commands.js:350-353 | definition: the joined arguments, then the prompt |
| LegacySpec.PythonCmd | src/lib/commands.js:356-390 | definition: the newer handler's python, with no prompt; SamePython is about it |
| LegacySpec.HelpCmd | src/lib/commands.js:393-408 | definition: the help text, then the prompt; HelpLinesChanged is about it |
| LegacySpec.External | src/lib/commands.js:69-74 | definition of git and vi: the call recorded, nothing else; ExternalCalls is about it |
| LegacySpec.Dispatch | src/lib/commands.js:34-85 | definition of the switch; DispatchKeeps, DispatchGrows and Frames are about it |
| LegacySpec.Exec | src/lib/commands.js:28-85 | definition of handleCommand: nothing for a blank line, else dispatch; BlankLine is about it |
| LegacySpec.Input | src/lib/commands.js:28-388 | definition: a line goes to the shell or the shared REPL by mode; InputSynced and OutputGrows are about it |
| LegacySpec.ListLines | src/lib/commands.js:205-212 | one line per path |
| LegacySpec.EachArgStep | src/lib/commands.js:245-253 | the fold from one argument is the attempt at it, then the fold from the next |
| LegacySpec.ReadLines | src/lib/commands.js:338-345 | one line per file |
| LegacyCommands.LegacyCommandHandler.constructor | src/lib/commands.js:8-13 | a fresh filesystem, `currentDir = '/'`, nothing logged |
| LegacyCommands.LegacyCommandHandler.InitPyodide | src/lib/commands.js:15-26 | loads once, as the newer handler does |
| LegacyCommands.LegacyCommandHandler.RunCode | src/lib/commands.js:358-368 | runs code, as the newer handler does |
| LegacyCommands.LegacyCommandHandler.Input | src/lib/commands.js:372-388 | a line goes to the shell or the REPL according to the mode |
| LegacyCommands.LegacyCommandHandler.HandleCommand | src/lib/commands.js:28-85 | the state afterwards is `LegacySpec.Exec` of the state before |
| LegacyCommands.LegacyCommandHandler.Switch | src/lib/commands.js:34-85 | the switch computes `LegacySpec.Dispatch`; git and vi are recorded |
| LegacyCommands.LegacyCommandHandler.SwitchChanging | src/lib/commands.js:39-62 | cd, cp, mv, mkdir, touch and rm compute `Dispatch` |
| LegacyCommands.LegacyCommandHandler.SwitchSingleCall | src/lib/commands.js:39-62 | cd, cp and mv compute `Dispatch` |
| LegacyCommands.LegacyCommandHandler.SwitchPerArgument | src/lib/commands.js:45-53 | mkdir, touch and rm compute `Dispatch` |
| LegacyCommands.LegacyCommandHandler.SwitchReading | src/lib/commands.js:36-79 | the printing verbs, python and unknown verbs compute `Dispatch` |
| LegacyCommands.LegacyCommandHandler.SwitchReporting | src/lib/commands.js:36-65 | ls and cat compute `Dispatch` |
| LegacyCommands.LegacyCommandHandler.SwitchPrinting | src/lib/commands.js:42-77 | pwd, echo and help compute `Dispatch` |
| LegacyCommands.LegacyCommandHandler.SwitchOther | src/lib/commands.js:66-79 | python and unknown verbs compute `Dispatch` |
| LegacyCommands.LegacyCommandHandler.UpdatePrompt | src/lib/commands.js:411-413 | echoes `"\n" + currentDir + " ❯ "` |
| LegacyCommands.LegacyCommandHandler.Ls | src/lib/commands.js:200-215 | computes `LegacySpec.LsCmd` |
| LegacyCommands.LegacyCommandHandler.ListEach | src/lib/commands.js:205-212 | the loop logs one line per path |
| LegacyCommands.LegacyCommandHandler.ListOne | src/lib/commands.js:206-211 | one path's listing or "Error listing directory" |
| LegacyCommands.LegacyCommandHandler.Refresh | src/lib/commands.js:249 | the refresh lists the current directory |
| LegacyCommands.LegacyCommandHandler.Cd | src/lib/commands.js:218-231 | computes `LegacySpec.CdCmd` |
| LegacyCommands.LegacyCommandHandler.Pwd | src/lib/commands.js:234-237 | computes `LegacySpec.PwdCmd` |
| LegacyCommands.LegacyCommandHandler.EachArgument | src/lib/commands.js:245-253 | the loop computes the fold `EachArg` that tries every argument |
| LegacyCommands.LegacyCommandHandler.TryOne | src/lib/commands.js:246-252 | one argument: its message and a refreshed listing, or the caught error |
| LegacyCommands.LegacyCommandHandler.Mkdir | src/lib/commands.js:240-255 | computes `LegacySpec.MkdirCmd` |
| LegacyCommands.LegacyCommandHandler.Touch | src/lib/commands.js:258-273 | computes `LegacySpec.TouchCmd` |
| LegacyCommands.LegacyCommandHandler.Rm | src/lib/commands.js:276-296 | computes `LegacySpec.RmCmd` |
| LegacyCommands.LegacyCommandHandler.Cp | src/lib/commands.js:299-313 | computes `LegacySpec.CpCmd` |
| LegacyCommands.LegacyCommandHandler.Mv | src/lib/commands.js:316-330 | computes `LegacySpec.MvCmd` |
| LegacyCommands.LegacyCommandHandler.Cat | src/lib/commands.js:333-347 | computes `LegacySpec.CatCmd` |
| LegacyCommands.LegacyCommandHandler.ReadEach | src/lib/commands.js:338-345 | the loop logs one line per file |
| LegacyCommands.LegacyCommandHandler.ReadOne | src/lib/commands.js:339-344 | one file's content or "Error reading file" |
| LegacyCommands.LegacyCommandHandler.EchoArgs | src/lib/commands.js:350-353 | computes `LegacySpec.EchoCmd` |
| LegacyCommands.LegacyCommandHandler.Python | src/lib/commands.js:356-390 | computes `LegacySpec.PythonCmd` |
| LegacyCommands.LegacyCommandHandler.Help | src/lib/commands.js:393-408 | computes `LegacySpec.HelpCmd` |
| LegacyProperties.BlankLine | src/lib/commands.js:29-30 | a blank line changes nothing, not even the prompt |
| LegacyProperties.UnknownVerb | src/lib/commands.js:78-79 | an unknown verb adds one "Command not found" line and no prompt |
| LegacyProperties.ArityChecks | src/lib/commands.js:219-335 | each bad arity adds its one usage line, no prompt, and changes nothing else |
| LegacyProperties.LsKeeps | src/lib/commands.js:200-215 | ls only appends to the log |
| LegacyProperties.AttemptKeeps | src/lib/commands.js:246-252 | one attempt keeps the current path, prompt, mode and Python state |
| LegacyProperties.EachArgKeeps | src/lib/commands.js:245-253 | the per-argument loop keeps them as well |
| LegacyProperties.PromptedKeeps | src/lib/commands.js:411-413 | echoing the prompt only appends to the log |
| LegacyProperties.EachVerbKeeps | src/lib/commands.js:245-254 | the loop and its final prompt keep everything but the tree and the log |
| LegacyProperties.CpKeeps | src/lib/commands.js:299-313 | cp keeps everything but the tree and the log |
| LegacyProperties.MvKeeps | src/lib/commands.js:316-330 | mv keeps everything but the tree and the log |
| LegacyProperties.TreeVerbsKeep | src/lib/commands.js:240-330 | mkdir, touch, rm, cp and mv keep everything but the tree and the log |
| LegacyProperties.CatKeeps | src/lib/commands.js:333-347 | cat changes nothing but the log |
| LegacyProperties.PrintingKeeps | src/lib/commands.js:234-353 | printing then prompting changes nothing but the log |
| LegacyProperties.ReadVerbsKeep | src/lib/commands.js:200-408 | ls, cat, pwd, echo and help change nothing but the log |
| LegacyProperties.DispatchKeeps | src/lib/commands.js:34-85 | every verb but cd, python, git and vi keeps the current path, prompt, mode and Python state |
| LegacyProperties.CdSyncs | src/lib/commands.js:218-231 | cd changes no file, and whenever it moves, `currentDir` follows the current path |
| LegacyProperties.CdMoves | src/lib/commands.js:218-231 | a successful cd sets `currentDir` to the resolved path, echoes the prompt, the listing and the prompt; a failed one reports "Error changing directory" and moves nothing |
| LegacyProperties.PythonKeepsTree | src/lib/commands.js:356-390 | python changes no file, prompt or external call |
| LegacyProperties.ExternalCalls | src/lib/commands.js:69-74 | git and vi hand over their call and change nothing else |
| LegacyProperties.DispatchGrows | src/lib/commands.js:34-85 | every handler only appends to the log |
| LegacyProperties.OutputGrows | src/lib/commands.js:28-85 | every typed line only appends to the log |
| LegacyProperties.Frames | src/lib/commands.js:34-85 | only cd moves the current path and the prompt, only python changes the mode, only git and vi call out, and cd changes no file |
| LegacyProperties.InputSynced | src/lib/commands.js:8-231 | a fresh handler's prompt names the current path and every input keeps it so |
| LegacyProperties.FailureGoesOn | src/lib/commands.js:245-253 | a failing argument is reported and the loop goes on from the same tree, where the newer handler stops |
| LegacyProperties.EachArgAppend | src/lib/commands.js:245-253 | trying `a + b` is trying `a`, then `b` from where `a` left off |
| LegacyProperties.EachArgReports | src/lib/commands.js:245-253 | every argument adds one to three lines to the log |
| LegacyProperties.AttemptLines | src/lib/commands.js:246-252 | one attempt adds an error line, or its message, a listing and a prompt |
| LegacyProperties.EachArgTree | src/lib/commands.js:245-253 | the loop leaves the tree that the successful arguments make |
| LegacyProperties.AttemptTree | src/lib/commands.js:246-252 | one attempt leaves the tree of its call, or the old tree if it failed |
| LegacyProperties.AgreeWithoutFailures | src/lib/commands.js:245-253 | when no argument fails, the older and the newer loop leave the same tree |
| LegacyProperties.ForceIgnored | src/lib/commands.js:277-288 | `-f` changes nothing and `-rf` is `-r` |
| LegacyProperties.PromptedShown | src/lib/commands.js:411-413 | after the prompt is echoed, the last line is the prompt for `currentDir` |
| LegacyProperties.LsShown | src/lib/commands.js:200-215 | ls ends with the prompt and keeps `currentDir` |
| LegacyProperties.PrintingShown | src/lib/commands.js:234-353 | pwd, echo, help and cat with arguments end with the prompt |
| LegacyProperties.MkdirShown | src/lib/commands.js:240-255 | mkdir past its usage check ends with the prompt |
| LegacyProperties.TouchShown | src/lib/commands.js:258-273 | touch past its usage check ends with the prompt |
| LegacyProperties.RmShown | src/lib/commands.js:276-296 | rm past its usage check ends with the prompt |
| LegacyProperties.CpShown | src/lib/commands.js:299-313 | cp past its usage check ends with the prompt |
| LegacyProperties.MvShown | src/lib/commands.js:316-330 | mv past its usage check ends with the prompt |
| LegacyProperties.CdShown | src/lib/commands.js:218-231 | a successful cd ends with the prompt for the new directory |
| LegacyProperties.HelpLinesChanged | src/lib/commands.js:393-408 | the help text differs from the newer one only in the rm line, which adds `-f` |
| LegacyProperties.HelpCoversVerbs | src/lib/commands.js:393-408 | every verb of the shared switch is documented, in the order of the switch |
| LegacyProperties.HelpRm | src/lib/commands.js:400 | the rm line documents `rm` |
| LegacyProperties.NotDocumented | src/lib/commands.js:393-408 | a line documents a verb only if its third character starts the verb |
| LegacyProperties.HelpOmitsExternal | src/lib/commands.js:393-408 | no help line documents git or vi, which the switch handles |
| LegacyProperties.SamePython | src/lib/commands.js:356-390 | the REPL and the python command behave as in the newer handler |
| LegacyProperties.SameCd | src/lib/commands.js:218-231 | cd leaves the same filesystem state as the newer handler's |
| LegacyProperties.SameCopy | src/lib/commands.js:299-313 | cp leaves the same filesystem state as the newer handler's |
| LegacyProperties.SameMove | src/lib/commands.js:316-330 | mv leaves the same filesystem state as the newer handler's, including after a failed rm half |
| LegacyProperties.ReportTree | src/lib/commands.ts:78-80 | the newer handler's catch keeps the tree a partial effect left |
| LegacyProperties.SameTree | src/lib/commands.js:34-85 | every verb but mkdir, touch, rm, git and vi leaves the same filesystem state in both handlers |

`src/lib/filesystem.js` has the same logic as `filesystem.ts`, so every row
citing `filesystem.ts` applies to it too. The ranges there are:

- `resolvePath` 7-21;
- `getNode` 22-31;
- `mkdir` 32-42;
- `cd` 43-50;
- `ls` 51-58;
- `pwd` 59-61;
- `touch` 62-76;
- `writeFile` 77-91;
- `readFile` 92-99;
- `rm` 100-116;
- `cp` 117-122;
- `mv` 123-126.

## Left out

- Pyodide is not loaded from the network: `runPythonAsync` is the opaque
  parameter `py`. A Python value is
  modelled as its echoed text, with no proxy objects. Promises and the
  interleaving of asynchronous `handleCommand` calls are not modelled:
  each line is handled to completion before the next.
- jQuery Terminal's `push`/`pop` is the mode `Shell`/`Repl`. The REPL
  prompt `>>> ` is a constant and is not part of the log.
- JavaScript object quirks are not modelled: inherited keys such as
  `constructor`, integer-like keys that `Object.keys` lists first, and
  indexing a string by a digit. A walk into a string fails, or changes
  nothing in rm's final step.
- Strings are sequences of characters. There is no UTF-16 surrogate
  handling. `trim` removes the white space and line terminators listed in
  `Terminal.IsSpace`.
- FileSystem.VirtualFileSystem.Cp: `cp` of a directory stores the same
  object in the source, so the copy shares the subtree with the original,
  and `cp('/a', '/a/b')` creates a cycle. The value-typed tree makes a deep
  copy instead, so `FsProperties.CpIntoItself` shows a nested copy where
  the source has a cyclic object. Claims after a copy are about the state
  right after it.
- `git` (src/lib/commands.js:87-184) depends on isomorphic-git and the
  network, and src/tools/git.js is not part of this model. The call is
  only recorded in the `external` field of the older handler. So is
  `vi` (src/lib/commands.js:187-197), which calls an undeclared `exec`.
  The `ReferenceError` that call raises, and its report by the outer catch,
  are not modelled. Neither is the prompt either handler would echo.
- CommandSpec.Load: loading is assumed to succeed. A rejected
  `loadPyodide` (src/lib/commands.ts:17-21, src/lib/commands.js:18-22),
  after "Loading Pyodide..." has been echoed, is not modelled: neither the
  report of its error by the outer catch nor the retry on the next
  `python`, since `pyodide` stays `null`.
- The outer `catch` of the older `handleCommand`
  (src/lib/commands.js:82-84) is reachable only through `vi`'s undeclared
  `exec` and a failed Pyodide load, both left out above. `git` is `async`,
  is called without `await` and catches its own errors, so it never reaches
  it. Every other handler catches its own filesystem errors.
- `rm`'s third argument in the older handler is computed but ignored, as
  in the source; `LegacyProperties.ForceIgnored` states that it has no
  effect.
- The UI (src/App.tsx, src/App.js, src/main.js), the build configuration
  and src/scripts/pycacher.py are outside the core.
