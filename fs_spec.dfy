/** The operations of VirtualFileSystem as functions of its state (the tree
    and the current path). The class in module FileSystem is proved to
    compute exactly these. */
module FsSpec {
  import opened Results
  import opened Paths
  import opened Tree

  datatype FsState = FsState(root: Node, cwd: string)

  /** The state the constructor sets up: an empty root directory, cwd '/'. */
  function Init(): FsState {
    FsState(Dir([]), "/")
  }

  /** The state after an operation whose failure may come after a change:
      mv reports the error of its rm half with the copy already made. */
  datatype Effect = Effect(root: Node, outcome: Outcome<FsError>)

  /** getNode on an already resolved path; the message quotes that path. */
  function GetNode(root: Node, path: string): Result<Node, FsError> {
    match Lookup(root, Segments(path))
    case None => Err(NoSuchFile(path))
    case Some(n) => Ok(n)
  }

  function Mkdir(s: FsState, path: string): Result<Node, FsError> {
    MkdirAt(s.root, Segments(Resolve(s.cwd, path)))
  }

  /** The new current path, or why cd refused it. */
  function Cd(s: FsState, path: string): Result<string, FsError> {
    var newPath := Resolve(s.cwd, path);
    match GetNode(s.root, newPath)
    case Err(e) => Err(e)
    case Ok(File(_)) => Err(NotADirectory(path))
    case Ok(Dir(_)) => Ok(newPath)
  }

  /** `Object.keys(node).filter(name => showHidden || !name.startsWith('.'))`. */
  function Visible(names: seq<string>, showHidden: bool): (r: seq<string>)
    ensures forall x :: x in r <==> x in names && (showHidden || !StartsWith(x, '.'))
    ensures |r| <= |names|
  {
    if names == [] then []
    else if showHidden || !StartsWith(names[0], '.') then [names[0]] + Visible(names[1..], showHidden)
    else Visible(names[1..], showHidden)
  }

  function Ls(s: FsState, path: string, showHidden: bool): Result<seq<string>, FsError> {
    match GetNode(s.root, Resolve(s.cwd, path))
    case Err(e) => Err(e)
    case Ok(File(_)) => Err(NotADirectory(path))
    case Ok(Dir(ch)) => Ok(Visible(Keys(ch), showHidden))
  }

  function Pwd(s: FsState): string {
    s.cwd
  }

  /** The walk shared by touch and writeFile on a resolved path; a path with
      no segment (the root) has no file name and changes nothing. */
  function Put(root: Node, fullPath: string, leaf: Node): Result<Node, FsError> {
    var parts := Segments(fullPath);
    if parts == [] then Ok(root) else WriteAt(root, parts, leaf)
  }

  function Touch(s: FsState, path: string): Result<Node, FsError> {
    Put(s.root, Resolve(s.cwd, path), File(""))
  }

  function WriteFile(s: FsState, path: string, content: string): Result<Node, FsError> {
    Put(s.root, Resolve(s.cwd, path), File(content))
  }

  function ReadFile(s: FsState, path: string): Result<string, FsError> {
    match GetNode(s.root, Resolve(s.cwd, path))
    case Err(e) => Err(e)
    case Ok(Dir(_)) => Err(NotAFile(path))
    case Ok(File(c)) => Ok(c)
  }

  function Rm(s: FsState, path: string, recursive: bool): Result<Node, FsError> {
    var parts := Segments(Resolve(s.cwd, path));
    if parts == [] then Ok(s.root) else RmAt(s.root, parts, recursive, path)
  }

  /** The source node is read before anything is written; writeFile then
      stores it at the destination (a copy here, the same object in the source). */
  function Cp(s: FsState, source: string, dest: string): Result<Node, FsError> {
    var sourcePath := Resolve(s.cwd, source);
    var destPath := Resolve(s.cwd, dest);
    match GetNode(s.root, sourcePath)
    case Err(e) => Err(e)
    case Ok(n) => Put(s.root, Resolve(s.cwd, destPath), n)
  }

  /** cp, then a recursive rm of the source from the state cp left. */
  function Mv(s: FsState, source: string, dest: string): Effect {
    match Cp(s, source, dest)
    case Err(e) => Effect(s.root, Fail(e))
    case Ok(copied) =>
      match Rm(FsState(copied, s.cwd), source, true)
      case Err(e) => Effect(copied, Fail(e))
      case Ok(r) => Effect(r, Pass)
  }
}
