/** The VirtualFileSystem class of src/lib/filesystem.ts (and its compiled
    twin filesystem.js): the tree and the current path as fields, each
    operation a method proved to compute the function of FsSpec.

    The source walks a `current` cursor down the tree and assigns or
    deletes through it in place. A tree value cannot be changed through a
    cursor, so the walks here keep the directories they pass through as
    frames and put the changed child back into them afterwards. */
module FileSystem {
  import opened Results
  import opened Paths
  import opened Tree
  import opened TreeProperties
  import FsSpec

  /** One step of a walk: the children of the directory left, and the key followed. */
  datatype Frame = Frame(siblings: seq<(string, Node)>, key: string)

  /** Stores `n` back under the frames, innermost first. */
  function Plug(frames: seq<Frame>, n: Node): Node
    decreases |frames|
  {
    if frames == [] then n
    else
      var f := frames[|frames| - 1];
      Plug(frames[..|frames| - 1], Dir(Set(f.siblings, f.key, n)))
  }

  function Lift(frames: seq<Frame>, r: Result<Node, FsError>): Result<Node, FsError> {
    match r
    case Err(e) => Err(e)
    case Ok(n) => Ok(Plug(frames, n))
  }

  lemma PlugSnoc(frames: seq<Frame>, f: Frame, n: Node)
    ensures Plug(frames + [f], n) == Plug(frames, Dir(Set(f.siblings, f.key, n)))
  {
    assert (frames + [f])[..|frames|] == frames;
  }

  /** One step of mkdir's walk moves a directory onto the frames. */
  lemma MkdirStep(frames: seq<Frame>, ch: seq<(string, Node)>, parts: seq<string>, i: nat)
    requires i < |parts|
    ensures Lift(frames, MkdirAt(Dir(ch), parts[i..])) ==
      Lift(frames + [Frame(ch, parts[i])], MkdirAt(Descend(ch, parts[i]), parts[i + 1..]))
  {
    assert parts[i..][0] == parts[i] && parts[i..][1..] == parts[i + 1..];
    var r := MkdirAt(Descend(ch, parts[i]), parts[i + 1..]);
    if r.Ok? {
      PlugSnoc(frames, Frame(ch, parts[i]), r.value);
    }
  }

  /** One step of the walk of touch and writeFile. */
  lemma WriteStep(frames: seq<Frame>, ch: seq<(string, Node)>, parts: seq<string>, i: nat, leaf: Node)
    requires i < |parts| - 1
    ensures Lift(frames, WriteAt(Dir(ch), parts[i..], leaf)) ==
      Lift(frames + [Frame(ch, parts[i])], WriteAt(Descend(ch, parts[i]), parts[i + 1..], leaf))
  {
    assert parts[i..][0] == parts[i] && parts[i..][1..] == parts[i + 1..];
    var r := WriteAt(Descend(ch, parts[i]), parts[i + 1..], leaf);
    if r.Ok? {
      PlugSnoc(frames, Frame(ch, parts[i]), r.value);
    }
  }

  /** One step of rm's walk, through a truthy child `c`. */
  lemma RmStep(frames: seq<Frame>, ch: seq<(string, Node)>, c: Node, parts: seq<string>, i: nat,
               recursive: bool, path: string)
    requires i < |parts| - 1 && LiveGet(ch, parts[i]) == Some(c)
    ensures Lift(frames, RmAt(Dir(ch), parts[i..], recursive, path)) ==
      Lift(frames + [Frame(ch, parts[i])], RmAt(c, parts[i + 1..], recursive, path))
    ensures Plug(frames + [Frame(ch, parts[i])], c) == Plug(frames, Dir(ch))
  {
    assert parts[i..][0] == parts[i] && parts[i..][1..] == parts[i + 1..];
    var r := RmAt(c, parts[i + 1..], recursive, path);
    if r.Ok? {
      PlugSnoc(frames, Frame(ch, parts[i]), r.value);
    }
    PlugSnoc(frames, Frame(ch, parts[i]), c);
    SetExisting(ch, parts[i], c);
  }

  /** rm's walk stops at a file or a missing or falsy intermediate. */
  lemma RmMissing(n: Node, parts: seq<string>, i: nat, recursive: bool, path: string)
    requires i < |parts| - 1
    requires n.File? || LiveGet(n.children, parts[i]).None?
    ensures RmAt(n, parts[i..], recursive, path) == Err(NoSuchFile(path))
  {
    assert parts[i..][0] == parts[i];
  }

  /** The last step of rm's walk, at the parent of the target. */
  lemma RmLast(frames: seq<Frame>, n: Node, k: string, recursive: bool, path: string)
    ensures n.File? ==> Lift(frames, RmAt(n, [k], recursive, path)) == Ok(Plug(frames, n))
    ensures n.Dir? && !recursive && Get(n.children, k).Some? && Get(n.children, k).value.Dir? ==>
      Lift(frames, RmAt(n, [k], recursive, path)) == Err(CannotRemoveDirectory(path))
    ensures n.Dir? && !(!recursive && Get(n.children, k).Some? && Get(n.children, k).value.Dir?) ==>
      Lift(frames, RmAt(n, [k], recursive, path)) == Ok(Plug(frames, Dir(Remove(n.children, k))))
  {
  }

  /** Puts the changed child back, from the innermost frame outwards. */
  method Rebuild(frames: seq<Frame>, n: Node) returns (r: Node)
    ensures r == Plug(frames, n)
  {
    r := n;
    var j := |frames|;
    assert frames[..j] == frames;
    while j > 0
      invariant 0 <= j <= |frames|
      invariant Plug(frames, n) == Plug(frames[..j], r)
    {
      var f := frames[j - 1];
      assert frames[..j][..j - 1] == frames[..j - 1];
      r := Dir(Set(f.siblings, f.key, r));
      j := j - 1;
    }
  }

  class VirtualFileSystem {
    var root: Node
    var currentPath: string

    /** The root is a directory and every directory has distinct, segment-shaped
        keys. The current path is deliberately not constrained: only cd checks it. */
    ghost predicate Valid()
      reads this
    {
      root.Dir? && WF(root)
    }

    function State(): FsSpec.FsState
      reads this
    {
      FsSpec.FsState(root, currentPath)
    }

    constructor ()
      ensures Valid() && State() == FsSpec.Init()
    {
      root := Dir([]);
      currentPath := "/";
    }

    method ResolvePath(path: string) returns (r: string)
      ensures r == Resolve(currentPath, path)
    {
      if StartsWith(path, '/') {
        return path;
      }
      var current := Segments(currentPath);
      ghost var start := current;
      var parts := Segments(path);
      var i := 0;
      while i < |parts|
        invariant 0 <= i <= |parts|
        invariant current == Walk(start, parts[..i])
      {
        var part := parts[i];
        if part == ".." {
          if |current| > 0 {
            current := current[..|current| - 1];
          }
        } else if part != "." {
          current := current + [part];
        }
        assert parts[..i + 1][..i] == parts[..i];
        i := i + 1;
      }
      assert parts[..i] == parts;
      r := "/" + Join(current, "/");
    }

    method GetNode(path: string) returns (r: Result<Node, FsError>)
      ensures r == FsSpec.GetNode(root, path)
    {
      var parts := Segments(path);
      var current := root;
      var i := 0;
      while i < |parts|
        invariant 0 <= i <= |parts|
        invariant Lookup(root, parts) == Lookup(current, parts[i..])
      {
        assert parts[i..][0] == parts[i] && parts[i..][1..] == parts[i + 1..];
        var next := if current.Dir? then LiveGet(current.children, parts[i]) else None;
        if next.None? {
          return Err(NoSuchFile(path));
        }
        current := next.value;
        i := i + 1;
      }
      return Ok(current);
    }

    method Mkdir(path: string) returns (out: Outcome<FsError>)
      requires Valid()
      modifies this
      ensures Valid() && currentPath == old(currentPath)
      ensures match FsSpec.Mkdir(old(State()), path)
        case Ok(r) => root == r && out == Pass
        case Err(e) => root == old(root) && out == Fail(e)
    {
      var fullPath := ResolvePath(path);
      var parts := Segments(fullPath);
      var current := root;
      var frames: seq<Frame> := [];
      var i := 0;
      while i < |parts|
        invariant 0 <= i <= |parts|
        invariant root == old(root) && currentPath == old(currentPath)
        invariant MkdirAt(root, parts) == Lift(frames, MkdirAt(current, parts[i..]))
      {
        assert parts[i..][0] == parts[i] && parts[i..][1..] == parts[i + 1..];
        match current
        case File(s) =>
          return Fail(CannotCreateProperty(parts[i], s));
        case Dir(ch) =>
          MkdirStep(frames, ch, parts, i);
          frames := frames + [Frame(ch, parts[i])];
          current := Descend(ch, parts[i]);
        i := i + 1;
      }
      assert parts[i..] == [];
      MkdirAtWF(root, parts);
      root := Rebuild(frames, current);
      out := Pass;
    }

    method Cd(path: string) returns (out: Outcome<FsError>)
      modifies this
      ensures root == old(root)
      ensures match FsSpec.Cd(old(State()), path)
        case Ok(c) => currentPath == c && out == Pass
        case Err(e) => currentPath == old(currentPath) && out == Fail(e)
    {
      var newPath := ResolvePath(path);
      var node := GetNode(newPath);
      match node
      case Err(e) =>
        return Fail(e);
      case Ok(n) =>
        if !n.Dir? {
          return Fail(NotADirectory(path));
        }
        currentPath := newPath;
        out := Pass;
    }

    method Ls(path: string, showHidden: bool) returns (r: Result<seq<string>, FsError>)
      ensures r == FsSpec.Ls(State(), path, showHidden)
    {
      var targetPath := ResolvePath(path);
      var node := GetNode(targetPath);
      match node
      case Err(e) =>
        return Err(e);
      case Ok(n) =>
        if !n.Dir? {
          return Err(NotADirectory(path));
        }
        r := Ok(FsSpec.Visible(Keys(n.children), showHidden));
    }

    method Pwd() returns (p: string)
      ensures p == FsSpec.Pwd(State())
    {
      p := currentPath;
    }

    /** The body shared by touch and writeFile: create the intermediates as
        mkdir does, then set the last segment to `leaf`. cp also calls it with
        a directory as `leaf`. */
    method WriteNode(path: string, leaf: Node) returns (out: Outcome<FsError>)
      requires Valid() && WF(leaf)
      modifies this
      ensures Valid() && currentPath == old(currentPath)
      ensures match FsSpec.Put(old(root), Resolve(old(currentPath), path), leaf)
        case Ok(r) => root == r && out == Pass
        case Err(e) => root == old(root) && out == Fail(e)
    {
      var fullPath := ResolvePath(path);
      var parts := Segments(fullPath);
      if parts == [] {
        return Pass;
      }
      var fileName := parts[|parts| - 1];
      var current := root;
      var frames: seq<Frame> := [];
      var i := 0;
      while i < |parts| - 1
        invariant 0 <= i <= |parts| - 1
        invariant root == old(root) && currentPath == old(currentPath)
        invariant WriteAt(root, parts, leaf) == Lift(frames, WriteAt(current, parts[i..], leaf))
      {
        assert parts[i..][0] == parts[i] && parts[i..][1..] == parts[i + 1..];
        match current
        case File(s) =>
          return Fail(CannotCreateProperty(parts[i], s));
        case Dir(ch) =>
          WriteStep(frames, ch, parts, i, leaf);
          frames := frames + [Frame(ch, parts[i])];
          current := Descend(ch, parts[i]);
        i := i + 1;
      }
      assert parts[i..] == [fileName];
      ghost var before := root;
      out := WriteLast(frames, current, fileName, leaf);
      if out.Pass? {
        WriteAtWF(before, parts, leaf);
      }
    }

    /** The last step of touch and writeFile: set `key` of the directory `n`
        the walk reached, and put it back under the frames. */
    method WriteLast(frames: seq<Frame>, n: Node, key: string, leaf: Node) returns (out: Outcome<FsError>)
      modifies this
      ensures currentPath == old(currentPath)
      ensures match Lift(frames, WriteAt(n, [key], leaf))
        case Ok(r) => root == r && out == Pass
        case Err(e) => root == old(root) && out == Fail(e)
    {
      match n
      case File(s) =>
        return Fail(CannotCreateProperty(key, s));
      case Dir(ch) =>
        root := Rebuild(frames, Dir(Set(ch, key, leaf)));
        out := Pass;
    }

    method Touch(path: string) returns (out: Outcome<FsError>)
      requires Valid()
      modifies this
      ensures Valid() && currentPath == old(currentPath)
      ensures match FsSpec.Touch(old(State()), path)
        case Ok(r) => root == r && out == Pass
        case Err(e) => root == old(root) && out == Fail(e)
    {
      out := WriteNode(path, File(""));
    }

    method WriteFile(path: string, content: string) returns (out: Outcome<FsError>)
      requires Valid()
      modifies this
      ensures Valid() && currentPath == old(currentPath)
      ensures match FsSpec.WriteFile(old(State()), path, content)
        case Ok(r) => root == r && out == Pass
        case Err(e) => root == old(root) && out == Fail(e)
    {
      out := WriteNode(path, File(content));
    }

    method ReadFile(path: string) returns (r: Result<string, FsError>)
      ensures r == FsSpec.ReadFile(State(), path)
    {
      var fullPath := ResolvePath(path);
      var node := GetNode(fullPath);
      match node
      case Err(e) =>
        return Err(e);
      case Ok(n) =>
        if !n.File? {
          return Err(NotAFile(path));
        }
        r := Ok(n.content);
    }

    method Rm(path: string, recursive: bool) returns (out: Outcome<FsError>)
      requires Valid()
      modifies this
      ensures Valid() && currentPath == old(currentPath)
      ensures match FsSpec.Rm(old(State()), path, recursive)
        case Ok(r) => root == r && out == Pass
        case Err(e) => root == old(root) && out == Fail(e)
    {
      var fullPath := ResolvePath(path);
      var parts := Segments(fullPath);
      if parts == [] {
        return Pass;
      }
      out := RemoveAt(parts, recursive, path);
    }

    /** rm's walk over the segments of the resolved path. */
    method RemoveAt(parts: seq<string>, recursive: bool, path: string) returns (out: Outcome<FsError>)
      requires Valid() && parts != [] && AllSegments(parts)
      modifies this
      ensures Valid() && currentPath == old(currentPath)
      ensures match RmAt(old(root), parts, recursive, path)
        case Ok(r) => root == r && out == Pass
        case Err(e) => root == old(root) && out == Fail(e)
    {
      var current := root;
      var frames: seq<Frame> := [];
      var i := 0;
      while i < |parts| - 1
        invariant 0 <= i <= |parts| - 1
        invariant root == old(root) && currentPath == old(currentPath)
        invariant RmAt(root, parts, recursive, path) == Lift(frames, RmAt(current, parts[i..], recursive, path))
        invariant Plug(frames, current) == root
      {
        match current
        case File(_) =>
          RmMissing(current, parts, i, recursive, path);
          return Fail(NoSuchFile(path));
        case Dir(ch) =>
          var next := LiveGet(ch, parts[i]);
          if next.None? {
            RmMissing(current, parts, i, recursive, path);
            return Fail(NoSuchFile(path));
          }
          RmStep(frames, ch, next.value, parts, i, recursive, path);
          frames := frames + [Frame(ch, parts[i])];
          current := next.value;
        i := i + 1;
      }
      assert parts[i..] == [parts[i]];
      ghost var before := root;
      out := RemoveLast(frames, current, parts[i], recursive, path);
      if out.Pass? {
        RmAtWF(before, parts, recursive, path);
      }
    }

    /** The last step of rm: delete `key` from the directory `n` the walk
        reached, and put it back under the frames. */
    method RemoveLast(frames: seq<Frame>, n: Node, key: string, recursive: bool, path: string)
      returns (out: Outcome<FsError>)
      requires Plug(frames, n) == root
      modifies this
      ensures currentPath == old(currentPath)
      ensures match Lift(frames, RmAt(n, [key], recursive, path))
        case Ok(r) => root == r && out == Pass
        case Err(e) => root == old(root) && out == Fail(e)
    {
      RmLast(frames, n, key, recursive, path);
      match n
      case File(_) =>
        // `delete` of a key of a string primitive changes nothing
        return Pass;
      case Dir(ch) =>
        if !recursive && Get(ch, key).Some? && Get(ch, key).value.Dir? {
          return Fail(CannotRemoveDirectory(path));
        }
        root := Rebuild(frames, Dir(Remove(ch, key)));
        out := Pass;
    }

    method Cp(source: string, dest: string) returns (out: Outcome<FsError>)
      requires Valid()
      modifies this
      ensures Valid() && currentPath == old(currentPath)
      ensures match FsSpec.Cp(old(State()), source, dest)
        case Ok(r) => root == r && out == Pass
        case Err(e) => root == old(root) && out == Fail(e)
    {
      var sourcePath := ResolvePath(source);
      var destPath := ResolvePath(dest);
      var sourceNode := GetNode(sourcePath);
      match sourceNode
      case Err(e) =>
        return Fail(e);
      case Ok(n) =>
        LookupWF(root, Segments(sourcePath));
        out := WriteNode(destPath, n);
    }

    method Mv(source: string, dest: string) returns (out: Outcome<FsError>)
      requires Valid()
      modifies this
      ensures Valid() && currentPath == old(currentPath)
      ensures FsSpec.Mv(old(State()), source, dest) == FsSpec.Effect(root, out)
    {
      out := Cp(source, dest);
      if out.Pass? {
        out := Rm(source, true);
      }
    }
  }
}
