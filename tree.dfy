/** The directory tree of the virtual filesystem as a value, and the walks
    that filesystem.ts performs over it with its `current` cursor.

    A directory is a JavaScript object whose own keys are its child names,
    in insertion order; a file is a string. A child whose value is the empty
    string is falsy, so every walk treats it as missing. */
module Tree {
  import opened Results
  import opened Paths

  datatype Node = Dir(children: seq<(string, Node)>) | File(content: string)

  /** The errors the filesystem raises; the last one is the TypeError that
      strict-mode code gets when it assigns a property to a string primitive. */
  datatype FsError =
    | NoSuchFile(path: string)
    | NotADirectory(path: string)
    | NotAFile(path: string)
    | CannotRemoveDirectory(path: string)
    | CannotCreateProperty(key: string, target: string)

  /** `error.message` of each error. */
  function Message(e: FsError): string {
    match e
    case NoSuchFile(p) => "No such file or directory: " + p
    case NotADirectory(p) => "Not a directory: " + p
    case NotAFile(p) => "Not a file: " + p
    case CannotRemoveDirectory(p) => "Cannot remove directory: " + p
    case CannotCreateProperty(k, s) => "Cannot create property '" + k + "' on string '" + s + "'"
  }

  // ---------------------------------------------------------------------
  // A directory's children as an association list

  function Keys(ch: seq<(string, Node)>): seq<string> {
    seq(|ch|, i requires 0 <= i < |ch| => ch[i].0)
  }

  /** `current[k]`: the value of the first entry named k. */
  function Get(ch: seq<(string, Node)>, k: string): (r: Option<Node>)
    ensures r.Some? <==> k in Keys(ch)
  {
    if ch == [] then None
    else
      assert Keys(ch) == [ch[0].0] + Keys(ch[1..]);
      if ch[0].0 == k then Some(ch[0].1)
      else Get(ch[1..], k)
  }

  /** `current[k] = v`: an existing key keeps its position, a new one is appended. */
  function Set(ch: seq<(string, Node)>, k: string, v: Node): (r: seq<(string, Node)>)
    ensures Get(r, k) == Some(v)
    ensures forall j :: j != k ==> Get(r, j) == Get(ch, j)
    ensures Keys(r) == if k in Keys(ch) then Keys(ch) else Keys(ch) + [k]
  {
    if ch == [] then
      assert Keys([(k, v)]) == [k];
      [(k, v)]
    else
      KeysCons(ch[0], ch[1..]);
      assert [ch[0]] + ch[1..] == ch;
      if ch[0].0 == k then
        var r := [(k, v)] + ch[1..];
        KeysCons((k, v), ch[1..]);
        assert r[0] == (k, v) && r[1..] == ch[1..];
        r
      else
        var t := Set(ch[1..], k, v);
        var r := [ch[0]] + t;
        KeysCons(ch[0], t);
        assert r[0] == ch[0] && r[1..] == t;
        r
  }

  lemma KeysCons(e: (string, Node), rest: seq<(string, Node)>)
    ensures Keys([e] + rest) == [e.0] + Keys(rest)
  {
  }

  /** `delete current[k]`: every other entry keeps its position. */
  function Remove(ch: seq<(string, Node)>, k: string): (r: seq<(string, Node)>)
    ensures Get(r, k) == None
    ensures forall j :: j != k ==> Get(r, j) == Get(ch, j)
    ensures forall x :: x in Keys(r) <==> x in Keys(ch) && x != k
    ensures |r| <= |ch|
  {
    if ch == [] then []
    else
      assert Keys(ch) == [ch[0].0] + Keys(ch[1..]);
      if ch[0].0 == k then Remove(ch[1..], k)
      else
        var r := [ch[0]] + Remove(ch[1..], k);
        assert Keys(r) == [ch[0].0] + Keys(Remove(ch[1..], k));
        r
  }

  lemma {:induction false} SetExisting(ch: seq<(string, Node)>, k: string, v: Node)
    requires Get(ch, k) == Some(v)
    ensures Set(ch, k, v) == ch
  {
    if ch != [] && ch[0].0 != k {
      SetExisting(ch[1..], k, v);
    }
  }

  predicate Unique(ks: seq<string>) {
    forall i, j :: 0 <= i < j < |ks| ==> ks[i] != ks[j]
  }

  lemma KeysTail(ch: seq<(string, Node)>)
    requires ch != []
    ensures Keys(ch) == [ch[0].0] + Keys(ch[1..])
    ensures Unique(Keys(ch)) ==> Unique(Keys(ch[1..])) && ch[0].0 !in Keys(ch[1..])
    ensures AllSegments(Keys(ch)) ==> AllSegments(Keys(ch[1..]))
  {
    assert Keys(ch) == [ch[0].0] + Keys(ch[1..]);
    if Unique(Keys(ch)) {
      forall i, j | 0 <= i < j < |Keys(ch[1..])| ensures Keys(ch[1..])[i] != Keys(ch[1..])[j] {
        assert Keys(ch[1..])[i] == Keys(ch)[i + 1] && Keys(ch[1..])[j] == Keys(ch)[j + 1];
      }
      forall i | 0 <= i < |Keys(ch[1..])| ensures Keys(ch[1..])[i] != ch[0].0 {
        assert Keys(ch[1..])[i] == Keys(ch)[i + 1] && Keys(ch)[0] == ch[0].0;
      }
    }
    if AllSegments(Keys(ch)) {
      forall i | 0 <= i < |Keys(ch[1..])| ensures IsSegment(Keys(ch[1..])[i]) {
        assert Keys(ch[1..])[i] == Keys(ch)[i + 1];
      }
    }
  }

  lemma {:induction false} RemoveUnique(ch: seq<(string, Node)>, k: string)
    requires Unique(Keys(ch))
    ensures Unique(Keys(Remove(ch, k)))
    ensures forall i :: 0 <= i < |Remove(ch, k)| ==> Remove(ch, k)[i] in ch
  {
    if ch != [] {
      KeysTail(ch);
      RemoveUnique(ch[1..], k);
      if ch[0].0 != k {
        var r := [ch[0]] + Remove(ch[1..], k);
        assert Keys(r) == [ch[0].0] + Keys(Remove(ch[1..], k));
      }
    }
  }

  lemma {:induction false} SetMembers(ch: seq<(string, Node)>, k: string, v: Node)
    ensures forall i :: 0 <= i < |Set(ch, k, v)| ==> Set(ch, k, v)[i] in ch || Set(ch, k, v)[i] == (k, v)
  {
    if ch != [] && ch[0].0 != k {
      SetMembers(ch[1..], k, v);
    }
  }

  // ---------------------------------------------------------------------
  // Well-formed trees

  /** Every directory has distinct child names, each a path segment. */
  predicate WF(n: Node) {
    match n
    case File(_) => true
    case Dir(ch) =>
      Unique(Keys(ch)) && AllSegments(Keys(ch)) &&
      forall i :: 0 <= i < |ch| ==> WF(ch[i].1)
  }

  lemma GetWF(ch: seq<(string, Node)>, k: string)
    requires WF(Dir(ch))
    ensures Get(ch, k).Some? ==> WF(Get(ch, k).value)
  {
    if ch != [] && ch[0].0 != k {
      assert WF(Dir(ch[1..])) by {
        KeysTail(ch);
        forall i | 0 <= i < |ch[1..]| ensures WF(ch[1..][i].1) {
          assert ch[1..][i] == ch[i + 1];
        }
      }
      GetWF(ch[1..], k);
    }
  }

  lemma SetWF(ch: seq<(string, Node)>, k: string, v: Node)
    requires WF(Dir(ch)) && IsSegment(k) && WF(v)
    ensures WF(Dir(Set(ch, k, v)))
  {
    var r := Set(ch, k, v);
    SetMembers(ch, k, v);
    if k !in Keys(ch) {
      assert Keys(r) == Keys(ch) + [k];
      assert Unique(Keys(r));
    }
    forall i | 0 <= i < |r| ensures WF(r[i].1) {
      if r[i] != (k, v) {
        var j :| 0 <= j < |ch| && ch[j] == r[i];
      }
    }
  }

  lemma RemoveWF(ch: seq<(string, Node)>, k: string)
    requires WF(Dir(ch))
    ensures WF(Dir(Remove(ch, k)))
  {
    var r := Remove(ch, k);
    RemoveUnique(ch, k);
    forall i | 0 <= i < |r| ensures WF(r[i].1) && IsSegment(Keys(r)[i]) {
      var j :| 0 <= j < |ch| && ch[j] == r[i];
      assert Keys(ch)[j] == Keys(r)[i];
    }
  }

  // ---------------------------------------------------------------------
  // Walking the tree

  /** JavaScript truthiness of a node: every object is truthy, a string only if non-empty. */
  predicate Live(n: Node) {
    n != File("")
  }

  /** `current[k]` where a falsy value counts as missing. */
  function LiveGet(ch: seq<(string, Node)>, k: string): Option<Node> {
    match Get(ch, k)
    case Some(n) => if Live(n) then Some(n) else None
    case None => None
  }

  /** The node the creating walks move to: the existing truthy child, or the
      `{}` stored in its place. */
  function Descend(ch: seq<(string, Node)>, k: string): (r: Node)
    ensures Live(r)
  {
    match LiveGet(ch, k)
    case Some(n) => n
    case None => Dir([])
  }

  /** getNode's loop: each segment must name a truthy child of a directory.
      Indexing a string with a name yields undefined, so a walk through a file fails. */
  function Lookup(n: Node, parts: seq<string>): Option<Node>
    decreases |parts|
  {
    if parts == [] then Some(n)
    else match n
      case File(_) => None
      case Dir(ch) =>
        match LiveGet(ch, parts[0])
        case None => None
        case Some(c) => Lookup(c, parts[1..])
  }

  predicate FileAt(n: Node, parts: seq<string>) {
    Lookup(n, parts).Some? && Lookup(n, parts).value.File?
  }

  /** Some proper prefix of `parts` names a file: a creating walk runs into a string. */
  predicate Blocked(n: Node, parts: seq<string>) {
    exists i :: 0 <= i < |parts| && FileAt(n, parts[..i])
  }

  /** mkdir's loop: every segment that is missing or falsy becomes `{}`. */
  function MkdirAt(n: Node, parts: seq<string>): (r: Result<Node, FsError>)
    ensures r.Ok? && n.Dir? ==> r.value.Dir?
    ensures r.Ok? && parts != [] ==> r.value.Dir?
    decreases |parts|
  {
    if parts == [] then Ok(n)
    else match n
      case File(s) => Err(CannotCreateProperty(parts[0], s))
      case Dir(ch) =>
        match MkdirAt(Descend(ch, parts[0]), parts[1..])
        case Err(e) => Err(e)
        case Ok(c) => Ok(Dir(Set(ch, parts[0], c)))
  }

  /** The loop shared by touch and writeFile: the intermediates are created as
      by mkdir, then the last segment is set to `leaf` unconditionally. */
  function WriteAt(n: Node, parts: seq<string>, leaf: Node): (r: Result<Node, FsError>)
    requires parts != []
    ensures r.Ok? ==> r.value.Dir?
    decreases |parts|
  {
    match n
    case File(s) => Err(CannotCreateProperty(parts[0], s))
    case Dir(ch) =>
      if |parts| == 1 then Ok(Dir(Set(ch, parts[0], leaf)))
      else match WriteAt(Descend(ch, parts[0]), parts[1..], leaf)
        case Err(e) => Err(e)
        case Ok(c) => Ok(Dir(Set(ch, parts[0], c)))
  }

  /** rm's loop: every intermediate must be truthy; a directory as the last
      segment needs `recursive`; deleting a key of a string changes nothing.
      `path` is the caller's argument, which the messages quote. */
  function RmAt(n: Node, parts: seq<string>, recursive: bool, path: string): (r: Result<Node, FsError>)
    requires parts != []
    ensures r.Ok? && n.Dir? ==> r.value.Dir?
    ensures r.Ok? && n.File? ==> r.value == n
    decreases |parts|
  {
    match n
    case File(_) =>
      if |parts| == 1 then Ok(n) else Err(NoSuchFile(path))
    case Dir(ch) =>
      if |parts| == 1 then
        if !recursive && Get(ch, parts[0]).Some? && Get(ch, parts[0]).value.Dir?
        then Err(CannotRemoveDirectory(path))
        else Ok(Dir(Remove(ch, parts[0])))
      else match LiveGet(ch, parts[0])
        case None => Err(NoSuchFile(path))
        case Some(c) =>
          match RmAt(c, parts[1..], recursive, path)
          case Err(e) => Err(e)
          case Ok(c') => Ok(Dir(Set(ch, parts[0], c')))
  }

  function Parent(parts: seq<string>): seq<string>
    requires parts != []
  {
    parts[..|parts| - 1]
  }

  function Last(parts: seq<string>): string
    requires parts != []
  {
    parts[|parts| - 1]
  }

  /** What rm reports, read off the parent of the target before any change:
      a reference definition for RmAt. */
  function RmVerdict(n: Node, parts: seq<string>, recursive: bool, path: string): Outcome<FsError>
    requires parts != []
  {
    match Lookup(n, Parent(parts))
    case None => Fail(NoSuchFile(path))
    case Some(File(_)) => Pass
    case Some(Dir(ch)) =>
      if !recursive && Get(ch, Last(parts)).Some? && Get(ch, Last(parts)).value.Dir?
      then Fail(CannotRemoveDirectory(path))
      else Pass
  }
}
