/** What the filesystem operations promise one another: a write is read
    back, mkdir can be repeated, ls lists exactly the children, a removed
    entry is gone and nothing else moves, cp and mv put the source node
    at the destination. All of it is stated on the functions of FsSpec,
    which the class in module FileSystem is proved to compute. */
module FsProperties {
  import opened Results
  import opened Paths
  import opened Tree
  import opened TreeProperties
  import opened FsSpec

  /** The segments an operation on `path` works on. */
  function Target(s: FsState, path: string): seq<string> {
    Segments(Resolve(s.cwd, path))
  }

  /** A resolved path resolves to itself, so cp's second resolution of the
      destination changes nothing. */
  lemma TargetOfResolved(s: FsState, path: string)
    ensures Segments(Resolve(s.cwd, Resolve(s.cwd, path))) == Target(s, path)
  {
    ResolveIdempotent(s.cwd, s.cwd, path);
  }

  // ---------------------------------------------------------------------
  // writeFile, touch and readFile

  /** writeFile fails exactly when a proper prefix of the target names a file;
      a path with no segment (the root) is a no-op. */
  lemma WriteFileFails(s: FsState, path: string, content: string)
    ensures Target(s, path) == [] ==> WriteFile(s, path, content) == Ok(s.root)
    ensures WriteFile(s, path, content).Err? <==> Target(s, path) != [] && Blocked(s.root, Target(s, path))
  {
    if Target(s, path) != [] {
      WriteAtFails(s.root, Target(s, path), File(content));
    }
  }

  /** Reading back what was written gives the content, unless the content is
      empty: an empty file is falsy and reads as missing. */
  lemma WriteThenRead(s: FsState, path: string, content: string)
    requires Target(s, path) != [] && WriteFile(s, path, content).Ok?
    ensures ReadFile(FsState(WriteFile(s, path, content).value, s.cwd), path) ==
      if content != "" then Ok(content) else Err(NoSuchFile(Resolve(s.cwd, path)))
  {
    WriteAtTarget(s.root, Target(s, path), File(content));
  }

  /** touch truncates: whatever was at the path, afterwards it reads as missing. */
  lemma TouchThenRead(s: FsState, path: string)
    requires Target(s, path) != [] && Touch(s, path).Ok?
    ensures ReadFile(FsState(Touch(s, path).value, s.cwd), path) == Err(NoSuchFile(Resolve(s.cwd, path)))
  {
    WriteThenRead(s, path, "");
  }

  /** A write changes no path that is neither a prefix nor an extension of its target. */
  lemma WriteFileFrame(s: FsState, path: string, content: string, q: seq<string>)
    requires WriteFile(s, path, content).Ok?
    requires !(q <= Target(s, path)) && !(Target(s, path) <= q)
    ensures Lookup(WriteFile(s, path, content).value, q) == Lookup(s.root, q)
  {
    if Target(s, path) != [] {
      WriteAtFrame(s.root, Target(s, path), File(content), q);
    }
  }

  /** readFile of a directory is refused with the caller's path in the message. */
  lemma ReadFileOfDir(s: FsState, path: string)
    requires Lookup(s.root, Target(s, path)).Some? && Lookup(s.root, Target(s, path)).value.Dir?
    ensures ReadFile(s, path) == Err(NotAFile(path))
  {
  }

  // ---------------------------------------------------------------------
  // mkdir and cd

  /** readFile never returns the empty string: an empty file reads as missing. */
  lemma ReadNeverEmpty(s: FsState, path: string)
    requires s.root.Dir?
    ensures ReadFile(s, path).Ok? ==> ReadFile(s, path).value != ""
  {
    if Target(s, path) != [] && Lookup(s.root, Target(s, path)).Some? {
      LookupLive(s.root, Target(s, path));
    }
  }

  /** mkdir fails exactly when a proper prefix of the target names a file. */
  lemma MkdirFails(s: FsState, path: string)
    ensures Mkdir(s, path).Err? <==> Blocked(s.root, Target(s, path))
    ensures Target(s, path) == [] ==> Mkdir(s, path) == Ok(s.root)
  {
    MkdirAtFails(s.root, Target(s, path));
  }

  /** mkdir is idempotent: a second call succeeds and changes nothing. */
  lemma MkdirIdempotent(s: FsState, path: string)
    requires Mkdir(s, path).Ok?
    ensures Mkdir(FsState(Mkdir(s, path).value, s.cwd), path) == Mkdir(s, path)
  {
    MkdirAtIdempotent(s.root, Target(s, path));
  }

  /** After mkdir, cd into the same path succeeds, unless a (non-empty) file
      was already there: mkdir leaves an existing entry alone. */
  lemma MkdirThenCd(s: FsState, path: string)
    requires Mkdir(s, path).Ok?
    ensures Cd(FsState(Mkdir(s, path).value, s.cwd), path) ==
      match Lookup(s.root, Target(s, path))
      case Some(File(_)) => Err(NotADirectory(path))
      case _ => Ok(Resolve(s.cwd, path))
  {
    MkdirAtTarget(s.root, Target(s, path));
  }

  /** mkdir changes no path outside the one it creates. */
  lemma MkdirFrame(s: FsState, path: string, q: seq<string>)
    requires Mkdir(s, path).Ok? && !(q <= Target(s, path))
    ensures Lookup(Mkdir(s, path).value, q) == Lookup(s.root, q)
  {
    MkdirAtFrame(s.root, Target(s, path), q);
  }

  /** cd succeeds exactly on a directory and then moves to the resolved path;
      otherwise it reports a missing path (resolved) or a file (as given). */
  lemma CdOutcome(s: FsState, path: string)
    ensures Cd(s, path).Ok? <==> Lookup(s.root, Target(s, path)).Some? && Lookup(s.root, Target(s, path)).value.Dir?
    ensures Cd(s, path).Ok? ==> Cd(s, path).value == Resolve(s.cwd, path)
    ensures Lookup(s.root, Target(s, path)).None? ==> Cd(s, path) == Err(NoSuchFile(Resolve(s.cwd, path)))
    ensures FileAt(s.root, Target(s, path)) ==> Cd(s, path) == Err(NotADirectory(path))
  {
  }

  /** After a successful cd, `ls .` lists what `ls path` listed before. */
  lemma CdThenLs(s: FsState, path: string, showHidden: bool)
    requires Cd(s, path).Ok?
    ensures Ls(FsState(s.root, Cd(s, path).value), ".", showHidden) == Ls(s, path, showHidden)
  {
    var p := Resolve(s.cwd, path);
    ResolveSegments(p, ".");
    assert Segments(".") == ["."] by {
      assert Split(".", '/') == ["."];
    }
    assert Walk(Segments(p), ["."]) == Segments(p) by {
      assert ["."][..0] == [];
    }
  }

  // ---------------------------------------------------------------------
  // ls

  lemma {:induction false} VisibleUnique(names: seq<string>, showHidden: bool)
    requires Unique(names)
    ensures Unique(Visible(names, showHidden))
  {
    if names != [] {
      VisibleUnique(names[1..], showHidden);
      assert forall i, j :: 0 <= i < j < |names[1..]| ==> names[1..][i] != names[1..][j] by {
        forall i, j | 0 <= i < j < |names[1..]| ensures names[1..][i] != names[1..][j] {
          assert names[1..][i] == names[i + 1] && names[1..][j] == names[j + 1];
        }
      }
      assert names[0] !in names[1..] by {
        forall k | 0 <= k < |names[1..]| ensures names[1..][k] != names[0] {
          assert names[1..][k] == names[k + 1];
        }
      }
      var rest := Visible(names[1..], showHidden);
      if showHidden || !StartsWith(names[0], '.') {
        assert forall k :: 0 <= k < |rest| ==> rest[k] != names[0];
        var r := [names[0]] + rest;
        forall i, j | 0 <= i < j < |r| ensures r[i] != r[j] {
          if i == 0 {
            assert r[j] == rest[j - 1];
          } else {
            assert r[i] == rest[i - 1] && r[j] == rest[j - 1];
          }
        }
      }
    }
  }

  /** ls of a directory lists each child exactly once that the filter lets
      through, empty files included (Object.keys does not test truthiness). */
  lemma LsExact(s: FsState, path: string, showHidden: bool)
    requires WF(s.root) && Ls(s, path, showHidden).Ok?
    ensures Lookup(s.root, Target(s, path)).Some? && Lookup(s.root, Target(s, path)).value.Dir?
    ensures var ch := Lookup(s.root, Target(s, path)).value.children;
      forall x :: x in Ls(s, path, showHidden).value <==>
        Get(ch, x).Some? && (showHidden || !StartsWith(x, '.'))
    ensures Unique(Ls(s, path, showHidden).value)
  {
    var n := Lookup(s.root, Target(s, path)).value;
    LookupWF(s.root, Target(s, path));
    VisibleUnique(Keys(n.children), showHidden);
  }

  /** ls of a file is refused with the caller's path in the message. */
  lemma LsOfFile(s: FsState, path: string, showHidden: bool)
    requires Lookup(s.root, Target(s, path)).Some? && Lookup(s.root, Target(s, path)).value.File?
    ensures Ls(s, path, showHidden) == Err(NotADirectory(path))
  {
  }

  // ---------------------------------------------------------------------
  // rm

  /** An rm whose parent directory lacks the name changes nothing. */
  lemma {:induction false} RmAtAbsent(n: Node, parts: seq<string>, recursive: bool, path: string)
    requires parts != []
    requires Lookup(n, Parent(parts)).Some? && Lookup(n, Parent(parts)).value.Dir?
    requires Last(parts) !in Keys(Lookup(n, Parent(parts)).value.children)
    ensures RmAt(n, parts, recursive, path) == Ok(n)
    decreases |parts|
  {
    if |parts| == 1 {
      RemoveAbsent(n.children, parts[0]);
    } else {
      assert Parent(parts)[0] == parts[0] && Parent(parts)[1..] == Parent(parts[1..]);
      assert Last(parts) == Last(parts[1..]);
      var c := LiveGet(n.children, parts[0]).value;
      RmAtAbsent(c, parts[1..], recursive, path);
      SetExisting(n.children, parts[0], c);
    }
  }

  lemma {:induction false} RemoveAbsent(ch: seq<(string, Node)>, k: string)
    requires k !in Keys(ch)
    ensures Remove(ch, k) == ch
  {
    if ch != [] {
      KeysTail(ch);
      RemoveAbsent(ch[1..], k);
    }
  }

  /** rm fails as its verdict says, read off the tree before the call: a
      missing intermediate, or a directory without -r. */
  lemma RmFails(s: FsState, path: string, recursive: bool)
    requires Target(s, path) != []
    ensures Rm(s, path, recursive).Err? <==> RmVerdict(s.root, Target(s, path), recursive, path).Fail?
    ensures Rm(s, path, recursive).Err? ==>
      Rm(s, path, recursive).error == RmVerdict(s.root, Target(s, path), recursive, path).error
  {
    RmAtVerdict(s.root, Target(s, path), recursive, path);
  }

  /** After rm the target is gone, its parent lost exactly that entry, and no
      path that is neither a prefix nor an extension of the target changed. */
  lemma RmRemoves(s: FsState, path: string, recursive: bool, q: seq<string>)
    requires Target(s, path) != [] && Rm(s, path, recursive).Ok?
    ensures Lookup(Rm(s, path, recursive).value, Target(s, path)) == None
    ensures var parent := Lookup(s.root, Parent(Target(s, path)));
      parent.Some? && (parent.value.Dir? ==>
        Lookup(Rm(s, path, recursive).value, Parent(Target(s, path))) ==
          Some(Dir(Remove(parent.value.children, Last(Target(s, path))))))
    ensures !(q <= Target(s, path)) && !(Target(s, path) <= q) ==>
      Lookup(Rm(s, path, recursive).value, q) == Lookup(s.root, q)
  {
    RmAtTarget(s.root, Target(s, path), recursive, path);
    if !(q <= Target(s, path)) && !(Target(s, path) <= q) {
      RmAtFrame(s.root, Target(s, path), recursive, path, q);
    }
  }

  /** Removing a name its parent directory lacks succeeds and changes nothing. */
  lemma RmAbsent(s: FsState, path: string, recursive: bool)
    requires Target(s, path) != []
    requires Lookup(s.root, Parent(Target(s, path))).Some? && Lookup(s.root, Parent(Target(s, path))).value.Dir?
    requires Last(Target(s, path)) !in Keys(Lookup(s.root, Parent(Target(s, path))).value.children)
    ensures Rm(s, path, recursive) == Ok(s.root)
  {
    RmAtAbsent(s.root, Target(s, path), recursive, path);
  }

  /** rm of the root (the path has no segment) succeeds and changes nothing. */
  lemma RmRoot(s: FsState, path: string, recursive: bool)
    requires Target(s, path) == []
    ensures Rm(s, path, recursive) == Ok(s.root)
  {
  }

  // ---------------------------------------------------------------------
  // cp and mv

  /** cp fails exactly when the source is missing (or falsy), or a proper
      prefix of the destination names a file. */
  lemma CpFails(s: FsState, source: string, dest: string)
    ensures Cp(s, source, dest).Err? <==>
      Lookup(s.root, Target(s, source)).None? ||
      (Target(s, dest) != [] && Blocked(s.root, Target(s, dest)))
    ensures Lookup(s.root, Target(s, source)).None? ==>
      Cp(s, source, dest) == Err(NoSuchFile(Resolve(s.cwd, source)))
  {
    TargetOfResolved(s, dest);
    match Lookup(s.root, Target(s, source))
    case None =>
    case Some(n) =>
      if Target(s, dest) != [] {
        WriteAtFails(s.root, Target(s, dest), n);
      }
  }

  /** After cp the destination holds the source node, and a source that is
      neither inside nor above the destination is untouched. */
  lemma CpCopies(s: FsState, source: string, dest: string)
    requires s.root.Dir? && Target(s, dest) != [] && Cp(s, source, dest).Ok?
    ensures Lookup(s.root, Target(s, source)).Some?
    ensures Lookup(Cp(s, source, dest).value, Target(s, dest)) == Lookup(s.root, Target(s, source))
    ensures !(Target(s, dest) <= Target(s, source)) && !(Target(s, source) <= Target(s, dest)) ==>
      Lookup(Cp(s, source, dest).value, Target(s, source)) == Lookup(s.root, Target(s, source))
  {
    TargetOfResolved(s, dest);
    var src := Target(s, source);
    var dst := Target(s, dest);
    var n := Lookup(s.root, src).value;
    if src != [] {
      LookupLive(s.root, src);
    }
    WriteAtTarget(s.root, dst, n);
    if !(dst <= src) && !(src <= dst) {
      WriteAtFrame(s.root, dst, n, src);
    }
  }

  /** cp leaves every path that is neither a prefix nor an extension of the destination alone. */
  lemma CpFrame(s: FsState, source: string, dest: string, q: seq<string>)
    requires Cp(s, source, dest).Ok?
    requires !(q <= Target(s, dest)) && !(Target(s, dest) <= q)
    ensures Lookup(Cp(s, source, dest).value, q) == Lookup(s.root, q)
  {
    TargetOfResolved(s, dest);
    if Target(s, dest) != [] {
      WriteAtFrame(s.root, Target(s, dest), Lookup(s.root, Target(s, source)).value, q);
    }
  }

  /** mv removes nothing when its copy fails. */
  lemma MvCopyFails(s: FsState, source: string, dest: string)
    requires Cp(s, source, dest).Err?
    ensures Mv(s, source, dest) == Effect(s.root, Fail(Cp(s, source, dest).error))
  {
  }

  /** A successful mv of anything but the root leaves nothing at the source,
      wherever the destination is. */
  lemma MvRemovesSource(s: FsState, source: string, dest: string)
    requires Target(s, source) != [] && Mv(s, source, dest).outcome == Pass
    ensures Lookup(Mv(s, source, dest).root, Target(s, source)) == None
  {
    var t := FsState(Cp(s, source, dest).value, s.cwd);
    assert Target(t, source) == Target(s, source);
    RmRemoves(t, source, true, []);
  }

  /** A successful mv between unrelated paths leaves the source node at the
      destination (and, by MvRemovesSource, nothing at the source). */
  lemma MvMoves(s: FsState, source: string, dest: string)
    requires s.root.Dir? && Target(s, source) != [] && Target(s, dest) != []
    requires !(Target(s, dest) <= Target(s, source)) && !(Target(s, source) <= Target(s, dest))
    requires Mv(s, source, dest).outcome == Pass
    ensures Lookup(s.root, Target(s, source)).Some?
    ensures Lookup(Mv(s, source, dest).root, Target(s, dest)) == Lookup(s.root, Target(s, source))
  {
    var src := Target(s, source);
    var dst := Target(s, dest);
    CpCopies(s, source, dest);
    var copied := Cp(s, source, dest).value;
    var t := FsState(copied, s.cwd);
    assert Target(t, source) == src;
    RmRemoves(t, source, true, dst);
  }

  /** A successful mv between unrelated paths changes no path unrelated to both. */
  lemma MvFrame(s: FsState, source: string, dest: string, q: seq<string>)
    requires Target(s, source) != []
    requires Mv(s, source, dest).outcome == Pass
    requires !(q <= Target(s, dest)) && !(Target(s, dest) <= q)
    requires !(q <= Target(s, source)) && !(Target(s, source) <= q)
    ensures Lookup(Mv(s, source, dest).root, q) == Lookup(s.root, q)
  {
    CpFrame(s, source, dest, q);
    var t := FsState(Cp(s, source, dest).value, s.cwd);
    RmRemoves(t, source, true, q);
  }

  // ---------------------------------------------------------------------
  // Consequences of the source's choices, on concrete trees

  /** The segments of "/a", "/a/b" and so on. */
  lemma SegmentsOf(path: string, parts: seq<string>)
    requires AllSegments(parts) && path == "/" + Join(parts, "/")
    ensures Segments(path) == parts
  {
    SegmentsOfRooted(parts);
  }

  /** "." is one segment, and walking it stays put. */
  lemma Dot(cwd: string)
    ensures Segments(".") == ["."]
    ensures Resolve(cwd, ".") == "/" + Join(Segments(cwd), "/")
  {
    SplitPrefix(".", "", '/');
    assert "." + "" == ".";
    assert Walk(Segments(cwd), ["."]) == Segments(cwd) by {
      assert ["."][..0] == [];
    }
  }

  lemma SegmentsABF()
    ensures Segments("/a/b/f") == ["a", "b", "f"]
  {
    assert Join(["a", "b", "f"], "/") == "a/b/f" by {
      assert ["a", "b", "f"][1..] == ["b", "f"] && ["b", "f"][1..] == ["f"];
    }
    SegmentsOf("/a/b/f", ["a", "b", "f"]);
  }

  lemma CopyOntoAncestor()
    ensures Cp(FsState(Dir([("a", Dir([("b", Dir([("f", File("x"))]))]))]), "/"), "/a/b/f", "/a") ==
      Ok(Dir([("a", File("x"))]))
  {
    ReadABF();
    PutOnA();
  }

  lemma ReadABF()
    ensures GetNode(Dir([("a", Dir([("b", Dir([("f", File("x"))]))]))]), "/a/b/f") == Ok(File("x"))
  {
    SegmentsABF();
    LookupOnly("f", File("x"), []);
    LookupOnly("b", Dir([("f", File("x"))]), ["f"]);
    LookupOnly("a", Dir([("b", Dir([("f", File("x"))]))]), ["b", "f"]);
    assert ["a", "b", "f"] == ["a"] + ["b", "f"] && ["b", "f"] == ["b"] + ["f"] && ["f"] == ["f"] + [];
  }

  /** A walk through a directory with one truthy child. */
  lemma LookupOnly(k: string, c: Node, rest: seq<string>)
    requires Live(c)
    ensures Lookup(Dir([(k, c)]), [k] + rest) == Lookup(c, rest)
  {
    assert ([k] + rest)[0] == k && ([k] + rest)[1..] == rest;
  }

  lemma PutOnA()
    ensures Put(Dir([("a", Dir([("b", Dir([("f", File("x"))]))]))]), "/a", File("x")) == Ok(Dir([("a", File("x"))]))
  {
    var root := Dir([("a", Dir([("b", Dir([("f", File("x"))]))]))]);
    SegmentsOf("/a", ["a"]);
    assert root.children[1..] == [];
    assert Set(root.children, "a", File("x")) == [("a", File("x"))];
  }

  lemma RmThroughFile()
    ensures Rm(FsState(Dir([("a", File("x"))]), "/"), "/a/b/f", true) == Err(NoSuchFile("/a/b/f"))
  {
    SegmentsABF();
    var parts := ["a", "b", "f"];
    assert parts[1..] == ["b", "f"];
    assert RmAt(File("x"), ["b", "f"], true, "/a/b/f") == Err(NoSuchFile("/a/b/f"));
  }

  /** mv can fail after its copy: moving /a/b/f onto /a turns /a into the
      file, so the rm of /a/b/f then walks into a string. The copy stays. */
  lemma MvFailsAfterCopy()
    ensures Mv(FsState(Dir([("a", Dir([("b", Dir([("f", File("x"))]))]))]), "/"), "/a/b/f", "/a") ==
      Effect(Dir([("a", File("x"))]), Fail(NoSuchFile("/a/b/f")))
  {
    CopyOntoAncestor();
    RmThroughFile();
  }

  /** Moving a directory into itself succeeds and loses it: the copy lands
      inside the source, which the rm half then deletes. */
  lemma MvIntoItself()
    ensures Mv(FsState(Dir([("a", Dir([]))]), "/"), "/a", "/a/b") == Effect(Dir([]), Pass)
  {
    CpIntoItself();
    RmCopy();
  }

  lemma CpIntoItself()
    ensures Cp(FsState(Dir([("a", Dir([]))]), "/"), "/a", "/a/b") == Ok(Dir([("a", Dir([("b", Dir([]))]))]))
  {
    SegmentsOf("/a", ["a"]);
    SegmentsOf("/a/b", ["a", "b"]);
    LookupOnly("a", Dir([]), []);
    WriteOnly("a", Dir([]), ["b"], Dir([]));
    assert ["a"] == ["a"] + [] && ["a", "b"] == ["a"] + ["b"];
  }

  /** A creating walk through a directory with one truthy child. */
  lemma WriteOnly(k: string, c: Node, rest: seq<string>, leaf: Node)
    requires Live(c) && rest != []
    ensures WriteAt(Dir([(k, c)]), [k] + rest, leaf) ==
      match WriteAt(c, rest, leaf)
      case Err(e) => Err(e)
      case Ok(r) => Ok(Dir([(k, r)]))
  {
    assert ([k] + rest)[0] == k && ([k] + rest)[1..] == rest;
    assert Descend([(k, c)], k) == c;
    var w := WriteAt(c, rest, leaf);
    if w.Ok? {
      assert [(k, c)][1..] == [];
      assert Set([(k, c)], k, w.value) == [(k, w.value)];
    }
  }

  lemma RmCopy()
    ensures Rm(FsState(Dir([("a", Dir([("b", Dir([]))]))]), "/"), "/a", true) == Ok(Dir([]))
  {
    SegmentsOf("/a", ["a"]);
  }

  /** The current directory can be removed from under the shell: rm does not
      look at the current path, so a later `ls .` fails. */
  lemma CwdCanDangle()
    ensures Rm(FsState(Dir([("a", Dir([]))]), "/a"), "/a", true) == Ok(Dir([]))
    ensures Ls(FsState(Dir([]), "/a"), ".", false) == Err(NoSuchFile("/a"))
  {
    SegmentsOf("/a", ["a"]);
    Dot("/a");
  }
}
