/** What the walks of filesystem.ts do to the tree: when they fail, what
    they leave at the target, and that nothing off the path changes. */
module TreeProperties {
  import opened Results
  import opened Paths
  import opened Tree

  // ---------------------------------------------------------------------
  // Lookup

  /** Looking up `a + b` is looking up `a`, then `b` from there. */
  lemma {:induction false} LookupAppend(n: Node, a: seq<string>, b: seq<string>)
    ensures Lookup(n, a + b) ==
      match Lookup(n, a)
      case None => None
      case Some(m) => Lookup(m, b)
    decreases |a|
  {
    if a == [] {
      assert a + b == b;
    } else {
      assert (a + b)[0] == a[0] && (a + b)[1..] == a[1..] + b;
      match n
      case File(_) =>
      case Dir(ch) =>
        match LiveGet(ch, a[0])
        case None =>
        case Some(c) => LookupAppend(c, a[1..], b);
    }
  }

  /** A lookup below the root never yields an empty file: it counts as missing. */
  lemma {:induction false} LookupLive(n: Node, parts: seq<string>)
    requires parts != [] && Lookup(n, parts).Some?
    ensures Live(Lookup(n, parts).value)
    decreases |parts|
  {
    match n
    case Dir(ch) =>
      var c := LiveGet(ch, parts[0]).value;
      if |parts| > 1 {
        LookupLive(c, parts[1..]);
      }
  }

  lemma {:induction false} LookupWF(n: Node, parts: seq<string>)
    requires WF(n) && Lookup(n, parts).Some?
    ensures WF(Lookup(n, parts).value)
    decreases |parts|
  {
    if parts != [] {
      match n
      case Dir(ch) =>
        GetWF(ch, parts[0]);
        LookupWF(LiveGet(ch, parts[0]).value, parts[1..]);
    }
  }

  lemma DescendWF(ch: seq<(string, Node)>, k: string)
    requires WF(Dir(ch))
    ensures WF(Descend(ch, k))
  {
    GetWF(ch, k);
  }

  /** A lookup in a directory after `current[k] = c`. */
  lemma LookupSet(ch: seq<(string, Node)>, k: string, c: Node, q: seq<string>)
    requires q != []
    ensures Lookup(Dir(Set(ch, k, c)), q) ==
      if q[0] != k then Lookup(Dir(ch), q)
      else if Live(c) then Lookup(c, q[1..])
      else None
  {
  }

  /** A lookup in a directory after `delete current[k]`. */
  lemma LookupRemove(ch: seq<(string, Node)>, k: string, q: seq<string>)
    requires q != []
    ensures Lookup(Dir(Remove(ch, k)), q) == if q[0] == k then None else Lookup(Dir(ch), q)
  {
  }

  /** A creating walk is blocked below a directory exactly when it is blocked
      below the child it moves to. */
  lemma BlockedStep(ch: seq<(string, Node)>, parts: seq<string>)
    requires parts != []
    ensures Blocked(Dir(ch), parts) <==> Blocked(Descend(ch, parts[0]), parts[1..])
  {
    var child := Descend(ch, parts[0]);
    if Blocked(Dir(ch), parts) {
      var i :| 0 <= i < |parts| && FileAt(Dir(ch), parts[..i]);
      assert i > 0;
      assert parts[..i][0] == parts[0] && parts[..i][1..] == parts[1..][..i - 1];
      assert FileAt(child, parts[1..][..i - 1]);
    }
    if Blocked(child, parts[1..]) {
      var j :| 0 <= j < |parts[1..]| && FileAt(child, parts[1..][..j]);
      assert parts[..j + 1][0] == parts[0] && parts[..j + 1][1..] == parts[1..][..j];
      assert FileAt(Dir(ch), parts[..j + 1]);
    }
  }

  lemma PrefixStep(q: seq<string>, parts: seq<string>)
    requires q != [] && parts != [] && q[0] == parts[0]
    ensures (q <= parts) <==> (q[1..] <= parts[1..])
  {
    if q[1..] <= parts[1..] {
      assert q == [q[0]] + q[1..];
      assert parts[..|q|] == [parts[0]] + parts[1..][..|q| - 1];
    }
    if q <= parts {
      assert parts[1..][..|q| - 1] == parts[..|q|][1..];
    }
  }

  // ---------------------------------------------------------------------
  // mkdir

  /** mkdir fails exactly when a proper prefix of the path is a (non-empty) file. */
  lemma {:induction false} MkdirAtFails(n: Node, parts: seq<string>)
    ensures MkdirAt(n, parts).Err? <==> Blocked(n, parts)
    decreases |parts|
  {
    if parts == [] {
    } else {
      match n
      case File(_) =>
        assert parts[..0] == [] && FileAt(n, parts[..0]);
      case Dir(ch) =>
        MkdirAtFails(Descend(ch, parts[0]), parts[1..]);
        BlockedStep(ch, parts);
    }
  }

  /** After mkdir the path names a node: the one that was there, or a new
      empty directory. */
  lemma {:induction false} MkdirAtTarget(n: Node, parts: seq<string>)
    requires MkdirAt(n, parts).Ok?
    ensures Lookup(MkdirAt(n, parts).value, parts) ==
      if Lookup(n, parts).Some? then Lookup(n, parts) else Some(Dir([]))
    decreases |parts|
  {
    if parts != [] {
      match n
      case Dir(ch) =>
        var child := Descend(ch, parts[0]);
        MkdirAtTarget(child, parts[1..]);
        if parts[1..] == [] {
          assert MkdirAt(child, parts[1..]).value == child;
        }
    }
  }

  /** mkdir leaves every path that is not a prefix of its target as it was:
      existing directories keep their contents. */
  lemma {:induction false} MkdirAtFrame(n: Node, parts: seq<string>, q: seq<string>)
    requires MkdirAt(n, parts).Ok?
    requires !(q <= parts)
    ensures Lookup(MkdirAt(n, parts).value, q) == Lookup(n, q)
    decreases |parts|
  {
    if parts != [] {
      match n
      case Dir(ch) =>
        var child := Descend(ch, parts[0]);
        var c' := MkdirAt(child, parts[1..]).value;
        LookupSet(ch, parts[0], c', q);
        if q[0] == parts[0] {
          PrefixStep(q, parts);
          MkdirAtFrame(child, parts[1..], q[1..]);
          if parts[1..] == [] {
            assert c' == child;
          }
          assert Live(c');
        }
    }
  }

  /** mkdir of a path it has just created changes nothing. */
  lemma {:induction false} MkdirAtIdempotent(n: Node, parts: seq<string>)
    requires MkdirAt(n, parts).Ok?
    ensures MkdirAt(MkdirAt(n, parts).value, parts) == MkdirAt(n, parts)
    decreases |parts|
  {
    if parts != [] {
      match n
      case Dir(ch) =>
        var p := parts[0];
        var child := Descend(ch, p);
        var c' := MkdirAt(child, parts[1..]).value;
        if parts[1..] == [] {
          assert c' == child;
        }
        assert Live(c');
        var ch' := Set(ch, p, c');
        assert Descend(ch', p) == c';
        MkdirAtIdempotent(child, parts[1..]);
        SetExisting(ch', p, c');
    }
  }

  lemma {:induction false} MkdirAtWF(n: Node, parts: seq<string>)
    requires WF(n) && AllSegments(parts) && MkdirAt(n, parts).Ok?
    ensures WF(MkdirAt(n, parts).value)
    decreases |parts|
  {
    if parts != [] {
      match n
      case Dir(ch) =>
        var child := Descend(ch, parts[0]);
        DescendWF(ch, parts[0]);
        MkdirAtWF(child, parts[1..]);
        SetWF(ch, parts[0], MkdirAt(child, parts[1..]).value);
    }
  }

  // ---------------------------------------------------------------------
  // touch and writeFile

  /** The write fails exactly when a proper prefix of the path is a file. */
  lemma {:induction false} WriteAtFails(n: Node, parts: seq<string>, leaf: Node)
    requires parts != []
    ensures WriteAt(n, parts, leaf).Err? <==> Blocked(n, parts)
    decreases |parts|
  {
    match n
    case File(_) =>
      assert parts[..0] == [] && FileAt(n, parts[..0]);
    case Dir(ch) =>
      BlockedStep(ch, parts);
      if |parts| > 1 {
        WriteAtFails(Descend(ch, parts[0]), parts[1..], leaf);
      } else {
        assert !Blocked(Descend(ch, parts[0]), parts[1..]);
      }
  }

  /** After a write the path names `leaf`, unless `leaf` is the empty file,
      which then counts as missing. */
  lemma {:induction false} WriteAtTarget(n: Node, parts: seq<string>, leaf: Node)
    requires parts != [] && WriteAt(n, parts, leaf).Ok?
    ensures Lookup(WriteAt(n, parts, leaf).value, parts) == if Live(leaf) then Some(leaf) else None
    decreases |parts|
  {
    match n
    case Dir(ch) =>
      if |parts| > 1 {
        WriteAtTarget(Descend(ch, parts[0]), parts[1..], leaf);
      }
  }

  /** A write changes nothing outside its path and the subtree it replaces. */
  lemma {:induction false} WriteAtFrame(n: Node, parts: seq<string>, leaf: Node, q: seq<string>)
    requires parts != [] && WriteAt(n, parts, leaf).Ok?
    requires !(q <= parts) && !(parts <= q)
    ensures Lookup(WriteAt(n, parts, leaf).value, q) == Lookup(n, q)
    decreases |parts|
  {
    match n
    case Dir(ch) =>
      var p := parts[0];
      if |parts| == 1 {
        assert q[0] != p by {
          if q[0] == p {
            PrefixStep(parts, q);
          }
        }
        assert LiveGet(Set(ch, p, leaf), q[0]) == LiveGet(ch, q[0]);
      } else {
        var child := Descend(ch, p);
        var c' := WriteAt(child, parts[1..], leaf).value;
        assert WriteAt(n, parts, leaf).value == Dir(Set(ch, p, c'));
        if q[0] == p {
          PrefixStep(q, parts);
          PrefixStep(parts, q);
          WriteAtFrame(child, parts[1..], leaf, q[1..]);
          assert LiveGet(Set(ch, p, c'), p) == Some(c');
        } else {
          assert LiveGet(Set(ch, p, c'), q[0]) == LiveGet(ch, q[0]);
        }
      }
  }

  lemma {:induction false} WriteAtWF(n: Node, parts: seq<string>, leaf: Node)
    requires parts != [] && WF(n) && WF(leaf) && AllSegments(parts) && WriteAt(n, parts, leaf).Ok?
    ensures WF(WriteAt(n, parts, leaf).value)
    decreases |parts|
  {
    match n
    case Dir(ch) =>
      if |parts| == 1 {
        SetWF(ch, parts[0], leaf);
      } else {
        var child := Descend(ch, parts[0]);
        DescendWF(ch, parts[0]);
        WriteAtWF(child, parts[1..], leaf);
        SetWF(ch, parts[0], WriteAt(child, parts[1..], leaf).value);
      }
  }

  // ---------------------------------------------------------------------
  // rm

  /** rm fails exactly as its verdict says: a missing or falsy intermediate
      gives NoSuchFile, a directory without `recursive` CannotRemoveDirectory. */
  lemma {:induction false} RmAtVerdict(n: Node, parts: seq<string>, recursive: bool, path: string)
    requires parts != []
    ensures RmAt(n, parts, recursive, path).Err? <==> RmVerdict(n, parts, recursive, path).Fail?
    ensures RmAt(n, parts, recursive, path).Err? ==>
      RmAt(n, parts, recursive, path).error == RmVerdict(n, parts, recursive, path).error
    decreases |parts|
  {
    if |parts| > 1 {
      assert Parent(parts) != [] && Parent(parts)[0] == parts[0];
      assert Parent(parts)[1..] == Parent(parts[1..]) && Last(parts) == Last(parts[1..]);
      match n
      case File(_) =>
      case Dir(ch) =>
        match LiveGet(ch, parts[0])
        case None =>
        case Some(c) => RmAtVerdict(c, parts[1..], recursive, path);
    }
  }

  /** After a successful rm the target is gone: its parent directory has lost
      exactly that entry, or, when the parent is a file, nothing changed. */
  lemma {:induction false} RmAtTarget(n: Node, parts: seq<string>, recursive: bool, path: string)
    requires parts != [] && RmAt(n, parts, recursive, path).Ok?
    ensures Lookup(n, Parent(parts)).Some?
    ensures Lookup(n, Parent(parts)).value.File? ==> RmAt(n, parts, recursive, path).value == n
    ensures Lookup(n, Parent(parts)).value.Dir? ==>
      Lookup(RmAt(n, parts, recursive, path).value, Parent(parts)) ==
        Some(Dir(Remove(Lookup(n, Parent(parts)).value.children, Last(parts))))
    ensures Lookup(RmAt(n, parts, recursive, path).value, parts) == None
    decreases |parts|
  {
    if |parts| == 1 {
      assert Parent(parts) == [] && parts == [Last(parts)];
      RmLastTarget(n, Last(parts), recursive, path);
    } else {
      assert Parent(parts) != [] && Parent(parts)[0] == parts[0];
      assert Parent(parts)[1..] == Parent(parts[1..]) && Last(parts) == Last(parts[1..]);
      match n
      case Dir(ch) =>
        var c := LiveGet(ch, parts[0]).value;
        var c' := RmAt(c, parts[1..], recursive, path).value;
        RmAtTarget(c, parts[1..], recursive, path);
        assert Lookup(n, Parent(parts)) == Lookup(c, Parent(parts[1..]));
        assert Live(c');
        LookupSet(ch, parts[0], c', Parent(parts));
        LookupSet(ch, parts[0], c', parts);
        if Lookup(n, Parent(parts)).value.File? {
          SetExisting(ch, parts[0], c);
        }
    }
  }

  /** rm of a single segment. */
  lemma RmLastTarget(n: Node, k: string, recursive: bool, path: string)
    requires RmAt(n, [k], recursive, path).Ok?
    ensures n.File? ==> RmAt(n, [k], recursive, path).value == n
    ensures n.Dir? ==> RmAt(n, [k], recursive, path).value == Dir(Remove(n.children, k))
    ensures Lookup(RmAt(n, [k], recursive, path).value, [k]) == None
  {
    match n
    case File(_) =>
    case Dir(ch) => LookupRemove(ch, k, [k]);
  }

  /** rm changes nothing outside its path and the subtree it removes. */
  lemma {:induction false} RmAtFrame(n: Node, parts: seq<string>, recursive: bool, path: string, q: seq<string>)
    requires parts != [] && RmAt(n, parts, recursive, path).Ok?
    requires !(q <= parts) && !(parts <= q)
    ensures Lookup(RmAt(n, parts, recursive, path).value, q) == Lookup(n, q)
    decreases |parts|
  {
    match n
    case File(_) =>
    case Dir(ch) =>
      if |parts| == 1 {
        assert q[0] != parts[0] by {
          assert parts == [parts[0]] && q[..1] == [q[0]];
        }
        LookupRemove(ch, parts[0], q);
      } else {
        var c := LiveGet(ch, parts[0]).value;
        var c' := RmAt(c, parts[1..], recursive, path).value;
        LookupSet(ch, parts[0], c', q);
        if q[0] == parts[0] {
          PrefixStep(q, parts);
          PrefixStep(parts, q);
          RmAtFrame(c, parts[1..], recursive, path, q[1..]);
          assert Live(c');
        }
      }
  }

  lemma {:induction false} RmAtWF(n: Node, parts: seq<string>, recursive: bool, path: string)
    requires parts != [] && WF(n) && RmAt(n, parts, recursive, path).Ok?
    ensures WF(RmAt(n, parts, recursive, path).value)
    decreases |parts|
  {
    match n
    case File(_) =>
    case Dir(ch) =>
      if |parts| == 1 {
        RemoveWF(ch, parts[0]);
      } else {
        var c := LiveGet(ch, parts[0]).value;
        GetWF(ch, parts[0]);
        RmAtWF(c, parts[1..], recursive, path);
        assert IsSegment(parts[0]) by {
          assert parts[0] in Keys(ch);
          var i :| 0 <= i < |Keys(ch)| && Keys(ch)[i] == parts[0];
        }
        SetWF(ch, parts[0], RmAt(c, parts[1..], recursive, path).value);
      }
  }
}
