/** Path strings of the virtual filesystem: splitting on '/', dropping empty
    pieces, and resolving a path against the current directory. */
module Paths {

  predicate StartsWith(s: string, c: char) {
    |s| > 0 && s[0] == c
  }

  /** String.prototype.split with a one-character separator: every piece,
      empty ones included, in order. */
  function Split(s: string, d: char): (r: seq<string>)
    ensures |r| >= 1
    ensures forall i :: 0 <= i < |r| ==> d !in r[i]
  {
    if s == [] then [""]
    else if s[0] == d then [""] + Split(s[1..], d)
    else
      var t := Split(s[1..], d);
      [[s[0]] + t[0]] + t[1..]
  }

  /** Array.prototype.join. */
  function Join(parts: seq<string>, sep: string): string {
    if parts == [] then ""
    else if |parts| == 1 then parts[0]
    else parts[0] + sep + Join(parts[1..], sep)
  }

  /** Array.prototype.filter(Boolean) on strings: keeps the non-empty ones, in order. */
  function NonEmpty(parts: seq<string>): (r: seq<string>)
    ensures forall i :: 0 <= i < |r| ==> r[i] != ""
    ensures forall x :: x in r <==> x in parts && x != ""
  {
    if parts == [] then []
    else if parts[0] == "" then NonEmpty(parts[1..])
    else [parts[0]] + NonEmpty(parts[1..])
  }

  /** A name that can be a key of a directory: what `split('/').filter(Boolean)` yields. */
  predicate IsSegment(s: string) {
    s != "" && '/' !in s
  }

  predicate AllSegments(parts: seq<string>) {
    forall i :: 0 <= i < |parts| ==> IsSegment(parts[i])
  }

  /** `path.split('/').filter(Boolean)`. */
  function Segments(path: string): (r: seq<string>)
    ensures AllSegments(r)
  {
    var pieces := Split(path, '/');
    var r := NonEmpty(pieces);
    assert forall i :: 0 <= i < |r| ==> r[i] in pieces;
    r
  }

  /** One iteration of the loop in resolvePath: `..` pops (a no-op at the
      root), `.` is skipped, anything else is pushed. */
  function Step(cur: seq<string>, part: string): seq<string> {
    if part == ".." then (if |cur| > 0 then cur[..|cur| - 1] else cur)
    else if part != "." then cur + [part]
    else cur
  }

  /** The loop of resolvePath over `parts`, starting from `cur`. */
  function Walk(cur: seq<string>, parts: seq<string>): seq<string>
    decreases |parts|
  {
    if parts == [] then cur
    else Step(Walk(cur, parts[..|parts| - 1]), parts[|parts| - 1])
  }

  /** resolvePath: an absolute path is returned verbatim (it is not
      normalised); a relative one is walked from the current directory. */
  function Resolve(cwd: string, path: string): (r: string)
    ensures StartsWith(r, '/')
    ensures StartsWith(path, '/') ==> r == path
  {
    if StartsWith(path, '/') then path
    else "/" + Join(Walk(Segments(cwd), Segments(path)), "/")
  }

  /** No empty, `.` or `..` segment: the shape of a normalised path. */
  predicate Clean(parts: seq<string>) {
    forall i :: 0 <= i < |parts| ==> parts[i] != "" && parts[i] != "." && parts[i] != ".."
  }

  // ---------------------------------------------------------------------
  // Split and Join

  lemma {:induction false} SplitPrefix(a: string, s: string, d: char)
    requires d !in a
    ensures Split(a + s, d) == [a + Split(s, d)[0]] + Split(s, d)[1..]
  {
    if a != [] {
      assert (a + s)[0] == a[0];
      assert (a + s)[1..] == a[1..] + s;
      SplitPrefix(a[1..], s, d);
      assert [a[0]] + (a[1..] + Split(s, d)[0]) == a + Split(s, d)[0];
    } else {
      assert a + s == s;
      var t := Split(s, d);
      assert [t[0]] + t[1..] == t;
      assert a + t[0] == t[0];
    }
  }

  /** Splitting then joining with the same separator gives back the string. */
  lemma {:induction false} JoinSplit(s: string, d: char)
    ensures Join(Split(s, d), [d]) == s
  {
    if s == [] {
    } else if s[0] == d {
      JoinSplit(s[1..], d);
      assert Split(s, d) == [""] + Split(s[1..], d);
      assert s == [d] + s[1..];
    } else {
      JoinSplit(s[1..], d);
      var t := Split(s[1..], d);
      if |t| == 1 {
      } else {
        assert ([[s[0]] + t[0]] + t[1..])[1..] == t[1..];
        assert Join(t, [d]) == t[0] + [d] + Join(t[1..], [d]);
      }
    }
  }

  /** Joining pieces that do not contain the separator, then splitting, gives the pieces back. */
  lemma {:induction false} SplitJoin(parts: seq<string>, d: char)
    requires |parts| >= 1
    requires forall i :: 0 <= i < |parts| ==> d !in parts[i]
    ensures Split(Join(parts, [d]), d) == parts
  {
    if |parts| == 1 {
      SplitPrefix(parts[0], "", d);
      assert parts[0] + "" == parts[0];
    } else {
      var rest := Join(parts[1..], [d]);
      SplitJoin(parts[1..], d);
      assert Join(parts, [d]) == parts[0] + ([d] + rest);
      SplitPrefix(parts[0], [d] + rest, d);
      assert ([d] + rest)[1..] == rest;
      assert Split([d] + rest, d) == [""] + parts[1..];
      assert parts[0] + "" == parts[0];
      assert parts == [parts[0]] + parts[1..];
    }
  }

  lemma {:induction false} NonEmptyIdentity(parts: seq<string>)
    requires forall i :: 0 <= i < |parts| ==> parts[i] != ""
    ensures NonEmpty(parts) == parts
  {
    if parts != [] {
      NonEmptyIdentity(parts[1..]);
    }
  }

  /** A path built as '/' followed by segments joined with '/' splits back
      into exactly those segments. */
  lemma SegmentsOfRooted(parts: seq<string>)
    requires AllSegments(parts)
    ensures Segments("/" + Join(parts, "/")) == parts
  {
    var s := "/" + Join(parts, "/");
    assert s[0] == '/' && s[1..] == Join(parts, "/");
    if parts == [] {
      assert s == "/" && s[1..] == "";
      assert Split(s, '/') == ["", ""];
      assert NonEmpty(["", ""]) == NonEmpty([""]) == NonEmpty([]);
    } else {
      SplitJoin(parts, '/');
      assert Split(s, '/') == [""] + parts;
      NonEmptyIdentity(parts);
    }
  }

  // ---------------------------------------------------------------------
  // Walk and Resolve

  lemma WalkSegments(cur: seq<string>, parts: seq<string>)
    requires AllSegments(cur) && AllSegments(parts)
    ensures AllSegments(Walk(cur, parts))
    decreases |parts|
  {
    if parts != [] {
      WalkSegments(cur, parts[..|parts| - 1]);
    }
  }

  /** Walking never introduces an empty, `.` or `..` segment: a clean
      starting directory gives a clean result. */
  lemma {:induction false} WalkClean(cur: seq<string>, parts: seq<string>)
    requires Clean(cur)
    requires forall i :: 0 <= i < |parts| ==> parts[i] != ""
    ensures Clean(Walk(cur, parts))
    decreases |parts|
  {
    if parts != [] {
      WalkClean(cur, parts[..|parts| - 1]);
    }
  }

  /** The segments of a resolved path: those of an absolute input, or the
      walk of a relative one from the current directory. */
  lemma ResolveSegments(cwd: string, path: string)
    ensures Segments(Resolve(cwd, path)) ==
      if StartsWith(path, '/') then Segments(path) else Walk(Segments(cwd), Segments(path))
  {
    if !StartsWith(path, '/') {
      WalkSegments(Segments(cwd), Segments(path));
      SegmentsOfRooted(Walk(Segments(cwd), Segments(path)));
    }
  }

  /** A relative path resolved from a clean current directory has no empty,
      `.` or `..` segment. */
  lemma ResolveRelativeClean(cwd: string, path: string)
    requires !StartsWith(path, '/')
    requires Clean(Segments(cwd))
    ensures Clean(Segments(Resolve(cwd, path)))
  {
    ResolveSegments(cwd, path);
    WalkClean(Segments(cwd), Segments(path));
  }

  /** Resolving is idempotent, whatever the current directory of the second call. */
  lemma ResolveIdempotent(cwd: string, cwd2: string, path: string)
    ensures Resolve(cwd2, Resolve(cwd, path)) == Resolve(cwd, path)
  {
  }
}
