/**
 * POSIX path handling as the coverage module uses it through `pathe.resolve`
 * and `url.pathToFileURL`. An absolute, normalised path is kept as the list of
 * its segments; the root "/" is the empty list.
 */
module Paths {

  type Path = seq<string>

  /** A segment that survives normalisation: not empty, not "." or "..", no separator. */
  predicate IsSegment(seg: string) {
    seg != "" && seg != "." && seg != ".." && '/' !in seg
  }

  /** A normalised absolute path. */
  predicate Normal(p: Path) {
    forall i :: 0 <= i < |p| ==> IsSegment(p[i])
  }

  predicate IsAbsolute(s: string) {
    |s| > 0 && s[0] == '/'
  }

  /** Joins pieces with '/' between them; the inverse of Split. */
  function Unsplit(pieces: seq<string>): string
    requires |pieces| >= 1
    decreases |pieces|
  {
    if |pieces| == 1 then pieces[0] else pieces[0] + "/" + Unsplit(pieces[1..])
  }

  /** Cuts a path string at every '/'. */
  function Split(s: string): (pieces: seq<string>)
    ensures |pieces| >= 1
    ensures forall i :: 0 <= i < |pieces| ==> '/' !in pieces[i]
    ensures Unsplit(pieces) == s
    decreases |s|
  {
    if s == [] then [""]
    else
      var rest := Split(s[1..]);
      if s[0] == '/' then
        assert ([""] + rest)[1..] == rest;
        [""] + rest
      else
        var pieces := [[s[0]] + rest[0]] + rest[1..];
        assert pieces[1..] == rest[1..];
        assert s == [s[0]] + s[1..];
        pieces
  }

  /**
   * Walks `pieces` starting at `base` the way path normalisation does: empty
   * and "." pieces are skipped, ".." climbs one level (never above the root),
   * and any other piece descends into it.
   */
  function Normalize(base: Path, pieces: seq<string>): (p: Path)
    requires Normal(base)
    requires forall i :: 0 <= i < |pieces| ==> '/' !in pieces[i]
    ensures Normal(p)
    decreases |pieces|
  {
    if pieces == [] then base
    else
      var seg := pieces[0];
      var next :=
        if seg == "" || seg == "." then base
        else if seg == ".." then (if base == [] then [] else base[..|base| - 1])
        else base + [seg];
      Normalize(next, pieces[1..])
  }

  /** The absolute path a path string names when the working directory is `cwd`. */
  function Locate(cwd: Path, s: string): (p: Path)
    requires Normal(cwd)
    ensures Normal(p)
  {
    Normalize(if IsAbsolute(s) then [] else cwd, Split(s))
  }

  /** "/a/b" for the segments ["a", "b"], without a leading "/" for the root. */
  function Concat(p: Path): string
    decreases |p|
  {
    if p == [] then "" else "/" + p[0] + Concat(p[1..])
  }

  /** The string form of an absolute path: "/" for the root, no trailing "/". */
  function Format(p: Path): (s: string)
    ensures IsAbsolute(s)
  {
    if p == [] then "/" else Concat(p)
  }

  /**
   * `pathe.resolve(from, to)`: an absolute `to` is normalised on its own;
   * a relative one is walked from `from`, itself taken against `cwd` when it
   * is relative.
   */
  function Resolve(cwd: Path, from: string, to: string): (r: string)
    requires Normal(cwd)
    ensures IsAbsolute(r)
    ensures r == Format(Locate(cwd, r))
  {
    var p := if IsAbsolute(to) then Locate(cwd, to) else Normalize(Locate(cwd, from), Split(to));
    LocateFormat(cwd, p);
    Format(p)
  }

  /** The string ends with a separator. */
  predicate EndsWithSlash(s: string) {
    |s| > 0 && s[|s| - 1] == '/'
  }

  /**
   * `pathToFileURL(path).href`, without percent-encoding: "file://" and the
   * resolved path, with the trailing "/" of `path` put back when resolving
   * dropped it.
   */
  function FileURL(cwd: Path, path: string): (url: string)
    requires Normal(cwd)
    ensures |url| > 7 && url[..7] == "file://"
  {
    var resolved := Format(Locate(cwd, path));
    "file://" + if EndsWithSlash(path) && !EndsWithSlash(resolved) then resolved + "/" else resolved
  }

  // ---------------------------------------------------------------------------
  // Properties of the path functions.

  /** Normalising already normal segments just appends them. */
  lemma {:induction false} NormalizeAppends(base: Path, p: Path)
    requires Normal(base) && Normal(p)
    ensures Normalize(base, p) == base + p
    decreases |p|
  {
    if p != [] {
      NormalizeAppends(base + [p[0]], p[1..]);
      assert base + [p[0]] + p[1..] == base + p;
    }
  }

  /** Splitting a piece without separators glued in front of `t` glues it to t's first piece. */
  lemma {:induction false} SplitGlued(w: string, t: string)
    requires '/' !in w
    ensures Split(w + t) == [w + Split(t)[0]] + Split(t)[1..]
    decreases |w|
  {
    var st := Split(t);
    if w == [] {
      assert w + t == t && w + st[0] == st[0];
      assert [st[0]] + st[1..] == st;
    } else {
      SplitGlued(w[1..], t);
      assert (w + t)[1..] == w[1..] + t;
      var rest := Split(w[1..] + t);
      assert rest == [w[1..] + st[0]] + st[1..];
      assert Split(w + t) == [[w[0]] + rest[0]] + rest[1..];
      assert [w[0]] + (w[1..] + st[0]) == w + st[0];
    }
  }

  lemma {:induction false} SplitConcat(seg: string, q: Path)
    requires '/' !in seg && Normal(q)
    ensures Split(seg + Concat(q)) == [seg] + q
    decreases |q|
  {
    if q == [] {
      SplitGlued(seg, "");
      assert seg + "" == seg;
    } else {
      SplitConcat(q[0], q[1..]);
      var c := Concat(q);
      assert c == "/" + (q[0] + Concat(q[1..]));
      assert c[1..] == q[0] + Concat(q[1..]);
      assert Split(c[1..]) == [q[0]] + q[1..] == q;
      assert Split(c) == [""] + Split(c[1..]);
      SplitGlued(seg, c);
      assert seg + "" == seg;
    }
  }

  /** Cutting the string form of a normal path gives an empty piece before its segments. */
  lemma SplitFormat(p: Path)
    requires Normal(p)
    ensures Split(Format(p)) == if p == [] then ["", ""] else [""] + p
  {
    if p == [] {
      assert "/"[1..] == "";
    } else {
      var s := Format(p);
      assert s == "/" + (p[0] + Concat(p[1..]));
      assert s[1..] == p[0] + Concat(p[1..]);
      SplitConcat(p[0], p[1..]);
      assert [p[0]] + p[1..] == p;
    }
  }

  /** Reading back the string form of a normal path gives the path: Format is a faithful encoding. */
  lemma LocateFormat(cwd: Path, p: Path)
    requires Normal(cwd) && Normal(p)
    ensures Locate(cwd, Format(p)) == p
  {
    SplitFormat(p);
    if p == [] {
      assert Normalize([], ["", ""]) == Normalize([], [""]) == Normalize([], []);
    } else {
      assert ([""] + p)[1..] == p;
      NormalizeAppends([], p);
    }
  }

  /**
   * `resolve(from, to)` names the place `to` names when taken from the place
   * `from` names: a relative `to` of any number of segments ("out/cov",
   * "../cov") is walked from `from`, an absolute one stands on its own.
   */
  lemma ResolveNames(cwd: Path, from: string, to: string)
    requires Normal(cwd)
    ensures Locate(cwd, Resolve(cwd, from, to)) == Locate(Locate(cwd, from), to)
  {
    var p := if IsAbsolute(to) then Locate(cwd, to) else Normalize(Locate(cwd, from), Split(to));
    LocateFormat(cwd, p);
  }

  /** An absolute `to` ignores `from`. */
  lemma ResolveAbsolute(cwd: Path, from: string, to: string)
    requires Normal(cwd) && IsAbsolute(to)
    ensures Locate(cwd, Resolve(cwd, from, to)) == Locate(cwd, to)
  {
    LocateFormat(cwd, Locate(cwd, to));
  }

  /** Resolving one plain segment against a resolved directory names its child. */
  lemma ResolveChild(cwd: Path, dir: Path, seg: string)
    requires Normal(cwd) && Normal(dir) && IsSegment(seg)
    ensures Resolve(cwd, Format(dir), seg) == Format(dir + [seg])
  {
    LocateFormat(cwd, dir);
    SplitGlued(seg, "");
    assert seg + "" == seg;
    assert Split(seg) == [seg];
    NormalizeAppends(dir, [seg]);
  }

  /**
   * The path part of a file URL names the place `path` names, and the URL
   * ends with "/" exactly when `path` does or names the root.
   */
  lemma FileURLPath(cwd: Path, path: string)
    requires Normal(cwd)
    ensures Locate(cwd, FileURL(cwd, path)[7..]) == Locate(cwd, path)
    ensures EndsWithSlash(FileURL(cwd, path)) <==> EndsWithSlash(path) || Locate(cwd, path) == []
  {
    var p := Locate(cwd, path);
    var resolved := Format(p);
    var href := if EndsWithSlash(path) && !EndsWithSlash(resolved) then resolved + "/" else resolved;
    LocateFormat(cwd, p);
    FormatEndsWithSlash(p);
    LocateTrailingSlash(cwd, resolved);
    assert FileURL(cwd, path) == "file://" + href;
    assert ("file://" + href)[7..] == href;
  }

  /** Two paths naming different places have different file URLs. */
  lemma FileURLInjective(cwd: Path, a: string, b: string)
    requires Normal(cwd) && Locate(cwd, a) != Locate(cwd, b)
    ensures FileURL(cwd, a) != FileURL(cwd, b)
  {
    FileURLPath(cwd, a);
    FileURLPath(cwd, b);
  }

  /** The string form of a normal path ends with "/" only for the root. */
  lemma FormatEndsWithSlash(p: Path)
    requires Normal(p)
    ensures EndsWithSlash(Format(p)) <==> p == []
  {
    if p != [] {
      ConcatLast(p);
    }
  }

  lemma {:induction false} ConcatLast(p: Path)
    requires Normal(p) && p != []
    ensures |Concat(p)| > 0 && Concat(p)[|Concat(p)| - 1] != '/'
    decreases |p|
  {
    var c := Concat(p);
    assert c == "/" + p[0] + Concat(p[1..]);
    if p[1..] == [] {
      assert c == "/" + p[0];
      assert IsSegment(p[0]);
      assert c[|c| - 1] == p[0][|p[0]| - 1];
    } else {
      ConcatLast(p[1..]);
      var t := Concat(p[1..]);
      assert c[|c| - 1] == t[|t| - 1];
    }
  }

  /** A trailing separator adds one empty piece at the end. */
  lemma {:induction false} SplitTrailingSlash(s: string)
    ensures Split(s + "/") == Split(s) + [""]
    decreases |s|
  {
    if s == [] {
      assert ([] + "/")[1..] == [];
    } else {
      SplitTrailingSlash(s[1..]);
      assert (s + "/")[1..] == s[1..] + "/";
      var rest := Split(s[1..]);
      assert Split(s[1..] + "/")[1..] == rest[1..] + [""];
    }
  }

  /** A trailing empty piece is skipped by normalisation. */
  lemma {:induction false} NormalizeTrailingEmpty(base: Path, pieces: seq<string>)
    requires Normal(base)
    requires forall i :: 0 <= i < |pieces| ==> '/' !in pieces[i]
    ensures Normalize(base, pieces + [""]) == Normalize(base, pieces)
    decreases |pieces|
  {
    if pieces == [] {
      assert ([] + [""])[1..] == [];
    } else {
      assert (pieces + [""])[1..] == pieces[1..] + [""];
      var seg := pieces[0];
      var next :=
        if seg == "" || seg == "." then base
        else if seg == ".." then (if base == [] then [] else base[..|base| - 1])
        else base + [seg];
      NormalizeTrailingEmpty(next, pieces[1..]);
    }
  }

  /** A trailing "/" on a non-empty path string names the same place. */
  lemma LocateTrailingSlash(cwd: Path, s: string)
    requires Normal(cwd) && s != ""
    ensures Locate(cwd, s + "/") == Locate(cwd, s)
  {
    SplitTrailingSlash(s);
    assert IsAbsolute(s + "/") == IsAbsolute(s);
    NormalizeTrailingEmpty(if IsAbsolute(s) then [] else cwd, Split(s));
  }
}
