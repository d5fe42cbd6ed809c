/**
 * The part of Node's POSIX `path` module the core uses: basename, dirname and join of
 * a directory with a plain file name. Normalisation of "." and ".." segments and of
 * doubled separators inside a path is not modelled.
 */
module Paths {
  import opened Support

  /** `s` without its trailing separators. */
  function TrimTrailingSlashes(s: string): (r: string)
    ensures r <= s
    ensures r == [] || r[|r| - 1] != '/'
  {
    if s != [] && s[|s| - 1] == '/' then TrimTrailingSlashes(s[..|s| - 1]) else s
  }

  /** path.basename: the last segment, trailing separators ignored. */
  function Basename(p: string): (r: string)
    ensures NoChar(r, '/')
  {
    var q := TrimTrailingSlashes(p);
    match LastIndexOf(q, '/')
    case None => q
    case Some(i) => q[i + 1..]
  }

  /**
   * path.dirname: everything before the last separator that precedes the last segment;
   * "/" for a root-level name, "." for a bare name, and "//" when the path starts with
   * two separators followed by a single segment.
   */
  function Dirname(p: string): string {
    if p == [] then "."
    else
      var q := p[..1] + TrimTrailingSlashes(p[1..]);
      match LastIndexOf(q[1..], '/')
      case None => if p[0] == '/' then "/" else "."
      case Some(i) => if p[0] == '/' && i == 0 then "//" else q[..i + 1]
  }

  /** path.join(dir, name) for a name without separators; an empty or "." directory adds nothing. */
  function JoinPath(dir: string, name: string): string {
    if dir == "" || dir == "." then name else TrimTrailingSlashes(dir) + "/" + name
  }

  /**
   * path.resolve(base, p) for an absolute `base`: an absolute `p` stands alone, an empty one
   * leaves `base`, and any other is joined to `base`; the result loses its trailing
   * separators, except that the root stays "/".
   */
  function Resolve(base: string, p: string): (r: string)
    ensures r == [] || r == "/" || r[|r| - 1] != '/'
  {
    var joined := if StartsWith(p, "/") then p else if p == "" then base else JoinPath(base, p);
    if joined != "" && TrimTrailingSlashes(joined) == "" then "/" else TrimTrailingSlashes(joined)
  }

  /** A path with no trailing separator and no doubled separator inside it. */
  predicate PlainPath(p: string) {
    p != [] && p[|p| - 1] != '/' && forall i :: 0 <= i < |p| - 1 ==> !(p[i] == '/' && p[i + 1] == '/')
  }

  lemma TrimNoTrailing(s: string)
    requires s == [] || s[|s| - 1] != '/'
    ensures TrimTrailingSlashes(s) == s
  {
  }

  /** The directory of a plain path is the path itself up to its last separator. */
  lemma {:induction false} DirnameOfPlain(p: string)
    requires PlainPath(p)
    ensures LastIndexOf(p, '/').None? ==> Dirname(p) == "."
    ensures LastIndexOf(p, '/') == Some(0) ==> Dirname(p) == "/"
    ensures LastIndexOf(p, '/').Some? && LastIndexOf(p, '/').value > 0 ==>
              Dirname(p) == p[..LastIndexOf(p, '/').value] && Dirname(p)[|Dirname(p)| - 1] != '/'
  {
    match LastIndexOf(p, '/')
    case None => DirnameWithoutSlash(p);
    case Some(k) =>
      if k == 0 {
        DirnameAtRoot(p);
      } else {
        DirnameInner(p);
      }
  }

  lemma PlainPathHead(p: string)
    requires PlainPath(p)
    ensures p[..1] + TrimTrailingSlashes(p[1..]) == p
  {
    TrimNoTrailing(p[1..]);
  }

  lemma DirnameWithoutSlash(p: string)
    requires PlainPath(p) && LastIndexOf(p, '/').None?
    ensures Dirname(p) == "."
  {
    PlainPathHead(p);
    assert NoChar(p[1..], '/') by {
      forall t | 0 <= t < |p[1..]| ensures p[1..][t] != '/' { assert p[1..][t] == p[t + 1]; }
    }
    LastSlashAbsent(p[1..]);
    assert p[0] != '/';
  }

  lemma DirnameAtRoot(p: string)
    requires PlainPath(p) && LastIndexOf(p, '/') == Some(0)
    ensures Dirname(p) == "/"
  {
    PlainPathHead(p);
    LastSlashAbsent(p[1..]);
  }

  lemma DirnameInner(p: string)
    requires PlainPath(p) && LastIndexOf(p, '/').Some? && LastIndexOf(p, '/').value > 0
    ensures Dirname(p) == p[..LastIndexOf(p, '/').value] && Dirname(p)[|Dirname(p)| - 1] != '/'
  {
    var k := LastIndexOf(p, '/').value;
    PlainPathHead(p);
    LastSlashShift(p);
    assert p[k - 1] != '/';
  }

  lemma LastSlashAbsent(s: string)
    requires NoChar(s, '/')
    ensures LastIndexOf(s, '/').None?
  {
  }

  /** Dropping a first character that is not the last separator shifts its index by one. */
  lemma {:induction false} LastSlashShift(p: string)
    requires LastIndexOf(p, '/').Some? && LastIndexOf(p, '/').value > 0
    ensures LastIndexOf(p[1..], '/') == Some(LastIndexOf(p, '/').value - 1)
    decreases |p|
  {
    var k := LastIndexOf(p, '/').value;
    if p[|p| - 1] != '/' {
      var init := p[..|p| - 1];
      assert LastIndexOf(init, '/') == LastIndexOf(p, '/');
      LastSlashShift(init);
      assert p[1..][..|p[1..]| - 1] == init[1..];
    }
  }

  /** A separator-free, non-empty name joined to the directory of a plain path lands back in that directory. */
  lemma JoinedStaysInDirectory(p: string, name: string)
    requires PlainPath(p)
    requires name != [] && NoChar(name, '/')
    ensures Dirname(JoinPath(Dirname(p), name)) == Dirname(p)
    ensures Basename(JoinPath(Dirname(p), name)) == name
  {
    DirnameOfPlain(p);
    var d := Dirname(p);
    var j := JoinPath(d, name);
    TrimNoTrailing(name);
    if d == "." {
      assert j == name;
      LastSlashAbsent(name);
      DirnameOfBareName(name);
    } else if d == "/" {
      assert j == "/" + name;
      DirnameUnderRoot(name);
    } else {
      TrimNoTrailing(d);
      assert j == d + "/" + name;
      DirnameBelow(d, name);
    }
  }

  lemma DirnameOfBareName(name: string)
    requires name != [] && NoChar(name, '/')
    ensures Dirname(name) == "."
    ensures Basename(name) == name
  {
    TrimNoTrailing(name);
    TrimNoTrailing(name[1..]);
    assert name[..1] + name[1..] == name;
    LastSlashAbsent(name);
    LastSlashAbsent(name[1..]);
  }

  lemma DirnameUnderRoot(name: string)
    requires name != [] && NoChar(name, '/')
    ensures Dirname("/" + name) == "/"
    ensures Basename("/" + name) == name
  {
    var p := "/" + name;
    TrimNoTrailing(name);
    TrimNoTrailing(p);
    assert p[1..] == name;
    LastSlashAbsent(name);
    assert LastIndexOf(p, '/') == Some(0) by { LastSlashAfter("", name); }
    assert p[1..] == name;
  }

  /** The separator placed just before a separator-free tail is the last one. */
  lemma {:induction false} LastSlashAfter(d: string, name: string)
    requires NoChar(name, '/')
    ensures LastIndexOf(d + "/" + name, '/') == Some(|d|)
    decreases |name|
  {
    var s := d + "/" + name;
    if name == [] {
      assert s[|s| - 1] == '/';
    } else {
      assert s[..|s| - 1] == d + "/" + name[..|name| - 1];
      LastSlashAfter(d, name[..|name| - 1]);
    }
  }

  lemma DirnameBelow(d: string, name: string)
    requires d != [] && d != "." && d != "/" && d[|d| - 1] != '/'
    requires name != [] && NoChar(name, '/')
    ensures Dirname(d + "/" + name) == d
    ensures Basename(d + "/" + name) == name
  {
    var p := d + "/" + name;
    TrimNoTrailing(p);
    TrimNoTrailing(p[1..]);
    assert p[..1] + p[1..] == p;
    LastSlashAfter(d, name);
    assert p[1..] == d[1..] + "/" + name;
    LastSlashAfter(d[1..], name);
    assert p[..|d|] == d;
  }

  /** Joining a directory and a separator-free name yields a path whose last segment is that name. */
  lemma BasenameOfJoin(dir: string, name: string)
    requires name != [] && NoChar(name, '/')
    ensures Basename(JoinPath(dir, name)) == name
  {
    if dir == "" || dir == "." {
      DirnameOfBareName(name);
    } else {
      var t := TrimTrailingSlashes(dir);
      var j := t + "/" + name;
      TrimNoTrailing(j);
      LastSlashAfter(t, name);
      assert j[|t| + 1..] == name;
    }
  }
}
