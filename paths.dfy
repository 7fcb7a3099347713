/**
 * The three POSIX path operations the scripts rely on, as `posixpath` defines them:
 * `basename`, `join` (two arguments) and `splitext`; `basename` and `splitext` are
 * built on `str.rfind`.
 */
module Paths {

  /** `s.rfind(c)`: the index of the last `c` in `s`, or -1 when there is none. */
  function LastIndexOf(s: string, c: char): (r: int)
    ensures -1 <= r < |s|
    ensures r >= 0 ==> s[r] == c
    ensures forall i :: r < i < |s| ==> s[i] != c
  {
    if |s| == 0 then -1
    else if s[|s| - 1] == c then |s| - 1
    else LastIndexOf(s[..|s| - 1], c)
  }

  /** `os.path.basename(p)`: everything after the last '/'. */
  function Basename(p: string): (b: string)
    ensures '/' !in b
    ensures |b| <= |p| && p[|p| - |b|..] == b
    ensures |b| < |p| ==> p[|p| - |b| - 1] == '/'
  {
    var i := LastIndexOf(p, '/') + 1;
    assert forall k :: 0 <= k < |p[i..]| ==> p[i..][k] == p[i + k];
    p[i..]
  }

  /** `os.path.join(a, b)`: an absolute `b` replaces `a`; otherwise a '/' is inserted unless `a` is empty or already ends in one. */
  function Join(a: string, b: string): (p: string)
    ensures |b| > 0 && b[0] == '/' ==> p == b
    ensures !(|b| > 0 && b[0] == '/') ==> |a| + |b| <= |p| && p[..|a|] == a && p[|p| - |b|..] == b
  {
    if |b| > 0 && b[0] == '/' then b
    else if a == [] || a[|a| - 1] == '/' then a + b
    else a + "/" + b
  }

  predicate OnlyDots(s: string) {
    forall i :: 0 <= i < |s| ==> s[i] == '.'
  }

  /** The shape `splitext` gives an extension: empty, or one '.' followed by no '.' and no '/'. */
  predicate IsExtension(e: string) {
    e == [] || (e[0] == '.' && '.' !in e[1..] && '/' !in e)
  }

  /** A suffix in which no position holds `c` does not contain `c`. */
  lemma NotInSuffix(s: string, i: nat, c: char)
    requires i <= |s| && forall j :: i <= j < |s| ==> s[j] != c
    ensures c !in s[i..]
  {
    assert forall k :: 0 <= k < |s[i..]| ==> s[i..][k] == s[i + k];
  }

  /** The text from the last '.' on, when no '/' follows that '.', is an extension. */
  lemma TailIsExtension(p: string, dot: int)
    requires 0 <= dot < |p| && p[dot] == '.'
    requires forall i :: dot < i < |p| ==> p[i] != '.' && p[i] != '/'
    ensures IsExtension(p[dot..])
  {
    NotInSuffix(p, dot + 1, '.');
    NotInSuffix(p, dot, '/');
    assert p[dot..][1..] == p[dot + 1..];
  }

  /**
   * Where `os.path.splitext(p)` cuts `p`: at the last '.' of the final path component,
   * unless everything before that '.' in the component is dots; otherwise at the end.
   */
  function ExtensionStart(p: string): (i: int)
    ensures 0 <= i <= |p|
    ensures i < |p| ==> p[i] == '.' && forall j :: i < j < |p| ==> p[j] != '.' && p[j] != '/'
  {
    var sep := LastIndexOf(p, '/');
    var dot := LastIndexOf(p, '.');
    if dot > sep && !OnlyDots(p[sep + 1..dot]) then dot else |p|
  }

  /** `os.path.splitext(p)`: the root and the extension, which together make `p`. */
  function SplitExt(p: string): (r: (string, string))
    ensures r.0 + r.1 == p
    ensures IsExtension(r.1)
  {
    var i := ExtensionStart(p);
    if i < |p| then
      TailIsExtension(p, i);
      (p[..i], p[i..])
    else (p, "")
  }

  /** LastIndexOf on a concatenation looks in the right part first. */
  lemma {:induction false} LastIndexOfAppend(s: string, t: string, c: char)
    ensures LastIndexOf(s + t, c) ==
      if c in t then |s| + LastIndexOf(t, c) else LastIndexOf(s, c)
  {
    if |t| == 0 {
      assert s + t == s;
    } else {
      var t' := t[..|t| - 1];
      assert (s + t)[..|s + t| - 1] == s + t';
      if t[|t| - 1] != c {
        LastIndexOfAppend(s, t', c);
        assert t == t' + [t[|t| - 1]];
      }
    }
  }

  /** Joining a directory with a plain file name, the file name is the basename again. */
  lemma BasenameOfJoin(dir: string, name: string)
    requires '/' !in name
    ensures Basename(Join(dir, name)) == name
  {
    var p := Join(dir, name);
    if dir == [] || dir[|dir| - 1] == '/' {
      LastIndexOfAppend(dir, name, '/');
      if dir != [] { assert dir[LastIndexOf(dir, '/')] == '/'; }
      assert p == dir + name;
    } else {
      LastIndexOfAppend(dir + "/", name, '/');
      LastIndexOfAppend(dir, "/", '/');
      assert p == dir + "/" + name;
    }
  }

  /** A non-empty extension has its only '.' at its head. */
  lemma ExtensionDot(ext: string)
    requires IsExtension(ext) && ext != []
    ensures LastIndexOf(ext, '.') == 0
  {
    assert forall i :: 0 < i < |ext| ==> ext[i] == ext[1..][i - 1];
  }

  /** The last '.' of `u + ext` is the head of a non-empty extension. */
  lemma DotBeforeExtension(u: string, ext: string)
    requires IsExtension(ext) && ext != []
    ensures LastIndexOf(u + ext, '.') == |u|
  {
    ExtensionDot(ext);
    LastIndexOfAppend(u, ext, '.');
  }

  /** Text without '/' after `root` leaves its last '/' where it was. */
  lemma SlashBeforeInsert(root: string, tag: string, ext: string)
    requires '/' !in tag && '/' !in ext
    ensures LastIndexOf(root + tag + ext, '/') == LastIndexOf(root, '/')
  {
    LastIndexOfAppend(root + tag, ext, '/');
    LastIndexOfAppend(root, tag, '/');
  }

  /** Appending to a component that is not all dots keeps it so. */
  lemma NotOnlyDotsAppend(s: string, tag: string)
    requires !OnlyDots(s)
    ensures !OnlyDots(s + tag)
  {
    var k :| 0 <= k < |s| && s[k] != '.';
    assert (s + tag)[k] == s[k];
  }

  /** The component between the last '/' and the inserted text, read off `root + tag + ext`. */
  lemma SliceOfInsert(root: string, tag: string, ext: string, a: int)
    requires 0 <= a <= |root|
    ensures (root + tag + ext)[a..|root| + |tag|] == root[a..] + tag
  {
    var q := root + tag + ext;
    assert forall k :: 0 <= k < |root[a..] + tag| ==> q[a..|root| + |tag|][k] == (root[a..] + tag)[k];
  }

  /** The cut falls at the last '.' when that '.' ends a component that is not all dots. */
  lemma ExtensionStartAt(q: string, sep: int, dot: int)
    requires LastIndexOf(q, '/') == sep && LastIndexOf(q, '.') == dot
    requires sep < dot && !OnlyDots(q[sep + 1..dot])
    ensures ExtensionStart(q) == dot
  {
  }

  /** What a cut before the end of `p` says about `p`, its last '/' at `sep` and its last '.' at `dot`. */
  lemma ExtensionStartFacts(p: string, sep: int, dot: int)
    requires sep == LastIndexOf(p, '/') && dot == LastIndexOf(p, '.')
    requires ExtensionStart(p) < |p|
    ensures ExtensionStart(p) == dot && sep < dot
    ensures !OnlyDots(p[sep + 1..dot])
  {
  }

  /** Inserting `tag` in front of the extension moves the cut by exactly `|tag|`. */
  lemma ExtensionStartInsert(p: string, tag: string)
    requires '.' !in tag && '/' !in tag
    requires ExtensionStart(p) < |p|
    ensures ExtensionStart(p[..ExtensionStart(p)] + tag + p[ExtensionStart(p)..]) == ExtensionStart(p) + |tag|
  {
    var sep := LastIndexOf(p, '/');
    var dot := ExtensionStart(p);
    ExtensionStartFacts(p, sep, LastIndexOf(p, '.'));
    var root, ext := p[..dot], p[dot..];
    TailIsExtension(p, dot);
    DotBeforeExtension(root + tag, ext);
    SlashBeforeInsert(root, tag, ext);
    SliceOfInsert(root, tag, ext, sep + 1);
    assert root[sep + 1..] == p[sep + 1..dot];
    NotOnlyDotsAppend(p[sep + 1..dot], tag);
    ExtensionStartAt(root + tag + ext, sep, dot + |tag|);
  }

  /** The case of SplitExtInsert where `p` has an extension. */
  lemma SplitExtInsertWithExt(p: string, tag: string)
    requires '.' !in tag && '/' !in tag
    requires SplitExt(p).1 != []
    ensures SplitExt(SplitExt(p).0 + tag + SplitExt(p).1) == (SplitExt(p).0 + tag, SplitExt(p).1)
  {
    var i := ExtensionStart(p);
    var root, ext := p[..i], p[i..];
    assert SplitExt(p) == (root, ext);
    ExtensionStartInsert(p, tag);
    var q := root + tag + ext;
    assert q[..i + |tag|] == root + tag && q[i + |tag|..] == ext;
  }

  /** The case of SplitExtInsert where `p` has no extension. */
  lemma SplitExtInsertNoExt(p: string, tag: string)
    requires '.' !in tag && '/' !in tag
    requires SplitExt(p).1 == []
    ensures SplitExt(p + tag) == (p + tag, "")
  {
    var q := p + tag;
    var sep := LastIndexOf(p, '/');
    var dot := LastIndexOf(p, '.');
    LastIndexOfAppend(p, tag, '/');
    LastIndexOfAppend(p, tag, '.');
    assert LastIndexOf(q, '.') == dot && LastIndexOf(q, '/') == sep;
    if dot > sep {
      assert q[sep + 1..dot] == p[sep + 1..dot];
    }
  }

  /**
   * Inserting text without '.' or '/' between the root and the extension of a path
   * keeps that extension: `splitext(root + tag + ext)` is `(root + tag, ext)`.
   */
  lemma SplitExtInsert(p: string, tag: string)
    requires '.' !in tag && '/' !in tag
    ensures var (root, ext) := SplitExt(p); SplitExt(root + tag + ext) == (root + tag, ext)
  {
    if SplitExt(p).1 == [] {
      SplitExtInsertNoExt(p, tag);
      assert SplitExt(p).0 + tag + SplitExt(p).1 == p + tag;
    } else {
      SplitExtInsertWithExt(p, tag);
    }
  }
}
