/** The parts of Python's `posixpath` (`os.path` on POSIX) that the dataset loader uses. */
module PosixPath {
  import opened Text

  /**
   * `os.path.join(a, b)`: an absolute `b` replaces `a`; otherwise `b` follows `a`, with a '/'
   * in between exactly when `a` is non-empty and does not end in one.
   */
  function Join(a: string, b: string): (r: string)
    ensures |b| > 0 && b[0] == '/' ==> r == b
    ensures (|b| == 0 || b[0] != '/') ==> r == a + b || r == a + "/" + b
    ensures (|b| == 0 || b[0] != '/') ==> (r == a + "/" + b <==> a != [] && a[|a| - 1] != '/')
  {
    if |b| > 0 && b[0] == '/' then b
    else if a == [] || a[|a| - 1] == '/' then a + b
    else a + "/" + b
  }

  /** `s.rfind(c)`: the last index holding `c`, or -1. */
  function LastIndexOf(s: string, c: char): (i: int)
    ensures -1 <= i < |s|
    ensures i >= 0 ==> s[i] == c
    ensures forall k :: i < k < |s| ==> s[k] != c
    decreases |s|
  {
    if s == [] then -1
    else if s[|s| - 1] == c then |s| - 1
    else LastIndexOf(s[..|s| - 1], c)
  }

  /**
   * `os.path.splitext(p)`: splits at the last '.' of the last path component, unless every
   * character of that component before the dot is itself a dot (so ".jpg" has no extension).
   */
  function SplitExt(p: string): (r: (string, string))
    ensures r.0 + r.1 == p
    ensures r.1 == "" || (r.1[0] == '.' && forall k :: 0 < k < |r.1| ==> r.1[k] != '.' && r.1[k] != '/')
  {
    var sepIndex := LastIndexOf(p, '/');
    var dotIndex := LastIndexOf(p, '.');
    if dotIndex > sepIndex && exists k :: sepIndex + 1 <= k < dotIndex && p[k] != '.' then
      var ext := p[dotIndex..];
      assert p[..dotIndex] + ext == p;
      assert forall k :: 0 < k < |ext| ==> ext[k] == p[dotIndex + k];
      (p[..dotIndex], ext)
    else (p, "")
  }

  /** The last occurrence is found when nothing after position `i` matches. */
  lemma {:induction false} LastIndexOfIs(s: string, c: char, i: int)
    requires -1 <= i < |s|
    requires i >= 0 ==> s[i] == c
    requires forall k :: i < k < |s| ==> s[k] != c
    ensures LastIndexOf(s, c) == i
    decreases |s|
  {
    if s != [] && |s| - 1 != i {
      LastIndexOfIs(s[..|s| - 1], c, i);
    }
  }

  /** A name ending in ".jpg" in any letter case has a dot, then three non-dots, at its end. */
  lemma JpgExtensionChars(name: string)
    requires EndsWith(Lower(name), ".jpg")
    ensures |name| >= 4 && name[|name| - 4] == '.'
    ensures forall k :: |name| - 4 < k < |name| ==> name[k] != '.'
  {
    var n := |name|;
    var low := Lower(name);
    assert low[n - 4..] == ".jpg";
    assert low[n - 4] == '.' && low[n - 3] == 'j' && low[n - 2] == 'p' && low[n - 1] == 'g';
  }

  /**
   * A name ending in ".jpg" in any letter case, with no separator and some character other than
   * a dot before the extension, has that four-character extension split off.
   */
  lemma JpgSplit(name: string)
    requires EndsWith(Lower(name), ".jpg")
    requires forall k :: 0 <= k < |name| ==> name[k] != '/'
    requires exists k :: 0 <= k < |name| - 4 && name[k] != '.'
    ensures SplitExt(name) == (name[..|name| - 4], name[|name| - 4..])
  {
    JpgExtensionChars(name);
    var n := |name|;
    LastIndexOfIs(name, '.', n - 4);
    LastIndexOfIs(name, '/', -1);
    var k :| 0 <= k < n - 4 && name[k] != '.';
    assert -1 + 1 <= k < n - 4;
  }

  /**
   * A ".jpg" name (any letter case) with no separator whose characters before the extension are
   * all dots, such as "..jpg", has no extension: the leading dots do not count as one.
   */
  lemma AllDotsJpgNoExtension(name: string)
    requires EndsWith(Lower(name), ".jpg")
    requires forall k :: 0 <= k < |name| ==> name[k] != '/'
    requires forall k :: 0 <= k < |name| - 4 ==> name[k] == '.'
    ensures SplitExt(name) == (name, "")
  {
    JpgExtensionChars(name);
    LastIndexOfIs(name, '.', |name| - 4);
    LastIndexOfIs(name, '/', -1);
  }

  /** A file called ".jpg" keeps its whole name as its stem. */
  lemma DotJpgHasNoExtension()
    ensures SplitExt(".jpg") == (".jpg", "")
  {
    var p := ".jpg";
    assert p[0] == '.' && p[1] == 'j' && p[2] == 'p' && p[3] == 'g';
    assert LastIndexOf(p, '.') == 0;
    assert LastIndexOf(p, '/') == -1;
  }
}
