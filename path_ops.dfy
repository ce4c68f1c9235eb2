/**
 * The string and path operations of Python that the folder processor relies
 * on, on POSIX: `str.endswith`, `str.lower` (restricted to ASCII letters),
 * `str.rfind`, and `os.path.basename`, `os.path.join` and `os.path.splitext`.
 */
module PathOps {

  /** `s.endswith(suffix)` */
  predicate EndsWith(s: string, suffix: string)
  {
    |suffix| <= |s| && s[|s| - |suffix|..] == suffix
  }

  function LowerChar(c: char): char
  {
    if 'A' <= c <= 'Z' then (c as int + 32) as char else c
  }

  /** `s.lower()` for the ASCII letters; every other character is kept. */
  function Lower(s: string): string
  {
    seq(|s|, i requires 0 <= i < |s| => LowerChar(s[i]))
  }

  lemma LowerAppend(a: string, b: string)
    ensures Lower(a + b) == Lower(a) + Lower(b)
  {
    assert forall i :: 0 <= i < |a + b| ==> Lower(a + b)[i] == (Lower(a) + Lower(b))[i];
  }

  /** A suffix written in lower case survives lower-casing the string. */
  lemma LowerKeepsSuffix(s: string, suffix: string)
    requires Lower(suffix) == suffix
    requires EndsWith(s, suffix)
    ensures EndsWith(Lower(s), suffix)
  {
    var k := |s| - |suffix|;
    forall i | 0 <= i < |suffix|
      ensures Lower(s)[k + i] == suffix[i]
    {
      assert s[k + i] == suffix[i];
      assert Lower(suffix)[i] == LowerChar(suffix[i]);
    }
  }

  /** Two strings with the same ending agree on every shorter suffix. */
  lemma EndsWithTrans(s: string, t: string, suffix: string)
    requires EndsWith(s, t)
    requires |suffix| <= |t|
    ensures EndsWith(s, suffix) <==> EndsWith(t, suffix)
  {
    var d := |s| - |t|;
    assert forall j :: 0 <= j < |t| ==> s[d + j] == t[j] by {
      assert s[d..] == t;
    }
    assert s[|s| - |suffix|..] == t[|t| - |suffix|..];
  }

  /** `s.rfind(c)`: the index of the last occurrence of `c`, or -1. */
  function RFind(s: string, c: char): (r: int)
    ensures -1 <= r < |s|
    ensures 0 <= r ==> s[r] == c
    ensures forall k :: r < k < |s| ==> s[k] != c
  {
    if |s| == 0 then -1
    else if s[|s| - 1] == c then |s| - 1
    else RFind(s[..|s| - 1], c)
  }

  lemma RFindAt(s: string, c: char, i: nat)
    requires i < |s| && s[i] == c
    requires forall k :: i < k < |s| ==> s[k] != c
    ensures RFind(s, c) == i
  {
  }

  lemma RFindAbsent(s: string, c: char)
    requires c !in s
    ensures RFind(s, c) == -1
  {
  }

  /** `os.path.basename(p)`: everything after the last '/'. */
  function Basename(p: string): string
  {
    p[RFind(p, '/') + 1..]
  }

  /** The basename is the longest suffix without a '/'. */
  lemma BasenameShape(p: string)
    ensures EndsWith(p, Basename(p))
    ensures '/' !in Basename(p)
    ensures |Basename(p)| < |p| ==> p[|p| - |Basename(p)| - 1] == '/'
  {
  }

  /** `os.path.join(a, b)` with two arguments. */
  function Join(a: string, b: string): string
  {
    if |b| > 0 && b[0] == '/' then b
    else if |a| == 0 || a[|a| - 1] == '/' then a + b
    else a + "/" + b
  }

  /**
   * The joined path ends with `b`. An absolute `b` replaces `a`; otherwise the
   * path starts with `a`, and one '/' separates the two exactly when `a` is
   * non-empty and does not already end in '/'.
   */
  lemma JoinShape(a: string, b: string)
    ensures EndsWith(Join(a, b), b)
    ensures |b| > 0 && b[0] == '/' ==> Join(a, b) == b
    ensures !(|b| > 0 && b[0] == '/') ==> |a| <= |Join(a, b)| && Join(a, b)[..|a|] == a
    ensures !(|b| > 0 && b[0] == '/') ==>
      |Join(a, b)| == |a| + |b| + (if |a| > 0 && a[|a| - 1] != '/' then 1 else 0)
    ensures !(|b| > 0 && b[0] == '/') && |a| > 0 && a[|a| - 1] != '/' ==> Join(a, b)[|a|] == '/'
  {
  }

  /**
   * `os.path.splitext(p)`: the extension is the part from the last '.' of the
   * last path component, unless that component has only dots before it (so a
   * name such as ".pdf" has no extension).
   */
  function Splitext(p: string): (string, string)
  {
    var sep := RFind(p, '/');
    var dot := RFind(p, '.');
    if sep < dot && exists k :: sep < k < dot && p[k] != '.' then (p[..dot], p[dot..])
    else (p, "")
  }

  /** A bare file name with a leading character other than '.' splits at its last '.'. */
  lemma SplitextAtLastDot(p: string, dot: nat)
    requires '/' !in p && 0 < dot < |p| && p[0] != '.' && p[dot] == '.'
    requires forall k :: dot < k < |p| ==> p[k] != '.'
    ensures Splitext(p) == (p[..dot], p[dot..])
  {
    RFindAbsent(p, '/');
    RFindAt(p, '.', dot);
  }

  /**
   * Root and extension concatenate to the path; a non-empty extension is one
   * '.' and no other '.' or '/', with a character other than '.' before it in
   * the last component; and the extension is empty only when every '.' of the
   * last component has only dots before it.
   */
  lemma SplitextShape(p: string)
    ensures Splitext(p).0 + Splitext(p).1 == p
    ensures Splitext(p).1 != [] ==>
      Splitext(p).1[0] == '.' && '.' !in Splitext(p).1[1..] && '/' !in Splitext(p).1
    ensures Splitext(p).1 != [] ==>
      exists k :: RFind(p, '/') < k < |Splitext(p).0| && Splitext(p).0[k] != '.'
    ensures Splitext(p).1 == [] ==>
      forall j, k :: RFind(p, '/') < j < k < |p| && p[k] == '.' ==> p[j] == '.'
  {
    var dot := RFind(p, '.');
    if Splitext(p).1 != [] {
      assert p[..dot] + p[dot..] == p;
    }
  }
}
