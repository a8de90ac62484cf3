/** Paths, their byte order and the segment-prefix relation. */
module PathOrder {

  /** strcmp: negative, zero or positive. */
  function StrCmp(a: string, b: string): int {
    if a == [] then (if b == [] then 0 else -1)
    else if b == [] then 1
    else if a[0] != b[0] then a[0] as int - b[0] as int
    else StrCmp(a[1..], b[1..])
  }

  /** The prefix is the whole string, or is followed by a slash in it. */
  predicate HasPrefix(str: string, prefix: string) {
    && |prefix| <= |str|
    && (|str| > |prefix| ==> str[|prefix|] == '/')
    && str[..|prefix|] == prefix
  }

  /** p is a segment-prefix of a path exactly when the path is p, or continues with a slash. */
  lemma HasPrefixMeans(path: string, p: string)
    ensures HasPrefix(path, p) <==> path == p || exists rest :: path == p + "/" + rest
    ensures HasPrefix(path, p) <==> Under(path, p)
  {
    if HasPrefix(path, p) && path != p {
      assert |path| > |p|;
      assert path == p + "/" + path[|p| + 1..];
    }
  }

  /** The same by position. */
  predicate Under(path: string, p: string) {
    path == p || (|p| < |path| && path[..|p|] == p && path[|p|] == '/')
  }

  /** A longer name is another name. */
  lemma TestingIsNotUnderTest()
    ensures !HasPrefix("/testing", "/test") && HasPrefix("/test/ing", "/test") && HasPrefix("/test", "/test")
    ensures !HasPrefix("/test", "/test/ing")
  {
    assert "/testing"[5] == 'i' && "/test/ing"[5] == '/';
    assert "/test/ing"[..5] == "/test";
  }

  /** strcmp decides at the first difference; a proper prefix comes first. */
  lemma {:induction false} StrCmpMeans(a: string, b: string)
    ensures StrCmp(a, b) < 0
            <==> exists k :: 0 <= k <= |a| && k < |b| && a[..k] == b[..k] && (k == |a| || a[k] < b[k])
  {
    if a != [] && b != [] && a[0] == b[0] {
      StrCmpMeans(a[1..], b[1..]);
      if StrCmp(a, b) < 0 {
        var k :| 0 <= k <= |a[1..]| && k < |b[1..]| && a[1..][..k] == b[1..][..k]
                 && (k == |a[1..]| || a[1..][k] < b[1..][k]);
        assert a[..k + 1] == [a[0]] + a[1..][..k] && b[..k + 1] == [b[0]] + b[1..][..k];
        assert a[..k + 1] == b[..k + 1];
      }
      if k :| 0 <= k <= |a| && k < |b| && a[..k] == b[..k] && (k == |a| || a[k] < b[k]) {
        assert k > 0;
        assert a[1..][..k - 1] == a[..k][1..] && b[1..][..k - 1] == b[..k][1..];
      }
    } else if a == [] && b != [] {
      assert a[..0] == b[..0];
    } else if a != [] && b != [] && StrCmp(a, b) < 0 {
      assert a[..0] == b[..0] && a[0] < b[0];
    } else if k :| 0 <= k <= |a| && k < |b| && a[..k] == b[..k] && (k == |a| || a[k] < b[k]) {
      if k > 0 {
        assert a[..k][0] == b[..k][0];
      }
    }
  }

  lemma {:induction false} StrCmpEqual(a: string, b: string)
    ensures StrCmp(a, b) == 0 <==> a == b
    ensures StrCmp(a, b) < 0 <==> StrCmp(b, a) > 0
  {
    if a != [] && b != [] && a[0] == b[0] {
      StrCmpEqual(a[1..], b[1..]);
      assert a == [a[0]] + a[1..] && b == [b[0]] + b[1..];
    }
  }

  lemma {:induction false} StrCmpTransitive(a: string, b: string, c: string)
    requires StrCmp(a, b) <= 0 && StrCmp(b, c) <= 0
    ensures StrCmp(a, c) <= 0
    ensures StrCmp(a, b) < 0 || StrCmp(b, c) < 0 ==> StrCmp(a, c) < 0
  {
    if a != [] && b != [] && c != [] && a[0] == b[0] == c[0] {
      StrCmpTransitive(a[1..], b[1..], c[1..]);
    }
  }

  /** A proper prefix comes earlier. */
  lemma {:induction false} ProperPrefixIsLess(p: string, q: string)
    requires |p| < |q| && q[..|p|] == p
    ensures StrCmp(p, q) < 0
  {
    if p != [] {
      assert p[0] == q[0];
      assert q[1..][..|p| - 1] == p[1..];
      ProperPrefixIsLess(p[1..], q[1..]);
    }
  }

  /** Two segment-prefixes of one path: the shorter is a segment-prefix of the longer, and
      comes earlier; of the same length they are the same. */
  lemma PrefixesOfOnePath(path: string, p: string, q: string)
    requires HasPrefix(path, p) && HasPrefix(path, q)
    ensures |p| < |q| ==> HasPrefix(q, p) && StrCmp(p, q) < 0
    ensures |p| == |q| ==> p == q
  {
    if |p| < |q| {
      assert q[..|p|] == path[..|q|][..|p|] == path[..|p|];
      ProperPrefixIsLess(p, q);
    }
  }
}
