/**
 * Byte and string predicates the scanner is built from: Python's `x in y`
 * on `bytes` and `str`, slicing that clamps at the end, ASCII lower-casing,
 * and the `f"{scheme}://{ip}:{port}{path}"` URL shape.
 */
module Text {
  import opened Common

  /** `p` is a prefix of `s`. */
  predicate IsPrefix<T(==)>(p: seq<T>, s: seq<T>) {
    |p| <= |s| && s[..|p|] == p
  }

  /** `p` occurs in `s` starting at index `i`. */
  predicate OccursAt<T(==)>(s: seq<T>, p: seq<T>, i: int) {
    0 <= i && i + |p| <= |s| && s[i..i + |p|] == p
  }

  /** Python's `p in s` for `bytes` and `str`: `p` is a contiguous piece of `s`. */
  predicate Contains<T(==)>(s: seq<T>, p: seq<T>) {
    exists i | 0 <= i <= |s| - |p| :: OccursAt(s, p, i)
  }

  /** Python's `s[:n]`: at most the first `n` elements. */
  function Take<T>(s: seq<T>, n: nat): (r: seq<T>)
    ensures |r| == if |s| <= n then |s| else n
    ensures r == s[..|r|]
  {
    if |s| <= n then s else s[..n]
  }

  lemma PrefixIsContained<T>(s: seq<T>, p: seq<T>)
    requires IsPrefix(p, s)
    ensures Contains(s, p)
  {
    assert OccursAt(s, p, 0);
  }

  /**
   * `p in s[:len(p)]` is exactly a prefix test: the window is never longer
   * than `p`, so `p` can only occur in it at index 0 and fill it.
   */
  lemma {:induction false} WindowOfOwnLengthIsPrefix<T>(s: seq<T>, p: seq<T>)
    ensures Contains(Take(s, |p|), p) <==> IsPrefix(p, s)
  {
    var w := Take(s, |p|);
    if Contains(w, p) {
      var i :| 0 <= i <= |w| - |p| && OccursAt(w, p, i);
      assert i == 0 && |w| == |p|;
      assert w == s[..|p|];
      assert w[0..|p|] == w;
    }
    if IsPrefix(p, s) {
      assert w == p;
      assert OccursAt(w, p, 0);
    }
  }

  /** `p in s[:n]` holds iff some occurrence of `p` in `s` ends within the first `n` elements. */
  lemma {:induction false} WindowContains<T>(s: seq<T>, p: seq<T>, n: nat)
    ensures Contains(Take(s, n), p) <==> exists i :: OccursAt(s, p, i) && i + |p| <= n
  {
    var w := Take(s, n);
    if Contains(w, p) {
      var i :| 0 <= i <= |w| - |p| && OccursAt(w, p, i);
      assert w[i..i + |p|] == s[i..i + |p|];
      assert OccursAt(s, p, i) && i + |p| <= n;
    }
    if exists i :: OccursAt(s, p, i) && i + |p| <= n {
      var i :| OccursAt(s, p, i) && i + |p| <= n;
      assert w[i..i + |p|] == s[i..i + |p|];
      assert OccursAt(w, p, i);
    }
  }

  /** ASCII lower-casing of one character. */
  function LowerChar(c: char): char {
    if 'A' <= c <= 'Z' then (c as int + 32) as char else c
  }

  /** `str.lower()` restricted to ASCII letters. */
  function Lower(s: string): (r: string)
    ensures |r| == |s|
    ensures forall i | 0 <= i < |s| :: r[i] == LowerChar(s[i])
  {
    seq(|s|, i requires 0 <= i < |s| => LowerChar(s[i]))
  }

  /** ASCII lower-casing of one byte, as `bytes.lower()` does. */
  function LowerByte(b: byte): byte {
    if 65 <= b <= 90 then b + 32 else b
  }

  /** `bytes.lower()`. */
  function LowerBytes(s: seq<byte>): (r: seq<byte>)
    ensures |r| == |s|
    ensures forall i | 0 <= i < |s| :: r[i] == LowerByte(s[i])
  {
    seq(|s|, i requires 0 <= i < |s| => LowerByte(s[i]))
  }

  lemma LowerIdempotent(s: string)
    ensures Lower(Lower(s)) == Lower(s)
  {
  }

  /** Lower-casing never produces an upper-case ASCII letter. */
  lemma LowerHasNoUpper(s: string, i: int)
    requires 0 <= i < |s|
    ensures !('A' <= Lower(s)[i] <= 'Z')
  {
  }

  /** A string without upper-case ASCII letters is its own lower-cased form. */
  lemma LowerFixesLowercase(p: string)
    requires forall i | 0 <= i < |p| :: !('A' <= p[i] <= 'Z')
    ensures Lower(p) == p
  {
  }

  /** A piece holding an upper-case ASCII letter never occurs in a lower-cased string. */
  lemma UpperNeverInLower(s: string, p: string, j: int)
    requires 0 <= j < |p| && 'A' <= p[j] <= 'Z'
    ensures !Contains(Lower(s), p)
  {
    var l := Lower(s);
    forall i | 0 <= i <= |l| - |p|
      ensures !OccursAt(l, p, i)
    {
      LowerHasNoUpper(s, i + j);
      assert l[i..i + |p|][j] == l[i + j];
    }
  }

  /** An occurrence survives lower-casing both sides. */
  lemma {:induction false} LowerKeepsOccurrence(s: string, p: string)
    requires Contains(s, p)
    ensures Contains(Lower(s), Lower(p))
  {
    var i :| 0 <= i <= |s| - |p| && OccursAt(s, p, i);
    assert Lower(s)[i..i + |p|] == Lower(p) by {
      forall k | 0 <= k < |p|
        ensures Lower(s)[i..i + |p|][k] == Lower(p)[k]
      {
        assert s[i..i + |p|][k] == p[k];
      }
    }
    assert OccursAt(Lower(s), Lower(p), i);
  }

  /**
   * A cheap fingerprint of a non-empty ASCII name: its length, first and
   * last character. Distinct fingerprints prove names distinct without
   * comparing them character by character.
   */
  function Fingerprint(p: string): int {
    if p == [] then 0 else |p| * 65536 + (p[0] as int) * 256 + p[|p| - 1] as int
  }

  function DigitChar(d: int): char
    requires 0 <= d < 10
  {
    "0123456789"[d]
  }

  function NatDigits(n: nat): string
    decreases n
  {
    if n < 10 then [DigitChar(n)] else NatDigits(n / 10) + [DigitChar(n % 10)]
  }

  /** `str(n)` for an integer. */
  function Decimal(n: int): string {
    if n < 0 then "-" + NatDigits(-n) else NatDigits(n)
  }

  /** `f"{scheme}://{host}:{port}{path}"`. */
  function EndpointUrl(scheme: string, host: string, port: int, path: string): string {
    scheme + "://" + host + ":" + Decimal(port) + path
  }

  /** A URL starts with its scheme and `://`. */
  lemma EndpointUrlScheme(scheme: string, host: string, port: int, path: string)
    ensures IsPrefix(scheme + "://", EndpointUrl(scheme, host, port, path))
  {
    var front := scheme + "://";
    assert EndpointUrl(scheme, host, port, path) == front + (host + ":" + Decimal(port) + path);
  }

  /** A common front never makes two different texts equal. */
  lemma FrontDistinct(front: string, x: string, y: string)
    requires x != y
    ensures front + x != front + y
  {
    assert (front + x)[|front|..] == x;
    assert (front + y)[|front|..] == y;
  }

  /** With scheme, host and port fixed, different paths give different URLs. */
  lemma EndpointPathDistinct(scheme: string, host: string, port: int, p1: string, p2: string)
    requires p1 != p2
    ensures EndpointUrl(scheme, host, port, p1) != EndpointUrl(scheme, host, port, p2)
  {
    var front := scheme + "://" + host + ":" + Decimal(port);
    assert EndpointUrl(scheme, host, port, p1) == front + p1;
    assert EndpointUrl(scheme, host, port, p2) == front + p2;
    FrontDistinct(front, p1, p2);
  }

  /** Text before the first colon: different colon-free fronts stay different whatever follows. */
  lemma ColonFrontDistinct(s1: string, r1: string, s2: string, r2: string)
    requires ':' !in s1 && ':' !in s2 && s1 != s2
    ensures s1 + ":" + r1 != s2 + ":" + r2
  {
    var u1 := s1 + ":" + r1;
    var u2 := s2 + ":" + r2;
    if |s1| == |s2| {
      assert u1[..|s1|] == s1;
      assert u2[..|s2|] == s2;
    } else if |s1| < |s2| {
      assert u1[|s1|] == ':';
      assert u2[|s1|] == s2[|s1|];
      assert s2[|s1|] in s2;
    } else {
      assert u2[|s2|] == ':';
      assert u1[|s2|] == s1[|s2|];
      assert s1[|s2|] in s1;
    }
  }

  /** Two different colon-free schemes never produce the same URL, whatever follows them. */
  lemma EndpointSchemeDistinct(s1: string, h1: string, n1: int, p1: string,
                               s2: string, h2: string, n2: int, p2: string)
    requires ':' !in s1 && ':' !in s2 && s1 != s2
    ensures EndpointUrl(s1, h1, n1, p1) != EndpointUrl(s2, h2, n2, p2)
  {
    var r1 := "//" + h1 + ":" + Decimal(n1) + p1;
    var r2 := "//" + h2 + ":" + Decimal(n2) + p2;
    assert EndpointUrl(s1, h1, n1, p1) == s1 + ":" + r1;
    assert EndpointUrl(s2, h2, n2, p2) == s2 + ":" + r2;
    ColonFrontDistinct(s1, r1, s2, r2);
  }

  /** `f"{dir}/{file}"` determines both parts when the file names hold no `/`. */
  lemma JoinInjective(d1: string, f1: string, d2: string, f2: string)
    requires '/' !in f1 && '/' !in f2
    ensures d1 + "/" + f1 == d2 + "/" + f2 ==> d1 == d2 && f1 == f2
  {
    var s1 := d1 + "/" + f1;
    var s2 := d2 + "/" + f2;
    if |s1| == |s2| {
      if |f1| == |f2| {
        assert s1[|s1| - |f1|..] == f1;
        assert s2[|s2| - |f2|..] == f2;
        assert s1[..|d1|] == d1;
        assert s2[..|d2|] == d2;
      } else if |f1| < |f2| {
        var k := |d1|;
        assert s1[k] == '/';
        assert s2[k] == f2[k - |d2| - 1];
        assert f2[k - |d2| - 1] in f2;
      } else {
        var k := |d2|;
        assert s2[k] == '/';
        assert s1[k] == f1[k - |d1| - 1];
        assert f1[k - |d1| - 1] in f1;
      }
    }
  }
}
