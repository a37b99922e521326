/** Common subsequences of two line lists, and their greatest length.
    `CommonSubsequence` is the reference notion; `Length` is the recurrence the diff table tabulates. */
module Lcs {
  import opened TextLines

  /** `c` can be obtained from `s` by deleting lines. */
  ghost predicate Subsequence(c: seq<Line>, s: seq<Line>)
    decreases |s|
  {
    c == []
    || (s != [] && c[0] == s[0] && Subsequence(c[1..], s[1..]))
    || (s != [] && Subsequence(c, s[1..]))
  }

  ghost predicate CommonSubsequence(c: seq<Line>, a: seq<Line>, b: seq<Line>) {
    Subsequence(c, a) && Subsequence(c, b)
  }

  function Max(x: nat, y: nat): nat {
    if x >= y then x else y
  }

  ghost function Length(a: seq<Line>, b: seq<Line>): nat
    decreases |a| + |b|
  {
    if a == [] || b == [] then 0
    else if a[0] == b[0] then 1 + Length(a[1..], b[1..])
    else Max(Length(a[1..], b), Length(a, b[1..]))
  }

  /** Dropping the first line of a subsequence makes it fit behind the first line of the list. */
  lemma {:induction false} SubsequenceTail(c: seq<Line>, s: seq<Line>)
    requires c != [] && Subsequence(c, s)
    ensures s != [] && Subsequence(c[1..], s[1..])
    decreases |s|
  {
    if !(c[0] == s[0] && Subsequence(c[1..], s[1..])) {
      SubsequenceTail(c, s[1..]);
      SubsequenceDrop(c[1..], s[1..]);
    }
  }

  /** A subsequence of a shorter suffix is one of the longer suffix. */
  lemma {:induction false} SubsequenceDrop(c: seq<Line>, s: seq<Line>)
    requires s != [] && Subsequence(c, s[1..])
    ensures Subsequence(c, s)
  {
  }

  lemma SubsequenceCons(x: Line, c: seq<Line>, s: seq<Line>)
    requires Subsequence(c, s)
    ensures Subsequence([x] + c, [x] + s) && Subsequence(c, [x] + s)
  {
    assert ([x] + c)[1..] == c && ([x] + s)[1..] == s;
  }

  /** No common subsequence is longer than `Length`. */
  lemma {:induction false} LengthBounds(c: seq<Line>, a: seq<Line>, b: seq<Line>)
    requires CommonSubsequence(c, a, b)
    ensures |c| <= Length(a, b)
    decreases |a| + |b|
  {
    if c == [] {
    } else {
      SubsequenceTail(c, a);
      SubsequenceTail(c, b);
      if a[0] == b[0] {
        LengthBounds(c[1..], a[1..], b[1..]);
      } else if c[0] != a[0] {
        LengthBounds(c, a[1..], b);
      } else {
        LengthBounds(c, a, b[1..]);
      }
    }
  }

  /** Shortening either list loses at most one kept line, and never gains one. */
  lemma {:induction false} LengthSteps(a: seq<Line>, b: seq<Line>)
    ensures a != [] ==> Length(a[1..], b) <= Length(a, b) <= 1 + Length(a[1..], b)
    ensures b != [] ==> Length(a, b[1..]) <= Length(a, b) <= 1 + Length(a, b[1..])
    decreases |a| + |b|
  {
    if a != [] && b != [] {
      LengthSteps(a[1..], b);
      LengthSteps(a, b[1..]);
      LengthSteps(a[1..], b[1..]);
    }
  }

  /** The table entries never exceed the shorter list, so they stay far below 2^31: an array of
      (n + 1) * (m + 1) cells has an index below 2^53. */
  lemma {:induction false} LengthFits(a: seq<Line>, b: seq<Line>)
    ensures Length(a, b) <= |a| && Length(a, b) <= |b|
    ensures (|a| + 1) * (|b| + 1) < 0x20_0000_0000_0000 ==> Length(a, b) < 0x8000_0000
    decreases |a| + |b|
  {
    if a != [] && b != [] {
      LengthFits(a[1..], b);
      LengthFits(a, b[1..]);
      LengthFits(a[1..], b[1..]);
    }
    var l := Length(a, b);
    if l >= 0x8000_0000 {
      assert (|a| + 1) * (|b| + 1) >= 0x8000_0000 * 0x8000_0000 by {
        Grows(0x8000_0000, |a| + 1, 0x8000_0000, |b| + 1);
      }
    }
  }

  lemma Grows(x: nat, y: nat, u: nat, v: nat)
    requires x <= y && u <= v
    ensures x * u <= y * v
  {
    assert x * u <= y * u;
    assert y * u <= y * v;
  }

  /** Dropping the last line of a subsequence of `s + [x]` leaves a subsequence of `s`. */
  lemma {:induction false} SubsequenceInit(c: seq<Line>, s: seq<Line>, x: Line)
    requires c != [] && Subsequence(c, s + [x])
    ensures Subsequence(c[..|c| - 1], s)
    decreases |s|
  {
    var init := c[..|c| - 1];
    if s == [] {
      assert (s + [x])[1..] == [];
      SubsequenceTail(c, s + [x]);
    } else {
      assert (s + [x])[1..] == s[1..] + [x];
      if Subsequence(c, s[1..] + [x]) {
        SubsequenceInit(c, s[1..], x);
      } else if |c| > 1 {
        SubsequenceInit(c[1..], s[1..], x);
        assert c[1..][..|c[1..]| - 1] == init[1..];
      }
    }
  }

  /** Trimming a common suffix loses nothing: what remains of a common subsequence is common to the rest. */
  lemma {:induction false} TrimSuffix(c: seq<Line>, a: seq<Line>, b: seq<Line>, suffix: seq<Line>)
    requires CommonSubsequence(c, a + suffix, b + suffix)
    ensures |c| <= Length(a, b) + |suffix|
    decreases |suffix|
  {
    if suffix == [] {
      assert a + suffix == a && b + suffix == b;
      LengthBounds(c, a, b);
    } else if c != [] {
      var k := |suffix| - 1;
      assert a + suffix == (a + suffix[..k]) + [suffix[k]];
      assert b + suffix == (b + suffix[..k]) + [suffix[k]];
      SubsequenceInit(c, a + suffix[..k], suffix[k]);
      SubsequenceInit(c, b + suffix[..k], suffix[k]);
      TrimSuffix(c[..|c| - 1], a, b, suffix[..k]);
    }
  }

  /** Trimming a common prefix and a common suffix loses nothing. */
  lemma {:induction false} TrimBoth(c: seq<Line>, prefix: seq<Line>, a: seq<Line>, b: seq<Line>, suffix: seq<Line>)
    requires CommonSubsequence(c, prefix + a + suffix, prefix + b + suffix)
    ensures |c| <= |prefix| + Length(a, b) + |suffix|
    decreases |prefix|
  {
    if prefix == [] {
      assert prefix + a + suffix == a + suffix && prefix + b + suffix == b + suffix;
      TrimSuffix(c, a, b, suffix);
    } else if c != [] {
      SubsequenceTail(c, prefix + a + suffix);
      SubsequenceTail(c, prefix + b + suffix);
      assert (prefix + a + suffix)[1..] == prefix[1..] + a + suffix;
      assert (prefix + b + suffix)[1..] == prefix[1..] + b + suffix;
      TrimBoth(c[1..], prefix[1..], a, b, suffix);
    }
  }
}
