/** Python string operations the build scripts rely on, for one-character
    separators: `str.rfind`, `sep.join`, `str.split(sep)` and `str(int)`. */
module Strings {
  import opened Wrappers

  /** Index of the first occurrence of `c` in `s`. */
  function FirstIndex(s: string, c: char): (i: nat)
    requires c in s
    ensures i < |s| && s[i] == c && c !in s[..i]
  {
    if s[0] == c then 0
    else
      var j := FirstIndex(s[1..], c);
      assert s[..j + 1] == [s[0]] + s[1..][..j];
      1 + j
  }

  /** `s.rfind(c)`: the index of the last occurrence of `c`, or None for -1. */
  function LastIndex(s: string, c: char): (r: Option<nat>)
    ensures r.None? <==> c !in s
    ensures r.Some? ==> r.value < |s| && s[r.value] == c && c !in s[r.value + 1..]
    decreases |s|
  {
    if |s| == 0 then None
    else if s[|s| - 1] == c then Some(|s| - 1)
    else
      var r := LastIndex(s[..|s| - 1], c);
      assert s == s[..|s| - 1] + [s[|s| - 1]];
      if r.Some? then
        assert s[r.value + 1..] == s[..|s| - 1][r.value + 1..] + [s[|s| - 1]];
        r
      else r
  }

  /** The last occurrence of `c` is the one after which no `c` follows. */
  lemma LastIndexAt(s: string, c: char, k: nat)
    requires k < |s| && s[k] == c && c !in s[k + 1..]
    ensures LastIndex(s, c) == Some(k)
  {
    assert c in s by { assert s[k] == c; }
    var r := LastIndex(s, c);
    assert forall j :: k < j < |s| ==> s[j] != c by {
      forall j | k < j < |s| ensures s[j] != c { assert s[j] == s[k + 1..][j - k - 1]; }
    }
    assert forall j :: r.value < j < |s| ==> s[j] != c by {
      forall j | r.value < j < |s| ensures s[j] != c { assert s[j] == s[r.value + 1..][j - r.value - 1]; }
    }
  }

  /** A character is absent from a concatenation iff absent from both parts. */
  lemma FreeOfConcat(a: string, b: string, c: char)
    ensures c !in a + b <==> c !in a && c !in b
  {
    assert forall i :: 0 <= i < |a| ==> (a + b)[i] == a[i];
    assert forall i :: 0 <= i < |b| ==> (a + b)[|a| + i] == b[i];
  }

  /** `sep.join(xs)`. */
  function Join(xs: seq<string>, sep: char): string
  {
    if |xs| == 0 then ""
    else if |xs| == 1 then xs[0]
    else xs[0] + [sep] + Join(xs[1..], sep)
  }

  /** Joining a list with one more piece appends a separator and the piece. */
  lemma {:induction false} JoinSnoc(xs: seq<string>, x: string, sep: char)
    requires |xs| > 0
    ensures Join(xs + [x], sep) == Join(xs, sep) + [sep] + x
    decreases |xs|
  {
    if |xs| == 1 {
      assert (xs + [x])[1..] == [x];
    } else {
      assert (xs + [x])[1..] == xs[1..] + [x];
      JoinSnoc(xs[1..], x, sep);
    }
  }

  /** `sep.join(xs)` puts the pieces in order with one separator between
      neighbours: it starts with the first piece, and pieces free of the
      separator leave exactly `|xs| - 1` separators in it. */
  lemma {:induction false} JoinPieces(xs: seq<string>, sep: char)
    requires |xs| > 0
    ensures xs[0] <= Join(xs, sep)
    ensures (forall i :: 0 <= i < |xs| ==> sep !in xs[i]) ==> multiset(Join(xs, sep))[sep] == |xs| - 1
    decreases |xs|
  {
    if |xs| > 1 {
      var r := Join(xs, sep);
      var rest := Join(xs[1..], sep);
      assert r == xs[0] + [sep] + rest;
      assert r[..|xs[0]|] == xs[0];
      JoinPieces(xs[1..], sep);
      if forall i :: 0 <= i < |xs| ==> sep !in xs[i] {
        assert forall i :: 0 <= i < |xs[1..]| ==> sep !in xs[1..][i] by {
          forall i | 0 <= i < |xs[1..]| ensures sep !in xs[1..][i] { assert xs[1..][i] == xs[i + 1]; }
        }
        assert multiset(r) == multiset(xs[0]) + multiset([sep]) + multiset(rest);
      }
    }
  }

  /** `s.split(sep)`: every occurrence separates two pieces, empty pieces are
      kept, so the result is never empty and joins back to `s`. */
  function Split(s: string, sep: char): (r: seq<string>)
    ensures |r| >= 1
    ensures |r| == 1 <==> sep !in s
    ensures forall i :: 0 <= i < |r| ==> sep !in r[i]
    ensures Join(r, sep) == s
    decreases |s|
  {
    if sep !in s then [s]
    else
      var i := FirstIndex(s, sep);
      var rest := Split(s[i + 1..], sep);
      assert s == s[..i] + [sep] + s[i + 1..];
      assert ([s[..i]] + rest)[1..] == rest;
      [s[..i]] + rest
  }

  /** Splitting a joined list of separator-free pieces gives the pieces back. */
  lemma {:induction false} SplitOfJoin(xs: seq<string>, sep: char)
    requires |xs| >= 1
    requires forall i :: 0 <= i < |xs| ==> sep !in xs[i]
    ensures Split(Join(xs, sep), sep) == xs
    decreases |xs|
  {
    if |xs| > 1 {
      var s := Join(xs, sep);
      var n := |xs[0]|;
      assert s == xs[0] + [sep] + Join(xs[1..], sep);
      assert s[n] == sep;
      assert s[..n] == xs[0];
      var i := FirstIndex(s, sep);
      assert forall j :: 0 <= j < i ==> s[j] != sep by {
        forall j | 0 <= j < i ensures s[j] != sep { assert s[j] == s[..i][j]; }
      }
      assert forall j :: 0 <= j < n ==> s[j] != sep by {
        forall j | 0 <= j < n ensures s[j] != sep { assert s[j] == xs[0][j]; }
      }
      assert i == n;
      assert s[i + 1..] == Join(xs[1..], sep);
      SplitOfJoin(xs[1..], sep);
      assert sep in s;
      assert Split(s, sep) == [s[..i]] + Split(s[i + 1..], sep);
      assert xs == [xs[0]] + xs[1..];
    }
  }

  /** A decimal digit. */
  predicate IsDigit(c: char) { '0' <= c <= '9' }

  /** Every character is a decimal digit. */
  predicate AllDigits(s: string) { forall i :: 0 <= i < |s| ==> IsDigit(s[i]) }

  /** `str(n)` for a natural number: its decimal digits, no leading zeros. */
  function NatToString(n: nat): (r: string)
    ensures |r| >= 1 && AllDigits(r)
    ensures |r| > 1 ==> r[0] != '0'
  {
    var d := ['0' + (n % 10) as char];
    if n < 10 then d else NatToString(n / 10) + d
  }

  /** `str(n)` for any integer: a minus sign before the digits of a negative
      one, and no leading zeros. */
  function IntToString(n: int): (r: string)
    ensures |r| >= 1
    ensures r[0] == '-' <==> n < 0
    ensures n >= 0 ==> AllDigits(r) && DigitsValue(r) == n
    ensures n < 0 ==> AllDigits(r[1..]) && DigitsValue(r[1..]) == -n
    ensures n >= 0 && |r| > 1 ==> r[0] != '0'
    ensures n < 0 ==> |r| >= 2 && r[1] != '0'
  {
    if n < 0 then
      var d := NatToString(-n);
      NatToStringValue(-n);
      assert ("-" + d)[1..] == d;
      assert d[0] != '0' by {
        if |d| == 1 { assert d == [d[0]]; }
      }
      "-" + d
    else
      NatToStringValue(n);
      assert IsDigit(NatToString(n)[0]);
      NatToString(n)
  }

  /** The number a string of decimal digits denotes. */
  function DigitsValue(s: string): nat
    requires AllDigits(s)
  {
    if |s| == 0 then 0
    else DigitsValue(s[..|s| - 1]) * 10 + (s[|s| - 1] - '0') as nat
  }

  /** Reading the digits of `str(n)` gives `n` back. */
  lemma {:induction false} NatToStringValue(n: nat)
    ensures DigitsValue(NatToString(n)) == n
  {
    if n >= 10 {
      var s := NatToString(n);
      assert s[..|s| - 1] == NatToString(n / 10);
      NatToStringValue(n / 10);
    }
  }

  /** Distinct integers are rendered as distinct strings. */
  lemma IntToStringInjective(a: int, b: int)
    requires IntToString(a) == IntToString(b)
    ensures a == b
  {
    var r := IntToString(a);
    if r[0] == '-' {
      assert DigitsValue(r[1..]) == -a == -b;
    } else {
      assert DigitsValue(r) == a == b;
    }
  }
}
