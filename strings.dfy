/**
 * String helpers that model the Python built-ins the script relies on:
 * `str.split()` with no argument (runs of ASCII whitespace separate tokens,
 * empty tokens are dropped), `str(n)` for a non-negative integer, and a
 * substring test used to state what a built payload contains.
 */
module Strings {

  /** The bytes Python 2's `str.split()` treats as whitespace. */
  predicate IsSpace(c: char) {
    c == ' ' || c == '\t' || c == '\n' || c == '\r' || c == '\U{0B}' || c == '\U{0C}'
  }

  predicate AllSpace(s: string) {
    forall k :: 0 <= k < |s| ==> IsSpace(s[k])
  }

  /** A token of `str.split()`: non-empty and free of whitespace. */
  predicate IsToken(t: string) {
    |t| > 0 && forall k :: 0 <= k < |t| ==> !IsSpace(t[k])
  }

  /** Length of the longest whitespace-free prefix of `s`. */
  function RunLength(s: string): (n: nat)
    ensures n <= |s|
    ensures forall k :: 0 <= k < n ==> !IsSpace(s[k])
    ensures n < |s| ==> IsSpace(s[n])
  {
    if s == [] || IsSpace(s[0]) then 0 else 1 + RunLength(s[1..])
  }

  /** Python's `s.split()`: the maximal whitespace-free runs of `s`, in order. */
  function Split(s: string): (r: seq<string>)
    ensures forall k :: 0 <= k < |r| ==> IsToken(r[k])
    decreases |s|
  {
    if s == [] then []
    else if IsSpace(s[0]) then Split(s[1..])
    else
      var n := RunLength(s);
      [s[..n]] + Split(s[n..])
  }

  /** The characters of `s` that are not whitespace, in order. */
  function NonSpace(s: string): string {
    if s == [] then []
    else if IsSpace(s[0]) then NonSpace(s[1..])
    else [s[0]] + NonSpace(s[1..])
  }

  function Concat(ts: seq<string>): string {
    if ts == [] then [] else ts[0] + Concat(ts[1..])
  }

  lemma {:induction false} NonSpaceAppend(a: string, b: string)
    ensures NonSpace(a + b) == NonSpace(a) + NonSpace(b)
    decreases |a|
  {
    if a == [] {
      assert a + b == b;
    } else {
      assert (a + b)[1..] == a[1..] + b;
      NonSpaceAppend(a[1..], b);
    }
  }

  lemma NonSpaceOfToken(t: string)
    requires forall k :: 0 <= k < |t| ==> !IsSpace(t[k])
    ensures NonSpace(t) == t
    decreases |t|
  {
    if t != [] {
      NonSpaceOfToken(t[1..]);
    }
  }

  /** No character is lost or reordered by splitting: only whitespace goes. */
  lemma {:induction false} SplitKeepsText(s: string)
    ensures Concat(Split(s)) == NonSpace(s)
    decreases |s|
  {
    if s == [] {
    } else if IsSpace(s[0]) {
      SplitKeepsText(s[1..]);
    } else {
      var n := RunLength(s);
      assert s == s[..n] + s[n..];
      SplitKeepsText(s[n..]);
      NonSpaceAppend(s[..n], s[n..]);
      NonSpaceOfToken(s[..n]);
      assert Split(s)[1..] == Split(s[n..]);
    }
  }

  /**
   * `s.split()` takes the first token whole: leading whitespace is skipped,
   * and a whitespace-free run ended by whitespace or the end of the string is
   * the first element. With `SplitEmptyIff` this determines the split of
   * every string.
   */
  lemma {:induction false} SplitCons(w: string, t: string, rest: string)
    requires AllSpace(w) && IsToken(t) && (rest == [] || IsSpace(rest[0]))
    ensures Split(w + t + rest) == [t] + Split(rest)
    decreases |w|
  {
    var s := w + t + rest;
    if w == [] {
      assert s == t + rest;
      RunLengthOfToken(t, rest);
      assert s[..|t|] == t && s[|t|..] == rest;
    } else {
      assert s[0] == w[0];
      assert s[1..] == w[1..] + t + rest;
      assert AllSpace(w[1..]) by {
        forall k | 0 <= k < |w[1..]| ensures IsSpace(w[1..][k]) { assert w[1..][k] == w[k + 1]; }
      }
      SplitCons(w[1..], t, rest);
    }
  }

  lemma {:induction false} RunLengthOfToken(t: string, rest: string)
    requires forall k :: 0 <= k < |t| ==> !IsSpace(t[k])
    requires rest == [] || IsSpace(rest[0])
    ensures RunLength(t + rest) == |t|
    decreases |t|
  {
    if t == [] {
      assert t + rest == rest;
    } else {
      assert (t + rest)[1..] == t[1..] + rest;
      RunLengthOfToken(t[1..], rest);
    }
  }

  /** `s.split()` is empty exactly when `s` is empty or only whitespace. */
  lemma {:induction false} SplitEmptyIff(s: string)
    ensures Split(s) == [] <==> AllSpace(s)
    decreases |s|
  {
    if s != [] && IsSpace(s[0]) {
      SplitEmptyIff(s[1..]);
      assert AllSpace(s) <==> AllSpace(s[1..]) by {
        if AllSpace(s[1..]) {
          forall k | 0 <= k < |s| ensures IsSpace(s[k]) {
            if k > 0 { assert s[k] == s[1..][k - 1]; }
          }
        }
      }
    }
  }

  /**
   * `s[i..j]` is the last whitespace-separated token of `s`: it is
   * whitespace-free, preceded by whitespace or the start of `s`, and followed
   * only by whitespace.
   */
  predicate LastTokenAt(s: string, i: int, j: int) {
    && 0 <= i < j <= |s|
    && (forall k :: i <= k < j ==> !IsSpace(s[k]))
    && (forall k :: j <= k < |s| ==> IsSpace(s[k]))
    && (i == 0 || IsSpace(s[i - 1]))
  }

  lemma {:induction false} SplitLastToken(s: string)
    requires Split(s) != []
    ensures exists i, j :: LastTokenAt(s, i, j) && Split(s)[|Split(s)| - 1] == s[i..j]
    decreases |s|
  {
    var r := Split(s);
    if IsSpace(s[0]) {
      SplitLastToken(s[1..]);
      var i, j :| LastTokenAt(s[1..], i, j) && Split(s[1..])[|Split(s[1..])| - 1] == s[1..][i..j];
      LastTokenShift(s, 1, i, j);
    } else {
      var n := RunLength(s);
      var rest := s[n..];
      if Split(rest) == [] {
        SplitEmptyIff(rest);
        assert r == [s[..n]];
        assert LastTokenAt(s, 0, n) by {
          forall k | n <= k < |s| ensures IsSpace(s[k]) { assert s[k] == rest[k - n]; }
        }
      } else {
        SplitLastToken(rest);
        var i, j :| LastTokenAt(rest, i, j) && Split(rest)[|Split(rest)| - 1] == rest[i..j];
        assert r[|r| - 1] == Split(rest)[|Split(rest)| - 1];
        // the run `s[..n]` ends at whitespace, so the last token cannot start at `rest[0]`
        assert rest[0] == s[n];
        LastTokenShift(s, n, i, j);
      }
    }
  }

  /** The last token of a suffix is the last token of the whole string, if it is not glued to what precedes. */
  lemma LastTokenShift(s: string, n: nat, i: int, j: int)
    requires n <= |s| && LastTokenAt(s[n..], i, j)
    requires i > 0 || n == 0 || IsSpace(s[n - 1])
    ensures LastTokenAt(s, n + i, n + j) && s[n..][i..j] == s[n + i..n + j]
  {
    var rest := s[n..];
    forall k | n + i <= k < n + j ensures !IsSpace(s[k]) { assert s[k] == rest[k - n]; }
    forall k | n + j <= k < |s| ensures IsSpace(s[k]) { assert s[k] == rest[k - n]; }
    if i > 0 {
      assert s[n + i - 1] == rest[i - 1];
    }
  }

  /** There is only one last token. */
  lemma LastTokenUnique(s: string, i: int, j: int, i': int, j': int)
    requires LastTokenAt(s, i, j) && LastTokenAt(s, i', j')
    ensures i == i' && j == j'
  {
    // the last character of each token is not whitespace, the character
    // before each token is
    assert !IsSpace(s[j - 1]) && !IsSpace(s[j' - 1]);
    assert i > 0 ==> IsSpace(s[i - 1]);
    assert i' > 0 ==> IsSpace(s[i' - 1]);
  }

  predicate IsDigit(c: char) {
    '0' <= c <= '9'
  }

  function DigitChar(d: nat): (c: char)
    requires d < 10
    ensures IsDigit(c)
  {
    "0123456789"[d]
  }

  function DigitValue(c: char): nat
    requires IsDigit(c)
  {
    c as int - '0' as int
  }

  /** Python's `str(n)` for a non-negative integer: decimal, no leading zero. */
  function Decimal(n: nat): (r: string)
    ensures |r| > 0
    ensures forall k :: 0 <= k < |r| ==> IsDigit(r[k])
    ensures r[0] == '0' ==> n == 0
  {
    if n < 10 then [DigitChar(n)] else Decimal(n / 10) + [DigitChar(n % 10)]
  }

  /** The value of a string of decimal digits. */
  function ParseDecimal(s: string): nat
    requires forall k :: 0 <= k < |s| ==> IsDigit(s[k])
  {
    if s == [] then 0 else 10 * ParseDecimal(s[..|s| - 1]) + DigitValue(s[|s| - 1])
  }

  lemma DigitRoundTrip(d: nat)
    requires d < 10
    ensures DigitValue(DigitChar(d)) == d
  {
    assert "0123456789"[d] as int == '0' as int + d;
  }

  /** The decimal string denotes the number it was made from. */
  lemma {:induction false} DecimalRoundTrip(n: nat)
    ensures ParseDecimal(Decimal(n)) == n
  {
    var r := Decimal(n);
    if n < 10 {
      DigitRoundTrip(n);
    } else {
      assert r[..|r| - 1] == Decimal(n / 10);
      DecimalRoundTrip(n / 10);
      DigitRoundTrip(n % 10);
    }
  }

  /** `t` occurs in `s` as a contiguous substring. */
  predicate Contains(s: string, t: string) {
    exists i :: 0 <= i <= |s| && t <= s[i..]
  }

  lemma ContainsAppendRight(a: string, b: string, t: string)
    requires Contains(b, t)
    ensures Contains(a + b, t)
  {
    var i :| 0 <= i <= |b| && t <= b[i..];
    assert (a + b)[|a| + i..] == b[i..];
  }

  lemma ContainsTransitive(a: string, b: string, c: string)
    requires Contains(a, b) && Contains(b, c)
    ensures Contains(a, c)
  {
    var i :| 0 <= i <= |a| && b <= a[i..];
    var j :| 0 <= j <= |b| && c <= b[j..];
    forall m | 0 <= m < |c| ensures a[i + j + m] == c[m] {
      assert c[m] == b[j + m] == a[i..][j + m];
    }
    assert c <= a[i + j..];
  }

  /** Each piece occurs in the concatenation of the pieces. */
  lemma {:induction false} ConcatContains(ps: seq<string>, k: nat)
    requires k < |ps|
    ensures Contains(Concat(ps), ps[k])
  {
    if k == 0 {
      assert Concat(ps)[0..] == ps[0] + Concat(ps[1..]);
    } else {
      ConcatContains(ps[1..], k - 1);
      ContainsAppendRight(ps[0], Concat(ps[1..]), ps[k]);
    }
  }

  lemma {:induction false} ConcatAppend(a: seq<string>, b: seq<string>)
    ensures Concat(a + b) == Concat(a) + Concat(b)
  {
    if a == [] {
      assert a + b == b;
    } else {
      assert (a + b)[1..] == a[1..] + b;
      ConcatAppend(a[1..], b);
    }
  }

  function Spaces(n: nat): string {
    seq(n, _ => ' ')
  }

  function Count(s: string, c: char): nat {
    if s == [] then 0 else (if s[0] == c then 1 else 0) + Count(s[1..], c)
  }
}
