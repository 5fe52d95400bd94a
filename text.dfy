/** The few functions of Go's `strings` and `strconv` packages that the core
    relies on, on strings as sequences of characters. */
module Text {

  /** `strings.Split(s, sep)` for a one-character separator: the pieces between
      separators, so an empty string gives one empty piece. */
  function Split(s: string, sep: char): (parts: seq<string>)
    ensures |parts| >= 1
    ensures forall i :: 0 <= i < |parts| ==> sep !in parts[i]
    decreases |s|
  {
    if s == [] then [[]]
    else
      var init := Split(s[..|s| - 1], sep);
      if s[|s| - 1] == sep then init + [[]]
      else init[..|init| - 1] + [init[|init| - 1] + [s[|s| - 1]]]
  }

  /** `strings.Join(parts, sep)`: the empty list joins to the empty string. */
  function Join(parts: seq<string>, sep: string): string
    decreases |parts|
  {
    if |parts| == 0 then []
    else if |parts| == 1 then parts[0]
    else Join(parts[..|parts| - 1], sep) + sep + parts[|parts| - 1]
  }

  /** Extending the last piece extends the joined string. */
  lemma {:induction false} JoinExtendLast(parts: seq<string>, sep: string, t: string)
    requires |parts| >= 1
    ensures Join(parts[..|parts| - 1] + [parts[|parts| - 1] + t], sep) == Join(parts, sep) + t
  {
    var n := |parts|;
    var ext := parts[..n - 1] + [parts[n - 1] + t];
    if n > 1 {
      assert ext[..n - 1] == parts[..n - 1];
    }
  }

  /** Joining the pieces of a split with the same separator gives the string back. */
  lemma {:induction false} JoinSplit(s: string, sep: char)
    ensures Join(Split(s, sep), [sep]) == s
    decreases |s|
  {
    if s != [] {
      var s' := s[..|s| - 1];
      var init := Split(s', sep);
      JoinSplit(s', sep);
      if s[|s| - 1] == sep {
        assert (init + [[]])[..|init|] == init;
        assert s == s' + [sep];
      } else {
        JoinExtendLast(init, [sep], [s[|s| - 1]]);
        assert s == s' + [s[|s| - 1]];
      }
    }
  }

  /** A string without the separator is a single piece. */
  lemma {:induction false} SplitWithoutSeparator(s: string, sep: char)
    requires sep !in s
    ensures Split(s, sep) == [s]
    decreases |s|
  {
    if s != [] {
      SplitWithoutSeparator(s[..|s| - 1], sep);
      assert s == s[..|s| - 1] + [s[|s| - 1]];
    }
  }

  /** Appending one character either starts a new piece or extends the last. */
  lemma SplitSnoc(s: string, x: char, sep: char)
    ensures Split(s + [x], sep)
         == (var init := Split(s, sep);
             if x == sep then init + [[]] else init[..|init| - 1] + [init[|init| - 1] + [x]])
  {
    assert (s + [x])[..|s|] == s;
  }

  /** Every character of every piece occurs in the split string. */
  lemma {:induction false} SplitPieceChars(s: string, sep: char, i: nat, x: char)
    requires i < |Split(s, sep)| && x in Split(s, sep)[i]
    ensures x in s
    decreases |s|
  {
    var s', last := s[..|s| - 1], s[|s| - 1];
    assert s == s' + [last];
    SplitSnoc(s', last, sep);
    var init := Split(s', sep);
    var parts := Split(s, sep);
    if last == sep {
      if i < |init| {
        assert parts[i] == init[i];
        SplitPieceChars(s', sep, i, x);
      }
    } else if i < |init| - 1 {
      assert parts[i] == init[i];
      SplitPieceChars(s', sep, i, x);
    } else if x != last {
      assert parts[i] == init[i] + [last];
      SplitPieceChars(s', sep, i, x);
    }
  }

  /** Splitting around one separator splits both sides independently. */
  lemma {:induction false} SplitAround(a: string, sep: char, b: string)
    ensures Split(a + [sep] + b, sep) == Split(a, sep) + Split(b, sep)
    decreases |b|
  {
    if b == [] {
      SplitSnoc(a, sep, sep);
      assert a + [sep] + b == a + [sep];
    } else {
      var b', x := b[..|b| - 1], b[|b| - 1];
      var prefix := a + [sep] + b';
      assert b == b' + [x];
      assert a + [sep] + b == prefix + [x];
      SplitAround(a, sep, b');
      var left, right := Split(a, sep), Split(b', sep);
      assert Split(prefix, sep) == left + right;
      SplitSnoc(prefix, x, sep);
      SplitSnoc(b', x, sep);
      SnocPieces(left, right, x, x == sep);
    }
  }

  /** The sequence bookkeeping behind SplitAround's inductive step. */
  lemma SnocPieces(left: seq<string>, right: seq<string>, x: char, newPiece: bool)
    requires |right| >= 1
    ensures (var init := left + right;
             if newPiece then init + [[]] else init[..|init| - 1] + [init[|init| - 1] + [x]])
         == left + (if newPiece then right + [[]] else right[..|right| - 1] + [right[|right| - 1] + [x]])
  {
    var init := left + right;
    if !newPiece {
      assert init[..|init| - 1] == left + right[..|right| - 1];
    }
  }

  /** The first piece of a split is everything before the first separator. */
  lemma SplitFirstPiece(a: string, sep: char, b: string)
    requires sep !in a
    ensures Split(a + [sep] + b, sep)[0] == a
    ensures Split(a, sep)[0] == a
  {
    SplitAround(a, sep, b);
    SplitWithoutSeparator(a, sep);
  }

  /** A string that starts with the separator splits into an empty first piece
      and at least one more. */
  lemma SplitLeadingSeparator(s: string, sep: char)
    requires s != [] && s[0] == sep
    ensures |Split(s, sep)| >= 2 && Split(s, sep)[0] == []
  {
    assert s == [] + [sep] + s[1..];
    SplitAround([], sep, s[1..]);
  }

  /** Conversely, a non-empty string whose first piece is empty starts with the
      separator. */
  lemma {:induction false} SplitEmptyFirstPiece(s: string, sep: char)
    requires s != [] && Split(s, sep)[0] == []
    ensures s[0] == sep
    decreases |s|
  {
    var s' := s[..|s| - 1];
    if s' == [] {
      assert Split(s', sep) == [[]];
    } else if s[|s| - 1] == sep {
      SplitEmptyFirstPiece(s', sep);
    } else {
      var init := Split(s', sep);
      if |init| == 1 {
        assert false;
      } else {
        SplitEmptyFirstPiece(s', sep);
      }
    }
  }

  /** One decimal digit. */
  function Digit(d: nat): char
    requires d < 10
  {
    "0123456789"[d]
  }

  /** `strconv.Itoa` on a natural number: its decimal digits, most significant first. */
  function NatToString(n: nat): (s: string)
    ensures |s| >= 1
    ensures forall i :: 0 <= i < |s| ==> '0' <= s[i] <= '9'
    decreases n
  {
    if n < 10 then [Digit(n)] else NatToString(n / 10) + [Digit(n % 10)]
  }

  /** The value of a string of decimal digits: the inverse of NatToString. */
  function DecimalValue(s: string): nat
    requires forall i :: 0 <= i < |s| ==> '0' <= s[i] <= '9'
    decreases |s|
  {
    if s == [] then 0
    else 10 * DecimalValue(s[..|s| - 1]) + ((s[|s| - 1] as int) - ('0' as int))
  }

  lemma {:induction false} NatToStringRoundTrip(n: nat)
    ensures DecimalValue(NatToString(n)) == n
    decreases n
  {
    var s := NatToString(n);
    var d := n % 10;
    DigitValue(d);
    if n < 10 {
      assert s == [Digit(n)];
      assert s[..|s| - 1] == [];
    } else {
      NatToStringRoundTrip(n / 10);
      assert s == NatToString(n / 10) + [Digit(d)];
      assert s[..|s| - 1] == NatToString(n / 10);
      assert DecimalValue(s) == 10 * (n / 10) + d;
    }
  }

  lemma DigitValue(d: nat)
    requires d < 10
    ensures (Digit(d) as int) - ('0' as int) == d
  {
  }

  /** Distinct numbers are written differently. */
  lemma NatToStringInjective(m: nat, n: nat)
    requires NatToString(m) == NatToString(n)
    ensures m == n
  {
    NatToStringRoundTrip(m);
    NatToStringRoundTrip(n);
  }

  /** `strconv.Itoa`: a leading minus sign for negative numbers. */
  function IntToString(i: int): string
  {
    if i < 0 then "-" + NatToString(-i) else NatToString(i)
  }

  /** `strings.LastIndex(s, string(c))`: -1 when `c` does not occur. */
  function LastIndex(s: string, c: char): (i: int)
    ensures -1 <= i < |s|
    ensures i == -1 <==> c !in s
    ensures i >= 0 ==> s[i] == c && c !in s[i + 1..]
    decreases |s|
  {
    if s == [] then -1
    else if s[|s| - 1] == c then |s| - 1
    else
      var init := s[..|s| - 1];
      var i := LastIndex(init, c);
      assert s == init + [s[|s| - 1]];
      assert i >= 0 ==> s[i + 1..] == init[i + 1..] + [s[|s| - 1]];
      i
  }

  /** The last occurrence is the one with no occurrence after it. */
  lemma {:induction false} LastIndexAt(s: string, c: char, k: nat)
    requires k < |s| && s[k] == c && c !in s[k + 1..]
    ensures LastIndex(s, c) == k
    decreases |s|
  {
    var n := |s| - 1;
    if k < n {
      assert s[n] == s[k + 1..][n - k - 1];
      assert s[..n][k + 1..] == s[k + 1..n];
      LastIndexAt(s[..n], c, k);
    }
  }

  /** `strings.ReplaceAll(s, string(c), "")`: every occurrence of `c` removed. */
  function RemoveAll(s: string, c: char): (r: string)
    ensures c !in r
    ensures c !in s ==> r == s
    decreases |s|
  {
    if s == [] then []
    else (if s[0] == c then [] else [s[0]]) + RemoveAll(s[1..], c)
  }
}
