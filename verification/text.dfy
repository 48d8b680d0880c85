/** String helpers used by the flag formatter and the status-line renderer:
    decimal rendering of integers (what `fmt::format("{}", int)` produces),
    the `{:10.10}` field (left-justified, padded and truncated to a width),
    comma joining, and the small decoders that invert them. */
module Text {
  import opened Optional

  predicate IsDigit(c: char) {
    '0' <= c <= '9'
  }

  predicate AllDigits(s: string) {
    forall i | 0 <= i < |s| :: IsDigit(s[i])
  }

  function DigitValue(c: char): (d: nat)
    requires IsDigit(c)
    ensures d < 10
  {
    c as int - '0' as int
  }

  function DigitChar(d: nat): (c: char)
    requires d < 10
    ensures IsDigit(c) && DigitValue(c) == d
  {
    (48 + d) as char
  }

  /** Decimal digits of a natural number, most significant first, without
      leading zeros. */
  function NatToString(n: nat): (s: string)
    ensures |s| >= 1 && AllDigits(s)
    ensures |s| > 1 ==> s[0] != '0'
  {
    if n < 10 then [DigitChar(n)]
    else NatToString(n / 10) + [DigitChar(n % 10)]
  }

  /** Decimal rendering of a signed integer, as `fmt` writes an `int`. */
  function IntToString(i: int): (s: string)
    ensures |s| >= 1
    ensures s[0] == '-' <==> i < 0
    ensures forall k | 0 <= k < |s| :: s[k] == '-' || IsDigit(s[k])
    ensures forall k | (if i < 0 then 1 else 0) <= k < |s| :: IsDigit(s[k])
    ensures |s| > (if i < 0 then 2 else 1) ==> s[if i < 0 then 1 else 0] != '0'
  {
    if i < 0 then "-" + NatToString(-i) else NatToString(i)
  }

  /** The value of a string of decimal digits. */
  function DigitsValue(s: string): nat
    requires AllDigits(s)
  {
    if |s| == 0 then 0
    else DigitsValue(s[..|s| - 1]) * 10 + DigitValue(s[|s| - 1])
  }

  function ParseNat(s: string): Option<nat> {
    if |s| > 0 && AllDigits(s) then Some(DigitsValue(s)) else None
  }

  function ParseInt(s: string): Option<int> {
    if |s| > 0 && s[0] == '-' then
      match ParseNat(s[1..])
      case Some(n) => Some(-(n as int))
      case None => None
    else ParseNat(s)
  }

  lemma {:induction false} NatToStringRoundTrip(n: nat)
    ensures DigitsValue(NatToString(n)) == n
  {
    if n >= 10 {
      var prefix := NatToString(n / 10);
      var s := prefix + [DigitChar(n % 10)];
      assert s[..|s| - 1] == prefix;
      NatToStringRoundTrip(n / 10);
    }
  }

  /** Reading back a rendered integer yields the integer. */
  lemma IntToStringRoundTrip(i: int)
    ensures ParseInt(IntToString(i)) == Some(i)
  {
    if i < 0 {
      var digits := NatToString(-i);
      assert IntToString(i)[1..] == digits;
      NatToStringRoundTrip(-i);
    } else {
      NatToStringRoundTrip(i);
    }
  }

  function Pow10(k: nat): (p: nat)
    ensures p >= 1
  {
    if k == 0 then 1 else 10 * Pow10(k - 1)
  }

  /** A number below 10^k takes at most k digits. */
  lemma {:induction false} NatToStringLength(n: nat, k: nat)
    requires k >= 1 && n < Pow10(k)
    ensures |NatToString(n)| <= k
  {
    if n >= 10 {
      assert n / 10 < Pow10(k - 1);
      NatToStringLength(n / 10, k - 1);
    }
  }

  /** A number of at least 10^k takes more than k digits. */
  lemma {:induction false} NatToStringLengthBelow(n: nat, k: nat)
    requires n >= Pow10(k)
    ensures |NatToString(n)| > k
  {
    if k > 0 {
      assert n / 10 >= Pow10(k - 1);
      NatToStringLengthBelow(n / 10, k - 1);
    }
  }

  function Spaces(n: nat): (s: string)
    ensures |s| == n && forall i | 0 <= i < n :: s[i] == ' '
  {
    seq(n, _ => ' ')
  }

  /** The `{:w.w}` format of a string: its first `w` characters, padded on
      the right with blanks up to width `w`. */
  function FitField(s: string, w: nat): (r: string)
    ensures |r| == w
    ensures forall i | 0 <= i < w :: r[i] == (if i < |s| then s[i] else ' ')
  {
    if |s| >= w then s[..w] else s + Spaces(w - |s|)
  }

  /** `s` without its trailing blanks. */
  function TrimTrailingSpaces(s: string): (r: string)
    ensures |r| <= |s| && r == s[..|r|]
    ensures forall i | |r| <= i < |s| :: s[i] == ' '
    ensures |r| > 0 ==> r[|r| - 1] != ' '
  {
    if |s| > 0 && s[|s| - 1] == ' ' then TrimTrailingSpaces(s[..|s| - 1]) else s
  }

  /** Trimming undoes padding of a string that does not end in a blank. */
  lemma {:induction false} TrimPadding(s: string, n: nat)
    requires |s| > 0 && s[|s| - 1] != ' '
    ensures TrimTrailingSpaces(s + Spaces(n)) == s
  {
    if n > 0 {
      var padded := s + Spaces(n);
      assert padded[..|padded| - 1] == s + Spaces(n - 1);
      TrimPadding(s, n - 1);
    } else {
      assert s + Spaces(0) == s;
    }
  }

  function HasPrefix(s: string, p: string): bool {
    |p| <= |s| && s[..|p|] == p
  }

  /** Index of the first `c` in `s`, or `|s|` when there is none. */
  function FirstIndexOf(s: string, c: char): (k: nat)
    ensures k <= |s|
    ensures forall j | 0 <= j < k :: s[j] != c
    ensures k < |s| ==> s[k] == c
  {
    if |s| == 0 then 0
    else if s[0] == c then 0
    else 1 + FirstIndexOf(s[1..], c)
  }

  lemma FirstIndexOfAfter(x: string, c: char, y: string)
    requires c !in x
    ensures FirstIndexOf(x + [c] + y, c) == |x|
  {
    var s := x + [c] + y;
    assert s[|x|] == c;
    assert forall j | 0 <= j < |x| :: s[j] == x[j];
  }

  /** The elements of `xs` separated by `sep`; the empty sequence joins to
      the empty string. */
  function Join(sep: char, xs: seq<string>): (s: string)
    ensures s == [] <==> |xs| == 0 || (|xs| == 1 && xs[0] == [])
  {
    if |xs| == 0 then []
    else if |xs| == 1 then xs[0]
    else xs[0] + [sep] + Join(sep, xs[1..])
  }

  lemma JoinTwo(sep: char, x: string, y: string)
    ensures Join(sep, [x, y]) == x + [sep] + y
  {
    assert [x, y][1..] == [y];
  }

  lemma JoinThree(sep: char, x: string, y: string, z: string)
    ensures Join(sep, [x, y, z]) == x + [sep] + y + [sep] + z
  {
    assert [x, y, z][1..] == [y, z];
    JoinTwo(sep, y, z);
  }

  /** The pieces of `s` between occurrences of `sep`; always at least one. */
  function Split(s: string, sep: char): (parts: seq<string>)
    ensures |parts| >= 1
  {
    if |s| == 0 then [[]]
    else
      var rest := Split(s[1..], sep);
      if s[0] == sep then [[]] + rest
      else [[s[0]] + rest[0]] + rest[1..]
  }

  lemma {:induction false} SplitWithoutSeparator(s: string, sep: char)
    requires sep !in s
    ensures Split(s, sep) == [s]
  {
    if |s| > 0 {
      SplitWithoutSeparator(s[1..], sep);
      assert [s[0]] + s[1..] == s;
    }
  }

  lemma {:induction false} SplitAtFirstSeparator(a: string, sep: char, b: string)
    requires sep !in a
    ensures Split(a + [sep] + b, sep) == [a] + Split(b, sep)
  {
    var s := a + [sep] + b;
    if |a| == 0 {
      assert s[1..] == b;
    } else {
      assert s[1..] == a[1..] + [sep] + b;
      SplitAtFirstSeparator(a[1..], sep, b);
      assert [a[0]] + a[1..] == a;
    }
  }

  /** Splitting a join gives back the pieces, provided none of them contains
      the separator. */
  lemma {:induction false} SplitJoinRoundTrip(sep: char, xs: seq<string>)
    requires |xs| >= 1
    requires forall i | 0 <= i < |xs| :: sep !in xs[i]
    ensures Split(Join(sep, xs), sep) == xs
  {
    if |xs| == 1 {
      SplitWithoutSeparator(xs[0], sep);
    } else {
      SplitJoinRoundTrip(sep, xs[1..]);
      SplitAtFirstSeparator(xs[0], sep, Join(sep, xs[1..]));
      assert [xs[0]] + xs[1..] == xs;
    }
  }
}
