/**
 * The few java.lang.String operations the booking core relies on:
 * trim(), String.join, and decimal digits (for %d and for the ISO date
 * and time texts of java.time).
 */
module Text {

  // ---------------------------------------------------------------------
  // String.trim(): strip every leading and trailing character <= U+0020
  // ---------------------------------------------------------------------

  /** What trim() keeps when it strips from the front. */
  function TrimStart(s: string): (r: string) {
    if s != [] && s[0] <= ' ' then TrimStart(s[1..]) else s
  }

  /** What trim() keeps when it strips from the back. */
  function TrimEnd(s: string): (r: string) {
    if s != [] && s[|s| - 1] <= ' ' then TrimEnd(s[..|s| - 1]) else s
  }

  /** Java's String.trim(). */
  function Trim(s: string): (r: string) {
    TrimEnd(TrimStart(s))
  }

  /** Stripping from the front drops a run of characters <= U+0020 and stops at a visible one. */
  lemma {:induction false} TrimStartDropsSpace(s: string)
    ensures var r := TrimStart(s);
      && |r| <= |s| && r == s[|s| - |r|..]
      && (forall k :: 0 <= k < |s| - |r| ==> s[k] <= ' ')
      && (r != [] ==> r[0] > ' ')
  {
    if s != [] && s[0] <= ' ' {
      TrimStartDropsSpace(s[1..]);
    }
  }

  /** Stripping from the back drops a run of characters <= U+0020 and stops at a visible one. */
  lemma {:induction false} TrimEndDropsSpace(s: string)
    ensures var r := TrimEnd(s);
      && |r| <= |s| && r == s[..|r|]
      && (forall k :: |r| <= k < |s| ==> s[k] <= ' ')
      && (r != [] ==> r[|r| - 1] > ' ')
  {
    if s != [] && s[|s| - 1] <= ' ' {
      TrimEndDropsSpace(s[..|s| - 1]);
    }
  }

  /** trim() leaves nothing exactly when every character is <= U+0020; what it leaves starts and ends visibly. */
  lemma TrimEmptyIffAllSpace(s: string)
    ensures |Trim(s)| <= |s|
    ensures Trim(s) == [] <==> forall k :: 0 <= k < |s| ==> s[k] <= ' '
    ensures Trim(s) != [] ==> Trim(s)[0] > ' ' && Trim(s)[|Trim(s)| - 1] > ' '
  {
    var front := TrimStart(s);
    TrimStartDropsSpace(s);
    TrimEndDropsSpace(front);
    var r := TrimEnd(front);
    assert r != [] ==> r[0] == front[0];
    assert front != [] ==> front[0] == s[|s| - |front|];
  }

  // ---------------------------------------------------------------------
  // String.join and its inverse
  // ---------------------------------------------------------------------

  /** Java's String.join(sep, parts). */
  function Join(parts: seq<string>, sep: string): (r: string)
    ensures |parts| == 1 ==> r == parts[0]
  {
    if |parts| == 0 then ""
    else if |parts| == 1 then parts[0]
    else parts[0] + sep + Join(parts[1..], sep)
  }

  /** Splits `s` at every occurrence of `sep`, keeping empty pieces. */
  function Split(s: string, sep: char): (r: seq<string>)
    ensures |r| >= 1
  {
    if s == [] then [[]]
    else
      var rest := Split(s[1..], sep);
      if s[0] == sep then [[]] + rest else [[s[0]] + rest[0]] + rest[1..]
  }

  lemma {:induction false} SplitWithout(a: string, sep: char)
    requires sep !in a
    ensures Split(a, sep) == [a]
  {
    if a != [] {
      SplitWithout(a[1..], sep);
      assert [a[0]] + a[1..] == a;
    }
  }

  lemma {:induction false} SplitAt(a: string, sep: char, b: string)
    requires sep !in a
    ensures Split(a + [sep] + b, sep) == [a] + Split(b, sep)
  {
    if a == [] {
      assert a + [sep] + b == [sep] + b;
      assert ([sep] + b)[1..] == b;
    } else {
      SplitAt(a[1..], sep, b);
      assert (a + [sep] + b)[1..] == a[1..] + [sep] + b;
      assert [a[0]] + a[1..] == a;
    }
  }

  /** Joining pieces that do not contain the separator can be undone by splitting. */
  lemma {:induction false} SplitJoin(parts: seq<string>, sep: char)
    requires |parts| >= 1
    requires forall i :: 0 <= i < |parts| ==> sep !in parts[i]
    ensures Split(Join(parts, [sep]), sep) == parts
  {
    if |parts| == 1 {
      SplitWithout(parts[0], sep);
    } else {
      SplitJoin(parts[1..], sep);
      SplitAt(parts[0], sep, Join(parts[1..], [sep]));
      assert [parts[0]] + parts[1..] == parts;
    }
  }

  // ---------------------------------------------------------------------
  // Decimal digits
  // ---------------------------------------------------------------------

  predicate IsDigit(c: char) { '0' <= c <= '9' }

  predicate AllDigits(s: string) { forall k :: 0 <= k < |s| ==> IsDigit(s[k]) }

  function DigitChar(n: int): (c: char)
    requires 0 <= n < 10
    ensures IsDigit(c) && c as int - '0' as int == n
  {
    ('0' as int + n) as char
  }

  function Pow10(n: nat): (p: nat)
    ensures p >= 1
  {
    if n == 0 then 1 else 10 * Pow10(n - 1)
  }

  /** The number written by a string of decimal digits, most significant first. */
  function DecimalValue(s: string): (n: nat)
    requires AllDigits(s)
    ensures n < Pow10(|s|)
  {
    if s == [] then 0 else DecimalValue(s[..|s| - 1]) * 10 + (s[|s| - 1] as int - '0' as int)
  }

  /** `n` written in exactly `width` digits, padded with leading zeros (the low digits when n is wider). */
  function PadDecimal(n: nat, width: nat): (s: string)
    ensures |s| == width && AllDigits(s)
    ensures n < Pow10(width) ==> DecimalValue(s) == n
  {
    if width == 0 then []
    else
      var s := PadDecimal(n / 10, width - 1) + [DigitChar(n % 10)];
      assert s[..|s| - 1] == PadDecimal(n / 10, width - 1);
      s
  }

  /** Reading a digit string and writing it back at the same width gives the same string. */
  lemma {:induction false} PadDecimalOfValue(s: string)
    requires AllDigits(s)
    ensures PadDecimal(DecimalValue(s), |s|) == s
  {
    if s != [] {
      var init := s[..|s| - 1];
      var last := s[|s| - 1] as int - '0' as int;
      var n := DecimalValue(s);
      assert n == DecimalValue(init) * 10 + last;
      assert n / 10 == DecimalValue(init) && n % 10 == last;
      PadDecimalOfValue(init);
      assert DigitChar(last) == s[|s| - 1];
      assert s == init + [s[|s| - 1]];
    }
  }

  /** `n` in decimal without leading zeros, as Java's %d writes a non-negative int. */
  function Decimal(n: nat): (s: string)
    ensures s != [] && AllDigits(s) && DecimalValue(s) == n
    ensures |s| > 1 ==> s[0] != '0'
  {
    if n < 10 then [DigitChar(n)]
    else
      var s := Decimal(n / 10) + [DigitChar(n % 10)];
      assert s[..|s| - 1] == Decimal(n / 10);
      s
  }
}
