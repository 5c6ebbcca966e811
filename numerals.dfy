/**
 * The text conversions the post codec relies on: decimal interpolation of an
 * `Int` (`"\(n)"`), parsing with `Int(_:)`, and `split(separator:)`.
 */
module Numerals {
  import opened Wrappers

  /** Swift's `Int` is 64 bits wide. */
  const IntMax: int := 0x7FFF_FFFF_FFFF_FFFF
  const IntMin: int := -0x8000_0000_0000_0000
  type Int64 = x: int | IntMin <= x <= IntMax

  predicate IsDigit(c: char) { '0' <= c <= '9' }

  predicate AllDigits(s: string) { forall i | 0 <= i < |s| :: IsDigit(s[i]) }

  function DigitChar(d: nat): (c: char)
    requires d < 10
    ensures IsDigit(c) && c as int - '0' as int == d
  {
    ('0' as int + d) as char
  }

  /** Decimal digits of a natural number, most significant first, no leading zeros. */
  function NatToString(n: nat): (s: string)
    ensures |s| >= 1 && AllDigits(s)
    decreases n
  {
    if n < 10 then [DigitChar(n)] else NatToString(n / 10) + [DigitChar(n % 10)]
  }

  /** String interpolation of an `Int`: a minus sign for negatives, then the digits. */
  function IntToString(i: int): (s: string)
    ensures |s| >= 1 && '-' !in s[1..]
    ensures s[0] == '-' <==> i < 0
    ensures AllDigits(Unsigned(s)) && DigitsValue(Unsigned(s)) == if i < 0 then -i else i
  {
    if i < 0 then
      DigitsValueOfNatToString(-i);
      assert ("-" + NatToString(-i))[1..] == NatToString(-i);
      "-" + NatToString(-i)
    else
      DigitsValueOfNatToString(i);
      NatToString(i)
  }

  /** The value of a digit string. */
  function DigitsValue(s: string): nat
    requires AllDigits(s)
  {
    if s == [] then 0 else DigitsValue(s[..|s| - 1]) * 10 + (s[|s| - 1] as int - '0' as int)
  }

  /** What follows an optional leading `+` or `-`. */
  function Unsigned(s: string): (d: string)
    ensures |d| == |s| || (|s| >= 1 && (s[0] == '+' || s[0] == '-') && d == s[1..])
  {
    if |s| > 0 && (s[0] == '+' || s[0] == '-') then s[1..] else s
  }

  /** The integer a sign and a digit string denote, before any range check. */
  function SignedValue(s: string): int
    requires AllDigits(Unsigned(s))
  {
    if |s| > 0 && s[0] == '-' then -(DigitsValue(Unsigned(s)) as int) else DigitsValue(Unsigned(s))
  }

  /** `Int(s)`: an optional `+` or `-`, then one or more ASCII digits, within 64 bits. */
  function ParseInt(s: string): (r: Option<Int64>)
    ensures r.Some? <==>
      |Unsigned(s)| >= 1 && AllDigits(Unsigned(s)) && IntMin <= SignedValue(s) <= IntMax
    ensures r.Some? ==> r.value == SignedValue(s)
  {
    var negative := |s| > 0 && s[0] == '-';
    var digits := if |s| > 0 && (s[0] == '+' || s[0] == '-') then s[1..] else s;
    if digits == [] || !AllDigits(digits) then None
    else
      var v := DigitsValue(digits);
      if negative then (if v <= -IntMin then var w: Int64 := -(v as int); Some(w) else None)
      else (if v <= IntMax then Some(v) else None)
  }

  /** A character that is neither a digit nor a leading sign makes `Int(s)` fail. */
  lemma ParseIntRejectsNonDigit(s: string, k: nat)
    requires k < |s| && !IsDigit(s[k])
    requires k > 0 || (s[0] != '+' && s[0] != '-')
    ensures ParseInt(s) == None
  {
    var d := Unsigned(s);
    var j := if |d| == |s| then k else k - 1;
    assert d[j] == s[k];
  }

  /** Every 64-bit `Int`, negative ones included, printed and parsed back is itself. */
  lemma IntToStringRoundTrip(n: Int64)
    ensures ParseInt(IntToString(n)) == Some(n)
  {
    var s := IntToString(n);
    assert SignedValue(s) == n;
  }

  lemma {:induction false} DigitsValueOfNatToString(n: nat)
    ensures DigitsValue(NatToString(n)) == n
    decreases n
  {
    if n >= 10 {
      var s := NatToString(n);
      assert s[..|s| - 1] == NatToString(n / 10);
      DigitsValueOfNatToString(n / 10);
    }
  }

  /** A non-negative `Int` printed and parsed back is itself. */
  lemma ParseIntRoundTrip(n: Int64)
    requires n >= 0
    ensures ParseInt(NatToString(n)) == Some(n)
  {
    DigitsValueOfNatToString(n);
  }

  /** `s.split(separator: sep)` with Swift's default of omitting empty pieces: the maximal
      runs of characters other than `sep`, in order. */
  function Split(s: string, sep: char): (parts: seq<string>)
    ensures forall k | 0 <= k < |parts| :: |parts[k]| >= 1 && sep !in parts[k]
    decreases |s|
  {
    if s == [] then []
    else if s[0] == sep then Split(s[1..], sep)
    else
      var n := RunLength(s, sep);
      [s[..n]] + Split(s[n..], sep)
  }

  /** The length of the leading run of characters other than `sep`. */
  function RunLength(s: string, sep: char): (n: nat)
    ensures n <= |s| && sep !in s[..n]
    ensures n < |s| ==> s[n] == sep
    ensures |s| > 0 && s[0] != sep ==> n >= 1
  {
    if s == [] || s[0] == sep then 0
    else
      var n := 1 + RunLength(s[1..], sep);
      assert s[..n] == [s[0]] + s[1..][..n - 1];
      n
  }

  /** A non-empty run without `sep`, followed by the end or by `sep`, is the first piece. */
  lemma SplitPiece(a: string, rest: string, sep: char)
    requires |a| >= 1 && sep !in a
    requires rest == [] || rest[0] == sep
    ensures Split(a + rest, sep) == [a] + Split(rest, sep)
  {
    var s := a + rest;
    RunLengthOf(a, rest, sep);
    assert s[..|a|] == a && s[|a|..] == rest;
  }

  lemma {:induction false} RunLengthOf(a: string, rest: string, sep: char)
    requires sep !in a
    requires rest == [] || rest[0] == sep
    ensures RunLength(a + rest, sep) == |a|
    decreases |a|
  {
    if a != [] {
      assert (a + rest)[1..] == a[1..] + rest;
      RunLengthOf(a[1..], rest, sep);
    }
  }

  /** A leading separator contributes no piece. */
  lemma SplitSkip(rest: string, sep: char)
    ensures Split([sep] + rest, sep) == Split(rest, sep)
  {
    assert ([sep] + rest)[1..] == rest;
  }

  /** Splitting `b-c` on `-` gives the two pieces back when neither is empty or holds `-`. */
  lemma SplitTwo(b: string, c: string)
    requires |b| >= 1 && |c| >= 1
    requires '-' !in b && '-' !in c
    ensures Split(b + (['-'] + c), '-') == [b, c]
  {
    var sep := '-';
    assert c + [] == c;
    calc {
      Split(b + ([sep] + c), sep);
      { SplitPiece(b, [sep] + c, sep); }
      [b] + Split([sep] + c, sep);
      { SplitSkip(c, sep); }
      [b] + Split(c + [], sep);
      { SplitPiece(c, [], sep); }
      [b] + ([c] + Split([], sep));
      [b, c];
    }
  }

  lemma DashJoin(a: string, b: string, c: string)
    ensures a + "-" + b + "-" + c == a + (['-'] + (b + (['-'] + c)))
  {
  }

  /** Splitting `a-b-c` on `-` gives the three pieces back when none is empty or holds `-`. */
  lemma SplitThree(a: string, b: string, c: string)
    requires |a| >= 1 && |b| >= 1 && |c| >= 1
    requires '-' !in a && '-' !in b && '-' !in c
    ensures Split(a + "-" + b + "-" + c, '-') == [a, b, c]
  {
    var sep := '-';
    var t := b + ([sep] + c);
    DashJoin(a, b, c);
    calc {
      Split(a + ([sep] + t), sep);
      { SplitPiece(a, [sep] + t, sep); }
      [a] + Split([sep] + t, sep);
      { SplitSkip(t, sep); SplitTwo(b, c); }
      [a] + [b, c];
    }
  }
}
