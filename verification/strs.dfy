/**
 * String primitives the Go and TypeScript code relies on: substring search
 * (`strings.Contains`, `String.prototype.includes`), prefixes, `strings.Join`,
 * decimal formatting (`%d`, `%06d`) and the `strconv` integer parsers.
 */
module Strs {
  import opened Wrappers

  /** The address check of an e-mail validation rule; the validator library is not part of this model. */
  type EmailCheck = string -> bool

  predicate IsDigit(c: char) { '0' <= c <= '9' }

  predicate AllDigits(s: string) { forall i :: 0 <= i < |s| ==> IsDigit(s[i]) }

  predicate IsAsciiLetter(c: char) { 'a' <= c <= 'z' || 'A' <= c <= 'Z' }

  predicate IsAlnum(c: char) { IsAsciiLetter(c) || IsDigit(c) }

  predicate AllAlnum(s: string) { forall i :: 0 <= i < |s| ==> IsAlnum(s[i]) }

  // ---------------------------------------------------------------- substrings

  /** `sub` occurs in `s` starting at index `i`. */
  predicate OccursAt(s: string, sub: string, i: int) {
    0 <= i && i + |sub| <= |s| && s[i..i + |sub|] == sub
  }

  /** `strings.Contains(s, sub)` / `s.includes(sub)`. */
  function Contains(s: string, sub: string): (r: bool)
    ensures sub <= s ==> r
    decreases |s|
  {
    if sub <= s then true
    else if s == [] then false
    else Contains(s[1..], sub)
  }

  lemma {:induction false} ContainsIff(s: string, sub: string)
    ensures Contains(s, sub) <==> exists i :: OccursAt(s, sub, i)
    decreases |s|
  {
    if sub <= s {
      assert OccursAt(s, sub, 0);
    } else if s == [] {
      assert forall i :: !OccursAt(s, sub, i);
    } else {
      ContainsIff(s[1..], sub);
      assert !OccursAt(s, sub, 0);
      forall i | OccursAt(s, sub, i)
        ensures OccursAt(s[1..], sub, i - 1)
      {
        assert s[1..][i - 1..i - 1 + |sub|] == s[i..i + |sub|];
      }
      forall j | OccursAt(s[1..], sub, j)
        ensures OccursAt(s, sub, j + 1)
      {
        assert s[1..][j..j + |sub|] == s[j + 1..j + 1 + |sub|];
      }
    }
  }

  /** Whatever surrounds `sub`, the result contains it. */
  lemma ContainsInfix(a: string, sub: string, b: string)
    ensures Contains(a + sub + b, sub)
  {
    var s := a + sub + b;
    assert s[|a|..|a| + |sub|] == sub;
    assert OccursAt(s, sub, |a|);
    ContainsIff(s, sub);
  }

  /** A string shorter than `sub` cannot contain it. */
  lemma ContainsShorter(s: string, sub: string)
    requires |s| < |sub|
    ensures !Contains(s, sub)
  {
    ContainsIff(s, sub);
  }

  /** A string in which the first character of `sub` never appears cannot contain `sub`. */
  lemma ContainsNeedsFirst(s: string, sub: string)
    requires |sub| > 0 && sub[0] !in s
    ensures !Contains(s, sub)
  {
    ContainsIff(s, sub);
  }

  /** `strings.TrimPrefix`. */
  function TrimPrefix(s: string, prefix: string): (r: string)
    ensures prefix <= s ==> prefix + r == s
    ensures !(prefix <= s) ==> r == s
  {
    if prefix <= s then s[|prefix|..] else s
  }

  // ---------------------------------------------------------------- search

  /** `strings.IndexByte(s, c)`: first index of `c`, or -1. */
  function IndexOf(s: string, c: char): (r: int)
    ensures -1 <= r < |s|
    ensures r >= 0 ==> s[r] == c && c !in s[..r]
    ensures r == -1 <==> c !in s
  {
    if s == [] then -1
    else if s[0] == c then 0
    else
      var k := IndexOf(s[1..], c);
      assert s == [s[0]] + s[1..];
      if k == -1 then -1
      else
        assert s[..k + 1] == [s[0]] + s[1..][..k];
        k + 1
  }

  /** The part of `s` before the first `c` (all of `s` when there is none). */
  function BeforeFirst(s: string, c: char): (r: string)
    ensures r <= s && c !in r
    ensures |r| < |s| ==> s[|r|] == c
  {
    var k := IndexOf(s, c);
    if k >= 0 then s[..k] else s
  }

  /** A prefix free of `c`, followed by `c`, is what BeforeFirst returns. */
  lemma BeforeFirstOfConcat(a: string, c: char, rest: string)
    requires c !in a
    ensures BeforeFirst(a + [c] + rest, c) == a
  {
    var s := a + [c] + rest;
    var k := IndexOf(s, c);
    assert s[..|a|] == a;
    assert s[|a|] == c;
    assert c in s;
    assert forall j :: |a| < j <= |s| ==> s[..j][|a|] == c;
    assert forall j :: 0 <= j < |a| ==> s[j] == a[j];
  }

  // ---------------------------------------------------------------- join

  /** `strings.Join(parts, sep)`. */
  function Join(parts: seq<string>, sep: string): (r: string)
    ensures |parts| == 0 ==> r == ""
    ensures |parts| == 1 ==> r == parts[0]
    ensures |parts| > 0 ==> parts[0] <= r
  {
    if |parts| == 0 then ""
    else if |parts| == 1 then parts[0]
    else parts[0] + sep + Join(parts[1..], sep)
  }

  /** Every part of the join appears in it. */
  lemma {:induction false} JoinContainsParts(parts: seq<string>, sep: string, k: int)
    requires 0 <= k < |parts|
    ensures Contains(Join(parts, sep), parts[k])
    decreases |parts|
  {
    if |parts| == 1 {
      ContainsInfix("", parts[0], "");
      assert "" + parts[0] + "" == parts[0];
    } else if k == 0 {
      ContainsInfix("", parts[0], sep + Join(parts[1..], sep));
      assert "" + parts[0] + (sep + Join(parts[1..], sep)) == Join(parts, sep);
    } else {
      JoinContainsParts(parts[1..], sep, k - 1);
      var rest := Join(parts[1..], sep);
      ContainsIff(rest, parts[k]);
      var i :| OccursAt(rest, parts[k], i);
      var whole := Join(parts, sep);
      var off := |parts[0] + sep|;
      assert whole == parts[0] + sep + rest;
      assert whole[off + i..off + i + |parts[k]|] == rest[i..i + |parts[k]|];
      assert OccursAt(whole, parts[k], off + i);
      ContainsIff(whole, parts[k]);
    }
  }

  // ---------------------------------------------------------------- decimal

  function DigitChar(d: nat): (c: char)
    requires d < 10
    ensures IsDigit(c)
  {
    ('0' as int + d) as char
  }

  function DigitValue(c: char): (d: nat)
    requires IsDigit(c)
    ensures d < 10 && DigitChar(d) == c
  {
    c as int - '0' as int
  }

  function Pow10(k: nat): (p: nat)
    ensures p >= 1
  {
    if k == 0 then 1 else 10 * Pow10(k - 1)
  }

  /** The number a string of decimal digits denotes (most significant digit first). */
  function DecimalValue(s: string): (v: nat)
    requires AllDigits(s)
    ensures v < Pow10(|s|)
  {
    if s == [] then 0 else DecimalValue(s[..|s| - 1]) * 10 + DigitValue(s[|s| - 1])
  }

  /** Go's `%d` of a non-negative integer: shortest decimal, no leading zeros. */
  function NatToDecimal(n: nat): (s: string)
    ensures 1 <= |s| && AllDigits(s)
    ensures |s| > 1 ==> s[0] != '0'
  {
    if n < 10 then [DigitChar(n)] else NatToDecimal(n / 10) + [DigitChar(n % 10)]
  }

  /** Go's `%d` of any integer. */
  function IntToDecimal(i: int): (s: string)
    ensures i < 0 <==> (|s| > 0 && s[0] == '-')
  {
    if i < 0 then "-" + NatToDecimal(-i) else NatToDecimal(i)
  }

  lemma {:induction false} DecimalRoundTrip(n: nat)
    ensures DecimalValue(NatToDecimal(n)) == n
    decreases n
  {
    if n >= 10 {
      DecimalRoundTrip(n / 10);
      var s := NatToDecimal(n);
      assert s[..|s| - 1] == NatToDecimal(n / 10);
    }
  }

  /** `NatToDecimal(n)` has exactly `k` digits when `10^(k-1) <= n < 10^k`. */
  lemma {:induction false} DecimalLength(n: nat, k: nat)
    requires 1 <= k && (k == 1 || Pow10(k - 1) <= n) && n < Pow10(k)
    ensures |NatToDecimal(n)| == k
    decreases k
  {
    if k > 1 {
      assert n >= 10 by { PowMonotone(1, k - 1); }
      DecimalLength(n / 10, k - 1);
    } else {
      assert n < 10;
    }
  }

  lemma {:induction false} PowMonotone(a: nat, b: nat)
    requires a <= b
    ensures Pow10(a) <= Pow10(b)
    decreases b
  {
    if a < b { PowMonotone(a, b - 1); }
  }

  lemma Distribute(x: int, p: int, y: int, d: int)
    ensures (x * p + y) * 10 + d == x * (10 * p) + (y * 10 + d)
  {
  }

  /** Value of a concatenation; in particular leading zeros do not change the value. */
  lemma {:induction false} DecimalValueAppend(a: string, b: string)
    requires AllDigits(a) && AllDigits(b)
    ensures AllDigits(a + b)
    ensures DecimalValue(a + b) == DecimalValue(a) * Pow10(|b|) + DecimalValue(b)
    decreases |b|
  {
    if b == [] {
      assert a + b == a;
    } else {
      var b' := b[..|b| - 1];
      var last := b[|b| - 1];
      assert (a + b)[..|a + b| - 1] == a + b';
      assert (a + b)[|a + b| - 1] == last;
      DecimalValueAppend(a, b');
      var x, p, y, d := DecimalValue(a), Pow10(|b'|), DecimalValue(b'), DigitValue(last);
      assert DecimalValue(a + b) == DecimalValue(a + b') * 10 + d;
      assert DecimalValue(a + b') == x * p + y;
      assert DecimalValue(b) == y * 10 + d;
      assert Pow10(|b|) == 10 * p;
      Distribute(x, p, y, d);
    }
  }

  /** The value of one digit followed by more digits. */
  lemma {:induction false} DecimalValueCons(c: char, t: string)
    requires IsDigit(c) && AllDigits(t)
    ensures AllDigits([c] + t)
    ensures DecimalValue([c] + t) == DigitValue(c) * Pow10(|t|) + DecimalValue(t)
  {
    DecimalValueAppend([c], t);
    assert [c][..0] == [];
    assert DecimalValue([c]) == DigitValue(c);
  }

  lemma ScanArith(acc: nat, d: nat, p: nat, v: nat)
    requires p >= 1
    ensures acc * (10 * p) + (d * p + v) == (acc * 10 + d) * p + v
    ensures acc * 10 + d <= (acc * 10 + d) * p + v
  {
  }


  /** `NatToDecimal(n)` has at most `k` digits when `n < 10^k`. */
  lemma {:induction false} DecimalLengthAtMost(n: nat, k: nat)
    requires 1 <= k && n < Pow10(k)
    ensures |NatToDecimal(n)| <= k
    decreases k
  {
    if n >= 10 {
      assert Pow10(1) == 10;
      DecimalLengthAtMost(n / 10, k - 1);
    }
  }

  function Zeros(k: nat): (s: string)
    ensures |s| == k && AllDigits(s) && DecimalValue(s) == 0
  {
    if k == 0 then "" else
      var z := Zeros(k - 1) + "0";
      assert z[..|z| - 1] == Zeros(k - 1);
      z
  }

  /** Go's `fmt.Sprintf("%06d", n)` for a non-negative `n`. */
  function ZeroPad6(n: nat): (s: string)
    ensures AllDigits(s)
    ensures n < 1000000 ==> |s| == 6 && DecimalValue(s) == n
  {
    var d := NatToDecimal(n);
    if |d| >= 6 then
      if n < 1000000 then
        assert Pow10(6) == 1000000;
        DecimalLengthAtMost(n, 6);
        DecimalRoundTrip(n);
        d
      else d
    else
      var s := Zeros(6 - |d|) + d;
      DecimalValueAppend(Zeros(6 - |d|), d);
      DecimalRoundTrip(n);
      s
  }

  /** `%06d` and the shorter `%d` print the same number for values of six digits. */
  lemma SixDigitsNeedNoPadding(n: nat)
    requires 100000 <= n < 1000000
    ensures ZeroPad6(n) == NatToDecimal(n)
  {
    assert Pow10(5) == 100000 && Pow10(6) == 1000000;
    DecimalLength(n, 6);
  }

  // ---------------------------------------------------------------- strconv

  const MaxUint32: nat := 0xFFFF_FFFF
  const MaxUint64: nat := 0xFFFF_FFFF_FFFF_FFFF
  const MaxInt64: int := 0x7FFF_FFFF_FFFF_FFFF
  const MinInt64: int := -0x8000_0000_0000_0000

  datatype NumError = ErrSyntax | ErrRange

  /** Outcome of scanning unsigned decimal digits against a maximum value. */
  datatype Scan = ScanOk(value: nat) | ScanSyntax | ScanRange

  /**
   * The digit loop of `strconv.ParseUint`: left to right, a non-digit is a
   * syntax error, and exceeding `limit` is a range error reported at once,
   * before the remaining characters are looked at.
   */
  function ScanUint(s: string, acc: nat, limit: nat): (r: Scan)
    ensures r.ScanOk? ==> AllDigits(s) && (s != [] ==> r.value <= limit)
    decreases |s|
  {
    if s == [] then ScanOk(acc)
    else if !IsDigit(s[0]) then ScanSyntax
    else
      var n := acc * 10 + DigitValue(s[0]);
      if n > limit then ScanRange else ScanUint(s[1..], n, limit)
  }

  /** `strconv.ParseUint(s, 10, bits)` where `limit == 2^bits - 1`. */
  function ParseUint(s: string, limit: nat): (r: Scan)
    ensures r.ScanOk? ==> s != [] && AllDigits(s) && r.value <= limit
  {
    if s == [] then ScanSyntax else ScanUint(s, 0, limit)
  }

  lemma {:induction false} ScanDigits(s: string, acc: nat, limit: nat)
    requires AllDigits(s) && acc * Pow10(|s|) + DecimalValue(s) <= limit
    ensures ScanUint(s, acc, limit) == ScanOk(acc * Pow10(|s|) + DecimalValue(s))
    decreases |s|
  {
    if s != [] {
      var t := s[1..];
      assert [s[0]] + t == s;
      DecimalValueCons(s[0], t);
      var d := DigitValue(s[0]);
      var p := Pow10(|t|);
      var v := DecimalValue(t);
      assert Pow10(|s|) == 10 * p;
      assert DecimalValue(s) == d * p + v;
      ScanArith(acc, d, p, v);
      var n := acc * 10 + d;
      var total := acc * Pow10(|s|) + DecimalValue(s);
      assert total == n * p + v;
      assert n <= limit;
      ScanDigits(t, n, limit);
    }
  }

  /** ParseUint reads back what NatToDecimal writes, as long as it fits. */
  lemma ParseUintRoundTrip(n: nat, limit: nat)
    requires n <= limit
    ensures ParseUint(NatToDecimal(n), limit) == ScanOk(n)
  {
    DecimalRoundTrip(n);
    ScanDigits(NatToDecimal(n), 0, limit);
  }

  /** A Go `(int, error)` result: `value` is what the source binds even when `err` is set. */
  datatype Parsed = Parsed(value: int, err: Option<NumError>)

  /**
   * `strconv.Atoi` on a 64-bit platform: an optional sign and decimal digits.
   * A syntax error yields 0; a range error yields the value clamped to the
   * int64 range.
   */
  function Atoi(s: string): (r: Parsed)
    ensures r.err == None ==> MinInt64 <= r.value <= MaxInt64
    ensures r.err == Some(ErrSyntax) ==> r.value == 0
    ensures r.err == Some(ErrRange) ==> r.value == MinInt64 || r.value == MaxInt64
  {
    if s == [] then Parsed(0, Some(ErrSyntax))
    else
      var neg := s[0] == '-';
      var body := if s[0] == '-' || s[0] == '+' then s[1..] else s;
      match ParseUint(body, MaxUint64)
      case ScanSyntax => Parsed(0, Some(ErrSyntax))
      case ScanRange => Parsed(if neg then MinInt64 else MaxInt64, Some(ErrRange))
      case ScanOk(u) =>
        if !neg && u > MaxInt64 then Parsed(MaxInt64, Some(ErrRange))
        else if neg && u > -MinInt64 then Parsed(MinInt64, Some(ErrRange))
        else
          var v: int := if neg then -(u as int) else u;
          Parsed(v, None)
  }

  /** Atoi reads back every int64 that `%d` writes. */
  lemma AtoiRoundTrip(i: int)
    requires MinInt64 <= i <= MaxInt64
    ensures Atoi(IntToDecimal(i)) == Parsed(i, None)
  {
    if i < 0 {
      var s := IntToDecimal(i);
      assert s[1..] == NatToDecimal(-i);
      ParseUintRoundTrip(-i, MaxUint64);
    } else {
      var s := NatToDecimal(i);
      assert s[0] != '-' && s[0] != '+';
      ParseUintRoundTrip(i, MaxUint64);
    }
  }

  /** Atoi refuses a string holding anything but a sign and digits, before overflowing. */
  lemma AtoiRejectsNonNumeric()
    ensures Atoi("").err == Some(ErrSyntax)
    ensures Atoi("-").err == Some(ErrSyntax)
    ensures Atoi("abc") == Parsed(0, Some(ErrSyntax))
    ensures Atoi("12a") == Parsed(0, Some(ErrSyntax))
  {
  }

  /** `strconv.ParseUint(s, 10, 32)`: digits only, no sign, at most 2^32 - 1. */
  function ParseUint32(s: string): (r: Result<nat, NumError>)
    ensures r.Ok? ==> s != [] && AllDigits(s) && r.value <= MaxUint32 && DecimalValue(s) == r.value
    ensures r.Err? && s != [] && AllDigits(s) ==> DecimalValue(s) > MaxUint32
  {
    match ParseUint(s, MaxUint32)
    case ScanOk(v) =>
      ScanValue(s, 0, MaxUint32);
      Ok(v)
    case ScanSyntax =>
      if s != [] && AllDigits(s) && DecimalValue(s) <= MaxUint32 then
        ScanDigits(s, 0, MaxUint32);
        assert false;
        Err(ErrSyntax)
      else Err(ErrSyntax)
    case ScanRange =>
      if s != [] && AllDigits(s) && DecimalValue(s) <= MaxUint32 then
        ScanDigits(s, 0, MaxUint32);
        assert false;
        Err(ErrRange)
      else Err(ErrRange)
  }

  /** A successful scan returns the value the digits denote. */
  lemma {:induction false} ScanValue(s: string, acc: nat, limit: nat)
    requires ScanUint(s, acc, limit).ScanOk?
    ensures AllDigits(s)
    ensures ScanUint(s, acc, limit).value == acc * Pow10(|s|) + DecimalValue(s)
    decreases |s|
  {
    if s != [] {
      var t := s[1..];
      var d := DigitValue(s[0]);
      ScanValue(t, acc * 10 + d, limit);
      assert [s[0]] + t == s;
      DecimalValueCons(s[0], t);
      var p := Pow10(|t|);
      assert Pow10(|s|) == 10 * p;
      ScanArith(acc, d, p, DecimalValue(t));
    }
  }
}
