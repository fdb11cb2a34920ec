/** JSON-RPC hexadecimal quantities and log words. */
module HexCodec {
  import opened Domain

  // ----------------------------------------------------------------- digits

  predicate IsHexDigit(c: char) {
    '0' <= c <= '9' || 'a' <= c <= 'f' || 'A' <= c <= 'F'
  }

  function DigitValue(c: char): (d: nat)
    requires IsHexDigit(c)
    ensures d < 16
  {
    if '0' <= c <= '9' then (c - '0') as nat
    else if 'a' <= c <= 'f' then (c - 'a') as nat + 10
    else (c - 'A') as nat + 10
  }

  function DigitChar(d: nat): (c: char)
    requires d < 16
    ensures IsHexDigit(c) && DigitValue(c) == d
  {
    if d < 10 then '0' + d as char else 'a' + (d - 10) as char
  }

  predicate AllHex(s: string) {
    forall i :: 0 <= i < |s| ==> IsHexDigit(s[i])
  }

  /** The scanner's value: each digit shifts what was read before. */
  function Scan(s: string): nat
    requires AllHex(s)
  {
    if s == "" then 0 else Scan(s[..|s| - 1]) * 16 + DigitValue(s[|s| - 1])
  }

  // -------------------------------------------------------------- conversion

  function TrimPrefix(s: string): string {
    if |s| >= 2 && s[0] == '0' && s[1] == 'x' then s[2..] else s
  }

  /** big.Int.SetString(s, 16): an optional sign, then at least one digit and nothing else. */
  function SetString(s: string): Option<int> {
    var signed := |s| > 0 && (s[0] == '-' || s[0] == '+');
    var digits := if signed then s[1..] else s;
    if digits == "" || !AllHex(digits) then None
    else
      var magnitude: int := Scan(digits);
      if signed && s[0] == '-' then Some(-magnitude) else Some(magnitude)
  }

  const TWO_63: int := 0x8000_0000_0000_0000
  const TWO_64: int := 0x1_0000_0000_0000_0000

  /** big.Int.Int64: the low 64 bits as a signed number. */
  function ToInt64(n: int): int {
    (n + TWO_63) % TWO_64 - TWO_63
  }

  function ParseHexBigInt(s: string): Option<int> {
    SetString(TrimPrefix(s))
  }

  function ParseHexQuantity(s: string): Option<int> {
    var n := SetString(TrimPrefix(s));
    if n.None? then None else Some(ToInt64(n.value))
  }

  /** Lower-case digits without leading zeros. */
  function Digits(n: nat): (s: string)
    ensures s != "" && AllHex(s)
  {
    if n < 16 then [DigitChar(n)] else Digits(n / 16) + [DigitChar(n % 16)]
  }

  /** The %x verb: a sign, then the digits of the magnitude. */
  function Signed(n: int): string {
    if n < 0 then "-" + Digits(-n) else Digits(n)
  }

  /** fmt.Sprintf("0x%x", n) */
  function ToHexQuantity(n: int): string {
    "0x" + Signed(n)
  }

  // -------------------------------------------------------------- properties

  lemma {:induction false} ScanDigits(n: nat)
    ensures Scan(Digits(n)) == n
  {
    var s := Digits(n);
    if n < 16 {
      assert s[..|s| - 1] == "";
    } else {
      ScanDigits(n / 16);
      assert s[..|s| - 1] == Digits(n / 16);
    }
  }

  lemma TrimsPrefix(s: string)
    ensures TrimPrefix("0x" + s) == s
  {
    assert ("0x" + s)[0] == '0' && ("0x" + s)[1] == 'x' && ("0x" + s)[2..] == s;
  }

  lemma ReadsUnsigned(s: string)
    requires AllHex(s) && s != ""
    ensures SetString(s) == Some(Scan(s))
  {
    assert IsHexDigit(s[0]);
  }

  lemma ReadsNegative(s: string)
    requires AllHex(s) && s != ""
    ensures SetString("-" + s) == Some(-(Scan(s) as int))
  {
    assert ("-" + s)[1..] == s;
  }

  lemma ReadsSigned(n: int)
    ensures SetString(Signed(n)) == Some(n)
  {
    if n < 0 {
      ScanDigits(-n);
      ReadsNegative(Digits(-n));
    } else {
      ScanDigits(n);
      ReadsUnsigned(Digits(n));
    }
  }

  lemma FitsInt64(n: int)
    requires -TWO_63 <= n < TWO_63
    ensures ToInt64(n) == n
  {
  }

  /** Reading keeps the low 64 bits as a signed number. */
  lemma Int64Means(n: int)
    ensures -0x8000_0000_0000_0000 <= ToInt64(n) < 0x8000_0000_0000_0000
    ensures (n - ToInt64(n)) % 0x1_0000_0000_0000_0000 == 0
  {
    var m, k := (n + TWO_63) % TWO_64, (n + TWO_63) / TWO_64;
    assert n - ToInt64(n) == 0x1_0000_0000_0000_0000 * k;
  }

  /** The sixteen digits, in either case, and nothing else. */
  lemma DigitMeans(d: nat)
    requires d < 16
    ensures IsHexDigit("0123456789abcdef"[d]) && DigitValue("0123456789abcdef"[d]) == d
    ensures IsHexDigit("0123456789ABCDEF"[d]) && DigitValue("0123456789ABCDEF"[d]) == d
  {
  }

  lemma DigitIs(c: char)
    ensures IsHexDigit(c) <==> c in "0123456789abcdefABCDEF"
  {
    if '0' <= c <= '9' {
      assert "0123456789abcdefABCDEF"[(c - '0') as int] == c;
    } else if 'a' <= c <= 'f' {
      assert "0123456789abcdefABCDEF"[(c - 'a') as int + 10] == c;
    } else if 'A' <= c <= 'F' {
      assert "0123456789abcdefABCDEF"[(c - 'A') as int + 16] == c;
    }
  }

  ghost predicate IsNumeral(digits: string) {
    digits != "" && forall i :: 0 <= i < |digits| ==> digits[i] in "0123456789abcdefABCDEF"
  }

  lemma NumeralIs(digits: string)
    ensures IsNumeral(digits) <==> digits != "" && AllHex(digits)
  {
    forall i | 0 <= i < |digits|
      ensures IsHexDigit(digits[i]) <==> digits[i] in "0123456789abcdefABCDEF"
    {
      DigitIs(digits[i]);
    }
  }

  lemma SetStringMeans(t: string)
    ensures var digits := if t != "" && (t[0] == '-' || t[0] == '+') then t[1..] else t;
      SetString(t).Some? <==> IsNumeral(digits)
  {
    NumeralIs(if t != "" && (t[0] == '-' || t[0] == '+') then t[1..] else t);
  }

  lemma TrimMeans(s: string)
    ensures TrimPrefix(s) == if "0x" <= s then s[2..] else s
  {
  }

  /** Text is read as a number exactly when, after an optional prefix and an optional sign, it is one digit or more. */
  lemma ParsesIff(s: string)
    ensures var t := if "0x" <= s then s[2..] else s;
      var digits := if t != "" && (t[0] == '-' || t[0] == '+') then t[1..] else t;
      && (ParseHexBigInt(s).Some? <==> IsNumeral(digits))
      && (ParseHexQuantity(s).Some? <==> IsNumeral(digits))
    ensures ParseHexBigInt(s).Some? ==> ParseHexQuantity(s) == Some(ToInt64(ParseHexBigInt(s).value))
  {
    TrimMeans(s);
    SetStringMeans(TrimPrefix(s));
  }

  /** Printing and parsing a block number gives it back, for every 64-bit integer, negative ones included. */
  lemma RoundTrip(n: int)
    requires -0x8000_0000_0000_0000 <= n < 0x8000_0000_0000_0000
    ensures ParseHexQuantity(ToHexQuantity(n)) == Some(n)
  {
    ReadsSigned(n);
    TrimsPrefix(Signed(n));
    FitsInt64(n);
  }

  /** A quantity is printed with a prefix, lower-case digits and no leading zero. */
  lemma {:induction false} DigitsMean(n: nat)
    ensures forall i :: 0 <= i < |Digits(n)| ==> Digits(n)[i] in "0123456789abcdef"
    ensures n > 0 ==> Digits(n)[0] != '0'
    ensures n == 0 ==> Digits(n) == "0"
  {
    LowerDigit(n % 16);
    if n >= 16 {
      DigitsMean(n / 16);
    }
  }

  lemma LowerDigit(d: nat)
    requires d < 16
    ensures DigitChar(d) == "0123456789abcdef"[d] && DigitChar(d) in "0123456789abcdef"
  {
    assert DigitChar(d) == "0123456789abcdef"[d];
  }

  function Power16(k: nat): nat {
    if k == 0 then 1 else 16 * Power16(k - 1)
  }

  /** The positional value: every digit times its own power of sixteen. */
  function Positional(s: string): nat
    requires AllHex(s)
  {
    if s == "" then 0 else DigitValue(s[0]) * Power16(|s| - 1) + Positional(s[1..])
  }

  lemma ShiftDigit(d: nat, k: nat)
    ensures d * Power16(k + 1) == d * Power16(k) * 16
  {
  }

  lemma {:induction false} PositionalShift(s: string, c: char)
    requires AllHex(s) && IsHexDigit(c)
    ensures AllHex(s + [c]) && Positional(s + [c]) == Positional(s) * 16 + DigitValue(c)
  {
    assert AllHex(s + [c]);
    if s == "" {
      assert s + [c] == [c] && [c][1..] == "";
      assert Positional([c]) == DigitValue(c) * Power16(0) + Positional("");
    } else {
      PositionalShift(s[1..], c);
      assert (s + [c])[1..] == s[1..] + [c] && (s + [c])[0] == s[0];
      ShiftDigit(DigitValue(s[0]), |s| - 1);
    }
  }

  lemma {:induction false} ScanIsPositional(s: string)
    requires AllHex(s)
    ensures Scan(s) == Positional(s)
  {
    if s != "" {
      var init, last := s[..|s| - 1], s[|s| - 1];
      ScanIsPositional(init);
      PositionalShift(init, last);
      assert init + [last] == s;
    }
  }

  function Zeros(k: nat): (z: string)
    ensures |z| == k && AllHex(z) && forall i :: 0 <= i < k ==> z[i] == '0'
  {
    if k == 0 then "" else "0" + Zeros(k - 1)
  }

  lemma {:induction false} PaddingIsFree(k: nat, s: string)
    requires AllHex(s)
    ensures AllHex(Zeros(k) + s) && Positional(Zeros(k) + s) == Positional(s)
  {
    if k == 0 {
      assert Zeros(0) + s == s;
    } else {
      PaddingIsFree(k - 1, s);
      assert (Zeros(k) + s)[1..] == Zeros(k - 1) + s;
    }
  }

  /** A zero-padded unsigned word parses to the positional value of its digits: padding never changes an amount. */
  lemma PaddedWord(k: nat, s: string)
    requires AllHex(s) && k + |s| > 0
    ensures ParseHexBigInt("0x" + Zeros(k) + s) == Some(Positional(s))
  {
    var word := Zeros(k) + s;
    PaddingIsFree(k, s);
    ScanIsPositional(word);
    ReadsUnsigned(word);
    TrimsPrefix(word);
    assert "0x" + Zeros(k) + s == "0x" + word;
  }
}
