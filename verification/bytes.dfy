/** Byte strings as Go sees them, and the handful of standard-library string
    operations the delivery layer relies on (strings.Contains, HasPrefix,
    TrimPrefix, ToLower and the %d verb of fmt). */
module Bytes {

  /** A byte, written as the character with the same code. A Go `string` and a
      Go `[]byte` are both sequences of such bytes, so `[]byte(s)` is the identity. */
  type byte = c: char | c as int < 256 witness '\0'

  type Bytes = seq<byte>

  datatype Option<+T> = None | Some(value: T)

  /** strings.HasPrefix */
  predicate HasPrefix(s: Bytes, prefix: Bytes) {
    |prefix| <= |s| && s[..|prefix|] == prefix
  }

  /** strings.TrimPrefix: drops one leading occurrence of `prefix`, if any. */
  function TrimPrefix(s: Bytes, prefix: Bytes): (r: Bytes)
    ensures HasPrefix(s, prefix) ==> prefix + r == s
    ensures !HasPrefix(s, prefix) ==> r == s
  {
    if HasPrefix(s, prefix) then
      assert s == s[..|prefix|] + s[|prefix|..];
      s[|prefix|..]
    else s
  }

  /** `sub` occurs in `s` starting at index `i`. */
  predicate OccursAt(s: Bytes, sub: Bytes, i: int) {
    0 <= i && i + |sub| <= |s| && s[i..i + |sub|] == sub
  }

  /** strings.Contains, as a reference definition: a scan over every start index. */
  function Contains(s: Bytes, sub: Bytes): (r: bool)
    ensures r <==> exists i :: OccursAt(s, sub, i)
    decreases |s|
  {
    if HasPrefix(s, sub) then
      assert OccursAt(s, sub, 0);
      true
    else if |s| <= |sub| then
      assert forall i :: !OccursAt(s, sub, i) by {
        forall i ensures !OccursAt(s, sub, i) {
          if 0 <= i && i + |sub| <= |s| {
            assert i == 0 && s[i..i + |sub|] == s[..|sub|];
          }
        }
      }
      false
    else
      var rest := Contains(s[1..], sub);
      assert !OccursAt(s, sub, 0);
      assert rest ==> exists i :: OccursAt(s, sub, i) by {
        if rest {
          var j :| OccursAt(s[1..], sub, j);
          assert s[1..][j..j + |sub|] == s[j + 1..j + 1 + |sub|];
          assert OccursAt(s, sub, j + 1);
        }
      }
      assert (exists i :: OccursAt(s, sub, i)) ==> rest by {
        if exists i :: OccursAt(s, sub, i) {
          var i :| OccursAt(s, sub, i);
          assert i != 0;
          assert s[1..][i - 1..i - 1 + |sub|] == s[i..i + |sub|];
          assert OccursAt(s[1..], sub, i - 1);
        }
      }
      rest
  }

  /** Whatever is glued around a byte string still contains it. */
  lemma ContainsInside(a: Bytes, sub: Bytes, b: Bytes)
    ensures Contains(a + sub + b, sub)
  {
    assert (a + sub + b)[|a|..|a| + |sub|] == sub;
    assert OccursAt(a + sub + b, sub, |a|);
  }

  /** ASCII lower-casing of one byte; every other byte is kept. */
  function LowerByte(c: byte): byte {
    if 'A' <= c <= 'Z' then (c as int + 32) as char else c
  }

  /** ASCII upper-casing of one byte; every other byte is kept. */
  function UpperByte(c: byte): byte {
    if 'a' <= c <= 'z' then (c as int - 32) as char else c
  }

  /** strings.ToLower on the ASCII letters of `s`. */
  function ToLower(s: Bytes): (r: Bytes)
    ensures |r| == |s|
    ensures forall i | 0 <= i < |s| :: r[i] == LowerByte(s[i])
  {
    seq(|s|, i requires 0 <= i < |s| => LowerByte(s[i]))
  }

  /** strings.ToUpper on the ASCII letters of `s`. */
  function ToUpper(s: Bytes): (r: Bytes)
    ensures |r| == |s|
    ensures forall i | 0 <= i < |s| :: r[i] == UpperByte(s[i])
  {
    seq(|s|, i requires 0 <= i < |s| => UpperByte(s[i]))
  }

  /** Lower-casing twice is lower-casing once, and lower-casing forgets a
      previous upper-casing: only the letters' case is ever lost. */
  lemma ToLowerAbsorbs(s: Bytes)
    ensures ToLower(ToLower(s)) == ToLower(s)
    ensures ToLower(ToUpper(s)) == ToLower(s)
  {
    assert forall i | 0 <= i < |s| :: LowerByte(UpperByte(s[i])) == LowerByte(s[i]);
  }

  predicate IsDigit(c: byte) { '0' <= c <= '9' }

  function DigitChar(d: int): (c: byte)
    requires 0 <= d < 10
    ensures IsDigit(c) && c as int - '0' as int == d
  {
    ('0' as int + d) as char
  }

  /** The decimal digits of `n`, most significant first, without leading zeros. */
  function NatDigits(n: nat): (r: Bytes)
    decreases n
  {
    if n < 10 then [DigitChar(n)] else NatDigits(n / 10) + [DigitChar(n % 10)]
  }

  /** fmt's %d verb on an int. */
  function Decimal(n: int): Bytes {
    if n < 0 then "-" + NatDigits(-n) else NatDigits(n)
  }

  /** The number a non-empty run of decimal digits denotes. */
  function DigitsValue(s: Bytes): nat
    requires forall i | 0 <= i < |s| :: IsDigit(s[i])
  {
    if s == [] then 0
    else
      assert IsDigit(s[|s| - 1]);
      DigitsValue(s[..|s| - 1]) * 10 + (s[|s| - 1] as int - '0' as int)
  }

  /** Reads back an optionally signed decimal numeral (strconv.Atoi without its range check). */
  function ParseDecimal(s: Bytes): Option<int> {
    if s != [] && s[0] == '-' then
      var digits := s[1..];
      if digits != [] && forall i | 0 <= i < |digits| :: IsDigit(digits[i]) then Some(0 - DigitsValue(digits)) else None
    else if s != [] && forall i | 0 <= i < |s| :: IsDigit(s[i]) then Some(DigitsValue(s))
    else None
  }

  lemma {:induction false} NatDigitsRoundTrip(n: nat)
    ensures |NatDigits(n)| > 0
    ensures forall i | 0 <= i < |NatDigits(n)| :: IsDigit(NatDigits(n)[i])
    ensures DigitsValue(NatDigits(n)) == n
    decreases n
  {
    if n >= 10 {
      NatDigitsRoundTrip(n / 10);
      var s := NatDigits(n);
      assert s[..|s| - 1] == NatDigits(n / 10);
    }
  }

  /** %d is lossless: the numeral it prints reads back as the same number. */
  lemma DecimalRoundTrip(n: int)
    ensures ParseDecimal(Decimal(n)) == Some(n)
  {
    if n < 0 {
      var digits := NatDigits(-n);
      NatDigitsRoundTrip(-n);
      var s := "-" + digits;
      assert s == Decimal(n);
      assert s[0] == '-' && s[1..] == digits;
      assert ParseDecimal(s) == Some(0 - DigitsValue(digits));
    } else {
      var digits := NatDigits(n);
      NatDigitsRoundTrip(n);
      assert digits == Decimal(n);
      assert IsDigit(digits[0]);
      assert ParseDecimal(digits) == Some(DigitsValue(digits));
    }
  }
}
