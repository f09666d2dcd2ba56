/** Decimal text for 16-bit unsigned integers: Rust's `u16::from_str`, which
    the handshake reader applies to the text after `SERVER_PORT=`, and the
    rendering the helper process prints. */
module Decimal {
  import opened Outcomes

  const MaxU16: nat := 0xFFFF

  type u16 = x: int | 0 <= x <= 0xFFFF

  predicate IsDigit(c: char) {
    '0' <= c <= '9'
  }

  function DigitValue(c: char): nat
    requires IsDigit(c)
  {
    c as int - '0' as int
  }

  function DigitChar(d: nat): char
    requires d < 10
  {
    ('0' as int + d) as char
  }

  predicate AllDigits(s: string) {
    forall i :: 0 <= i < |s| ==> IsDigit(s[i])
  }

  /** The number a string of decimal digits denotes, most significant first. */
  function Value(s: string): nat
    requires AllDigits(s)
  {
    if s == [] then 0 else Value(s[..|s| - 1]) * 10 + DigitValue(s[|s| - 1])
  }

  /** The part of the text that must be digits: one leading `+` is dropped;
      a `-` is never dropped for an unsigned type, so it stays and is rejected. */
  function Magnitude(s: string): string {
    if |s| > 0 && s[0] == '+' then s[1..] else s
  }

  /** The texts `u16::from_str` accepts: an optional `+`, then at least one
      decimal digit (leading zeros allowed), denoting at most 65535. */
  predicate IsU16Text(s: string) {
    var d := Magnitude(s);
    d != [] && AllDigits(d) && Value(d) <= MaxU16
  }

  /** The digit loop of `from_str_radix`: `d[i..]` is read left to right onto
      `acc` with checked multiply and add; a non-digit or an overflow is an
      error (the error kinds are not distinguished here). */
  function Accumulate(d: string, i: nat, acc: u16): Option<u16>
    requires i <= |d|
    decreases |d| - i
  {
    if i == |d| then Some(acc)
    else if !IsDigit(d[i]) then None
    else if acc * 10 + DigitValue(d[i]) > MaxU16 then None
    else Accumulate(d, i + 1, acc * 10 + DigitValue(d[i]))
  }

  /** `u16::from_str`. */
  function ParseU16(s: string): Option<u16> {
    if s == [] then None
    else if |s| == 1 && (s[0] == '+' || s[0] == '-') then None
    else
      var digits := if s[0] == '+' then s[1..] else s;
      Accumulate(digits, 0, 0)
  }

  /** `u16::from_str` accepts exactly the texts `IsU16Text` describes, and
      yields the number they denote. */
  lemma ParseU16Spec(s: string)
    ensures ParseU16(s).Some? <==> IsU16Text(s)
    ensures ParseU16(s).Some? ==> ParseU16(s).value == Value(Magnitude(s))
  {
    if s != [] && !(|s| == 1 && (s[0] == '+' || s[0] == '-')) {
      var digits := if s[0] == '+' then s[1..] else s;
      assert digits == Magnitude(s) && digits != [];
      assert digits[..0] == [];
      AccumulateCorrect(digits, 0, 0);
    }
  }

  /** Decimal rendering without leading zeros, as `Display` prints an integer;
      the helper prints its port this way in its handshake line. */
  function ToDecimal(n: nat): (s: string)
    ensures s != [] && AllDigits(s) && Value(s) == n
    ensures |s| == 1 || s[0] != '0'
  {
    if n < 10 then [DigitChar(n)]
    else
      var s := ToDecimal(n / 10) + [DigitChar(n % 10)];
      assert s[..|s| - 1] == ToDecimal(n / 10);
      s
  }

  function Zeros(k: nat): (z: string)
    ensures |z| == k && forall i :: 0 <= i < k ==> z[i] == '0'
  {
    seq(k, _ => '0')
  }

  /** Reading a longer prefix of a digit string never gives a smaller number. */
  lemma {:induction false} ValuePrefixBounded(d: string, j: nat)
    requires AllDigits(d) && j <= |d|
    ensures AllDigits(d[..j]) && Value(d[..j]) <= Value(d)
    decreases |d|
  {
    if j < |d| {
      var shorter := d[..|d| - 1];
      assert shorter[..j] == d[..j];
      ValuePrefixBounded(shorter, j);
    } else {
      assert d[..j] == d;
    }
  }

  /** The checked digit loop computes exactly the declarative value, and fails
      exactly on a non-digit or a value above 65535. */
  lemma {:induction false} AccumulateCorrect(d: string, i: nat, acc: u16)
    requires i <= |d| && AllDigits(d[..i]) && acc == Value(d[..i])
    ensures Accumulate(d, i, acc) == if AllDigits(d) && Value(d) <= MaxU16 then Some(Value(d)) else None
    decreases |d| - i
  {
    if i == |d| {
      assert d[..i] == d;
    } else if !IsDigit(d[i]) {
      assert !AllDigits(d);
    } else {
      var p := d[..i + 1];
      assert p[..i] == d[..i];
      assert AllDigits(p);
      assert Value(p) == acc * 10 + DigitValue(d[i]);
      if acc * 10 + DigitValue(d[i]) > MaxU16 {
        if AllDigits(d) {
          ValuePrefixBounded(d, i + 1);
        }
      } else {
        AccumulateCorrect(d, i + 1, acc * 10 + DigitValue(d[i]));
      }
    }
  }

  /** Leading zeros do not change the value of a digit string. */
  lemma {:induction false} ValueLeadingZeros(k: nat, s: string)
    requires AllDigits(s)
    ensures AllDigits(Zeros(k) + s) && Value(Zeros(k) + s) == Value(s)
    decreases |s|
  {
    var z := Zeros(k);
    if s == [] {
      assert z + s == z;
      ZerosValue(k);
    } else {
      var shorter := s[..|s| - 1];
      assert (z + s)[..|z + s| - 1] == z + shorter;
      ValueLeadingZeros(k, shorter);
    }
  }

  lemma {:induction false} ZerosValue(k: nat)
    ensures AllDigits(Zeros(k)) && Value(Zeros(k)) == 0
  {
    if k > 0 {
      assert Zeros(k)[..k - 1] == Zeros(k - 1);
      ZerosValue(k - 1);
    }
  }

  /** Every port survives the round trip through its decimal text, also with
      a leading `+` and with leading zeros. */
  lemma ParseToDecimal(p: u16, plus: bool, zeros: nat)
    ensures ParseU16(ToDecimal(p)) == Some(p)
    ensures ParseU16((if plus then "+" else "") + Zeros(zeros) + ToDecimal(p)) == Some(p)
  {
    var digits := Zeros(zeros) + ToDecimal(p);
    ParseU16Spec(ToDecimal(p));
    ValueLeadingZeros(zeros, ToDecimal(p));
    var s := (if plus then "+" else "") + digits;
    assert s == (if plus then "+" else "") + Zeros(zeros) + ToDecimal(p);
    if plus {
      assert s[0] == '+' && s[1..] == digits;
    } else {
      assert s == digits;
      assert |digits| > 0 && (digits[0] == '0' || digits[0] == ToDecimal(p)[0]);
    }
    assert Magnitude(s) == digits;
    ParseU16Spec(s);
  }

  /** A `-` anywhere is rejected, as are the empty text and a lone `+`. */
  lemma ParseRejects(s: string)
    requires s == [] || s == "+" || '-' in s
    ensures ParseU16(s) == None
  {
    ParseU16Spec(s);
    if '-' in s {
      var k :| 0 <= k < |s| && s[k] == '-';
      if k == 0 {
        assert Magnitude(s)[0] == '-';
      } else if s[0] == '+' {
        assert Magnitude(s)[k - 1] == '-';
      } else {
        assert Magnitude(s)[k] == '-';
      }
    }
  }
}
