/** Base58 as in draft-msporny-base58, sections 2 to 4, and the challenge nonce
    that is carried in it (src/limits.rs). */
module Base58 {
  import opened Text

  // --------------------------------------------------------- positional numerals

  /** The two bases in play: bytes, and the 58 letters and figures. */
  type Base = b: nat | b == 58 || b == 256 witness 58

  // Multiplying and dividing by a base, with the base spelled out so that the
  // arithmetic stays linear.

  function Times(n: nat, base: Base): nat {
    if base == 58 then n * 58 else n * 256
  }

  function Quotient(n: nat, base: Base): nat {
    if base == 58 then n / 58 else n / 256
  }

  function Remainder(n: nat, base: Base): nat {
    if base == 58 then n % 58 else n % 256
  }

  /** The number that big-endian digits stand for. */
  function Number(digits: seq<nat>, base: Base): nat {
    if digits == [] then 0 else Times(Number(digits[..|digits| - 1], base), base) + digits[|digits| - 1]
  }

  /** The shortest big-endian digits of a number; zero has none. */
  function Digits(n: nat, base: Base): (digits: seq<nat>)
    ensures forall i :: 0 <= i < |digits| ==> digits[i] < base
    ensures n > 0 ==> |digits| > 0 && digits[0] > 0
    ensures n == 0 ==> digits == []
  {
    if n == 0 then [] else
      Digits(Quotient(n, base), base) + [Remainder(n, base)]
  }

  lemma Init<T>(s: seq<T>, x: T)
    ensures (s + [x])[..|s + [x]| - 1] == s
  {
  }

  lemma {:induction false} NumberOfDigits(n: nat, base: Base)
    ensures Number(Digits(n, base), base) == n
  {
    if n > 0 {
      NumberOfDigits(Quotient(n, base), base);
      Init(Digits(Quotient(n, base), base), Remainder(n, base));
    }
  }

  lemma {:induction false} DigitsOfNumber(digits: seq<nat>, base: Base)
    requires forall i :: 0 <= i < |digits| ==> digits[i] < base
    requires digits != [] ==> digits[0] > 0
    ensures Digits(Number(digits, base), base) == digits
    ensures digits != [] ==> Number(digits, base) > 0
  {
    if digits != [] {
      var init, last := digits[..|digits| - 1], digits[|digits| - 1];
      DigitsOfNumber(init, base);
      var n := Times(Number(init, base), base) + last;
      assert Quotient(n, base) == Number(init, base) && Remainder(n, base) == last;
      assert digits == init + [last];
    }
  }

  function Zeros(k: nat): (zs: seq<nat>)
    ensures |zs| == k && forall i :: 0 <= i < k ==> zs[i] == 0
  {
    seq(k, _ => 0)
  }

  function LeadingZeros(digits: seq<nat>): (k: nat)
    ensures k <= |digits|
    ensures forall i :: 0 <= i < k ==> digits[i] == 0
    ensures k < |digits| ==> digits[k] > 0
  {
    if digits != [] && digits[0] == 0 then 1 + LeadingZeros(digits[1..]) else 0
  }

  lemma {:induction false} NumberOfZeros(k: nat, digits: seq<nat>, base: Base)
    ensures Number(Zeros(k) + digits, base) == Number(digits, base)
  {
    var all := Zeros(k) + digits;
    if digits != [] {
      assert all[..|all| - 1] == Zeros(k) + digits[..|digits| - 1];
      NumberOfZeros(k, digits[..|digits| - 1], base);
    } else if k > 0 {
      assert all[..|all| - 1] == Zeros(k - 1) + digits;
      NumberOfZeros(k - 1, digits, base);
    }
  }

  /** The same number in another base; every leading zero becomes one leading zero. */
  function Convert(digits: seq<nat>, from: Base, to: Base): (out: seq<nat>)
    ensures forall i :: 0 <= i < |out| ==> out[i] < to
  {
    Zeros(LeadingZeros(digits)) + Digits(Number(digits, from), to)
  }

  /** Converting there and back is the identity. */
  lemma ConvertBack(digits: seq<nat>, from: Base, to: Base)
    requires forall i :: 0 <= i < |digits| ==> digits[i] < from
    ensures Convert(Convert(digits, from, to), to, from) == digits
  {
    var k := LeadingZeros(digits);
    var core := digits[k..];
    assert digits == Zeros(k) + core;
    NumberOfZeros(k, core, from);
    DigitsOfNumber(core, from);
    var n := Number(core, from);
    var there := Digits(n, to);
    assert Convert(digits, from, to) == Zeros(k) + there;
    LeadingZerosUnique(k, there);
    NumberOfZeros(k, there, to);
    NumberOfDigits(n, to);
  }

  lemma {:induction false} LeadingZerosUnique(k: nat, digits: seq<nat>)
    requires digits != [] ==> digits[0] > 0
    ensures LeadingZeros(Zeros(k) + digits) == k
  {
    if k > 0 {
      assert (Zeros(k) + digits)[1..] == Zeros(k - 1) + digits;
      LeadingZerosUnique(k - 1, digits);
    } else {
      assert Zeros(0) + digits == digits;
    }
  }

  // ------------------------------------------------------------------- the alphabet

  /** `123456789ABCDEFGHJKLMNPQRSTUVWXYZabcdefghijkmnopqrstuvwxyz` */
  function CharOf(d: nat): char
    requires d < 58
  {
    if d < 9 then ('1' as int + d) as char
    else if d < 17 then ('A' as int + d - 9) as char
    else if d < 22 then ('J' as int + d - 17) as char
    else if d < 33 then ('P' as int + d - 22) as char
    else if d < 44 then ('a' as int + d - 33) as char
    else ('m' as int + d - 44) as char
  }

  lemma AlphabetIs(d: nat)
    requires d < 58
    ensures CharOf(d) == if d < 9 then "123456789"[d] else if d < 17 then "ABCDEFGH"[d - 9]
                         else if d < 22 then "JKLMN"[d - 17] else if d < 33 then "PQRSTUVWXYZ"[d - 22]
                         else if d < 44 then "abcdefghijk"[d - 33] else "mnopqrstuvwxyz"[d - 44]
  {
  }

  function DigitOf(c: char): (d: Option<nat>)
    ensures d.Some? ==> d.value < 58
  {
    if '1' <= c <= '9' then Some(c as int - '1' as int)
    else if 'A' <= c <= 'H' then Some(c as int - 'A' as int + 9)
    else if 'J' <= c <= 'N' then Some(c as int - 'J' as int + 17)
    else if 'P' <= c <= 'Z' then Some(c as int - 'P' as int + 22)
    else if 'a' <= c <= 'k' then Some(c as int - 'a' as int + 33)
    else if 'm' <= c <= 'z' then Some(c as int - 'm' as int + 44)
    else None
  }

  lemma AlphabetInverse(c: char, d: nat)
    requires d < 58
    ensures DigitOf(c) == Some(d) <==> c == CharOf(d)
  {
  }

  function Encode(bytes: seq<byte>): (s: string)
  {
    var digits := Convert(bytes, 256, 58);
    seq(|digits|, i requires 0 <= i < |digits| => CharOf(digits[i]))
  }

  predicate InAlphabet(s: string) {
    forall i :: 0 <= i < |s| ==> DigitOf(s[i]).Some?
  }

  function Decode(s: string): Option<seq<byte>> {
    if InAlphabet(s) then
      var digits := seq(|s|, i requires 0 <= i < |s| => DigitOf(s[i]).value);
      Some(Convert(digits, 58, 256))
    else None
  }

  /** Decoding inverts encoding, and accepts nothing else. */
  lemma DecodeIffEncode(s: string, bytes: seq<byte>)
    ensures Decode(s) == Some(bytes) <==> s == Encode(bytes)
  {
    if s == Encode(bytes) {
      var digits := Convert(bytes, 256, 58);
      forall i | 0 <= i < |s| ensures DigitOf(s[i]) == Some(digits[i]) {
        AlphabetInverse(s[i], digits[i]);
      }
      assert seq(|s|, i requires 0 <= i < |s| => DigitOf(s[i]).value) == digits;
      ConvertBack(bytes, 256, 58);
    }
    if Decode(s) == Some(bytes) {
      var digits := seq(|s|, i requires 0 <= i < |s| => DigitOf(s[i]).value);
      ConvertBack(digits, 58, 256);
      forall i | 0 <= i < |s| ensures s[i] == CharOf(digits[i]) {
        AlphabetInverse(s[i], digits[i]);
      }
      assert Convert(bytes, 256, 58) == digits;
    }
  }

  /** The text is the number of the bytes in base 58: letters of the alphabet for its digits,
      of which only as many lead with a zero as bytes do. */
  lemma EncodeMeans(bytes: seq<byte>, digits: seq<nat>)
    requires |digits| == |Encode(bytes)|
    requires forall i :: 0 <= i < |digits| ==> digits[i] < 58 && Encode(bytes)[i] == CharOf(digits[i])
    ensures Number(digits, 58) == Number(bytes, 256)
    ensures LeadingZeros(digits) == LeadingZeros(bytes)
  {
    var converted := Convert(bytes, 256, 58);
    var k, n := LeadingZeros(bytes), Number(bytes, 256);
    forall i | 0 <= i < |digits| ensures digits[i] == converted[i] {
      AlphabetInverse(Encode(bytes)[i], digits[i]);
      AlphabetInverse(Encode(bytes)[i], converted[i]);
    }
    assert digits == converted;
    NumberOfZeros(k, Digits(n, 58), 58);
    NumberOfDigits(n, 58);
    LeadingZerosUnique(k, Digits(n, 58));
  }

  // ------------------------------------------------------------- length of the text

  function Pow(base: Base, e: nat): (p: nat)
    ensures p >= 1
  {
    if e == 0 then 1 else Times(Pow(base, e - 1), base)
  }

  lemma {:induction false} NumberBound(digits: seq<nat>, base: Base)
    requires forall i :: 0 <= i < |digits| ==> digits[i] < base
    ensures Number(digits, base) < Pow(base, |digits|)
  {
    if digits != [] {
      NumberBound(digits[..|digits| - 1], base);
    }
  }

  lemma {:induction false} DigitsLength(n: nat, base: Base)
    requires n > 0
    ensures Pow(base, |Digits(n, base)| - 1) <= n
  {
    if Quotient(n, base) > 0 {
      DigitsLength(Quotient(n, base), base);
    }
  }

  lemma {:induction false} PowMonotone(base: Base, m: nat, n: nat)
    requires m <= n
    ensures Pow(base, m) <= Pow(base, n)
  {
    if m < n {
      PowMonotone(base, m, n - 1);
    }
  }

  lemma ElevenDigits(n: nat)
    ensures Pow(58, n + 11) == 24986644000165537792 * Pow(58, n)
  {
    var p := Pow(58, n);
    assert Pow(58, n + 1) == 58 * p;
    assert Pow(58, n + 2) == 3364 * p;
    assert Pow(58, n + 3) == 195112 * p;
    assert Pow(58, n + 4) == 11316496 * p;
    assert Pow(58, n + 5) == 656356768 * p;
    assert Pow(58, n + 6) == 38068692544 * p;
    assert Pow(58, n + 7) == 2207984167552 * p;
    assert Pow(58, n + 8) == 128063081718016 * p;
    assert Pow(58, n + 9) == 7427658739644928 * p;
    assert Pow(58, n + 10) == 430804206899405824 * p;
    assert Pow(58, n + 11) == 24986644000165537792 * p;
  }

  lemma EightBytes(n: nat)
    ensures Pow(256, n + 8) == 18446744073709551616 * Pow(256, n)
  {
    var p := Pow(256, n);
    assert Pow(256, n + 1) == 256 * p;
    assert Pow(256, n + 2) == 65536 * p;
    assert Pow(256, n + 3) == 16777216 * p;
    assert Pow(256, n + 4) == 4294967296 * p;
    assert Pow(256, n + 5) == 1099511627776 * p;
    assert Pow(256, n + 6) == 281474976710656 * p;
    assert Pow(256, n + 7) == 72057594037927936 * p;
    assert Pow(256, n + 8) == 18446744073709551616 * p;
  }

  /** Eleven base-58 digits hold eight bytes. */
  lemma {:induction false} Blocks(j: nat)
    ensures Pow(58, 11 * j) >= Pow(256, 8 * j)
  {
    if j > 0 {
      Blocks(j - 1);
      ElevenDigits(11 * (j - 1));
      EightBytes(8 * (j - 1));
    }
  }

  /** Twelve more base-58 digits than bytes are enough for up to 32 bytes. */
  lemma {:induction false} EnoughDigits(m: nat)
    requires m <= 32
    ensures Pow(58, 12 + m) >= Pow(256, m)
    decreases 32 - m
  {
    if m == 32 {
      Blocks(4);
    } else {
      EnoughDigits(m + 1);
    }
  }

  lemma TextLength(bytes: seq<byte>)
    requires |bytes| <= 32
    ensures |Encode(bytes)| <= 12 + |bytes|
  {
    var k := LeadingZeros(bytes);
    var core: seq<nat> := bytes[k..];
    var m := |core|;
    assert bytes == Zeros(k) + core;
    NumberOfZeros(k, core, 256);
    NumberBound(core, 256);
    EnoughDigits(m);
    var n := Number(core, 256);
    if n > 0 {
      DigitsLength(n, 58);
      if |Digits(n, 58)| > 12 + m {
        PowMonotone(58, 12 + m, |Digits(n, 58)| - 1);
      }
    }
  }

  // ------------------------------------------------------------------------ the nonce

  const MAX_NONCE_CHARS: nat := 64
  const NONCE_BYTES: nat := 32

  datatype NonceResult =
    | Ok(bytes: seq<byte>)
    | TooLong(length: nat)
    | Undecodable
    | WrongLength(length: nat)

  function ValidateNonce(b58: string): NonceResult {
    if ByteLen(b58) > MAX_NONCE_CHARS then TooLong(ByteLen(b58))
    else match Decode(b58)
      case None => Undecodable
      case Some(bytes) => if |bytes| != NONCE_BYTES then WrongLength(|bytes|) else Ok(bytes)
  }

  lemma {:induction false} AsciiLength(s: string)
    requires forall i :: 0 <= i < |s| ==> s[i] < 128 as char
    ensures ByteLen(s) == |s|
  {
    if s != "" {
      AsciiLength(s[1..]);
    }
  }

  /** The nonce check accepts exactly the base58 texts of 32-byte strings, and
      returns the string; the length cap rejects none of them, as such a text has at
      most 44 characters. */
  lemma NonceExact(s: string, nonce: seq<byte>)
    ensures ValidateNonce(s) == Ok(nonce) <==> |nonce| == 32 && s == Encode(nonce)
    ensures |nonce| == 32 ==> |Encode(nonce)| <= 44
  {
    DecodeIffEncode(s, nonce);
    if |nonce| == 32 {
      TextLength(nonce);
      var text := Encode(nonce);
      var digits := Convert(nonce, 256, 58);
      forall i | 0 <= i < |text| ensures text[i] < 128 as char {
        assert text[i] == CharOf(digits[i]);
      }
      AsciiLength(text);
    }
  }
}
