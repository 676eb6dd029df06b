/** Lower-case hexadecimal text, two digits a byte, and a reader that takes nothing else. */
module Hex {
  import opened Text

  predicate IsHexDigit(c: char) {
    '0' <= c <= '9' || 'a' <= c <= 'f'
  }

  function HexDigit(d: int): (c: char)
    requires 0 <= d < 16
    ensures IsHexDigit(c)
  {
    if d < 10 then ('0' as int + d) as char else ('a' as int + d - 10) as char
  }

  lemma DigitsAre(d: int)
    requires 0 <= d < 16
    ensures HexDigit(d) == "0123456789abcdef"[d]
  {
  }

  function Value(c: char): int {
    if '0' <= c <= '9' then c as int - '0' as int else c as int - 'a' as int + 10
  }

  function Encode(bytes: seq<byte>): (text: string)
    ensures |text| == 2 * |bytes|
    ensures forall c :: c in text ==> IsHexDigit(c)
  {
    if bytes == [] then "" else [HexDigit(bytes[0] / 16), HexDigit(bytes[0] % 16)] + Encode(bytes[1..])
  }

  /** Each byte is written as its upper and its lower half, in order. */
  lemma {:induction false} EncodeMeans(bytes: seq<byte>, i: nat)
    requires i < |bytes|
    ensures Encode(bytes)[2 * i] == "0123456789abcdef"[bytes[i] / 16]
    ensures Encode(bytes)[2 * i + 1] == "0123456789abcdef"[bytes[i] % 16]
  {
    DigitsAre(bytes[0] / 16);
    DigitsAre(bytes[0] % 16);
    if i > 0 {
      EncodeMeans(bytes[1..], i - 1);
      assert Encode(bytes)[2..] == Encode(bytes[1..]);
    }
  }

  lemma DigitValue(d: int)
    requires 0 <= d < 16
    ensures Value(HexDigit(d)) == d
  {
  }

  lemma DigitOfValue(c: char)
    requires IsHexDigit(c)
    ensures 0 <= Value(c) < 16 && HexDigit(Value(c)) == c
  {
  }

  function Decode(text: string): Option<seq<byte>> {
    if text == "" then Some([])
    else if |text| == 1 || !IsHexDigit(text[0]) || !IsHexDigit(text[1]) then None
    else
      match Decode(text[2..])
      case None => None
      case Some(rest) => Some([Value(text[0]) * 16 + Value(text[1])] + rest)
  }

  lemma {:induction false} DecodeEncode(bytes: seq<byte>)
    ensures Decode(Encode(bytes)) == Some(bytes)
  {
    if bytes != [] {
      DigitValue(bytes[0] / 16);
      DigitValue(bytes[0] % 16);
      assert Encode(bytes)[2..] == Encode(bytes[1..]);
      DecodeEncode(bytes[1..]);
      assert bytes == [bytes[0]] + bytes[1..];
    }
  }

  lemma EncodePair(c: char, d: char)
    requires IsHexDigit(c) && IsHexDigit(d)
    ensures var n := Value(c) * 16 + Value(d);
            0 <= n < 256 && HexDigit(n / 16) == c && HexDigit(n % 16) == d
  {
    DigitOfValue(c);
    DigitOfValue(d);
  }

  lemma {:induction false} EncodeDecode(text: string)
    requires Decode(text).Some?
    ensures Encode(Decode(text).value) == text
  {
    if text != "" {
      EncodePair(text[0], text[1]);
      EncodeDecode(text[2..]);
      var rest := Decode(text[2..]).value;
      assert Decode(text).value[1..] == rest;
      assert text == [text[0], text[1]] + text[2..];
    }
  }

  lemma EncodeInjective(a: seq<byte>, b: seq<byte>)
    requires Encode(a) == Encode(b)
    ensures a == b
  {
    DecodeEncode(a);
    DecodeEncode(b);
  }

  /** Decoding inverts encoding and accepts nothing else. */
  lemma DecodeIffEncode(text: string, bytes: seq<byte>)
    ensures Decode(text) == Some(bytes) <==> text == Encode(bytes)
  {
    DecodeEncode(bytes);
    if Decode(text).Some? {
      EncodeDecode(text);
    }
  }
}
