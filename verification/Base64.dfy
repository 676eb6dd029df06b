/** The standard base64 alphabet with canonical padding (section 4 of RFC 4648). */
module Base64 {
  import opened Text

  type sextet = d: int | 0 <= d < 64

  function CharOf(d: sextet): char {
    if d < 26 then ('A' as int + d) as char
    else if d < 52 then ('a' as int + d - 26) as char
    else if d < 62 then ('0' as int + d - 52) as char
    else if d == 62 then '+' else '/'
  }

  lemma AlphabetIs(d: sextet)
    ensures CharOf(d) == if d < 13 then "ABCDEFGHIJKLM"[d] else if d < 26 then "NOPQRSTUVWXYZ"[d - 13]
                         else if d < 39 then "abcdefghijklm"[d - 26] else if d < 52 then "nopqrstuvwxyz"[d - 39]
                         else "0123456789+/"[d - 52]
  {
  }

  function DigitOf(c: char): Option<sextet> {
    if 'A' <= c <= 'Z' then Some(c as int - 'A' as int)
    else if 'a' <= c <= 'z' then Some(c as int - 'a' as int + 26)
    else if '0' <= c <= '9' then Some(c as int - '0' as int + 52)
    else if c == '+' then Some(62)
    else if c == '/' then Some(63)
    else None
  }

  lemma AlphabetInverse(c: char, d: sextet)
    ensures DigitOf(c) == Some(d) <==> c == CharOf(d)
  {
  }

  lemma AlphabetPlain(d: sextet)
    ensures DigitOf(CharOf(d)) == Some(d) && CharOf(d) != '=' && !IsWhitespace(CharOf(d))
  {
  }

  /** One to three bytes as two to four digits; the last digit is filled with zero bits. */
  function Sextets(g: seq<byte>): (ds: seq<sextet>)
    requires 1 <= |g| <= 3
    ensures |ds| == |g| + 1
  {
    if |g| == 1 then [g[0] / 4, g[0] % 4 * 16]
    else if |g| == 2 then [g[0] / 4, g[0] % 4 * 16 + g[1] / 16, g[1] % 16 * 4]
    else [g[0] / 4, g[0] % 4 * 16 + g[1] / 16, g[1] % 16 * 4 + g[2] / 64, g[2] % 64]
  }

  /** The digits are the same number as the bytes, filled up with zero bits on the right. */
  lemma SextetsMean(g: seq<byte>)
    requires 1 <= |g| <= 3
    ensures var ds := Sextets(g);
            if |g| == 1 then ds[0] as int * 64 + ds[1] == g[0] as int * 16
            else if |g| == 2 then ds[0] as int * 4096 + ds[1] as int * 64 + ds[2] == (g[0] as int * 256 + g[1]) * 4
            else ds[0] as int * 262144 + ds[1] as int * 4096 + ds[2] as int * 64 + ds[3]
                 == g[0] as int * 65536 + g[1] as int * 256 + g[2]
  {
  }

  /** The bits that fill the last digit have to be zero. */
  function Octets(ds: seq<sextet>): (g: Option<seq<byte>>)
    requires 2 <= |ds| <= 4
    ensures g.Some? ==> |g.value| == |ds| - 1
  {
    var x := ds[0] as int * 4 + ds[1] / 16;
    if |ds| == 2 then (if ds[1] % 16 == 0 then Some([x]) else None)
    else
      var y := ds[1] as int % 16 * 16 + ds[2] / 4;
      if |ds| == 3 then (if ds[2] % 4 == 0 then Some([x, y]) else None)
      else Some([x, y, ds[2] as int % 4 * 64 + ds[3]])
  }

  lemma OneOctet(a: byte)
    ensures Octets(Sextets([a])) == Some([a])
  {
  }

  lemma TwoOctets(a: byte, b: byte)
    ensures Octets(Sextets([a, b])) == Some([a, b])
  {
  }

  lemma ThreeOctets(a: byte, b: byte, c: byte)
    ensures Octets(Sextets([a, b, c])) == Some([a, b, c])
  {
  }

  lemma OctetsSextets(g: seq<byte>)
    requires 1 <= |g| <= 3
    ensures Octets(Sextets(g)) == Some(g)
  {
    if |g| == 1 {
      OneOctet(g[0]);
      assert g == [g[0]];
    } else if |g| == 2 {
      TwoOctets(g[0], g[1]);
      assert g == [g[0], g[1]];
    } else {
      ThreeOctets(g[0], g[1], g[2]);
      assert g == [g[0], g[1], g[2]];
    }
  }

  lemma SextetsOctets(ds: seq<sextet>)
    requires 2 <= |ds| <= 4 && Octets(ds).Some?
    ensures Sextets(Octets(ds).value) == ds
  {
    var g := Octets(ds).value;
    assert g[0] / 4 == ds[0] && g[0] % 4 == ds[1] / 16;
    if |ds| == 2 {
      assert ds == [ds[0], ds[1]];
    } else {
      assert g[1] / 16 == ds[1] % 16 && g[1] % 16 == ds[2] / 4;
      if |ds| == 3 {
        assert ds == [ds[0], ds[1], ds[2]];
      } else {
        assert g[2] / 64 == ds[2] % 4 && g[2] % 64 == ds[3];
        assert ds == [ds[0], ds[1], ds[2], ds[3]];
      }
    }
  }

  /** Two to four digits as four characters. */
  function Pad(ds: seq<sextet>): (q: string)
    requires 2 <= |ds| <= 4
    ensures |q| == 4
  {
    [CharOf(ds[0]), CharOf(ds[1]), if |ds| > 2 then CharOf(ds[2]) else '=', if |ds| > 3 then CharOf(ds[3]) else '=']
  }

  function Unpad(q: string): (ds: Option<seq<sextet>>)
    requires |q| == 4
    ensures ds.Some? ==> 2 <= |ds.value| <= 4
  {
    var a, b, c, d := DigitOf(q[0]), DigitOf(q[1]), DigitOf(q[2]), DigitOf(q[3]);
    if a.None? || b.None? then None
    else if q[2] == '=' && q[3] == '=' then Some([a.value, b.value])
    else if c.None? then None
    else if q[3] == '=' then Some([a.value, b.value, c.value])
    else if d.None? then None
    else Some([a.value, b.value, c.value, d.value])
  }

  lemma UnpadPad(ds: seq<sextet>)
    requires 2 <= |ds| <= 4
    ensures Unpad(Pad(ds)) == Some(ds)
  {
    AlphabetPlain(ds[0]);
    AlphabetPlain(ds[1]);
    if |ds| > 2 { AlphabetPlain(ds[2]); }
    if |ds| > 3 { AlphabetPlain(ds[3]); }
    assert Unpad(Pad(ds)).Some? && Unpad(Pad(ds)).value == ds;
  }

  lemma PadUnpad(q: string)
    requires |q| == 4 && Unpad(q).Some?
    ensures Pad(Unpad(q).value) == q
  {
    var ds := Unpad(q).value;
    AlphabetInverse(q[0], ds[0]);
    AlphabetInverse(q[1], ds[1]);
    if |ds| > 2 { AlphabetInverse(q[2], ds[2]); }
    if |ds| > 3 { AlphabetInverse(q[3], ds[3]); }
  }

  function EncodeGroup(g: seq<byte>): (q: string)
    requires 1 <= |g| <= 3
    ensures |q| == 4
  {
    Pad(Sextets(g))
  }

  function DecodeGroup(q: string): (g: Option<seq<byte>>)
    requires |q| == 4
    ensures g.Some? ==> 1 <= |g.value| <= 3
  {
    match Unpad(q)
    case None => None
    case Some(ds) => Octets(ds)
  }

  lemma {:induction false} DecodeEncodeGroup(g: seq<byte>)
    requires 1 <= |g| <= 3
    ensures DecodeGroup(EncodeGroup(g)) == Some(g)
  {
    UnpadPad(Sextets(g));
    OctetsSextets(g);
  }

  lemma {:induction false} EncodeDecodeGroup(q: string)
    requires |q| == 4 && DecodeGroup(q).Some?
    ensures EncodeGroup(DecodeGroup(q).value) == q
  {
    SextetsOctets(Unpad(q).value);
    PadUnpad(q);
  }

  function Encode(bytes: seq<byte>): string {
    if bytes == [] then ""
    else
      var n := if |bytes| < 3 then |bytes| else 3;
      EncodeGroup(bytes[..n]) + Encode(bytes[n..])
  }

  /** Padding is accepted in the last group only. */
  function Decode(s: string): Option<seq<byte>> {
    if s == "" then Some([])
    else if |s| < 4 then None
    else
      match DecodeGroup(s[..4])
      case None => None
      case Some(g) =>
        if |g| < 3 && s[4..] != "" then None
        else match Decode(s[4..])
          case None => None
          case Some(rest) => Some(g + rest)
  }

  lemma {:induction false} DecodeEncode(bytes: seq<byte>)
    ensures Decode(Encode(bytes)) == Some(bytes)
  {
    if bytes != [] {
      var n := if |bytes| < 3 then |bytes| else 3;
      var g, rest := bytes[..n], bytes[n..];
      DecodeEncodeGroup(g);
      DecodeEncode(rest);
      var s := Encode(bytes);
      assert s[..4] == EncodeGroup(g) && s[4..] == Encode(rest);
      assert bytes == g + rest;
    }
  }

  lemma {:induction false} EncodeDecode(s: string)
    requires Decode(s).Some?
    ensures Encode(Decode(s).value) == s
  {
    if s != "" {
      var g, rest := DecodeGroup(s[..4]).value, Decode(s[4..]).value;
      EncodeDecodeGroup(s[..4]);
      EncodeDecode(s[4..]);
      var bytes := g + rest;
      var n := if |bytes| < 3 then |bytes| else 3;
      assert |g| < 3 ==> rest == [];
      assert n == |g| && bytes[..n] == g && bytes[n..] == rest;
      assert s == s[..4] + s[4..];
    }
  }

  /** Decoding inverts encoding and accepts nothing else. */
  lemma {:induction false} DecodeIffEncode(s: string, bytes: seq<byte>)
    ensures Decode(s) == Some(bytes) <==> s == Encode(bytes)
  {
    DecodeEncode(bytes);
    if Decode(s).Some? {
      EncodeDecode(s);
    }
  }

  lemma PadNoSpace(ds: seq<sextet>)
    requires 2 <= |ds| <= 4
    ensures forall i :: 0 <= i < 4 ==> !IsWhitespace(Pad(ds)[i])
  {
  }

  lemma {:induction false} EncodedNoSpace(bytes: seq<byte>)
    ensures forall i :: 0 <= i < |Encode(bytes)| ==> !IsWhitespace(Encode(bytes)[i])
  {
    if bytes != [] {
      var n := if |bytes| < 3 then |bytes| else 3;
      PadNoSpace(Sextets(bytes[..n]));
      EncodedNoSpace(bytes[n..]);
    }
  }

  /** A group at the end that is not full is padded; examples of section 10 of RFC 4648. */
  lemma PaddingExamples()
    ensures EncodeGroup([102]) == "Zg==" && EncodeGroup([102, 111]) == "Zm8=" && EncodeGroup([102, 111, 111]) == "Zm9v"
  {
  }

  /** Groups of three bytes are encoded one after the other. */
  lemma FirstGroup(bytes: seq<byte>)
    requires |bytes| >= 3
    ensures Encode(bytes)[..4] == EncodeGroup(bytes[..3]) && Encode(bytes)[4..] == Encode(bytes[3..])
  {
  }
}
