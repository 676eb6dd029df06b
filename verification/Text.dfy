/** Strings as the client sees them: Unicode scalar values, their UTF-8 bytes,
    their order, and the white space that trimming removes. */
module Text {

  type byte = b: int | 0 <= b < 256

  /** Values of the two integer types the client mixes with strings. */
  const U64_LIMIT: int := 0x1_0000_0000_0000_0000
  const I64_LIMIT: int := 0x8000_0000_0000_0000

  type u64 = n: int | 0 <= n < U64_LIMIT
  type i64 = n: int | -I64_LIMIT <= n < I64_LIMIT

  datatype Option<+T> = None | Some(value: T)

  // ---------------------------------------------------------------- UTF-8

  /** The one to four UTF-8 bytes of a scalar value. */
  function EncodeChar(c: char): (bs: seq<byte>)
    ensures 1 <= |bs| <= 4
  {
    var n := c as int;
    if n < 0x80 then [n]
    else if n < 0x800 then [0xC0 + n / 64, 0x80 + n % 64]
    else if n < 0x1_0000 then [0xE0 + n / 4096, 0x80 + n / 64 % 64, 0x80 + n % 64]
    else [0xF0 + n / 262144, 0x80 + n / 4096 % 64, 0x80 + n / 64 % 64, 0x80 + n % 64]
  }

  function Utf8(s: string): seq<byte> {
    if s == "" then [] else EncodeChar(s[0]) + Utf8(s[1..])
  }

  /** `str::len`: the number of bytes, not of characters. */
  function ByteLen(s: string): nat {
    |Utf8(s)|
  }

  /** The lead byte tells how many bytes the character has. */
  function Width(lead: byte): nat {
    if lead < 0x80 then 1 else if lead < 0xE0 then 2 else if lead < 0xF0 then 3 else 4
  }

  lemma LeadByte(c: char)
    ensures |EncodeChar(c)| == Width(EncodeChar(c)[0])
  {
  }

  /** The scalar value that a well-formed encoding stands for. */
  function CodePoint(bs: seq<byte>): int {
    if |bs| == 1 then bs[0]
    else if |bs| == 2 then (bs[0] as int - 0xC0) * 64 + (bs[1] as int - 0x80)
    else if |bs| == 3 then (bs[0] as int - 0xE0) * 4096 + (bs[1] as int - 0x80) * 64 + (bs[2] as int - 0x80)
    else if |bs| == 4 then
      (bs[0] as int - 0xF0) * 262144 + (bs[1] as int - 0x80) * 4096 + (bs[2] as int - 0x80) * 64 + (bs[3] as int - 0x80)
    else 0
  }

  lemma DecodeChar(c: char)
    ensures CodePoint(EncodeChar(c)) == c as int
  {
    var n := c as int;
    assert n / 64 / 64 == n / 4096 && n / 4096 / 64 == n / 262144;
    assert n == n / 64 * 64 + n % 64;
    assert n / 64 == n / 4096 * 64 + n / 64 % 64;
    assert n / 4096 == n / 262144 * 64 + n / 4096 % 64;
  }

  /** No encoded character is a proper prefix of another. */
  lemma EncodeCharPrefixFree(c: char, d: char, x: seq<byte>, y: seq<byte>)
    requires EncodeChar(c) + x == EncodeChar(d) + y
    ensures c == d && x == y
  {
    var p, q, k := EncodeChar(c), EncodeChar(d), |EncodeChar(c)|;
    LeadByte(c);
    LeadByte(d);
    assert p[0] == (p + x)[0] && q[0] == (q + y)[0];
    assert p == (p + x)[..k] && q == (q + y)[..k];
    DecodeChar(c);
    DecodeChar(d);
    assert x == (p + x)[k..] && y == (q + y)[k..];
  }

  lemma {:induction false} Utf8Injective(s: string, t: string)
    requires Utf8(s) == Utf8(t)
    ensures s == t
  {
    if s != "" && t != "" {
      EncodeCharPrefixFree(s[0], t[0], Utf8(s[1..]), Utf8(t[1..]));
      Utf8Injective(s[1..], t[1..]);
    }
  }

  lemma {:induction false} Utf8Concat(s: string, t: string)
    ensures Utf8(s + t) == Utf8(s) + Utf8(t)
    ensures ByteLen(s + t) == ByteLen(s) + ByteLen(t)
  {
    if s == "" {
      assert s + t == t;
    } else {
      assert (s + t)[1..] == s[1..] + t;
      Utf8Concat(s[1..], t);
    }
  }

  /** The layout of the bytes: what each of them can be tells its place, and the rest are the
      bits of the scalar value. */
  lemma EncodingLayout(c: char)
    ensures var n, bs := c as int, EncodeChar(c);
            && (n < 0x80 ==> bs == [n])
            && (0x80 <= n < 0x800 ==> |bs| == 2 && 0xC2 <= bs[0] <= 0xDF)
            && (0x800 <= n < 0x1_0000 ==> |bs| == 3 && 0xE0 <= bs[0] <= 0xEF)
            && (0x1_0000 <= n ==> |bs| == 4 && 0xF0 <= bs[0] <= 0xF4)
            && (forall i :: 1 <= i < |bs| ==> 0x80 <= bs[i] <= 0xBF)
  {
  }

  // ---------------------------------------------------------- order on strings

  /** `Ord for str`. Comparing scalar values and comparing UTF-8 bytes agree. */
  predicate Le(s: string, t: string) {
    s == "" || (t != "" && (s[0] < t[0] || (s[0] == t[0] && Le(s[1..], t[1..]))))
  }

  lemma {:induction false} LeReflexive(s: string)
    ensures Le(s, s)
  {
    if s != "" {
      LeReflexive(s[1..]);
    }
  }

  lemma {:induction false} LeTotal(s: string, t: string)
    ensures Le(s, t) || Le(t, s)
  {
    if s != "" && t != "" {
      LeTotal(s[1..], t[1..]);
    }
  }

  lemma {:induction false} LeTransitive(s: string, t: string, u: string)
    requires Le(s, t) && Le(t, u)
    ensures Le(s, u)
  {
    if s != "" && s[0] == t[0] && t[0] == u[0] {
      LeTransitive(s[1..], t[1..], u[1..]);
    }
  }

  lemma {:induction false} LeAntisymmetric(s: string, t: string)
    requires Le(s, t) && Le(t, s)
    ensures s == t
  {
    if s != "" && t != "" {
      LeAntisymmetric(s[1..], t[1..]);
      assert s == [s[0]] + s[1..] && t == [t[0]] + t[1..];
    }
  }

  /** What comes first is a prefix, or has the smaller character where the two first differ. */
  lemma {:induction false} LeMeans(s: string, t: string)
    ensures Le(s, t) <==>
            || s <= t
            || exists k :: 0 <= k < |s| && k < |t| && s[..k] == t[..k] && s[k] < t[k]
  {
    if s != "" && t != "" && s[0] == t[0] {
      LeMeans(s[1..], t[1..]);
      assert s == [s[0]] + s[1..] && t == [t[0]] + t[1..];
      if k :| 0 <= k < |s[1..]| && k < |t[1..]| && s[1..][..k] == t[1..][..k] && s[1..][k] < t[1..][k] {
        assert s[..k + 1] == [s[0]] + s[1..][..k] && t[..k + 1] == [t[0]] + t[1..][..k];
        assert s[k + 1] < t[k + 1];
      }
      if k :| 0 <= k < |s| && k < |t| && s[..k] == t[..k] && s[k] < t[k] {
        assert s[1..][..k - 1] == s[..k][1..] && t[1..][..k - 1] == t[..k][1..];
        assert s[1..][k - 1] < t[1..][k - 1];
      }
    } else if s != "" && t != "" {
      assert s[..0] == t[..0];
    }
  }

  /** The order of byte strings. */
  predicate LeBytes(a: seq<byte>, b: seq<byte>) {
    a == [] || (b != [] && (a[0] < b[0] || (a[0] == b[0] && LeBytes(a[1..], b[1..]))))
  }

  lemma {:induction false} LeBytesSame(p: seq<byte>, a: seq<byte>, b: seq<byte>)
    ensures LeBytes(p + a, p + b) <==> LeBytes(a, b)
  {
    if p == [] {
      assert p + a == a && p + b == b;
    } else {
      assert (p + a)[1..] == p[1..] + a && (p + b)[1..] == p[1..] + b;
      LeBytesSame(p[1..], a, b);
    }
  }

  /** Where two byte strings first differ decides. */
  lemma {:induction false} LeBytesAt(a: seq<byte>, b: seq<byte>, k: nat)
    requires k < |a| && k < |b| && a[..k] == b[..k] && a[k] != b[k]
    ensures LeBytes(a, b) <==> a[k] < b[k]
  {
    if k > 0 {
      assert a[0] == a[..k][0] && b[0] == b[..k][0];
      assert a[1..][..k - 1] == a[..k][1..] && b[1..][..k - 1] == b[..k][1..];
      LeBytesAt(a[1..], b[1..], k - 1);
    }
  }

  /** The encodings of two characters differ first where the larger one has the larger byte. */
  lemma CharsDiffer(c: char, d: char) returns (k: nat)
    requires c < d
    ensures k < |EncodeChar(c)| && k < |EncodeChar(d)|
    ensures EncodeChar(c)[..k] == EncodeChar(d)[..k] && EncodeChar(c)[k] < EncodeChar(d)[k]
  {
    var p, q := EncodeChar(c), EncodeChar(d);
    EncodingLayout(c);
    EncodingLayout(d);
    DecodeChar(c);
    DecodeChar(d);
    if p[0] != q[0] {
      k := 0;
    } else if p[1] != q[1] {
      k := 1;
      assert p[..1] == [p[0]] && q[..1] == [q[0]];
    } else if p[2] != q[2] {
      k := 2;
      assert p[..2] == [p[0], p[1]] && q[..2] == [q[0], q[1]];
    } else {
      k := 3;
      assert p[..3] == [p[0], p[1], p[2]] && q[..3] == [q[0], q[1], q[2]];
    }
  }

  lemma CharDecides(c: char, d: char, x: seq<byte>, y: seq<byte>)
    requires c != d
    ensures LeBytes(EncodeChar(c) + x, EncodeChar(d) + y) <==> c < d
  {
    var p, q := EncodeChar(c) + x, EncodeChar(d) + y;
    var k;
    if c < d {
      k := CharsDiffer(c, d);
    } else {
      k := CharsDiffer(d, c);
    }
    assert p[..k] == EncodeChar(c)[..k] && q[..k] == EncodeChar(d)[..k];
    LeBytesAt(p, q, k);
  }

  /** Strings are ordered as their UTF-8 bytes are, which is how the client's language compares
      them. */
  lemma {:induction false} OrderOfBytes(s: string, t: string)
    ensures Le(s, t) <==> LeBytes(Utf8(s), Utf8(t))
  {
    if s != "" && t != "" {
      if s[0] == t[0] {
        LeBytesSame(EncodeChar(s[0]), Utf8(s[1..]), Utf8(t[1..]));
        OrderOfBytes(s[1..], t[1..]);
      } else {
        CharDecides(s[0], t[0], Utf8(s[1..]), Utf8(t[1..]));
      }
    }
  }

  // ---------------------------------------------------------------- trimming

  /** `char::is_whitespace`: the Unicode property White_Space. */
  predicate IsWhitespace(c: char) {
    var n := c as int;
    0x09 <= n <= 0x0D || n == 0x20 || n == 0x85 || n == 0xA0 || n == 0x1680
    || 0x2000 <= n <= 0x200A || n == 0x2028 || n == 0x2029 || n == 0x202F
    || n == 0x205F || n == 0x3000
  }

  /** The first index from `i` on that is not white space. */
  function SkipSpace(s: string, i: nat): (k: nat)
    requires i <= |s|
    ensures i <= k <= |s| && (k < |s| ==> !IsWhitespace(s[k]))
    decreases |s| - i
  {
    if i < |s| && IsWhitespace(s[i]) then SkipSpace(s, i + 1) else i
  }

  /** The end of `s[..n]` without the white space before it. */
  function DropSpace(s: string, n: nat): (k: nat)
    requires n <= |s|
    ensures k <= n && (k > 0 ==> !IsWhitespace(s[k - 1]))
  {
    if n > 0 && IsWhitespace(s[n - 1]) then DropSpace(s, n - 1) else n
  }

  function TrimStart(s: string): (t: string)
    ensures t == "" || !IsWhitespace(t[0])
  {
    s[SkipSpace(s, 0)..]
  }

  function TrimEnd(s: string): (t: string)
    ensures t == "" || !IsWhitespace(t[|t| - 1])
  {
    s[..DropSpace(s, |s|)]
  }

  function Trim(s: string): string {
    TrimEnd(TrimStart(s))
  }

  ghost predicate Blank(s: string) {
    forall i :: 0 <= i < |s| ==> IsWhitespace(s[i])
  }

  lemma {:induction false} SkipsBlank(s: string, i: nat)
    requires i <= |s|
    ensures Blank(s[i..SkipSpace(s, i)])
    decreases |s| - i
  {
    if i < |s| && IsWhitespace(s[i]) {
      SkipsBlank(s, i + 1);
      var k := SkipSpace(s, i + 1);
      assert s[i..k] == [s[i]] + s[i + 1..k];
    }
  }

  lemma {:induction false} DropsBlank(s: string, n: nat)
    requires n <= |s|
    ensures Blank(s[DropSpace(s, n)..n])
  {
    if n > 0 && IsWhitespace(s[n - 1]) {
      DropsBlank(s, n - 1);
      var k := DropSpace(s, n - 1);
      assert s[k..n] == s[k..n - 1] + [s[n - 1]];
    }
  }

  /** Trimming takes away white space at both ends, and all of it. */
  lemma TrimExact(s: string)
    ensures exists before, after :: s == before + Trim(s) + after && Blank(before) && Blank(after)
    ensures Trim(s) != "" ==> !IsWhitespace(Trim(s)[0]) && !IsWhitespace(Trim(s)[|Trim(s)| - 1])
  {
    var i := SkipSpace(s, 0);
    var t := s[i..];
    var n := DropSpace(t, |t|);
    SkipsBlank(s, 0);
    DropsBlank(t, |t|);
    assert s == s[0..i] + t[..n] + t[n..|t|];
    if n > 0 {
      assert t[..n][0] == t[0];
    }
  }

  /** Of the printing characters of ASCII only the blank is white space; of the control
      characters it is tab to carriage return. */
  lemma AsciiSpace(c: char)
    requires c < 128 as char
    ensures IsWhitespace(c) <==> c == ' ' || c == '\t' || c == '\n' || c == 11 as char || c == 12 as char || c == '\r'
  {
  }

  /** Text with no white space anywhere is left alone by `trim`. */
  lemma TrimIdentity(s: string)
    requires forall i :: 0 <= i < |s| ==> !IsWhitespace(s[i])
    ensures Trim(s) == s
  {
  }
}
