/** Compact JSON text with a fixed field order, as `serde_json` writes it: string
    escaping of section 7 of RFC 8259, decimal integers, no white space. Writers are
    given what follows; readers return what is left. */
module OrderedJson {
  import opened Text
  import Hex

  datatype Item = Text(s: string) | Number(n: int) | Flag(b: bool) | Record(fields: Fields)

  datatype Fields = End | Field(key: string, value: Item, more: Fields)

  type Read<+T> = Option<(T, string)>

  // --------------------------------------------------------------------------- strings

  /** The letter after the backslash, for the characters that have a short escape. */
  function Short(c: char): Option<char> {
    var n := c as int;
    if c == '\"' || c == '\\' then Some(c)
    else if n == 8 then Some('b') else if n == 9 then Some('t') else if n == 10 then Some('n')
    else if n == 12 then Some('f') else if n == 13 then Some('r') else None
  }

  function Unshort(c: char): Option<char> {
    if c == '\"' || c == '\\' then Some(c)
    else if c == 'b' then Some(8 as char) else if c == 't' then Some(9 as char) else if c == 'n' then Some(10 as char)
    else if c == 'f' then Some(12 as char) else if c == 'r' then Some(13 as char) else None
  }

  function Escape(c: char): (e: string)
    ensures |e| >= 1 && e[0] != '\"'
  {
    if Short(c).Some? then ['\\', Short(c).value]
    else if c < ' ' then ['\\', 'u', '0', '0', Hex.HexDigit(c as int / 16), Hex.HexDigit(c as int % 16)]
    else [c]
  }

  /** The escapes: quotation mark and backslash after a backslash, five control characters by
      a letter, the others by four hexadecimal digits; everything else stands for itself. */
  lemma EscapeMeans(c: char)
    ensures c == '\"' ==> Escape(c) == "\\\""
    ensures c == '\\' ==> Escape(c) == "\\\\"
    ensures c as int == 8 ==> Escape(c) == "\\b"
    ensures c == '\t' ==> Escape(c) == "\\t"
    ensures c == '\n' ==> Escape(c) == "\\n"
    ensures c as int == 12 ==> Escape(c) == "\\f"
    ensures c == '\r' ==> Escape(c) == "\\r"
    ensures c < ' ' && c as int !in {8, 9, 10, 12, 13} ==>
              Escape(c) == "\\u00" + ["0123456789abcdef"[c as int / 16], "0123456789abcdef"[c as int % 16]]
    ensures c >= ' ' && c != '\"' && c != '\\' ==> Escape(c) == [c]
  {
    if c < ' ' {
      Hex.DigitsAre(c as int / 16);
      Hex.DigitsAre(c as int % 16);
    }
  }

  /** One character of a string, whose closing quote has not been reached. */
  function Unescape(t: string): (r: Read<char>)
    ensures r.Some? ==> |r.value.1| < |t|
  {
    if t == "" then None
    else if t[0] != '\\' then Some((t[0], t[1..]))
    else if |t| < 2 then None
    else if Unshort(t[1]).Some? then Some((Unshort(t[1]).value, t[2..]))
    else if |t| < 6 || t[1] != 'u' then None
    else
      var n := Hex.Value(t[4]) * 16 + Hex.Value(t[5]);
      if 0 <= n < 32 then Some((n as char, t[6..])) else None
  }

  lemma UnescapeEscape(c: char, rest: string)
    ensures Unescape(Escape(c) + rest) == Some((c, rest))
  {
    var t := Escape(c) + rest;
    if Short(c).Some? {
      assert t[2..] == rest;
    } else if c < ' ' {
      Hex.DigitValue(c as int / 16);
      Hex.DigitValue(c as int % 16);
      assert t[6..] == rest;
    } else {
      assert t[1..] == rest;
    }
  }

  /** The characters of a string and its closing quote. */
  function WriteChars(s: string, rest: string): string {
    if s == "" then "\"" + rest else Escape(s[0]) + WriteChars(s[1..], rest)
  }

  function ReadChars(t: string): (r: Read<string>)
    ensures r.Some? ==> |r.value.1| < |t|
    decreases |t|
  {
    if t == "" then None
    else if t[0] == '\"' then Some(("", t[1..]))
    else
      match Unescape(t)
      case None => None
      case Some((c, t1)) =>
        match ReadChars(t1)
        case None => None
        case Some((s, t2)) => Some(([c] + s, t2))
  }

  lemma {:induction false} ReadWriteChars(s: string, rest: string)
    ensures ReadChars(WriteChars(s, rest)) == Some((s, rest))
  {
    if s != "" {
      UnescapeEscape(s[0], WriteChars(s[1..], rest));
      ReadWriteChars(s[1..], rest);
      assert s == [s[0]] + s[1..];
    }
  }

  // --------------------------------------------------------------------------- numbers

  predicate IsDigit(c: char) {
    '0' <= c <= '9'
  }

  predicate NoDigitNext(t: string) {
    t == "" || !IsDigit(t[0])
  }

  function DigitChar(d: int): (c: char)
    requires 0 <= d < 10
    ensures IsDigit(c) && c as int - '0' as int == d
  {
    ('0' as int + d) as char
  }

  function Decimal(n: nat): (ds: string)
    ensures |ds| >= 1 && forall i :: 0 <= i < |ds| ==> IsDigit(ds[i])
  {
    if n < 10 then [DigitChar(n)] else Decimal(n / 10) + [DigitChar(n % 10)]
  }

  /** Decimal digits without leading zeros. */
  lemma {:induction false} DecimalShortest(n: nat)
    ensures n == 0 ==> Decimal(n) == "0"
    ensures n > 0 ==> Decimal(n)[0] != '0'
  {
    if n >= 10 {
      DecimalShortest(n / 10);
    }
  }

  /** The number that the first `k` digits stand for. */
  function ValueOf(t: string, k: nat): int
    requires k <= |t|
  {
    if k == 0 then 0 else ValueOf(t, k - 1) * 10 + (t[k - 1] as int - '0' as int)
  }

  lemma {:induction false} ValueOfDecimal(n: nat, rest: string)
    ensures ValueOf(Decimal(n) + rest, |Decimal(n)|) == n
  {
    var t := Decimal(n) + rest;
    if n < 10 {
      assert t[0] == DigitChar(n) && ValueOf(t, 0) == 0;
    } else {
      var ds, last := Decimal(n / 10), DigitChar(n % 10);
      ValueOfDecimal(n / 10, [last] + rest);
      assert t == ds + ([last] + rest);
      assert t[|ds|] == last;
    }
  }

  /** The first index from `i` on that is not a digit. */
  function DigitsEnd(t: string, i: nat): (k: nat)
    requires i <= |t|
    ensures i <= k <= |t| && (k < |t| ==> !IsDigit(t[k])) && forall j :: i <= j < k ==> IsDigit(t[j])
    decreases |t| - i
  {
    if i < |t| && IsDigit(t[i]) then DigitsEnd(t, i + 1) else i
  }

  function WriteNumber(n: int, rest: string): string {
    if n < 0 then "-" + (Decimal(-n) + rest) else Decimal(n) + rest
  }

  function ReadDigits(t: string): (r: Read<int>)
    ensures r.Some? ==> |r.value.1| < |t|
  {
    var k := DigitsEnd(t, 0);
    if k == 0 then None else Some((ValueOf(t, k), t[k..]))
  }

  function ReadNumber(t: string): (r: Read<int>)
    ensures r.Some? ==> |r.value.1| < |t|
  {
    if t != "" && t[0] == '-' then
      match ReadDigits(t[1..])
      case None => None
      case Some((n, t1)) => Some((-n, t1))
    else ReadDigits(t)
  }

  lemma ReadWriteDigits(n: nat, rest: string)
    requires NoDigitNext(rest)
    ensures ReadDigits(Decimal(n) + rest) == Some((n as int, rest))
  {
    var ds, t := Decimal(n), Decimal(n) + rest;
    assert t[|ds|..] == rest;
    assert forall i :: 0 <= i < |ds| ==> t[i] == ds[i];
    assert DigitsEnd(t, 0) == |ds|;
    ValueOfDecimal(n, rest);
  }

  lemma ReadWriteNumber(n: int, rest: string)
    requires NoDigitNext(rest)
    ensures ReadNumber(WriteNumber(n, rest)) == Some((n, rest))
    ensures WriteNumber(n, rest) != "" && (WriteNumber(n, rest)[0] == '-' || IsDigit(WriteNumber(n, rest)[0]))
  {
    var t := WriteNumber(n, rest);
    if n < 0 {
      ReadWriteDigits(-n, rest);
      assert t[0] == '-' && t[1..] == Decimal(-n) + rest;
    } else {
      ReadWriteDigits(n, rest);
      assert t[0] == Decimal(n)[0];
    }
  }

  // ------------------------------------------------------------------ items and records

  function Write(v: Item, rest: string): string
    decreases v
  {
    match v
    case Text(s) => "\"" + WriteChars(s, rest)
    case Number(n) => WriteNumber(n, rest)
    case Flag(b) => (if b then "true" else "false") + rest
    case Record(fields) => "{" + WriteFields(fields, true, rest)
  }

  function WriteFields(fs: Fields, first: bool, rest: string): string
    decreases fs
  {
    match fs
    case End => "}" + rest
    case Field(key, value, more) =>
      (if first then "" else ",") + "\"" + WriteChars(key, ":" + Write(value, WriteFields(more, false, rest)))
  }

  function ReadItem(t: string): (r: Read<Item>)
    ensures r.Some? ==> |r.value.1| < |t|
    decreases |t|, 0
  {
    if t == "" then None
    else if t[0] == '\"' then
      match ReadChars(t[1..])
      case None => None
      case Some((s, t1)) => Some((Text(s), t1))
    else if t[0] == '{' then
      match ReadFields(t[1..], true)
      case None => None
      case Some((fs, t1)) => Some((Record(fs), t1))
    else if "true" <= t then Some((Flag(true), t[4..]))
    else if "false" <= t then Some((Flag(false), t[5..]))
    else
      match ReadNumber(t)
      case None => None
      case Some((n, t1)) => Some((Number(n), t1))
  }

  function ReadFields(t: string, first: bool): (r: Read<Fields>)
    ensures r.Some? ==> |r.value.1| < |t|
    decreases |t|, 1
  {
    if t == "" then None
    else if t[0] == '}' then Some((End, t[1..]))
    else
      var t0 := if first then t else t[1..];
      if (!first && t[0] != ',') || t0 == "" || t0[0] != '\"' then None
      else
        match ReadChars(t0[1..])
        case None => None
        case Some((key, t1)) =>
          if t1 == "" || t1[0] != ':' then None
          else
            match ReadItem(t1[1..])
            case None => None
            case Some((value, t2)) =>
              match ReadFields(t2, false)
              case None => None
              case Some((more, t3)) => Some((Field(key, value, more), t3))
  }

  /** A string in quotation marks. */
  function Quoted(s: string): string {
    WriteChars(s, "")
  }

  lemma {:induction false} CharsAppend(s: string, rest: string)
    ensures WriteChars(s, rest) == Quoted(s) + rest
  {
    if s != "" {
      CharsAppend(s[1..], rest);
      assert Escape(s[0]) + (Quoted(s[1..]) + rest) == Escape(s[0]) + Quoted(s[1..]) + rest;
    }
  }

  /** Characters that need no escape are written as they are. */
  lemma {:induction false} PlainChars(s: string)
    requires forall i :: 0 <= i < |s| ==> s[i] >= ' ' && s[i] != '\"' && s[i] != '\\'
    ensures Quoted(s) == s + "\""
  {
    if s != "" {
      PlainChars(s[1..]);
      assert s == [s[0]] + s[1..];
    }
  }

  /** The punctuation around a key and its value, and none besides it. */
  lemma FieldLayout(key: string, value: Item, more: Fields, first: bool, rest: string)
    ensures WriteFields(Field(key, value, more), first, rest)
            == (if first then "" else ",") + "\"" + (Quoted(key) + (":" + Write(value, WriteFields(more, false, rest))))
  {
    CharsAppend(key, ":" + Write(value, WriteFields(more, false, rest)));
  }

  lemma ItemLayout(fields: Fields, s: string, rest: string)
    ensures Write(Record(fields), rest) == "{" + WriteFields(fields, true, rest)
    ensures WriteFields(End, true, rest) == "}" + rest && WriteFields(End, false, rest) == "}" + rest
    ensures Write(Text(s), rest) == "\"" + (Quoted(s) + rest)
    ensures Write(Flag(true), rest) == "true" + rest && Write(Flag(false), rest) == "false" + rest
  {
    CharsAppend(s, rest);
  }

  lemma WriteFieldsStart(fs: Fields, rest: string)
    ensures NoDigitNext(WriteFields(fs, false, rest))
  {
  }

  /** Reading gives back what was written, and leaves what followed it. */
  lemma {:induction false} ReadWrite(v: Item, rest: string)
    requires NoDigitNext(rest)
    ensures ReadItem(Write(v, rest)) == Some((v, rest))
    decreases v
  {
    var t := Write(v, rest);
    match v
    case Text(s) =>
      ReadWriteChars(s, rest);
      assert t[1..] == WriteChars(s, rest);
    case Number(n) =>
      ReadWriteNumber(n, rest);
    case Flag(b) =>
      if b { assert t[4..] == rest; } else { assert t[0] == 'f' && t[5..] == rest; }
    case Record(fields) =>
      ReadWriteFields(fields, true, rest);
      assert t[1..] == WriteFields(fields, true, rest);
  }

  lemma {:induction false} ReadWriteFields(fs: Fields, first: bool, rest: string)
    requires NoDigitNext(rest)
    ensures ReadFields(WriteFields(fs, first, rest), first) == Some((fs, rest))
    decreases fs
  {
    var t := WriteFields(fs, first, rest);
    match fs
    case End =>
      assert t[1..] == rest;
    case Field(key, value, more) =>
      var tail := WriteFields(more, false, rest);
      WriteFieldsStart(more, rest);
      ReadWriteFields(more, false, rest);
      ReadWrite(value, tail);
      ReadWriteChars(key, ":" + Write(value, tail));
      var t0 := if first then t else t[1..];
      assert t0[1..] == WriteChars(key, ":" + Write(value, tail));
      assert (":" + Write(value, tail))[1..] == Write(value, tail);
  }

  /** Different items have different bytes. */
  lemma BytesInjective(v: Item, w: Item)
    requires Utf8(Write(v, "")) == Utf8(Write(w, ""))
    ensures v == w
  {
    Utf8Injective(Write(v, ""), Write(w, ""));
    ReadWrite(v, "");
    ReadWrite(w, "");
  }
}
