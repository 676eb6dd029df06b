/** The sign-in message (src/wallet_auth.rs), laid out as CAIP-122 has it, and a reader
    that undoes it. */
module Siws {
  import opened Text
  import opened Lines

  datatype Claims = Claims(domain: string, pubkey: string, statement: string, nonce: string, issuedAt: string,
      chainId: string)

  const GREETING := " wants you to sign in with your Solana account:"
  const URI := "URI: https://"
  const VERSION := "Version: 1"
  const CHAIN := "Chain ID: "
  const NONCE := "Nonce: "
  const ISSUED := "Issued At: "

  /** `build_siws_message` */
  function Build(c: Claims): string {
    (c.domain + GREETING) + "\n" +
    c.pubkey + "\n" +
    "\n" +
    c.statement + "\n" +
    "\n" +
    (URI + c.domain) + "\n" +
    VERSION + "\n" +
    (CHAIN + c.chainId) + "\n" +
    (NONCE + c.nonce) + "\n" +
    (ISSUED + c.issuedAt)
  }

  /** What follows `prefix`, if the line starts with it. */
  function After(line: string, prefix: string): (rest: Option<string>)
    ensures rest.Some? <==> prefix <= line
    ensures rest.Some? ==> line == prefix + rest.value
  {
    if prefix <= line then Some(line[|prefix|..]) else None
  }

  /** What comes before `suffix`, if the line ends with it. */
  function Before(line: string, suffix: string): (rest: Option<string>)
    ensures rest.Some? ==> line == rest.value + suffix
  {
    var n := |line| - |suffix|;
    if n >= 0 && line[n..] == suffix then Some(line[..n]) else None
  }

  /** Reads the lines of a message; both places that name the domain have to agree. */
  function ParseLines(ls: seq<string>): Option<Claims> {
    if |ls| != 10 || ls[2] != "" || ls[4] != "" || ls[6] != VERSION then None
    else
      match (Before(ls[0], GREETING), After(ls[5], URI), After(ls[7], CHAIN), After(ls[8], NONCE), After(ls[9], ISSUED))
      case (Some(domain), Some(uriDomain), Some(chainId), Some(nonce), Some(issuedAt)) =>
        if domain == uriDomain then Some(Claims(domain, ls[1], ls[3], nonce, issuedAt, chainId)) else None
      case _ => None
  }

  function Parse(text: string): Option<Claims> {
    ParseLines(Split(text))
  }

  function LinesOf(c: Claims): seq<string> {
    [c.domain + " wants you to sign in with your Solana account:", c.pubkey, "", c.statement, "",
     "URI: https://" + c.domain, "Version: 1", "Chain ID: " + c.chainId, "Nonce: " + c.nonce,
     "Issued At: " + c.issuedAt]
  }

  predicate Plain(c: Claims) {
    && NoNewline(c.domain) && NoNewline(c.pubkey) && NoNewline(c.statement)
    && NoNewline(c.nonce) && NoNewline(c.issuedAt) && NoNewline(c.chainId)
  }

  lemma {:induction false} JoinSnoc(ls: seq<string>, last: string)
    requires ls != []
    ensures Join(ls + [last]) == Join(ls) + "\n" + last
  {
    if |ls| == 1 {
      assert (ls + [last])[1..] == [last];
    } else {
      JoinSnoc(ls[1..], last);
      assert (ls + [last])[1..] == ls[1..] + [last];
      Reassociate(ls[0] + "\n", Join(ls[1..]), "\n", last);
    }
  }

  lemma Reassociate(a: string, b: string, c: string, d: string)
    ensures a + (b + c + d) == a + b + c + d
  {
  }

  lemma SnocTwo(ls: seq<string>, a: string, b: string, text: string)
    requires ls != [] && Join(ls) == text
    ensures Join(ls + [a, b]) == text + "\n" + a + "\n" + b
  {
    JoinSnoc(ls, a);
    JoinSnoc(ls + [a], b);
    assert ls + [a] + [b] == ls + [a, b];
  }

  lemma JoinTen(a: string, b: string, c: string, d: string, e: string, f: string, g: string, h: string, i: string,
      j: string)
    ensures Join([a, b, c, d, e, f, g, h, i, j])
            == a + "\n" + b + "\n" + c + "\n" + d + "\n" + e + "\n" + f + "\n" + g + "\n" + h + "\n" + i + "\n" + j
  {
    var t2 := a + "\n" + b;
    var t4 := t2 + "\n" + c + "\n" + d;
    var t6 := t4 + "\n" + e + "\n" + f;
    var t8 := t6 + "\n" + g + "\n" + h;
    JoinSnoc([a], b);
    assert [a] + [b] == [a, b];
    SnocTwo([a, b], c, d, t2);
    assert [a, b] + [c, d] == [a, b, c, d];
    SnocTwo([a, b, c, d], e, f, t4);
    assert [a, b, c, d] + [e, f] == [a, b, c, d, e, f];
    SnocTwo([a, b, c, d, e, f], g, h, t6);
    assert [a, b, c, d, e, f] + [g, h] == [a, b, c, d, e, f, g, h];
    SnocTwo([a, b, c, d, e, f, g, h], i, j, t8);
    assert [a, b, c, d, e, f, g, h] + [i, j] == [a, b, c, d, e, f, g, h, i, j];
  }

  lemma Blank(text: string)
    ensures text + "" == text
  {
  }

  lemma BuildIsLines(c: Claims)
    ensures Build(c) == Join(LinesOf(c))
  {
    var a, b, d, f := c.domain + GREETING, c.pubkey, c.statement, URI + c.domain;
    JoinTen(a, b, "", d, "", f, VERSION, CHAIN + c.chainId, NONCE + c.nonce, ISSUED + c.issuedAt);
    Blank(a + "\n" + b + "\n");
    Blank(a + "\n" + b + "\n" + "\n" + d + "\n");
  }

  lemma AfterPrefix(prefix: string, rest: string)
    ensures After(prefix + rest, prefix) == Some(rest)
  {
  }

  lemma BeforeSuffix(rest: string, suffix: string)
    ensures Before(rest + suffix, suffix) == Some(rest)
  {
  }

  /** Ten lines are read as the claims whose lines they are. */
  lemma ParseLinesIff(ls: seq<string>, c: Claims)
    ensures ParseLines(ls) == Some(c) <==> ls == LinesOf(c)
  {
    if ls == LinesOf(c) {
      BeforeSuffix(c.domain, GREETING);
      AfterPrefix(URI, c.domain);
      AfterPrefix(CHAIN, c.chainId);
      AfterPrefix(NONCE, c.nonce);
      AfterPrefix(ISSUED, c.issuedAt);
    }
  }

  lemma AroundNoNewline(a: string, b: string)
    ensures NoNewline(a + b) <==> NoNewline(a) && NoNewline(b)
  {
    if NoNewline(a + b) {
      assert forall i :: 0 <= i < |a| ==> a[i] == (a + b)[i];
      assert forall i :: 0 <= i < |b| ==> b[i] == (a + b)[|a| + i];
    }
  }

  lemma GreetingParts()
    ensures GREETING == " wants you to sign" + " in with your" + " Solana account:"
  {
  }

  lemma GreetingPlain()
    ensures NoNewline(GREETING)
  {
    var a, b, c := " wants you to sign", " in with your", " Solana account:";
    assert NoNewline(a) && NoNewline(b) && NoNewline(c);
    AroundNoNewline(a, b);
    AroundNoNewline(a + b, c);
    GreetingParts();
  }

  lemma ConstantsPlain()
    ensures NoNewline(GREETING) && NoNewline(URI) && NoNewline(VERSION) && NoNewline(CHAIN) && NoNewline(NONCE)
            && NoNewline(ISSUED)
  {
    GreetingPlain();
  }

  lemma PlainLines(c: Claims)
    ensures AllNoNewline(LinesOf(c)) <==> Plain(c)
  {
    AroundNoNewline(c.domain, GREETING);
    AroundNoNewline(URI, c.domain);
    AroundNoNewline(CHAIN, c.chainId);
    AroundNoNewline(NONCE, c.nonce);
    AroundNoNewline(ISSUED, c.issuedAt);
    ConstantsPlain();
    var ls := LinesOf(c);
    assert AllNoNewline(ls) <==>
           && NoNewline(ls[0]) && NoNewline(ls[1]) && NoNewline(ls[3]) && NoNewline(ls[5])
           && NoNewline(ls[7]) && NoNewline(ls[8]) && NoNewline(ls[9]);
  }

  /** The reader accepts exactly the messages of claims without line feeds, and gives the
      claims back. */
  lemma ParseIffBuild(text: string, c: Claims)
    ensures Parse(text) == Some(c) <==> Plain(c) && text == Build(c)
  {
    ParseLinesIff(Split(text), c);
    BuildIsLines(c);
    PlainLines(c);
    if Parse(text) == Some(c) {
      SplitNoNewline(text);
      JoinSplit(text);
    }
    if Plain(c) && text == Build(c) {
      SplitJoin(LinesOf(c));
    }
  }

  function Newlines(s: string): nat {
    if s == "" then 0 else (if s[0] == '\n' then 1 else 0) + Newlines(s[1..])
  }

  lemma {:induction false} NewlinesConcat(s: string, t: string)
    ensures Newlines(s + t) == Newlines(s) + Newlines(t)
  {
    if s == "" {
      assert s + t == t;
    } else {
      assert (s + t)[1..] == s[1..] + t;
      NewlinesConcat(s[1..], t);
    }
  }

  lemma {:induction false} NewlinesZero(s: string)
    ensures Newlines(s) == 0 <==> NoNewline(s)
  {
    if s != "" {
      NewlinesZero(s[1..]);
      assert NoNewline(s) <==> s[0] != '\n' && NoNewline(s[1..]) by {
        AroundNoNewline([s[0]], s[1..]);
        assert s == [s[0]] + s[1..];
      }
    }
  }

  lemma {:induction false} NewlinesJoin(ls: seq<string>)
    requires ls != []
    ensures Newlines(Join(ls)) >= |ls| - 1
    ensures Newlines(Join(ls)) == |ls| - 1 <==> AllNoNewline(ls)
  {
    NewlinesZero(ls[0]);
    if |ls| > 1 {
      NewlinesJoin(ls[1..]);
      NewlinesConcat(ls[0], "\n");
      NewlinesConcat(ls[0] + "\n", Join(ls[1..]));
      assert Newlines("\n") == 1;
      assert AllNoNewline(ls) <==> NoNewline(ls[0]) && AllNoNewline(ls[1..]) by {
        assert forall i :: 1 <= i < |ls| ==> ls[i] == ls[1..][i - 1];
      }
    }
  }

  /** The signed bytes of claims without line feeds are those of no other claims, not even
      of claims with line feeds. */
  lemma PlainIsUnique(c: Claims, d: Claims)
    requires Plain(c) && Utf8(Build(c)) == Utf8(Build(d))
    ensures c == d
  {
    Utf8Injective(Build(c), Build(d));
    BuildIsLines(c);
    BuildIsLines(d);
    PlainLines(c);
    PlainLines(d);
    NewlinesJoin(LinesOf(c));
    NewlinesJoin(LinesOf(d));
    ParseIffBuild(Build(c), c);
    ParseIffBuild(Build(c), d);
  }

  /** With line feeds in the fields, different claims are signed as the same bytes. */
  lemma LineFeedCollision(c: Claims, a: string, b: string, s: string)
    ensures var d, e := c.(pubkey := a, statement := b + "\n\n" + s), c.(pubkey := a + "\n\n" + b, statement := s);
            d != e && Build(d) == Build(e)
  {
    var d, e := c.(pubkey := a, statement := b + "\n\n" + s), c.(pubkey := a + "\n\n" + b, statement := s);
    assert |d.pubkey| < |e.pubkey|;
  }
}
