/** The legacy Solana transaction format: compact-u16 length prefixes around
    fixed-size fields. Every decoder returns what it read and what is left; every
    encoder is given what follows it. */
module Wire {
  import opened Text
  import opened Sequences

  type Read<+T> = Option<(T, seq<byte>)>

  // --------------------------------------------------------------------- fixed fields

  function DecBytes(bs: seq<byte>, n: nat): Read<seq<byte>> {
    if |bs| < n then None else Some((bs[..n], bs[n..]))
  }

  lemma DecBytesIff(bs: seq<byte>, n: nat, x: seq<byte>, rest: seq<byte>)
    ensures DecBytes(bs, n) == Some((x, rest)) <==> |x| == n && bs == x + rest
  {
    if DecBytes(bs, n) == Some((x, rest)) {
      assert bs == bs[..n] + bs[n..];
    }
    if |x| == n && bs == x + rest {
      assert bs[..n] == x && bs[n..] == rest;
    }
  }

  // ---------------------------------------------------------------------- compact-u16

  /** Lengths of more than 16 bits, which no decoded transaction has, are not told apart. */
  function LenBytes(n: nat): seq<byte> {
    if n < 128 then [n]
    else if n < 16384 then [n % 128 + 128, n / 128]
    else [n % 128 + 128, n / 128 % 128 + 128, n / 16384 % 256]
  }

  function EncLen(n: nat, rest: seq<byte>): seq<byte> {
    LenBytes(n) + rest
  }

  /** At most three bytes; a final zero byte, a fourth byte and values over 16 bits are
      refused. */
  function DecLen(bs: seq<byte>): Read<nat> {
    if |bs| < 1 then None
    else if bs[0] < 128 then Some((bs[0] as nat, bs[1..]))
    else if |bs| < 2 || bs[1] == 0 then None
    else if bs[1] < 128 then Some((bs[0] as int - 128 + bs[1] as int * 128, bs[2..]))
    else if |bs| < 3 || bs[2] == 0 || bs[2] >= 128 then None
    else
      var n := bs[0] as int - 128 + (bs[1] as int - 128) * 128 + bs[2] as int * 16384;
      if n < 65536 then Some((n, bs[3..])) else None
  }

  lemma DecLenIff(bs: seq<byte>, n: nat, rest: seq<byte>)
    ensures DecLen(bs) == Some((n, rest)) <==> n < 65536 && bs == EncLen(n, rest)
  {
    if n < 65536 && bs == EncLen(n, rest) {
      assert n == n % 128 + n / 128 * 128 && n / 128 == n / 128 % 128 + n / 16384 * 128;
      if n < 128 {
        assert bs[1..] == rest;
      } else if n < 16384 {
        assert bs[0] == n % 128 + 128 && bs[1] == n / 128 && bs[2..] == rest;
      } else {
        assert bs[0] == n % 128 + 128 && bs[1] == n / 128 % 128 + 128 && bs[2] == n / 16384 && bs[3..] == rest;
      }
    }
    if DecLen(bs) == Some((n, rest)) {
      if bs[0] < 128 {
        assert bs == [bs[0]] + bs[1..];
      } else if bs[1] < 128 {
        assert n / 128 == bs[1] && n % 128 == bs[0] as int - 128;
        assert bs == [bs[0], bs[1]] + bs[2..];
      } else {
        assert n / 16384 == bs[2] && n / 128 % 128 == bs[1] as int - 128 && n % 128 == bs[0] as int - 128;
        assert bs == [bs[0], bs[1], bs[2]] + bs[3..];
      }
    }
  }

  // ---------------------------------------------------------------------------- vectors

  /** `dec` reads exactly what `enc` writes, for good values. */
  ghost predicate Inverse<T(!new)>(dec: seq<byte> -> Read<T>, enc: (T, seq<byte>) -> seq<byte>, good: T -> bool) {
    forall bs, x, rest :: dec(bs) == Some((x, rest)) <==> good(x) && bs == enc(x, rest)
  }

  predicate All<T>(xs: seq<T>, good: T -> bool) {
    forall i :: 0 <= i < |xs| ==> good(xs[i])
  }

  function EncMany<T>(xs: seq<T>, enc: (T, seq<byte>) -> seq<byte>, rest: seq<byte>): seq<byte> {
    if xs == [] then rest else enc(xs[0], EncMany(xs[1..], enc, rest))
  }

  function DecMany<T>(bs: seq<byte>, count: nat, dec: seq<byte> -> Read<T>): Read<seq<T>>
    decreases count
  {
    if count == 0 then Some(([], bs)) else
      match dec(bs)
      case None => None
      case Some((x, bs1)) =>
        match DecMany(bs1, count - 1, dec)
        case None => None
        case Some((xs, bs2)) => Some(([x] + xs, bs2))
  }

  lemma {:induction false} DecManyIff<T(!new)>(bs: seq<byte>, count: nat, dec: seq<byte> -> Read<T>,
      enc: (T, seq<byte>) -> seq<byte>, good: T -> bool, xs: seq<T>, rest: seq<byte>)
    requires Inverse(dec, enc, good)
    ensures DecMany(bs, count, dec) == Some((xs, rest))
            <==> |xs| == count && All(xs, good) && bs == EncMany(xs, enc, rest)
    decreases count
  {
    if count > 0 {
      if DecMany(bs, count, dec) == Some((xs, rest)) {
        var (x, bs1) := dec(bs).value;
        assert xs == [x] + xs[1..];
        DecManyIff(bs1, count - 1, dec, enc, good, xs[1..], rest);
        assert bs == enc(x, bs1);
        assert forall i :: 1 <= i < |xs| ==> xs[i] == xs[1..][i - 1];
      }
      if |xs| == count && All(xs, good) && bs == EncMany(xs, enc, rest) {
        var bs1 := EncMany(xs[1..], enc, rest);
        assert dec(bs) == Some((xs[0], bs1));
        DecManyIff(bs1, count - 1, dec, enc, good, xs[1..], rest);
        assert xs == [xs[0]] + xs[1..];
      }
    }
  }

  function EncVec<T>(xs: seq<T>, enc: (T, seq<byte>) -> seq<byte>, rest: seq<byte>): seq<byte> {
    EncLen(|xs|, EncMany(xs, enc, rest))
  }

  function DecVec<T>(bs: seq<byte>, dec: seq<byte> -> Read<T>): Read<seq<T>> {
    match DecLen(bs)
    case None => None
    case Some((n, bs1)) => DecMany(bs1, n, dec)
  }

  lemma DecVecIff<T(!new)>(bs: seq<byte>, dec: seq<byte> -> Read<T>, enc: (T, seq<byte>) -> seq<byte>, good: T -> bool,
      xs: seq<T>, rest: seq<byte>)
    requires Inverse(dec, enc, good)
    ensures DecVec(bs, dec) == Some((xs, rest)) <==> |xs| < 65536 && All(xs, good) && bs == EncVec(xs, enc, rest)
  {
    if DecLen(bs).Some? {
      var (n, bs1) := DecLen(bs).value;
      DecLenIff(bs, n, bs1);
      DecManyIff(bs1, n, dec, enc, good, xs, rest);
    }
    if |xs| < 65536 && All(xs, good) && bs == EncVec(xs, enc, rest) {
      var bs1 := EncMany(xs, enc, rest);
      DecLenIff(bs, |xs|, bs1);
      DecManyIff(bs1, |xs|, dec, enc, good, xs, rest);
    }
  }

  // ------------------------------------------------------------------ strings of bytes

  function EncBlob(x: seq<byte>, rest: seq<byte>): seq<byte> {
    EncLen(|x|, x + rest)
  }

  function DecBlob(bs: seq<byte>): Read<seq<byte>> {
    match DecLen(bs)
    case None => None
    case Some((n, bs1)) => DecBytes(bs1, n)
  }

  lemma DecBlobIff(bs: seq<byte>, x: seq<byte>, rest: seq<byte>)
    ensures DecBlob(bs) == Some((x, rest)) <==> |x| < 65536 && bs == EncBlob(x, rest)
  {
    if DecLen(bs).Some? {
      var (n, bs1) := DecLen(bs).value;
      DecLenIff(bs, n, bs1);
      DecBytesIff(bs1, n, x, rest);
    }
    if |x| < 65536 && bs == EncBlob(x, rest) {
      DecLenIff(bs, |x|, x + rest);
      DecBytesIff(x + rest, |x|, x, rest);
    }
  }

  // ---------------------------------------------------------------------- instructions

  datatype Instruction = Instruction(program: byte, accounts: seq<byte>, data: seq<byte>)

  predicate GoodInstruction(ix: Instruction) {
    |ix.accounts| < 65536 && |ix.data| < 65536
  }

  function EncInstruction(ix: Instruction, rest: seq<byte>): seq<byte> {
    [ix.program] + EncBlob(ix.accounts, EncBlob(ix.data, rest))
  }

  function DecInstruction(bs: seq<byte>): Read<Instruction> {
    match DecBytes(bs, 1)
    case None => None
    case Some((program, bs1)) =>
      match DecBlob(bs1)
      case None => None
      case Some((accounts, bs2)) =>
        match DecBlob(bs2)
        case None => None
        case Some((data, bs3)) => Some((Instruction(program[0], accounts, data), bs3))
  }

  lemma DecInstructionIff(bs: seq<byte>, ix: Instruction, rest: seq<byte>)
    ensures DecInstruction(bs) == Some((ix, rest)) <==> GoodInstruction(ix) && bs == EncInstruction(ix, rest)
  {
    if DecInstruction(bs) == Some((ix, rest)) {
      var (program, bs1) := DecBytes(bs, 1).value;
      var (accounts, bs2) := DecBlob(bs1).value;
      DecBytesIff(bs, 1, program, bs1);
      DecBlobIff(bs1, accounts, bs2);
      DecBlobIff(bs2, ix.data, rest);
      assert program == [ix.program];
    }
    if GoodInstruction(ix) && bs == EncInstruction(ix, rest) {
      var bs2 := EncBlob(ix.data, rest);
      var bs1 := EncBlob(ix.accounts, bs2);
      DecBytesIff(bs, 1, [ix.program], bs1);
      DecBlobIff(bs1, ix.accounts, bs2);
      DecBlobIff(bs2, ix.data, rest);
    }
  }

  // ------------------------------------------- what the vectors of a transaction hold

  function EncItem(x: seq<byte>, rest: seq<byte>): seq<byte> {
    x + rest
  }

  predicate IsKey(x: seq<byte>) {
    |x| == 32
  }

  function DecKey(bs: seq<byte>): Read<seq<byte>> {
    DecBytes(bs, 32)
  }

  predicate IsSignature(x: seq<byte>) {
    |x| == 64
  }

  function DecSignature(bs: seq<byte>): Read<seq<byte>> {
    DecBytes(bs, 64)
  }

  lemma KeysInverse()
    ensures Inverse(DecKey, EncItem, IsKey)
  {
    forall bs, x, rest ensures DecKey(bs) == Some((x, rest)) <==> IsKey(x) && bs == EncItem(x, rest) {
      DecBytesIff(bs, 32, x, rest);
    }
  }

  lemma SignaturesInverse()
    ensures Inverse(DecSignature, EncItem, IsSignature)
  {
    forall bs, x, rest ensures DecSignature(bs) == Some((x, rest)) <==> IsSignature(x) && bs == EncItem(x, rest) {
      DecBytesIff(bs, 64, x, rest);
    }
  }

  lemma InstructionsInverse()
    ensures Inverse(DecInstruction, EncInstruction, GoodInstruction)
  {
    forall bs, x, rest ensures DecInstruction(bs) == Some((x, rest))
        <==> GoodInstruction(x) && bs == EncInstruction(x, rest) {
      DecInstructionIff(bs, x, rest);
    }
  }

  // -------------------------------------------------------------- message and transaction

  datatype Message = Message(header: seq<byte>, keys: seq<seq<byte>>, blockhash: seq<byte>,
      instructions: seq<Instruction>)

  datatype Transaction = Transaction(signatures: seq<seq<byte>>, message: Message)

  predicate GoodMessage(m: Message) {
    && |m.header| == 3 && |m.blockhash| == 32
    && |m.keys| < 65536 && All(m.keys, IsKey)
    && |m.instructions| < 65536 && All(m.instructions, GoodInstruction)
  }

  predicate GoodTransaction(tx: Transaction) {
    |tx.signatures| < 65536 && All(tx.signatures, IsSignature) && GoodMessage(tx.message)
  }

  function EncMessage(m: Message, rest: seq<byte>): seq<byte> {
    m.header + EncVec(m.keys, EncItem, m.blockhash + EncVec(m.instructions, EncInstruction, rest))
  }

  function DecMessage(bs: seq<byte>): Read<Message> {
    match DecBytes(bs, 3)
    case None => None
    case Some((header, bs1)) =>
      match DecVec(bs1, DecKey)
      case None => None
      case Some((keys, bs2)) =>
        match DecBytes(bs2, 32)
        case None => None
        case Some((blockhash, bs3)) =>
          match DecVec(bs3, DecInstruction)
          case None => None
          case Some((ixs, bs4)) => Some((Message(header, keys, blockhash, ixs), bs4))
  }

  lemma DecMessageIff(bs: seq<byte>, m: Message, rest: seq<byte>)
    ensures DecMessage(bs) == Some((m, rest)) <==> GoodMessage(m) && bs == EncMessage(m, rest)
  {
    KeysInverse();
    InstructionsInverse();
    if DecMessage(bs) == Some((m, rest)) {
      var (header, bs1) := DecBytes(bs, 3).value;
      var (keys, bs2) := DecVec(bs1, DecKey).value;
      var (blockhash, bs3) := DecBytes(bs2, 32).value;
      DecBytesIff(bs, 3, header, bs1);
      DecVecIff(bs1, DecKey, EncItem, IsKey, keys, bs2);
      DecBytesIff(bs2, 32, blockhash, bs3);
      DecVecIff(bs3, DecInstruction, EncInstruction, GoodInstruction, m.instructions, rest);
    }
    if GoodMessage(m) && bs == EncMessage(m, rest) {
      var bs3 := EncVec(m.instructions, EncInstruction, rest);
      var bs2 := m.blockhash + bs3;
      var bs1 := EncVec(m.keys, EncItem, bs2);
      DecBytesIff(bs, 3, m.header, bs1);
      DecVecIff(bs1, DecKey, EncItem, IsKey, m.keys, bs2);
      DecBytesIff(bs2, 32, m.blockhash, bs3);
      DecVecIff(bs3, DecInstruction, EncInstruction, GoodInstruction, m.instructions, rest);
    }
  }

  function EncTransaction(tx: Transaction, rest: seq<byte>): seq<byte> {
    EncVec(tx.signatures, EncItem, EncMessage(tx.message, rest))
  }

  function DecTransaction(bs: seq<byte>): Read<Transaction> {
    match DecVec(bs, DecSignature)
    case None => None
    case Some((signatures, bs1)) =>
      match DecMessage(bs1)
      case None => None
      case Some((message, bs2)) => Some((Transaction(signatures, message), bs2))
  }

  /** The format is canonical: bytes decode to a transaction exactly when they are its
      encoding, followed by whatever is left. */
  lemma DecTransactionIff(bs: seq<byte>, tx: Transaction, rest: seq<byte>)
    ensures DecTransaction(bs) == Some((tx, rest)) <==> GoodTransaction(tx) && bs == EncTransaction(tx, rest)
  {
    SignaturesInverse();
    if DecTransaction(bs) == Some((tx, rest)) {
      var (signatures, bs1) := DecVec(bs, DecSignature).value;
      DecVecIff(bs, DecSignature, EncItem, IsSignature, signatures, bs1);
      DecMessageIff(bs1, tx.message, rest);
    }
    if GoodTransaction(tx) && bs == EncTransaction(tx, rest) {
      var bs1 := EncMessage(tx.message, rest);
      DecVecIff(bs, DecSignature, EncItem, IsSignature, tx.signatures, bs1);
      DecMessageIff(bs1, tx.message, rest);
    }
  }

  // --------------------------------------------- encoding before something, and alone

  /** What `enc` writes does not depend on what follows. */
  ghost predicate Appends<T(!new)>(enc: (T, seq<byte>) -> seq<byte>) {
    forall x, y, rest :: enc(x, y + rest) == enc(x, y) + rest
  }

  lemma EncLenAppend(n: nat, x: seq<byte>, rest: seq<byte>)
    ensures EncLen(n, x + rest) == EncLen(n, x) + rest
  {
    Assoc(LenBytes(n), x, rest);
  }

  lemma {:induction false} EncManyAppend<T(!new)>(xs: seq<T>, enc: (T, seq<byte>) -> seq<byte>, y: seq<byte>,
      rest: seq<byte>)
    requires Appends(enc)
    ensures EncMany(xs, enc, y + rest) == EncMany(xs, enc, y) + rest
  {
    if xs != [] {
      EncManyAppend(xs[1..], enc, y, rest);
    }
  }

  lemma EncVecAppend<T(!new)>(xs: seq<T>, enc: (T, seq<byte>) -> seq<byte>, y: seq<byte>, rest: seq<byte>)
    requires Appends(enc)
    ensures EncVec(xs, enc, y + rest) == EncVec(xs, enc, y) + rest
  {
    EncManyAppend(xs, enc, y, rest);
    EncLenAppend(|xs|, EncMany(xs, enc, y), rest);
  }

  lemma EncBlobAppend(b: seq<byte>, x: seq<byte>, rest: seq<byte>)
    ensures EncBlob(b, x + rest) == EncBlob(b, x) + rest
  {
    assert b + (x + rest) == (b + x) + rest;
    EncLenAppend(|b|, b + x, rest);
  }

  lemma InstructionsAppend()
    ensures Appends(EncInstruction)
  {
    forall ix, y, rest ensures EncInstruction(ix, y + rest) == EncInstruction(ix, y) + rest {
      EncBlobAppend(ix.data, y, rest);
      EncBlobAppend(ix.accounts, EncBlob(ix.data, y), rest);
    }
  }

  lemma ItemsAppend()
    ensures Appends(EncItem)
  {
    forall x, y, rest ensures EncItem(x, y + rest) == EncItem(x, y) + rest {
      assert x + (y + rest) == x + y + rest;
    }
  }

  lemma EncMessageAppend(m: Message, rest: seq<byte>)
    ensures EncMessage(m, rest) == EncMessage(m, []) + rest
  {
    InstructionsAppend();
    ItemsAppend();
    assert [] + rest == rest;
    EncVecAppend(m.instructions, EncInstruction, [], rest);
    var ixs := EncVec(m.instructions, EncInstruction, []);
    assert m.blockhash + (ixs + rest) == (m.blockhash + ixs) + rest;
    EncVecAppend(m.keys, EncItem, m.blockhash + ixs, rest);
    var keys := EncVec(m.keys, EncItem, m.blockhash + ixs);
    assert m.header + (keys + rest) == (m.header + keys) + rest;
  }

  // ------------------------------------------------------------------ the bytes in full

  /** The number that seven-bit groups stand for, the least significant first. */
  function GroupValue(bs: seq<byte>): nat {
    if bs == [] then 0 else bs[0] as int % 128 + 128 * GroupValue(bs[1..])
  }

  lemma OneGroup(b: byte)
    ensures GroupValue([b]) == b % 128
  {
    assert [b][1..] == [];
  }

  lemma TwoGroups(b: byte, c: byte)
    ensures GroupValue([b, c]) == b as int % 128 + 128 * (c as int % 128)
  {
    assert [b, c][1..] == [c];
    OneGroup(c);
  }

  lemma ThreeGroups(b: byte, c: byte, d: byte)
    ensures GroupValue([b, c, d]) == b as int % 128 + 128 * (c as int % 128 + 128 * (d as int % 128))
  {
    assert [b, c, d][1..] == [c, d];
    TwoGroups(c, d);
  }

  lemma Upwards(n: nat)
    ensures n == n % 128 + 128 * (n / 128 % 128 + 128 * (n / 16384))
  {
    assert n / 128 == n / 128 % 128 + n / 16384 * 128;
  }

  lemma LongValue(n: nat)
    requires 16384 <= n < 65536
    ensures GroupValue(LenBytes(n)) == n
  {
    ThreeGroups(n % 128 + 128, n / 128 % 128 + 128, n / 16384);
    Upwards(n);
  }

  /** A length is its value in groups of seven bits. */
  lemma LenBytesValue(n: nat)
    requires n < 65536
    ensures GroupValue(LenBytes(n)) == n
  {
    if n < 128 {
      OneGroup(n);
    } else if n < 16384 {
      TwoGroups(n % 128 + 128, n / 128);
    } else {
      LongValue(n);
    }
  }

  /** Each group but the last is marked by its upper bit, and there are as few as possible. */
  lemma LenBytesShape(n: nat)
    requires n < 65536
    ensures var bs := LenBytes(n);
            && 1 <= |bs| <= 3
            && (forall i :: 0 <= i < |bs| ==> (bs[i] < 128 <==> i == |bs| - 1))
            && (|bs| > 1 ==> bs[|bs| - 1] > 0)
  {
  }

  function Strung(parts: seq<seq<byte>>): seq<byte> {
    if parts == [] then [] else parts[0] + Strung(parts[1..])
  }

  /** The program index, then the account indices and the data, each behind its length. */
  function InstructionBytes(ix: Instruction): seq<byte> {
    [ix.program] + LenBytes(|ix.accounts|) + ix.accounts + LenBytes(|ix.data|) + ix.data
  }

  lemma InstructionLayout(ix: Instruction, rest: seq<byte>)
    ensures EncInstruction(ix, rest) == InstructionBytes(ix) + rest
  {
    var a, d := LenBytes(|ix.accounts|), LenBytes(|ix.data|);
    assert [ix.program] + (a + (ix.accounts + (d + (ix.data + rest))))
           == [ix.program] + a + ix.accounts + d + ix.data + rest;
  }

  lemma {:induction false} InstructionsLayout(ixs: seq<Instruction>, rest: seq<byte>)
    ensures EncMany(ixs, EncInstruction, rest) == Strung(Map(InstructionBytes, ixs)) + rest
  {
    var parts := Map(InstructionBytes, ixs);
    if ixs != [] {
      InstructionsLayout(ixs[1..], rest);
      InstructionLayout(ixs[0], EncMany(ixs[1..], EncInstruction, rest));
      assert parts[1..] == Map(InstructionBytes, ixs[1..]);
      Assoc(parts[0], Strung(parts[1..]), rest);
    } else {
      assert [] + rest == rest;
    }
  }

  lemma {:induction false} ItemsLayout(items: seq<seq<byte>>, rest: seq<byte>)
    ensures EncMany(items, EncItem, rest) == Strung(items) + rest
  {
    if items != [] {
      ItemsLayout(items[1..], rest);
      Assoc(items[0], Strung(items[1..]), rest);
    } else {
      assert [] + rest == rest;
    }
  }

  /** A message, byte by byte: three bytes of header, the keys and then the instructions behind
      their number, and the block hash between them. */
  lemma MessageLayout(m: Message, rest: seq<byte>)
    ensures EncMessage(m, rest)
            == m.header + (LenBytes(|m.keys|) + (Strung(m.keys) + (m.blockhash
               + (LenBytes(|m.instructions|) + (Strung(Map(InstructionBytes, m.instructions)) + rest)))))
  {
    InstructionsLayout(m.instructions, rest);
    ItemsLayout(m.keys, m.blockhash + EncVec(m.instructions, EncInstruction, rest));
  }

  /** A transaction is its signatures behind their number, and then the message. */
  lemma TransactionLayout(tx: Transaction, rest: seq<byte>)
    ensures EncTransaction(tx, rest)
            == LenBytes(|tx.signatures|) + (Strung(tx.signatures) + EncMessage(tx.message, rest))
  {
    ItemsLayout(tx.signatures, EncMessage(tx.message, rest));
  }
}
