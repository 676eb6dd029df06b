/** The guard before signing, local signing and wire framing (agenc-worker/src/tx.rs),
    up to the point where the signed transaction is posted. */
module Tx {
  import opened Text
  import opened Wire
  import opened Crypto
  import Base64

  datatype TxError = BadBase64 | BadTransaction | ProgramAbsent | BadDiscriminator(disc: Discriminator) | ShortData

  datatype Result<+T> = Ok(value: T) | Err(error: TxError)

  type Discriminator = d: seq<byte> | |d| == 8 witness [0, 0, 0, 0, 0, 0, 0, 0]

  /** Decoding, as the guard and the signer each do it: white space around the text and
      bytes after the transaction are let through. */
  function Fetch(b64: string): Result<Transaction> {
    match Base64.Decode(Trim(b64))
    case None => Err(BadBase64)
    case Some(raw) =>
      match DecTransaction(raw)
      case None => Err(BadTransaction)
      case Some((tx, _)) => Ok(tx)
  }

  lemma FetchGood(b64: string)
    requires Fetch(b64).Ok?
    ensures GoodTransaction(Fetch(b64).value)
  {
    var raw := Base64.Decode(Trim(b64)).value;
    var (tx, rest) := DecTransaction(raw).value;
    DecTransactionIff(raw, tx, rest);
  }

  /** The text decodes to a transaction exactly if, without the white space around it, it is
      base64 of the transaction's encoding and of whatever follows. */
  lemma FetchExactly(b64: string, tx: Transaction)
    ensures Fetch(b64) == Ok(tx) <==>
            exists rest ::
              && GoodTransaction(tx)
              && Trim(b64) == Base64.Encode(EncTransaction(tx, rest))
    ensures Fetch(b64) == Err(BadBase64) <==> !exists raw :: Trim(b64) == Base64.Encode(raw)
  {
    if Base64.Decode(Trim(b64)).Some? {
      var raw := Base64.Decode(Trim(b64)).value;
      Base64.DecodeIffEncode(Trim(b64), raw);
      if DecTransaction(raw).Some? {
        DecTransactionIff(raw, DecTransaction(raw).value.0, DecTransaction(raw).value.1);
      }
    }
    forall raw | Trim(b64) == Base64.Encode(raw) ensures Base64.Decode(Trim(b64)) == Some(raw) {
      Base64.DecodeIffEncode(Trim(b64), raw);
    }
    forall rest | GoodTransaction(tx) && Trim(b64) == Base64.Encode(EncTransaction(tx, rest))
      ensures Fetch(b64) == Ok(tx)
    {
      Base64.DecodeIffEncode(Trim(b64), EncTransaction(tx, rest));
      DecTransactionIff(EncTransaction(tx, rest), tx, rest);
    }
  }

  // -------------------------------------------------------------------- the guard

  /** Does the instruction address the program? */
  predicate Targets(m: Message, ix: Instruction, program: seq<byte>) {
    (ix.program as nat) < |m.keys| && m.keys[ix.program] == program
  }

  /** What is wrong with one instruction, if anything. */
  function Fault(m: Message, ix: Instruction, program: seq<byte>, expected: seq<Discriminator>): Option<TxError> {
    if ix.program as nat >= |m.keys| then Some(BadTransaction)
    else if !Targets(m, ix, program) then None
    else if |ix.data| < 8 then Some(ShortData)
    else if ix.data[..8] !in expected then Some(BadDiscriminator(ix.data[..8]))
    else None
  }

  /** The verdict on the instructions from number `i` on. */
  function Judge(m: Message, i: nat, sawTarget: bool, program: seq<byte>, expected: seq<Discriminator>): Result<()>
    requires i <= |m.instructions|
    decreases |m.instructions| - i
  {
    if i == |m.instructions| then (if sawTarget then Ok(()) else Err(ProgramAbsent))
    else
      match Fault(m, m.instructions[i], program, expected)
      case Some(error) => Err(error)
      case None => Judge(m, i + 1, sawTarget || Targets(m, m.instructions[i], program), program, expected)
  }

  function Verdict(b64: string, program: seq<byte>, expected: seq<Discriminator>): Result<()> {
    match Fetch(b64)
    case Err(error) => Err(error)
    case Ok(tx) => Judge(tx.message, 0, false, program, expected)
  }

  /** Everything the guard promises about a message: it addresses the program, and only
      with allowed discriminators. */
  ghost predicate Approved(m: Message, program: seq<byte>, expected: seq<Discriminator>) {
    && (forall ix :: ix in m.instructions ==> (ix.program as nat) < |m.keys|)
    && (forall ix :: ix in m.instructions && Targets(m, ix, program) ==> |ix.data| >= 8 && ix.data[..8] in expected)
    && (exists ix :: ix in m.instructions && Targets(m, ix, program))
  }

  /** The verdict on a rest of the instructions is acceptance exactly when none is at
      fault and the program is addressed there or was before. */
  lemma {:induction false} JudgeExact(m: Message, i: nat, sawTarget: bool, program: seq<byte>,
      expected: seq<Discriminator>)
    requires i <= |m.instructions|
    ensures Judge(m, i, sawTarget, program, expected).Ok? <==>
            && (forall ix :: ix in m.instructions[i..] ==> Fault(m, ix, program, expected).None?)
            && (sawTarget || exists ix :: ix in m.instructions[i..] && Targets(m, ix, program))
    decreases |m.instructions| - i
  {
    if i < |m.instructions| {
      var ix := m.instructions[i];
      JudgeExact(m, i + 1, sawTarget || Targets(m, ix, program), program, expected);
      assert m.instructions[i..] == [ix] + m.instructions[i + 1..];
    }
  }

  lemma {:induction false} ApprovedExact(m: Message, program: seq<byte>, expected: seq<Discriminator>)
    ensures Judge(m, 0, false, program, expected).Ok? <==> Approved(m, program, expected)
  {
    JudgeExact(m, 0, false, program, expected);
    assert m.instructions[0..] == m.instructions;
  }

  /** In range, and, if its program is the wanted one, with an allowed discriminator. */
  ghost predicate Allowed(m: Message, ix: Instruction, program: seq<byte>, expected: seq<Discriminator>) {
    && ix.program as nat < |m.keys|
    && (m.keys[ix.program] == program ==> |ix.data| >= 8 && ix.data[..8] in expected)
  }

  lemma AllowedIff(m: Message, ix: Instruction, program: seq<byte>, expected: seq<Discriminator>)
    ensures Fault(m, ix, program, expected).None? <==> Allowed(m, ix, program, expected)
    ensures Allowed(m, ix, program, expected) ==> (Targets(m, ix, program) <==> m.keys[ix.program] == program)
  {
  }

  lemma JudgeAllows(m: Message, program: seq<byte>, expected: seq<Discriminator>)
    requires Judge(m, 0, false, program, expected).Ok?
    ensures forall k :: 0 <= k < |m.instructions| ==> Allowed(m, m.instructions[k], program, expected)
    ensures exists k :: 0 <= k < |m.instructions| && Allowed(m, m.instructions[k], program, expected)
                        && m.keys[m.instructions[k].program] == program
  {
    var ixs := m.instructions;
    JudgeExact(m, 0, false, program, expected);
    assert ixs[0..] == ixs;
    forall k | 0 <= k < |ixs| ensures Allowed(m, ixs[k], program, expected) {
      assert ixs[k] in ixs;
      AllowedIff(m, ixs[k], program, expected);
    }
    var ix :| ix in ixs && Targets(m, ix, program);
    var k :| 0 <= k < |ixs| && ixs[k] == ix;
    assert m.keys[ixs[k].program] == program;
  }

  lemma AllowedJudges(m: Message, program: seq<byte>, expected: seq<Discriminator>, k: nat)
    requires forall k :: 0 <= k < |m.instructions| ==> Allowed(m, m.instructions[k], program, expected)
    requires k < |m.instructions| && Allowed(m, m.instructions[k], program, expected)
    requires m.keys[m.instructions[k].program] == program
    ensures Judge(m, 0, false, program, expected).Ok?
  {
    var ixs := m.instructions;
    JudgeExact(m, 0, false, program, expected);
    assert ixs[0..] == ixs;
    forall ix | ix in ixs ensures Fault(m, ix, program, expected).None? {
      var j :| 0 <= j < |ixs| && ixs[j] == ix;
      AllowedIff(m, ix, program, expected);
    }
    assert ixs[k] in ixs && Targets(m, ixs[k], program);
  }

  /** Acceptance, key by key and byte by byte: every program index is in range, some
      instruction's program is the wanted one, and each of those starts with an allowed
      discriminator. */
  lemma AcceptedExactly(m: Message, program: seq<byte>, expected: seq<Discriminator>)
    ensures Judge(m, 0, false, program, expected).Ok? <==>
            && (forall k :: 0 <= k < |m.instructions| ==> m.instructions[k].program as nat < |m.keys|)
            && (exists k :: 0 <= k < |m.instructions| && m.keys[m.instructions[k].program] == program)
            && (forall k :: 0 <= k < |m.instructions| && m.keys[m.instructions[k].program] == program ==>
                  |m.instructions[k].data| >= 8 && m.instructions[k].data[..8] in expected)
  {
    var ixs := m.instructions;
    if Judge(m, 0, false, program, expected).Ok? {
      JudgeAllows(m, program, expected);
      forall k | 0 <= k < |ixs| ensures ixs[k].program as nat < |m.keys| {
        assert Allowed(m, ixs[k], program, expected);
      }
      forall k | 0 <= k < |ixs| && m.keys[ixs[k].program] == program
        ensures |ixs[k].data| >= 8 && ixs[k].data[..8] in expected
      {
        assert Allowed(m, ixs[k], program, expected);
      }
    } else if forall k :: 0 <= k < |ixs| ==> Allowed(m, ixs[k], program, expected) {
      forall k | 0 <= k < |ixs| && m.keys[ixs[k].program] == program ensures false {
        AllowedJudges(m, program, expected, k);
      }
    }
  }

  /** What is wrong with one instruction, in full. */
  lemma FaultMeans(m: Message, ix: Instruction, program: seq<byte>, expected: seq<Discriminator>, error: TxError)
    requires Fault(m, ix, program, expected) == Some(error)
    ensures || (ix.program as nat >= |m.keys| && error == BadTransaction)
            || (ix.program as nat < |m.keys| && m.keys[ix.program] == program
                && if |ix.data| < 8 then error == ShortData
                   else ix.data[..8] !in expected && error == BadDiscriminator(ix.data[..8]))
  {
  }

  /** The loop of `assert_expected` over the instructions. */
  method JudgeInstructions(m: Message, program: seq<byte>, expected: seq<Discriminator>) returns (r: Result<()>)
    ensures r == Judge(m, 0, false, program, expected)
    ensures r.Ok? <==>
            && (forall k :: 0 <= k < |m.instructions| ==> m.instructions[k].program as nat < |m.keys|)
            && (exists k :: 0 <= k < |m.instructions| && m.keys[m.instructions[k].program] == program)
            && (forall k :: 0 <= k < |m.instructions| && m.keys[m.instructions[k].program] == program ==>
                  |m.instructions[k].data| >= 8 && m.instructions[k].data[..8] in expected)
  {
    AcceptedExactly(m, program, expected);
    var sawTarget, i := false, 0;
    while i < |m.instructions|
      invariant i <= |m.instructions|
      invariant Judge(m, i, sawTarget, program, expected) == Judge(m, 0, false, program, expected)
    {
      var ix := m.instructions[i];
      i := i + 1;
      if ix.program as nat >= |m.keys| {
        return Err(BadTransaction);
      }
      if m.keys[ix.program] != program {
        continue;
      }
      sawTarget := true;
      if |ix.data| < 8 {
        return Err(ShortData);
      }
      var disc := ix.data[..8];
      if disc !in expected {
        return Err(BadDiscriminator(disc));
      }
    }
    return if sawTarget then Ok(()) else Err(ProgramAbsent);
  }

  /** `assert_expected` */
  method AssertExpected(b64: string, program: seq<byte>, expected: seq<Discriminator>) returns (r: Result<()>)
    ensures r == Verdict(b64, program, expected)
    ensures r.Ok? <==>
            && Fetch(b64).Ok?
            && var m := Fetch(b64).value.message;
            && (forall k :: 0 <= k < |m.instructions| ==> m.instructions[k].program as nat < |m.keys|)
            && (exists k :: 0 <= k < |m.instructions| && m.keys[m.instructions[k].program] == program)
            && (forall k :: 0 <= k < |m.instructions| && m.keys[m.instructions[k].program] == program ==>
                  |m.instructions[k].data| >= 8 && m.instructions[k].data[..8] in expected)
  {
    var fetched := Fetch(b64);
    if fetched.Err? {
      return Err(fetched.error);
    }
    r := JudgeInstructions(fetched.value.message, program, expected);
  }

  /** Every refusal of a message, in full: some instruction is the first that is not allowed,
      and the error says what is wrong with it; or all are allowed and none is for the
      program. */
  lemma {:induction false} RefusedExactly(m: Message, program: seq<byte>, expected: seq<Discriminator>, error: TxError)
    requires Judge(m, 0, false, program, expected) == Err(error)
    ensures || (&& error == ProgramAbsent
                && forall k :: 0 <= k < |m.instructions| ==>
                     m.instructions[k].program as nat < |m.keys| && m.keys[m.instructions[k].program] != program)
            || exists k ::
                 && 0 <= k < |m.instructions|
                 && (forall j :: 0 <= j < k ==> Allowed(m, m.instructions[j], program, expected))
                 && !Allowed(m, m.instructions[k], program, expected)
                 && error == if m.instructions[k].program as nat >= |m.keys| then BadTransaction
                             else if |m.instructions[k].data| < 8 then ShortData
                             else BadDiscriminator(m.instructions[k].data[..8])
  {
    var ixs := m.instructions;
    FirstFaultReported(m, 0, false, program, expected, error);
    forall k | 0 <= k < |ixs|
      ensures Fault(m, ixs[k], program, expected).None? <==> Allowed(m, ixs[k], program, expected)
    {
      AllowedIff(m, ixs[k], program, expected);
    }
    if k :| 0 <= k < |ixs| && Fault(m, ixs[k], program, expected) == Some(error)
            && forall j :: 0 <= j < k ==> Fault(m, ixs[j], program, expected).None? {
      FaultMeans(m, ixs[k], program, expected, error);
      assert !Allowed(m, ixs[k], program, expected);
    }
  }

  /** The error is that of the first instruction at fault; without one, it is that the
      program is absent. */
  lemma {:induction false} FirstFaultReported(m: Message, i: nat, sawTarget: bool, program: seq<byte>,
      expected: seq<Discriminator>, error: TxError)
    requires i <= |m.instructions| && Judge(m, i, sawTarget, program, expected) == Err(error)
    ensures || (exists k :: i <= k < |m.instructions| && Fault(m, m.instructions[k], program, expected) == Some(error)
                            && forall j :: i <= j < k ==> Fault(m, m.instructions[j], program, expected).None?)
            || (error == ProgramAbsent && !sawTarget
                && forall j :: i <= j < |m.instructions| ==>
                     Fault(m, m.instructions[j], program, expected).None? && !Targets(m, m.instructions[j], program))
    decreases |m.instructions| - i
  {
    if i < |m.instructions| && Fault(m, m.instructions[i], program, expected).None? {
      FirstFaultReported(m, i + 1, sawTarget || Targets(m, m.instructions[i], program), program, expected, error);
    }
  }

  // ------------------------------------------------------------- signing and framing

  /** `assemble_wire_tx`: a one-element signature vector before the message. */
  method AssembleWireTx(signature: Signature, message: seq<byte>) returns (out: seq<byte>)
    ensures out == EncVec<seq<byte>>([signature], EncItem, message)
    ensures DecVec(out, DecSignature) == Some(([signature], message))
  {
    out := [];
    out := out + [1];
    out := out + signature;
    out := out + message;
    SignaturesInverse();
    var signatures: seq<seq<byte>> := [signature];
    assert signatures[1..] == [];
    assert EncMany(signatures, EncItem, message) == signature + message;
    assert out == [1] + (signature + message);
    DecVecIff(out, DecSignature, EncItem, IsSignature, signatures, message);
  }

  /** The transaction that goes out for a message. */
  function Signed(m: Message, sign: seq<byte> -> Signature): Transaction {
    Transaction([sign(EncMessage(m, []))], m)
  }

  function Framed(m: Message, sign: seq<byte> -> Signature): string {
    Base64.Encode(EncTransaction(Signed(m, sign), []))
  }

  /** The text that is posted for an input that decodes. */
  function Posted(b64: string, sign: seq<byte> -> Signature): string
    requires Fetch(b64).Ok?
  {
    Framed(Fetch(b64).value.message, sign)
  }

  /** The straight-line part of `sign_and_send` after decoding. */
  method SignMessage(m: Message, sign: seq<byte> -> Signature) returns (text: string)
    ensures text == Framed(m, sign)
  {
    var message := EncMessage(m, []);
    var wire := AssembleWireTx(sign(message), message);
    text := Base64.Encode(wire);
  }

  /** `sign_and_send`, up to the text that is posted. */
  method SignAndFrame(b64: string, sign: seq<byte> -> Signature) returns (r: Result<string>)
    ensures Fetch(b64).Err? ==> r == Err(Fetch(b64).error)
    ensures Fetch(b64).Ok? ==> r == Ok(Posted(b64, sign))
  {
    var fetched := Fetch(b64);
    if fetched.Err? {
      return Err(fetched.error);
    }
    var text := SignMessage(fetched.value.message, sign);
    r := Ok(text);
  }

  lemma {:induction false} FetchEncoded(tx: Transaction, rest: seq<byte>)
    requires GoodTransaction(tx)
    ensures Fetch(Base64.Encode(EncTransaction(tx, rest))) == Ok(tx)
  {
    var raw := EncTransaction(tx, rest);
    var text := Base64.Encode(raw);
    Base64.EncodedNoSpace(raw);
    TrimIdentity(text);
    Base64.DecodeIffEncode(text, raw);
    DecTransactionIff(raw, tx, rest);
  }

  /** What is broadcast is what was checked: the posted text decodes, with nothing left
      over, to one signature over the very message that the guard saw, so that the guard
      gives the same verdict on it. */
  lemma {:induction false} BroadcastIsChecked(b64: string, sign: seq<byte> -> Signature, program: seq<byte>,
      expected: seq<Discriminator>)
    requires Fetch(b64).Ok?
    ensures var m := Fetch(b64).value.message;
            && Fetch(Posted(b64, sign)) == Ok(Transaction([sign(EncMessage(m, []))], m))
            && (exists raw ::
                  && Base64.Decode(Posted(b64, sign)) == Some(raw)
                  && DecTransaction(raw) == Some((Signed(m, sign), [])))
    ensures Verdict(Posted(b64, sign), program, expected) == Verdict(b64, program, expected)
    ensures Posted(Posted(b64, sign), sign) == Posted(b64, sign)
  {
    FetchGood(b64);
    var tx := Signed(Fetch(b64).value.message, sign);
    var raw := EncTransaction(tx, []);
    FetchEncoded(tx, []);
    Base64.DecodeIffEncode(Posted(b64, sign), raw);
    DecTransactionIff(raw, tx, []);
  }

  /** The signed bytes stand unchanged in the input, between its signatures and whatever
      follows the transaction. */
  lemma {:induction false} SignedBytesComeFromInput(b64: string)
    requires Fetch(b64).Ok?
    ensures exists raw, rest ::
              && Base64.Decode(Trim(b64)) == Some(raw)
              && var tx := Fetch(b64).value;
                 raw == EncVec(tx.signatures, EncItem, EncMessage(tx.message, []) + rest)
  {
    var raw := Base64.Decode(Trim(b64)).value;
    var (tx, rest) := DecTransaction(raw).value;
    DecTransactionIff(raw, tx, rest);
    EncMessageAppend(tx.message, rest);
  }

  lemma FramedByMessage(m: Message, n: Message, sign: seq<byte> -> Signature)
    requires GoodMessage(m) && GoodMessage(n)
    ensures Framed(m, sign) == Framed(n, sign) <==> m == n
  {
    FetchEncoded(Signed(m, sign), []);
    FetchEncoded(Signed(n, sign), []);
  }

  /** Signatures already present, bytes after the transaction and white space around the
      text make no difference to what is posted; the message does. */
  lemma {:induction false} PostedByMessageAlone(a: string, b: string, sign: seq<byte> -> Signature)
    requires Fetch(a).Ok? && Fetch(b).Ok?
    ensures Posted(a, sign) == Posted(b, sign) <==> Fetch(a).value.message == Fetch(b).value.message
  {
    FetchGood(a);
    FetchGood(b);
    FramedByMessage(Fetch(a).value.message, Fetch(b).value.message, sign);
  }
}
