/** The worker-signed proof (agenc-worker/src/proof.rs): which bytes are signed, which
    bytes are hashed, and that they determine what they stand for. SHA-256 and Ed25519
    are parameters. */
module Proof {
  import opened Text
  import opened OrderedJson
  import opened Crypto
  import Hex

  datatype ProofInput = ProofInput(
    taskPda: string, workerAgent: string, model: string, computeJobId: string, nodePubkey: string,
    nodeStakeMicros: u64, stakeTxSig: string, canaryPassed: bool, artifactSha256: string, verifiedAt: i64)

  datatype SignedProof = SignedProof(body: ProofInput, signature: string)

  /** The fields of the body in their order, before `more`. */
  function BodyFields(p: ProofInput, more: Fields): Fields {
    Field("version", Number(1),
    Field("kind", Text("nexus.worker.proof"),
    Field("taskPda", Text(p.taskPda),
    Field("workerAgent", Text(p.workerAgent),
    Field("model", Text(p.model),
    Field("computeJobId", Text(p.computeJobId),
    Field("nodePubkey", Text(p.nodePubkey),
    Field("nodeStakeMicros", Number(p.nodeStakeMicros),
    Field("stakeTxSig", Text(p.stakeTxSig),
    Field("canary", Record(Field("passed", Flag(p.canaryPassed), End)),
    Field("artifactSha256", Text(p.artifactSha256),
    Field("verifiedAt", Number(p.verifiedAt), more))))))))))))
  }

  function SignedFields(p: SignedProof): Fields {
    BodyFields(p.body, Field("signature", Text(p.signature), End))
  }

  /** `canonical_body_bytes`: what the signature covers. */
  function BodyBytes(p: ProofInput): seq<byte> {
    Utf8(Write(Record(BodyFields(p, End)), ""))
  }

  function SignedText(p: SignedProof): string {
    Write(Record(SignedFields(p)), "")
  }

  /** What `proof_hash` covers. */
  function SignedBytes(p: SignedProof): seq<byte> {
    Utf8(SignedText(p))
  }

  /** `build_worker_proof` */
  function BuildWorkerProof(input: ProofInput, sign: seq<byte> -> Signature,
      sha: seq<byte> -> Digest): (r: (SignedProof, Digest))
    ensures r.0.body == input && r.0.signature == Hex.Encode(sign(BodyBytes(r.0.body)))
    ensures r.1 == sha(SignedBytes(r.0))
  {
    var proof := SignedProof(input, Hex.Encode(sign(BodyBytes(input))));
    (proof, sha(SignedBytes(proof)))
  }

  /** A reader of signed proofs, which insists on the names and the order of the fields. */
  function Recover(text: string): Option<SignedProof> {
    match ReadItem(text)
    case Some((Record(
           Field("version", Number(1),
           Field("kind", Text("nexus.worker.proof"),
           Field("taskPda", Text(taskPda),
           Field("workerAgent", Text(workerAgent),
           Field("model", Text(model),
           Field("computeJobId", Text(computeJobId),
           Field("nodePubkey", Text(nodePubkey),
           Field("nodeStakeMicros", Number(stake),
           Field("stakeTxSig", Text(stakeTxSig),
           Field("canary", Record(Field("passed", Flag(passed), End)),
           Field("artifactSha256", Text(artifact),
           Field("verifiedAt", Number(at),
           Field("signature", Text(signature), End)))))))))))))
         ), _)) =>
      if 0 <= stake < U64_LIMIT && -I64_LIMIT <= at < I64_LIMIT then
        Some(SignedProof(
          ProofInput(taskPda, workerAgent, model, computeJobId, nodePubkey, stake, stakeTxSig, passed, artifact, at),
          signature))
      else None
    case _ => None
  }

  /** The whole signed proof can be read back from its text. */
  lemma RecoverSigned(p: SignedProof)
    ensures Recover(SignedText(p)) == Some(p)
  {
    ReadWrite(Record(SignedFields(p)), "");
  }

  /** What is signed are the UTF-8 bytes of a JSON text that reads as these fields with these
      names in this order, and as nothing more. */
  lemma BodyMeans(p: ProofInput)
    ensures exists text ::
              && BodyBytes(p) == Utf8(text)
              && ReadItem(text) == Some((Record(
                   Field("version", Number(1),
                   Field("kind", Text("nexus.worker.proof"),
                   Field("taskPda", Text(p.taskPda),
                   Field("workerAgent", Text(p.workerAgent),
                   Field("model", Text(p.model),
                   Field("computeJobId", Text(p.computeJobId),
                   Field("nodePubkey", Text(p.nodePubkey),
                   Field("nodeStakeMicros", Number(p.nodeStakeMicros),
                   Field("stakeTxSig", Text(p.stakeTxSig),
                   Field("canary", Record(Field("passed", Flag(p.canaryPassed), End)),
                   Field("artifactSha256", Text(p.artifactSha256),
                   Field("verifiedAt", Number(p.verifiedAt), End))))))))))))), ""))
  {
    var text := Write(Record(BodyFields(p, End)), "");
    ReadWrite(Record(BodyFields(p, End)), "");
    assert BodyBytes(p) == Utf8(text);
  }

  /** The signature in a proof is over the bytes of its own body, and the commitment is the
      digest of the text that the proof is read back from. */
  lemma ProofMeans(input: ProofInput, sign: seq<byte> -> Signature, sha: seq<byte> -> Digest)
    ensures var (proof, hash) := BuildWorkerProof(input, sign, sha);
            && proof.body == input && Hex.Decode(proof.signature) == Some(sign(BodyBytes(input)))
            && exists text :: Recover(text) == Some(proof) && hash == sha(Utf8(text))
  {
    var (proof, hash) := BuildWorkerProof(input, sign, sha);
    Hex.DecodeIffEncode(proof.signature, sign(BodyBytes(input)));
    RecoverSigned(proof);
    assert hash == sha(Utf8(SignedText(proof)));
  }

  /** Inputs that differ in any field are signed as different bytes. */
  lemma BodyBytesInjective(p: ProofInput, q: ProofInput)
    ensures BodyBytes(p) == BodyBytes(q) <==> p == q
  {
    if BodyBytes(p) == BodyBytes(q) {
      BytesInjective(Record(BodyFields(p, End)), Record(BodyFields(q, End)));
    }
  }

  /** The bytes under `proof_hash` determine the input and the signature: two proofs are
      committed to by the same bytes only if they agree in everything. */
  lemma CommitmentBinds(p: ProofInput, q: ProofInput, signP: seq<byte> -> Signature, signQ: seq<byte> -> Signature,
      sha: seq<byte> -> Digest)
    ensures SignedBytes(BuildWorkerProof(p, signP, sha).0) == SignedBytes(BuildWorkerProof(q, signQ, sha).0)
            <==> p == q && signP(BodyBytes(p)) == signQ(BodyBytes(q))
  {
    var a, b := BuildWorkerProof(p, signP, sha).0, BuildWorkerProof(q, signQ, sha).0;
    if SignedBytes(a) == SignedBytes(b) {
      Utf8Injective(SignedText(a), SignedText(b));
      RecoverSigned(a);
      RecoverSigned(b);
      Hex.EncodeInjective(signP(BodyBytes(p)), signQ(BodyBytes(q)));
    }
  }
}
