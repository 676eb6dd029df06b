/** The provider iteration and the two-transaction settlement (src/work.rs,
    agenc-worker/src/worker.rs), with every effect on the outside recorded. */
module Settlement {
  import opened Text
  import opened Json
  import opened Crypto
  import opened JobBoard
  import Hex
  import Proof
  import Tx
  import Builder
  import Sequences

  /** `HJsZ53Zb27b8QMRbQpuDngE44AdwCGxvEZr61Zmxw1xK` */
  const AGENC_PROGRAM: seq<byte> := [242, 79, 6, 99, 64, 38, 134, 189, 153, 254, 99, 205, 191, 250, 117, 81,
                                     77, 182, 210, 40, 135, 198, 34, 170, 239, 78, 246, 219, 237, 68, 245, 232]
  const CLAIM_DISC: Tx.Discriminator := [230, 40, 107, 109, 208, 228, 175, 31]
  const SUBMIT_DISC: Tx.Discriminator := [39, 108, 74, 4, 66, 125, 157, 7]
  const REGISTER_DISC: Tx.Discriminator := [135, 157, 66, 195, 2, 113, 175, 30]

  // ------------------------------------------------------------------------ the outside

  /** A response: none that can be read, one with an error status, or a JSON value. From
      the RPC node a JSON value counts whatever its status. */
  datatype Reply = Lost | Refused | Got(v: Value)

  datatype BuildRequest =
    | RegisterTx(worker: string, endpoint: Option<string>)
    | ClaimTx(task: string, worker: string)
    | SubmitTx(task: string, worker: string, proofHashHex: string, resultData: string)

  /** A request to the outside with its reply, and the number of steps that the MCP had
      logged by then. */
  datatype Effect =
    | Board(reply: Reply, steps: nat)
    | Build(request: BuildRequest, reply: Reply, steps: nat)
    | Broadcast(text: string, reply: Reply, steps: nat)

  /** The job board, the sidecar and the RPC node. They answer as they like: the reply to a
      request goes by its place in the log. */
  class World {
    const replies: nat -> Reply
    const mcp: Builder.Remote
    var log: seq<Effect>

    /** Every logged reply is the one that was given. */
    ghost predicate Valid()
      reads this
    {
      forall i :: 0 <= i < |log| ==> log[i].reply == replies(i)
    }

    constructor (replies: nat -> Reply, mcp: Builder.Remote)
      ensures this.replies == replies && this.mcp == mcp && log == [] && Valid()
    {
      this.replies, this.mcp, log := replies, mcp, [];
    }

    method FetchBoard() returns (reply: Reply)
      requires Valid()
      modifies this
      ensures Valid() && log == old(log) + [Board(reply, |mcp.log|)]
    {
      reply := replies(|log|);
      log := log + [Board(reply, |mcp.log|)];
    }

    method AskSidecar(request: BuildRequest) returns (reply: Reply)
      requires Valid()
      modifies this
      ensures Valid() && log == old(log) + [Build(request, reply, |mcp.log|)]
    {
      reply := replies(|log|);
      log := log + [Build(request, reply, |mcp.log|)];
    }

    method Post(text: string) returns (reply: Reply)
      requires Valid()
      modifies this
      ensures Valid() && log == old(log) + [Broadcast(text, reply, |mcp.log|)]
    {
      reply := replies(|log|);
      log := log + [Broadcast(text, reply, |mcp.log|)];
    }
  }

  datatype Wallet = Wallet(pubkey: string, sign: seq<byte> -> Signature)

  datatype Failure =
    | Unreachable
    | BadStatus
    | MissingField
    | Guard(error: Tx.TxError)
    | RpcFailed
    | BuildFailed(outcome: Builder.Outcome)

  datatype Result<+T> = Ok(value: T) | Err(failure: Failure)

  // ----------------------------------------------- one transaction: fetch, check, send

  function UnsignedOf(reply: Reply): Result<string> {
    match reply
    case Lost => Err(Unreachable)
    case Refused => Err(BadStatus)
    case Got(v) =>
      match v.GetStr("unsignedTxB64")
      case Some(b64) => Ok(b64)
      case None => Err(MissingField)
  }

  /** The sidecar's transaction, once the guard has passed it with one discriminator. */
  function Checked(reply: Reply, disc: Tx.Discriminator): (r: Result<string>)
    ensures r.Ok? ==> Tx.Fetch(r.value).Ok?
  {
    match UnsignedOf(reply)
    case Err(failure) => Err(failure)
    case Ok(b64) =>
      match Tx.Verdict(b64, AGENC_PROGRAM, [disc])
      case Err(error) => Err(Guard(error))
      case Ok(_) => Ok(b64)
  }

  /** The node has taken the transaction: no error, and a result that is a string. */
  predicate Landed(reply: Reply) {
    reply.Got? && reply.v.Get("error").None? && reply.v.GetStr("result").Some?
  }

  /** One leg of the settlement, made when the MCP had logged `n` steps: the request, and
      the broadcast if the answer passes. */
  predicate IsLeg(e: seq<Effect>, n: nat, request: BuildRequest, disc: Tx.Discriminator, wallet: Wallet,
      r: Result<()>)
  {
    && |e| >= 1 && e[0].Build? && e[0].request == request && e[0].steps == n
    && var checked := Checked(e[0].reply, disc);
       if checked.Err? then |e| == 1 && r == Err(checked.failure)
       else
         && |e| == 2 && e[1].Broadcast? && e[1].text == Tx.Posted(checked.value, wallet.sign) && e[1].steps == n
         && r == if Landed(e[1].reply) then Ok(()) else if e[1].reply.Got? then Err(RpcFailed) else Err(Unreachable)
  }

  /** `build_*_tx`, `assert_expected` and `sign_and_send`, one after the other. */
  method Leg(world: World, request: BuildRequest, disc: Tx.Discriminator, wallet: Wallet)
      returns (r: Result<()>, ghost e: seq<Effect>)
    requires world.Valid()
    modifies world
    ensures world.Valid() && world.log == old(world.log) + e
    ensures IsLeg(e, |world.mcp.log|, request, disc, wallet, r)
  {
    ghost var n := |world.mcp.log|;
    var reply := world.AskSidecar(request);
    e := [Build(request, reply, n)];
    var unsigned := UnsignedOf(reply);
    if unsigned.Err? {
      return Err(unsigned.failure), e;
    }
    var verdict := Tx.AssertExpected(unsigned.value, AGENC_PROGRAM, [disc]);
    if verdict.Err? {
      return Err(Guard(verdict.error)), e;
    }
    var text := Tx.SignAndFrame(unsigned.value, wallet.sign);
    var posted := world.Post(text.value);
    e := [Build(request, reply, n), Broadcast(text.value, posted, n)];
    r := if Landed(posted) then Ok(()) else if posted.Got? then Err(RpcFailed) else Err(Unreachable);
  }

  // ------------------------------------------------------------------- the round trip

  datatype Meta = Meta(workerAgent: string, model: string, computeJobId: string, nodePubkey: string,
                       nodeStakeMicros: u64, stakeTxSig: string, canaryPassed: bool, verifiedAt: i64)

  datatype Submission = Submission(taskPda: string, proofHash: string, artifactSha256: string)

  function InputOf(task: string, artifact: string, meta: Meta): Proof.ProofInput {
    Proof.ProofInput(task, meta.workerAgent, meta.model, meta.computeJobId, meta.nodePubkey, meta.nodeStakeMicros,
                     meta.stakeTxSig, meta.canaryPassed, artifact, meta.verifiedAt)
  }

  /** The commitment to a proof over this task and this artifact. */
  function ProofHash(task: string, artifact: string, meta: Meta, wallet: Wallet, sha: seq<byte> -> Digest): string {
    Hex.Encode(Proof.BuildWorkerProof(InputOf(task, artifact, meta), wallet.sign, sha).1)
  }

  function ClaimOf(task: string, wallet: Wallet): BuildRequest {
    ClaimTx(task, wallet.pubkey)
  }

  function SubmitOf(task: string, artifact: string, meta: Meta, wallet: Wallet,
      sha: seq<byte> -> Digest): BuildRequest
  {
    SubmitTx(task, wallet.pubkey, ProofHash(task, artifact, meta, wallet, sha), "artifact:sha256:" + artifact)
  }

  /** The claim leg, and after it, if it succeeded, the submission leg. */
  ghost predicate Settles(e: seq<Effect>, n: nat, task: string, artifact: string, meta: Meta, wallet: Wallet,
      sha: seq<byte> -> Digest, r: Result<Submission>)
  {
    || (r.Err? && IsLeg(e, n, ClaimOf(task, wallet), CLAIM_DISC, wallet, Err(r.failure)))
    || exists claim, submit ::
         && e == claim + submit
         && IsLeg(claim, n, ClaimOf(task, wallet), CLAIM_DISC, wallet, Ok(()))
         && IsLeg(submit, n, SubmitOf(task, artifact, meta, wallet, sha), SUBMIT_DISC, wallet, Plain(r))
         && (r.Ok? ==> r.value == Submission(task, ProofHash(task, artifact, meta, wallet, sha), artifact))
  }

  function Plain<T>(r: Result<T>): Result<()> {
    if r.Ok? then Ok(()) else Err(r.failure)
  }

  /** `worker_roundtrip` */
  method WorkerRoundtrip(world: World, task: string, artifact: string, meta: Meta, wallet: Wallet,
      sha: seq<byte> -> Digest)
      returns (r: Result<Submission>, ghost e: seq<Effect>)
    requires world.Valid()
    modifies world
    ensures world.Valid() && world.log == old(world.log) + e
    ensures Settles(e, |world.mcp.log|, task, artifact, meta, wallet, sha, r)
  {
    ghost var base := world.log;
    var claimed;
    ghost var claim, submit;
    claimed, claim := Leg(world, ClaimOf(task, wallet), CLAIM_DISC, wallet);
    if claimed.Err? {
      return Err(claimed.failure), claim;
    }
    var proofHash := ProofHash(task, artifact, meta, wallet, sha);
    var request := SubmitTx(task, wallet.pubkey, proofHash, "artifact:sha256:" + artifact);
    var submitted;
    submitted, submit := Leg(world, request, SUBMIT_DISC, wallet);
    Sequences.Assoc(base, claim, submit);
    e := claim + submit;
    r := if submitted.Ok? then Ok(Submission(task, proofHash, artifact)) else Err(submitted.failure);
  }

  // ------------------------------------------------------------------------ iterations

  function JobsOf(reply: Reply): Result<seq<Value>> {
    match reply
    case Lost => Err(Unreachable)
    case Refused => Err(BadStatus)
    case Got(v) => Ok(match v.Get("jobs") case Some(Arr(items)) => items case _ => [])
  }

  function MissionOf(job: SelectedJob, cfg: WorkCfg, wallet: Wallet): Builder.Mission {
    Builder.Mission(wallet.pubkey, job.parcelUid, job.brief, cfg.budgetSecs, wallet.sign)
  }

  function MetaOf(sid: string, cfg: WorkCfg, wallet: Wallet, now: i64): Meta {
    Meta(wallet.pubkey, cfg.model, sid, wallet.pubkey, 0, "", true, now)
  }

  /** Functions and facts that come from outside the client. */
  datatype Foreign = Foreign(sha: seq<byte> -> Digest, show: Value -> string, size: SpecSize, now: i64)

  function Outright(r: Result<Option<Submission>>): Result<Submission> {
    if r.Err? then Err(r.failure) else if r.value.Some? then Ok(r.value.value) else Err(Unreachable)
  }

  /** What a build with this outcome, of `n` steps in all, is followed by. */
  ghost predicate Follow(outcome: Builder.Outcome, n: nat, tail: seq<Effect>, job: SelectedJob, cfg: WorkCfg,
      wallet: Wallet, f: Foreign, r: Result<Option<Submission>>)
  {
    if outcome.Promoted? then
      && (r.Ok? ==> r.value.Some?)
      && Settles(tail, n, job.taskPda, outcome.hash, MetaOf(outcome.sid, cfg, wallet, f.now), wallet, f.sha,
         Outright(r))
    else tail == [] && r == Err(BuildFailed(outcome))
  }

  /** The steps end with this outcome, and the settlement follows it. */
  ghost predicate WorksOut(steps: seq<Builder.Step>, before: nat, tail: seq<Effect>, job: SelectedJob, cfg: WorkCfg,
      wallet: Wallet, f: Foreign, r: Result<Option<Submission>>, outcome: Builder.Outcome, time: nat)
  {
    && Builder.Ended(steps, outcome, time, MissionOf(job, cfg, wallet), f.show, f.sha)
    && Follow(outcome, before + |steps|, tail, job, cfg, wallet, f, r)
  }

  /** The build and the settlement of a job that has been picked, when the MCP had logged
      `before` steps. */
  ghost predicate Works(steps: seq<Builder.Step>, before: nat, tail: seq<Effect>, job: SelectedJob, cfg: WorkCfg,
      wallet: Wallet, f: Foreign, r: Result<Option<Submission>>)
  {
    && Builder.Protocol(steps, MissionOf(job, cfg, wallet))
    && exists outcome, time :: WorksOut(steps, before, tail, job, cfg, wallet, f, r, outcome, time)
  }

  /** The steps of the MCP and the other effects of one iteration, and its result. */
  ghost predicate Iterates(steps: seq<Builder.Step>, before: nat, e: seq<Effect>, cfg: WorkCfg, wallet: Wallet,
      f: Foreign, r: Result<Option<Submission>>)
  {
    && |e| >= 1 && e[0].Board? && e[0].steps == before
    && match JobsOf(e[0].reply)
       case Err(failure) => steps == [] && |e| == 1 && r == Err(failure)
       case Ok(jobs) =>
         match Selected(jobs, wallet.pubkey, cfg, f.size)
         case None => steps == [] && |e| == 1 && r == Ok(None)
         case Some(job) => Works(steps, before, e[1..], job, cfg, wallet, f, r)
  }

  /** Settling after a build with this outcome. */
  method Settle(world: World, outcome: Builder.Outcome, job: SelectedJob, cfg: WorkCfg, wallet: Wallet, f: Foreign)
      returns (r: Result<Option<Submission>>, ghost tail: seq<Effect>)
    requires world.Valid()
    modifies world
    ensures world.Valid() && world.log == old(world.log) + tail
    ensures Follow(outcome, |world.mcp.log|, tail, job, cfg, wallet, f, r)
  {
    if !outcome.Promoted? {
      return Err(BuildFailed(outcome)), [];
    }
    var settled;
    var meta := MetaOf(outcome.sid, cfg, wallet, f.now);
    settled, tail := WorkerRoundtrip(world, job.taskPda, outcome.hash, meta, wallet, f.sha);
    r := if settled.Ok? then Ok(Some(settled.value)) else Err(settled.failure);
    assert Outright(r) == settled;
  }

  /** Building and settling a job that has been picked. */
  method Work(world: World, job: SelectedJob, cfg: WorkCfg, wallet: Wallet, f: Foreign)
      returns (r: Result<Option<Submission>>, ghost steps: seq<Builder.Step>, ghost tail: seq<Effect>)
    requires world.Valid()
    modifies world, world.mcp
    ensures world.mcp.log == old(world.mcp.log) + steps
    ensures Builder.ByScript(world.mcp.script, |old(world.mcp.log)|, steps)
    ensures world.Valid() && world.log == old(world.log) + tail
    ensures Works(steps, |old(world.mcp.log)|, tail, job, cfg, wallet, f, r)
  {
    ghost var before := |world.mcp.log|;
    var outcome;
    outcome, steps := Builder.DriveBuilder(world.mcp, MissionOf(job, cfg, wallet), f.show, f.sha);
    ghost var time := world.mcp.clock;
    r, tail := Settle(world, outcome, job, cfg, wallet, f);
    assert WorksOut(steps, before, tail, job, cfg, wallet, f, r, outcome, time);
  }

  lemma BoardFirst(base: seq<Effect>, board: Effect, tail: seq<Effect>)
    ensures base + [board] + tail == base + ([board] + tail) && ([board] + tail)[1..] == tail
  {
  }

  /** `work_once`: the steps are all that the MCP was asked, and the effects all that
      anything else was asked. */
  method WorkOnce(world: World, cfg: WorkCfg, wallet: Wallet, f: Foreign)
      returns (r: Result<Option<Submission>>, ghost steps: seq<Builder.Step>, ghost e: seq<Effect>)
    requires world.Valid()
    modifies world, world.mcp
    ensures world.mcp.log == old(world.mcp.log) + steps
    ensures Builder.ByScript(world.mcp.script, |old(world.mcp.log)|, steps)
    ensures world.Valid() && world.log == old(world.log) + e
    ensures Iterates(steps, |old(world.mcp.log)|, e, cfg, wallet, f, r)
  {
    ghost var base, before := world.log, |world.mcp.log|;
    steps := [];
    var reply := world.FetchBoard();
    e := [Board(reply, before)];
    var jobs := JobsOf(reply);
    if jobs.Err? {
      return Err(jobs.failure), steps, e;
    }
    var job := SelectJob(jobs.value, wallet.pubkey, cfg, f.size);
    if job.None? {
      return Ok(None), steps, e;
    }
    ghost var tail;
    r, steps, tail := Work(world, job.value, cfg, wallet, f);
    BoardFirst(base, Board(reply, before), tail);
    e := [Board(reply, before)] + tail;
  }

  /** `register`: one leg, with the endpoint only if there is one. */
  method Register(world: World, endpoint: string, wallet: Wallet) returns (r: Result<()>, ghost e: seq<Effect>)
    requires world.Valid()
    modifies world
    ensures world.Valid() && world.log == old(world.log) + e
    ensures var request := RegisterTx(wallet.pubkey, if endpoint == "" then None else Some(endpoint));
            IsLeg(e, |world.mcp.log|, request, REGISTER_DISC, wallet, r)
  {
    r, e := Leg(world, RegisterTx(wallet.pubkey, if endpoint == "" then None else Some(endpoint)), REGISTER_DISC,
        wallet);
  }

  // ---------------------------------------------------------------- the order of effects

  /** The effects of a settlement, made when the MCP had logged `n` steps: a prefix of claim
      request, claim, submission request, submission, each broadcast guarded by its own
      discriminator. */
  ghost predicate InSettlingOrder(e: seq<Effect>, n: nat, claim: BuildRequest, submit: BuildRequest) {
    && 1 <= |e| <= 4
    && e[0].Build? && e[0].request == claim && e[0].steps == n
    && (|e| >= 2 ==> e[1].Broadcast? && Tx.Verdict(e[1].text, AGENC_PROGRAM, [CLAIM_DISC]).Ok? && e[1].steps == n)
    && (|e| >= 3 ==> Landed(e[1].reply) && e[2].Build? && e[2].request == submit && e[2].steps == n)
    && (|e| >= 4 ==> e[3].Broadcast? && Tx.Verdict(e[3].text, AGENC_PROGRAM, [SUBMIT_DISC]).Ok? && e[3].steps == n)
  }

  /** The same for a task and an artifact; success means all four, and returns what was
      submitted. */
  ghost predicate SettledInOrder(e: seq<Effect>, n: nat, task: string, artifact: string, meta: Meta, wallet: Wallet,
      sha: seq<byte> -> Digest, r: Result<Submission>)
  {
    && InSettlingOrder(e, n, ClaimOf(task, wallet), SubmitOf(task, artifact, meta, wallet, sha))
    && (r.Ok? ==>
          && |e| == 4 && Landed(e[3].reply)
          && r.value == Submission(task, ProofHash(task, artifact, meta, wallet, sha), artifact))
  }

  /** A session that was driven to its promotion, and the artifact it was promoted with. */
  ghost predicate Promotes(steps: seq<Builder.Step>, sid: string, artifact: string, f: Foreign) {
    && |steps| >= 2
    && steps[|steps| - 1].Call? && steps[|steps| - 1].request == Builder.Promote(sid) && steps[|steps| - 1].reply.Some?
    && exists files ::
         && Builder.Shows(steps[|steps| - 2], Builder.Finished(files))
         && Builder.IsManifest(files, artifact, f.show, f.sha)
  }

  /** A settlement is that of the job, made after all the steps, with the artifact that the
      last of them promoted. */
  ghost predicate SettlesAfter(steps: seq<Builder.Step>, before: nat, tail: seq<Effect>, job: SelectedJob, cfg: WorkCfg,
      wallet: Wallet, f: Foreign, r: Result<Option<Submission>>, sid: string, artifact: string)
  {
    var meta := MetaOf(sid, cfg, wallet, f.now);
    && Promotes(steps, sid, artifact, f)
    && (r.Ok? ==> r.value.Some?)
    && SettledInOrder(tail, before + |steps|, job.taskPda, artifact, meta, wallet, f.sha, Outright(r))
  }
}
