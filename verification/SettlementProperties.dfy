/** The order of effects in every provider iteration, whatever the board, the MCP, the
    sidecar and the RPC node answer. */
module SettlementProperties {
  import opened Text
  import opened Json
  import opened Crypto
  import opened JobBoard
  import opened Settlement
  import BuilderProperties
  import Base58
  import Hex
  import Proof
  import Tx
  import Builder

  /** Whatever a leg broadcasts would itself pass the guard, with the one discriminator of
      that leg, and is the signed form of the sidecar's message. */
  lemma {:induction false} LegIsGuarded(e: seq<Effect>, n: nat, request: BuildRequest, disc: Tx.Discriminator,
      wallet: Wallet, r: Result<()>)
    requires IsLeg(e, n, request, disc, wallet, r)
    ensures 1 <= |e| <= 2 && e[0].Build? && e[0].request == request && e[0].steps == n
    ensures |e| == 2 ==> e[1].Broadcast? && Tx.Verdict(e[1].text, AGENC_PROGRAM, [disc]).Ok? && e[1].steps == n
    ensures r.Ok? ==> |e| == 2 && Landed(e[1].reply)
  {
    if |e| == 2 {
      var b64 := Checked(e[0].reply, disc).value;
      Tx.BroadcastIsChecked(b64, wallet.sign, AGENC_PROGRAM, [disc]);
    }
  }

  /** The unsigned transaction that a sidecar's reply holds. */
  ghost predicate Offers(reply: Reply, b64: string) {
    reply.Got? && Holds(reply.v, "unsignedTxB64", Str(b64))
  }

  /** The RPC node's reply names a transaction, and no error. */
  ghost predicate Confirms(reply: Reply) {
    && reply.Got? && (forall x :: !Holds(reply.v, "error", x))
    && exists id :: Holds(reply.v, "result", Str(id))
  }

  lemma UnsignedMeans(reply: Reply, disc: Tx.Discriminator)
    ensures forall b64 :: UnsignedOf(reply) == Ok(b64) <==> Offers(reply, b64)
    ensures forall b64 :: Checked(reply, disc) == Ok(b64) <==>
                            Offers(reply, b64) && Tx.Verdict(b64, AGENC_PROGRAM, [disc]).Ok?
    ensures Checked(reply, disc).Err? ==>
              match reply
              case Lost => Checked(reply, disc).failure == Unreachable
              case Refused => Checked(reply, disc).failure == BadStatus
              case Got(_) =>
                || (Checked(reply, disc).failure == MissingField && forall b64 :: !Offers(reply, b64))
                || exists b64 ::
                     && Offers(reply, b64) && Tx.Verdict(b64, AGENC_PROGRAM, [disc]).Err?
                     && Checked(reply, disc).failure == Guard(Tx.Verdict(b64, AGENC_PROGRAM, [disc]).error)
  {
    if reply.Got? {
      AccessorsExact(reply.v, "unsignedTxB64");
    }
  }

  lemma LandedMeans(reply: Reply)
    ensures Landed(reply) <==> Confirms(reply)
  {
    if reply.Got? {
      AccessorsExact(reply.v, "error");
      AccessorsExact(reply.v, "result");
    }
  }

  /** A leg in terms of the replies: something is broadcast exactly if the sidecar's reply
      holds a transaction that the guard accepts; what is broadcast is that transaction's
      message under the wallet's one signature over it; and the leg succeeds exactly if the
      node confirms that. */
  lemma {:induction false} LegMeans(e: seq<Effect>, n: nat, request: BuildRequest, disc: Tx.Discriminator,
      wallet: Wallet, r: Result<()>)
    requires IsLeg(e, n, request, disc, wallet, r)
    ensures |e| == 2 <==> exists b64 :: Offers(e[0].reply, b64) && Tx.Verdict(b64, AGENC_PROGRAM, [disc]).Ok?
    ensures |e| == 2 ==>
              exists b64 ::
                && Offers(e[0].reply, b64) && Tx.Fetch(b64).Ok?
                && Tx.Fetch(e[1].text) == Tx.Ok(Tx.Signed(Tx.Fetch(b64).value.message, wallet.sign))
    ensures r.Ok? <==> |e| == 2 && Confirms(e[1].reply)
  {
    UnsignedMeans(e[0].reply, disc);
    if |e| == 2 {
      var b64 := Checked(e[0].reply, disc).value;
      LandedMeans(e[1].reply);
      Tx.BroadcastIsChecked(b64, wallet.sign, AGENC_PROGRAM, [disc]);
    }
  }

  lemma {:induction false} Append(claim: seq<Effect>, submit: seq<Effect>)
    requires |claim| == 2 && 1 <= |submit| <= 2
    ensures var e := claim + submit;
            && |e| == 2 + |submit| && e[0] == claim[0] && e[1] == claim[1] && e[2] == submit[0]
            && (|submit| == 2 ==> e[3] == submit[1])
  {
  }

  lemma {:induction false} BothLegs(claim: seq<Effect>, submit: seq<Effect>, n: nat, first: BuildRequest,
      second: BuildRequest, wallet: Wallet, r: Result<()>)
    requires IsLeg(claim, n, first, CLAIM_DISC, wallet, Ok(())) && IsLeg(submit, n, second, SUBMIT_DISC, wallet, r)
    ensures InSettlingOrder(claim + submit, n, first, second)
    ensures r.Ok? ==> |claim + submit| == 4 && Landed((claim + submit)[3].reply)
  {
    LegIsGuarded(claim, n, first, CLAIM_DISC, wallet, Ok(()));
    LegIsGuarded(submit, n, second, SUBMIT_DISC, wallet, r);
    Append(claim, submit);
  }

  lemma {:induction false} SettlesInOrder(e: seq<Effect>, n: nat, task: string, artifact: string, meta: Meta,
      wallet: Wallet, sha: seq<byte> -> Digest, r: Result<Submission>)
    requires Settles(e, n, task, artifact, meta, wallet, sha, r)
    ensures SettledInOrder(e, n, task, artifact, meta, wallet, sha, r)
  {
    var first, second := ClaimOf(task, wallet), SubmitOf(task, artifact, meta, wallet, sha);
    if r.Err? && IsLeg(e, n, first, CLAIM_DISC, wallet, Err(r.failure)) {
      LegIsGuarded(e, n, first, CLAIM_DISC, wallet, Err(r.failure));
    } else {
      var claim, submit :|
        && e == claim + submit
        && IsLeg(claim, n, first, CLAIM_DISC, wallet, Ok(()))
        && IsLeg(submit, n, second, SUBMIT_DISC, wallet, Plain(r))
        && (r.Ok? ==> r.value == Submission(task, ProofHash(task, artifact, meta, wallet, sha), artifact));
      BothLegs(claim, submit, n, first, second, wallet, Plain(r));
    }
  }

  /** One guarded transaction cannot serve as the other. */
  lemma {:induction false} GuardsExclude(b64: string, a: Tx.Discriminator, b: Tx.Discriminator)
    requires a != b && Tx.Verdict(b64, AGENC_PROGRAM, [a]).Ok?
    ensures !Tx.Verdict(b64, AGENC_PROGRAM, [b]).Ok?
  {
    var m := Tx.Fetch(b64).value.message;
    Tx.ApprovedExact(m, AGENC_PROGRAM, [a]);
    Tx.ApprovedExact(m, AGENC_PROGRAM, [b]);
    var ix :| ix in m.instructions && Tx.Targets(m, ix, AGENC_PROGRAM);
    assert ix.data[..8] == a;
  }

  /** The MCP, the sidecar and the RPC node are not touched unless a job is picked, which is
      when one is eligible; an idle iteration is one where none is. */
  lemma {:induction false} NothingWithoutJob(steps: seq<Builder.Step>, before: nat, e: seq<Effect>, cfg: WorkCfg,
      wallet: Wallet, f: Foreign, r: Result<Option<Submission>>)
    requires Iterates(steps, before, e, cfg, wallet, f, r)
    ensures var jobs := JobsOf(e[0].reply);
            var some := jobs.Ok? && exists i ::
                          && 0 <= i < |jobs.value|
                          && Eligible(jobs.value[i], wallet.pubkey, cfg, f.size);
            && (steps != [] <==> some)
            && (|e| > 1 ==> some)
            && (r == Ok(None) <==> jobs.Ok? && !some)
  {
    var jobs := JobsOf(e[0].reply);
    if jobs.Ok? {
      var i := SelectedIsEarliestBest(jobs.value, wallet.pubkey, cfg, f.size);
    }
  }

  lemma {:induction false} EndedPromotes(steps: seq<Builder.Step>, outcome: Builder.Outcome, time: nat,
      m: Builder.Mission, f: Foreign)
    requires outcome.Promoted?
    ensures Builder.Ended(steps, outcome, time, m, f.show, f.sha) ==> Promotes(steps, outcome.sid, outcome.hash, f)
  {
    if Builder.Ended(steps, outcome, time, m, f.show, f.sha) {
      var files := Builder.TurnOf(steps[|steps| - 2].reply.value).files;
      assert Builder.Shows(steps[|steps| - 2], Builder.Finished(files));
    }
  }

  lemma {:induction false} EndedSteps(steps: seq<Builder.Step>, outcome: Builder.Outcome, time: nat,
      m: Builder.Mission, f: Foreign)
    requires Builder.Ended(steps, outcome, time, m, f.show, f.sha)
    ensures steps != []
  {
  }

  lemma {:induction false} FollowSettles(outcome: Builder.Outcome, n: nat, tail: seq<Effect>, job: SelectedJob,
      cfg: WorkCfg, wallet: Wallet, f: Foreign, r: Result<Option<Submission>>, meta: Meta)
    requires outcome.Promoted? && meta == MetaOf(outcome.sid, cfg, wallet, f.now)
    ensures Follow(outcome, n, tail, job, cfg, wallet, f, r) ==>
              && (r.Ok? ==> r.value.Some?)
              && SettledInOrder(tail, n, job.taskPda, outcome.hash, meta, wallet, f.sha, Outright(r))
  {
    if Follow(outcome, n, tail, job, cfg, wallet, f, r) {
      SettlesInOrder(tail, n, job.taskPda, outcome.hash, meta, wallet, f.sha, Outright(r));
    }
  }

  lemma {:induction false} SettledAfter(steps: seq<Builder.Step>, before: nat, tail: seq<Effect>, job: SelectedJob,
      cfg: WorkCfg, wallet: Wallet, f: Foreign, r: Result<Option<Submission>>, sid: string, artifact: string,
      meta: Meta)
    requires meta == MetaOf(sid, cfg, wallet, f.now) && (r.Ok? ==> r.value.Some?)
    ensures Promotes(steps, sid, artifact, f)
            && SettledInOrder(tail, before + |steps|, job.taskPda, artifact, meta, wallet, f.sha, Outright(r))
            ==> SettlesAfter(steps, before, tail, job, cfg, wallet, f, r, sid, artifact)
  {
  }

  lemma {:induction false} WorksOutInOrder(steps: seq<Builder.Step>, before: nat, tail: seq<Effect>, job: SelectedJob,
      cfg: WorkCfg, wallet: Wallet, f: Foreign, r: Result<Option<Submission>>, outcome: Builder.Outcome, time: nat)
    requires outcome.Promoted? && WorksOut(steps, before, tail, job, cfg, wallet, f, r, outcome, time)
    ensures exists sid, artifact :: SettlesAfter(steps, before, tail, job, cfg, wallet, f, r, sid, artifact)
  {
    var sid, artifact := outcome.sid, outcome.hash;
    var meta := MetaOf(sid, cfg, wallet, f.now);
    EndedPromotes(steps, outcome, time, MissionOf(job, cfg, wallet), f);
    FollowSettles(outcome, before + |steps|, tail, job, cfg, wallet, f, r, meta);
    SettledAfter(steps, before, tail, job, cfg, wallet, f, r, sid, artifact, meta);
  }

  /** The steps keep to the protocol for the picked job, and anything else is a settlement
      after them. */
  lemma {:induction false} WorksInOrder(steps: seq<Builder.Step>, before: nat, tail: seq<Effect>, job: SelectedJob,
      cfg: WorkCfg, wallet: Wallet, f: Foreign, r: Result<Option<Submission>>)
    requires Works(steps, before, tail, job, cfg, wallet, f, r)
    ensures Builder.Protocol(steps, MissionOf(job, cfg, wallet)) && steps != []
    ensures tail != [] || r.Ok? ==>
              exists sid, artifact :: SettlesAfter(steps, before, tail, job, cfg, wallet, f, r, sid, artifact)
  {
    var outcome, time :| WorksOut(steps, before, tail, job, cfg, wallet, f, r, outcome, time);
    EndedSteps(steps, outcome, time, MissionOf(job, cfg, wallet), f);
    if outcome.Promoted? {
      WorksOutInOrder(steps, before, tail, job, cfg, wallet, f, r, outcome, time);
    }
  }

  lemma {:induction false} PickedJob(steps: seq<Builder.Step>, before: nat, e: seq<Effect>, cfg: WorkCfg,
      wallet: Wallet, f: Foreign, r: Result<Option<Submission>>) returns (job: SelectedJob)
    requires Iterates(steps, before, e, cfg, wallet, f, r) && (|e| > 1 || steps != [] || (r.Ok? && r.value.Some?))
    ensures JobsOf(e[0].reply).Ok? && Selected(JobsOf(e[0].reply).value, wallet.pubkey, cfg, f.size) == Some(job)
    ensures Works(steps, before, e[1..], job, cfg, wallet, f, r)
  {
    job := Selected(JobsOf(e[0].reply).value, wallet.pubkey, cfg, f.size).value;
  }

  /** The order of every iteration: the board, then the steps of the MCP for the picked job,
      then, only after the promotion, the settlement of that job with the artifact that was
      promoted. */
  lemma {:induction false} IterationOrder(steps: seq<Builder.Step>, before: nat, e: seq<Effect>, cfg: WorkCfg,
      wallet: Wallet, f: Foreign, r: Result<Option<Submission>>)
      returns (job: SelectedJob)
    requires Iterates(steps, before, e, cfg, wallet, f, r) && (|e| > 1 || steps != [] || (r.Ok? && r.value.Some?))
    ensures JobsOf(e[0].reply).Ok? && Selected(JobsOf(e[0].reply).value, wallet.pubkey, cfg, f.size) == Some(job)
    ensures e[0].steps == before && Builder.Protocol(steps, MissionOf(job, cfg, wallet)) && steps != []
    ensures |e| > 1 || r.Ok? ==>
              exists sid, artifact :: SettlesAfter(steps, before, e[1..], job, cfg, wallet, f, r, sid, artifact)
  {
    job := PickedJob(steps, before, e, cfg, wallet, f, r);
    WorksInOrder(steps, before, e[1..], job, cfg, wallet, f, r);
  }

  /** The board is an object whose `jobs` are these; anything else that is not an error is
      an empty board. */
  lemma BoardMeans(reply: Reply, jobs: seq<Value>)
    ensures JobsOf(reply) == Ok(jobs) <==>
            && reply.Got?
            && (|| Holds(reply.v, "jobs", Arr(jobs))
                || (jobs == [] && forall items :: !Holds(reply.v, "jobs", Arr(items))))
  {
    if reply.Got? {
      AccessorsExact(reply.v, "jobs");
    }
  }

  /** What the MCP is asked in an iteration, in terms of the job that was picked from the
      board and of the configuration: to sign in the wallet's own key, to open a session for
      that job's parcel with that job's brief, and nothing after the budget has run out. */
  lemma {:induction false} SessionForJob(steps: seq<Builder.Step>, before: nat, e: seq<Effect>, cfg: WorkCfg,
      wallet: Wallet, f: Foreign, r: Result<Option<Submission>>) returns (job: SelectedJob)
    requires Iterates(steps, before, e, cfg, wallet, f, r) && steps != []
    ensures JobsOf(e[0].reply).Ok? && Selected(JobsOf(e[0].reply).value, wallet.pubkey, cfg, f.size) == Some(job)
    ensures steps[0].Call? && steps[0].request == Builder.AuthChallenge(wallet.pubkey)
    ensures |steps| > 1 ==>
              && steps[1].Call? && steps[1].request.AuthVerify? && steps[1].request.pubkey == wallet.pubkey
              && steps[0].reply.Some? && Holds(steps[0].reply.value, "message", Str(steps[1].request.message))
              && Base58.Decode(steps[1].request.signature) == Some(wallet.sign(Utf8(steps[1].request.message)))
    ensures |steps| > 2 ==> steps[2].Call? && steps[2].request == Builder.Create(job.parcelUid, job.brief)
    ensures forall k :: 3 <= k < |steps| && steps[k].Call? && steps[k].request.Status? ==>
              steps[k].at - steps[2].done < cfg.budgetSecs * 1_000_000_000
  {
    job := IterationOrder(steps, before, e, cfg, wallet, f, r);
    CallsForMission(steps, MissionOf(job, cfg, wallet));
  }

  lemma {:induction false} CallsForMission(steps: seq<Builder.Step>, m: Builder.Mission)
    requires Builder.Protocol(steps, m) && steps != []
    ensures steps[0].Call? && steps[0].request == Builder.AuthChallenge(m.pubkey)
    ensures |steps| > 1 ==>
              && steps[1].Call? && steps[1].request.AuthVerify? && steps[1].request.pubkey == m.pubkey
              && steps[0].reply.Some? && Holds(steps[0].reply.value, "message", Str(steps[1].request.message))
              && Base58.Decode(steps[1].request.signature) == Some(m.sign(Utf8(steps[1].request.message)))
    ensures |steps| > 2 ==> steps[2].Call? && steps[2].request == Builder.Create(m.parcelUid, m.brief)
    ensures forall k :: 3 <= k < |steps| && steps[k].Call? && steps[k].request.Status? ==>
              steps[k].at - steps[2].done < m.budget * 1_000_000_000
  {
    BuilderProperties.OpeningMeans(steps, m);
    forall k | 3 <= k < |steps| && steps[k].Call? && steps[k].request.Status?
      ensures steps[k].at - steps[2].done < m.budget * 1_000_000_000
    {
      BuilderProperties.StillWithin(steps, m, k);
    }
  }

  lemma {:induction false} PromotedSid(steps: seq<Builder.Step>, m: Builder.Mission, sid: string)
    requires Builder.Protocol(steps, m) && |steps| >= 2
    requires steps[|steps| - 1].Call? && steps[|steps| - 1].request == Builder.Promote(sid)
    ensures |steps| > 3 && steps[2].Call? && steps[2].reply.Some? && Holds(steps[2].reply.value, "session_id", Str(sid))
  {
    BuilderProperties.PromotionIsLast(steps, m, |steps| - 1);
    var session := BuilderProperties.SessionMeans(steps, m, |steps| - 1);
  }

  /** The session that is promoted is the one that was opened, for the parcel and with the
      brief of the picked job. */
  lemma {:induction false} PromotedSession(steps: seq<Builder.Step>, before: nat, e: seq<Effect>, cfg: WorkCfg,
      wallet: Wallet, f: Foreign, r: Result<Option<Submission>>, sid: string) returns (job: SelectedJob)
    requires Iterates(steps, before, e, cfg, wallet, f, r) && |steps| >= 2
    requires steps[|steps| - 1].Call? && steps[|steps| - 1].request == Builder.Promote(sid)
    ensures JobsOf(e[0].reply).Ok? && Selected(JobsOf(e[0].reply).value, wallet.pubkey, cfg, f.size) == Some(job)
    ensures |steps| > 3 && steps[2].Call? && steps[2].request == Builder.Create(job.parcelUid, job.brief)
    ensures steps[2].reply.Some? && Holds(steps[2].reply.value, "session_id", Str(sid))
  {
    job := SessionForJob(steps, before, e, cfg, wallet, f, r);
    var picked := IterationOrder(steps, before, e, cfg, wallet, f, r);
    PromotedSid(steps, MissionOf(picked, cfg, wallet), sid);
  }

  /** The hash that is submitted commits to a proof of exactly these fields, signed over its
      own canonical body. */
  ghost predicate Commits(hash: string, task: string, artifact: string, sid: string, cfg: WorkCfg, wallet: Wallet,
      f: Foreign)
  {
    exists p: Proof.SignedProof ::
      && hash == Hex.Encode(f.sha(Proof.SignedBytes(p)))
      && p.body == Proof.ProofInput(task, wallet.pubkey, cfg.model, sid, wallet.pubkey, 0, "", true, artifact, f.now)
      && p.signature == Hex.Encode(wallet.sign(Proof.BodyBytes(p.body)))
  }

  lemma {:induction false} ProofHashCommits(task: string, artifact: string, sid: string, cfg: WorkCfg, wallet: Wallet,
      f: Foreign)
    ensures Commits(ProofHash(task, artifact, MetaOf(sid, cfg, wallet, f.now), wallet, f.sha), task, artifact, sid,
            cfg, wallet, f)
  {
    var p := Proof.BuildWorkerProof(InputOf(task, artifact, MetaOf(sid, cfg, wallet, f.now)), wallet.sign, f.sha).0;
    assert p.body == Proof.ProofInput(task, wallet.pubkey, cfg.model, sid, wallet.pubkey, 0, "", true, artifact, f.now);
  }

  /** The claim and the submission both went out, after `n` steps of the MCP, and are
      different transactions. */
  ghost predicate BothSent(e: seq<Effect>, n: nat, claim: BuildRequest, submit: BuildRequest) {
    && InSettlingOrder(e, n, claim, submit)
    && |e| == 4 && Landed(e[1].reply) && Landed(e[3].reply) && e[1].text != e[3].text
  }

  lemma {:induction false} AllFourSent(e: seq<Effect>, n: nat, claim: BuildRequest, submit: BuildRequest)
    requires InSettlingOrder(e, n, claim, submit) && |e| == 4 && Landed(e[3].reply)
    ensures BothSent(e, n, claim, submit)
  {
    GuardsExclude(e[1].text, CLAIM_DISC, SUBMIT_DISC);
  }

  /** What the effects after the board come to in an iteration that returns a result. */
  ghost predicate Paid(steps: seq<Builder.Step>, before: nat, tail: seq<Effect>, cfg: WorkCfg, wallet: Wallet,
      f: Foreign, sub: Submission, sid: string)
  {
    && BothSent(tail, before + |steps|, ClaimTx(sub.taskPda, wallet.pubkey),
                SubmitTx(sub.taskPda, wallet.pubkey, sub.proofHash, "artifact:sha256:" + sub.artifactSha256))
    && Commits(sub.proofHash, sub.taskPda, sub.artifactSha256, sid, cfg, wallet, f)
    && Promotes(steps, sid, sub.artifactSha256, f)
  }

  lemma {:induction false} SettledIsPaid(steps: seq<Builder.Step>, before: nat, tail: seq<Effect>, job: SelectedJob,
      cfg: WorkCfg, wallet: Wallet, f: Foreign, sub: Submission, sid: string, artifact: string)
    requires SettlesAfter(steps, before, tail, job, cfg, wallet, f, Ok(Some(sub)), sid, artifact)
    ensures Paid(steps, before, tail, cfg, wallet, f, sub, sid)
  {
    var submit := SubmitOf(job.taskPda, artifact, MetaOf(sid, cfg, wallet, f.now), wallet, f.sha);
    ProofHashCommits(job.taskPda, artifact, sid, cfg, wallet, f);
    AllFourSent(tail, before + |steps|, ClaimOf(job.taskPda, wallet), submit);
  }

  /** A returned result means that both transactions went out, after the last step of the
      MCP, and that the submission was requested with the commitment to a proof over that same
      task, over the session that was promoted, and over the hash of the files that it was
      promoted with. */
  lemma {:induction false} ResultMeansSettled(steps: seq<Builder.Step>, before: nat, e: seq<Effect>, cfg: WorkCfg,
      wallet: Wallet, f: Foreign, sub: Submission) returns (sid: string)
    requires Iterates(steps, before, e, cfg, wallet, f, Ok(Some(sub)))
    ensures Paid(steps, before, e[1..], cfg, wallet, f, sub, sid)
  {
    var job := IterationOrder(steps, before, e, cfg, wallet, f, Ok(Some(sub)));
    var session, artifact :|
      SettlesAfter(steps, before, e[1..], job, cfg, wallet, f, Ok(Some(sub)), session, artifact);
    SettledIsPaid(steps, before, e[1..], job, cfg, wallet, f, sub, session, artifact);
    sid := session;
  }
}
