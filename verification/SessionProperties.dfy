/** What a whole session sends, in order (src/run.rs). */
module SessionProperties {
  import opened Text
  import opened Sequences
  import opened Lines
  import opened Json
  import opened Protocol
  import opened Output
  import opened StreamJob
  import opened Session
  import opened SessionLog
  import Base58

  // ------------------------------------------------------------------ the frames owed

  /** The jobs that the job loop takes up, if it reads at most `patience` messages
      before it is interrupted. */
  function Jobs(p: Plan, i: nat, patience: nat): seq<ServerFrame>
    requires i <= |p.inbox|
    ensures forall job :: job in Jobs(p, i, patience) ==> job.Job?
    decreases |p.inbox| - i
  {
    if patience == 0 || i == |p.inbox| || p.inbox[i].Closing? || p.inbox[i].Failing? then []
    else
      var rest := Jobs(p, i + 1, patience - 1);
      if TakesJob(p, i) then [JobAt(p, i)] + rest else rest
  }

  /** Is the job loop ended by an interrupt, rather than by the stream? */
  function Interrupted(inbox: seq<Incoming>, i: nat, patience: nat): bool
    requires i <= |inbox|
    decreases |inbox| - i
  {
    patience == 0 ||
    (i < |inbox| && !inbox[i].Closing? && !inbox[i].Failing? && Interrupted(inbox, i + 1, patience - 1))
  }

  /** The frames of the jobs, one block after the other; `k` is the number of the first. */
  function Blocks(jobs: seq<ServerFrame>, k: nat, answer: (nat, string) -> seq<ClientFrame>): seq<seq<ClientFrame>>
    requires forall job :: job in jobs ==> job.Job?
  {
    if jobs == [] then [] else [answer(k, jobs[0].jobId)] + Blocks(jobs[1..], k + 1, answer)
  }

  function Flatten<T>(blocks: seq<seq<T>>): seq<T> {
    if blocks == [] then [] else blocks[0] + Flatten(blocks[1..])
  }

  lemma {:induction false} FlattenCons<T>(block: seq<T>, blocks: seq<seq<T>>)
    ensures Flatten([block] + blocks) == block + Flatten(blocks)
  {
    assert ([block] + blocks)[1..] == blocks;
  }

  function JobBlocks(p: Plan, jobs: seq<ServerFrame>, k: nat): seq<ClientFrame>
    requires forall job :: job in jobs ==> job.Job?
  {
    Flatten(Blocks(jobs, k, p.answer))
  }

  lemma JobBlocksCons(p: Plan, job: ServerFrame, jobs: seq<ServerFrame>, k: nat)
    requires job.Job? && forall job :: job in jobs ==> job.Job?
    ensures JobBlocks(p, [job] + jobs, k) == p.answer(k, job.jobId) + JobBlocks(p, jobs, k + 1)
  {
    assert ([job] + jobs)[1..] == jobs;
    FlattenCons(p.answer(k, job.jobId), Blocks(jobs, k + 1, p.answer));
  }

  /** What the job loop owes. */
  function WorkFrames(p: Plan, i: nat, patience: nat, k: nat): seq<ClientFrame>
    requires i <= |p.inbox|
  {
    JobBlocks(p, Jobs(p, i, patience), k) + if Interrupted(p.inbox, i, patience) then [Close] else []
  }

  /** The job blocks, if the gateway says it is ready. */
  function ReadyFrames(p: Plan, i: nat): seq<ClientFrame>
    requires i <= |p.inbox|
  {
    match Await(p.inbox, i, true, p.frame)
    case Got(_, j) => WorkFrames(p, j, p.patience, 0)
    case _ => []
  }

  /** Everything a session owes the gateway: one auth frame once a valid challenge is
      there, and the job blocks once the gateway is ready. */
  function SessionFrames(p: Plan, node: Node): seq<ClientFrame> {
    match Await(p.inbox, 0, false, p.frame)
    case Got(nonce, i) =>
      (match Base58.ValidateNonce(nonce)
       case Ok(bytes) => [AuthFrame(node, bytes)] + ReadyFrames(p, i)
       case _ => [])
    case _ => []
  }

  lemma CutConcat(a: seq<ClientFrame>, b: seq<ClientFrame>, room: nat)
    ensures Cut(a + b, room) == if |a| <= room then a + Cut(b, room - |a|) else a[..room]
  {
  }

  lemma FramesOfActs(frames: seq<ClientFrame>)
    ensures Collect(Acts(frames), FrameOf) == frames
  {
    CollectAll(Acts(frames), FrameOf, frames);
  }

  lemma FramesOfJob(p: Plan, job: ServerFrame, k: nat, room: nat, message: Incoming)
    requires job.Job?
    ensures Collect([Received(message)] + JobActs(p, job, k, room), FrameOf)
            == Cut(p.answer(k, job.jobId), room)
  {
    var sent := Cut(p.answer(k, job.jobId), room);
    var posted := Posted(job.jobId, p.clean(job.body));
    CollectCons(Received(message), [posted] + Acts(sent), FrameOf);
    CollectCons(posted, Acts(sent), FrameOf);
    FramesOfActs(sent);
  }

  lemma FramesHeard(message: Incoming, acts: seq<Act>)
    ensures Collect([Received(message)] + acts, FrameOf) == Collect(acts, FrameOf)
  {
    CollectCons(Received(message), acts, FrameOf);
  }

  /** What one message of the job loop contributes. */
  lemma WorkFramesStep(p: Plan, i: nat, patience: nat, k: nat)
    requires i < |p.inbox| && patience > 0 && !p.inbox[i].Closing? && !p.inbox[i].Failing?
    ensures WorkFrames(p, i, patience, k) ==
            if TakesJob(p, i)
            then p.answer(k, JobAt(p, i).jobId) + WorkFrames(p, i + 1, patience - 1, k + 1)
            else WorkFrames(p, i + 1, patience - 1, k)
  {
    if TakesJob(p, i) {
      var job, jobs := JobAt(p, i), Jobs(p, i + 1, patience - 1);
      JobBlocksCons(p, job, jobs, k);
      Assoc(p.answer(k, job.jobId), JobBlocks(p, jobs, k + 1),
            if Interrupted(p.inbox, i, patience) then [Close] else []);
    }
  }

  lemma FramesOfWorkEnd(p: Plan, i: nat, patience: nat, k: nat, room: nat)
    requires i <= |p.inbox|
    requires patience == 0 || i == |p.inbox| || p.inbox[i].Closing? || p.inbox[i].Failing?
    ensures Sends(WorkCourse(p, i, patience, k, room).acts, WorkFrames(p, i, patience, k), room)
  {
    var acts := WorkCourse(p, i, patience, k, room).acts;
    if patience == 0 {
      assert WorkFrames(p, i, patience, k) == [Close];
      if room > 0 { CollectAll(acts, FrameOf, [Close]); }
    } else {
      CollectNone(acts, FrameOf);
    }
  }

  /** One more job in front of what the socket cuts off. */
  lemma SendsPrepend(did: seq<Act>, owed: seq<ClientFrame>, rest: seq<Act>, more: seq<ClientFrame>, room: nat)
    requires |owed| <= room && Sends(did, owed, room) && Sends(rest, more, room - |owed|)
    ensures Sends(did + rest, owed + more, room)
  {
    CollectConcat(did, rest, FrameOf);
    CutConcat(owed, more, room);
  }

  /** The course and what is owed, when the next message hands over a job. */
  lemma JobFirst(p: Plan, i: nat, patience: nat, k: nat, room: nat, owed: seq<ClientFrame>, did: seq<Act>)
    requires i < |p.inbox| && patience > 0 && TakesJob(p, i)
    requires owed == p.answer(k, JobAt(p, i).jobId)
    requires did == [Received(p.inbox[i])] + JobActs(p, JobAt(p, i), k, room)
    ensures WorkFrames(p, i, patience, k) == owed + WorkFrames(p, i + 1, patience - 1, k + 1)
    ensures WorkCourse(p, i, patience, k, room) ==
            if |owed| > room then Course(did, i + 1, Disconnected)
            else Then(did, WorkCourse(p, i + 1, patience - 1, k + 1, room - |owed|))
    ensures Sends(did, owed, room)
  {
    WorkFramesStep(p, i, patience, k);
    FramesOfJob(p, JobAt(p, i), k, room, p.inbox[i]);
  }

  lemma {:induction false} FramesOfWork(p: Plan, i: nat, patience: nat, k: nat, room: nat)
    requires i <= |p.inbox|
    ensures Sends(WorkCourse(p, i, patience, k, room).acts, WorkFrames(p, i, patience, k), room)
    decreases |p.inbox| - i
  {
    if patience == 0 || i == |p.inbox| || p.inbox[i].Closing? || p.inbox[i].Failing? {
      FramesOfWorkEnd(p, i, patience, k, room);
    } else if TakesJob(p, i) {
      var owed := p.answer(k, JobAt(p, i).jobId);
      if |owed| <= room {
        FramesOfWork(p, i + 1, patience - 1, k + 1, room - |owed|);
      }
      FramesOfJobFirst(p, i, patience, k, room, owed);
    } else {
      FramesOfWork(p, i + 1, patience - 1, k, room);
      WorkFramesStep(p, i, patience, k);
      FramesHeard(p.inbox[i], WorkCourse(p, i + 1, patience - 1, k, room).acts);
    }
  }

  lemma FramesOfJobFirst(p: Plan, i: nat, patience: nat, k: nat, room: nat, owed: seq<ClientFrame>)
    requires i < |p.inbox| && patience > 0 && TakesJob(p, i)
    requires owed == p.answer(k, JobAt(p, i).jobId)
    requires |owed| <= room ==> Sends(WorkCourse(p, i + 1, patience - 1, k + 1, room - |owed|).acts,
                                      WorkFrames(p, i + 1, patience - 1, k + 1), room - |owed|)
    ensures Sends(WorkCourse(p, i, patience, k, room).acts, WorkFrames(p, i, patience, k), room)
  {
    var did := [Received(p.inbox[i])] + JobActs(p, JobAt(p, i), k, room);
    JobFirst(p, i, patience, k, room, owed, did);
    if |owed| <= room {
      SendsPrepend(did, owed, WorkCourse(p, i + 1, patience - 1, k + 1, room - |owed|).acts,
                   WorkFrames(p, i + 1, patience - 1, k + 1), room);
    } else {
      CutConcat(owed, WorkFrames(p, i + 1, patience - 1, k + 1), room);
    }
  }

  lemma FramesAfterHearing(inbox: seq<Incoming>, i: nat, j: nat, acts: seq<Act>)
    requires i <= j <= |inbox|
    ensures Collect(Hearing(inbox, i, j) + acts, FrameOf) == Collect(acts, FrameOf)
    ensures Collect(Hearing(inbox, i, j), FrameOf) == []
  {
    CollectNone(Hearing(inbox, i, j), FrameOf);
    CollectConcat(Hearing(inbox, i, j), acts, FrameOf);
  }

  lemma FramesOfReady(p: Plan, i: nat, room: nat)
    requires i <= |p.inbox|
    ensures Sends(ReadyCourse(p, i, room).acts, ReadyFrames(p, i), room)
  {
    var w := Await(p.inbox, i, true, p.frame);
    FramesAfterHearing(p.inbox, i, w.next, []);
    if w.Got? {
      FramesOfWork(p, w.next, p.patience, 0, room);
      FramesAfterHearing(p.inbox, i, w.next, WorkCourse(p, w.next, p.patience, 0, room).acts);
    }
  }

  lemma SignedThenSent(message: seq<byte>, auth: ClientFrame, acts: seq<Act>)
    ensures Collect([Signed(message), Sent(auth)] + acts, FrameOf) == [auth] + Collect(acts, FrameOf)
  {
    CollectCons(Signed(message), [Sent(auth)] + acts, FrameOf);
    CollectCons(Sent(auth), acts, FrameOf);
    assert [Signed(message)] + ([Sent(auth)] + acts) == [Signed(message), Sent(auth)] + acts;
  }

  lemma FramesOfAuth(p: Plan, node: Node, nonce: seq<byte>, i: nat, room: nat)
    requires i <= |p.inbox|
    ensures Sends(AuthCourse(p, node, nonce, i, room).acts, [AuthFrame(node, nonce)] + ReadyFrames(p, i), room)
  {
    CutConcat([AuthFrame(node, nonce)], ReadyFrames(p, i), room);
    if room == 0 {
      CollectNone([Signed(AuthMessage(nonce))], FrameOf);
    } else {
      FramesOfReady(p, i, room - 1);
      SignedThenSent(AuthMessage(nonce), AuthFrame(node, nonce), ReadyCourse(p, i, room - 1).acts);
    }
  }

  /** What a session sends is what it owes, cut off where the socket died. */
  lemma FramesOfSession(p: Plan, node: Node, room: nat)
    ensures Sends(SessionCourse(p, node, room).acts, SessionFrames(p, node), room)
  {
    var w := Await(p.inbox, 0, false, p.frame);
    FramesAfterHearing(p.inbox, 0, w.next, []);
    if w.Got? {
      var nonce := Base58.ValidateNonce(w.nonce);
      if nonce.Ok? {
        FramesOfAuth(p, node, nonce.bytes, w.next, room);
        FramesAfterHearing(p.inbox, 0, w.next, AuthCourse(p, node, nonce.bytes, w.next, room).acts);
      }
    }
  }

  // ----------------------------------------------------------------------- the outcome

  /** The socket has to outlive every job block for the interrupt to be reached. */
  function WorkOutcome(p: Plan, i: nat, patience: nat, k: nat, room: nat): Outcome
    requires i <= |p.inbox|
  {
    if Interrupted(p.inbox, i, patience) && |JobBlocks(p, Jobs(p, i, patience), k)| <= room then Shutdown
    else Disconnected
  }

  lemma {:induction false} OutcomeOfWork(p: Plan, i: nat, patience: nat, k: nat, room: nat)
    requires i <= |p.inbox|
    ensures WorkCourse(p, i, patience, k, room).outcome == WorkOutcome(p, i, patience, k, room)
    decreases |p.inbox| - i
  {
    if patience > 0 && i < |p.inbox| && !p.inbox[i].Closing? && !p.inbox[i].Failing? {
      if TakesJob(p, i) {
        var owed := |p.answer(k, JobAt(p, i).jobId)|;
        JobBlocksCons(p, JobAt(p, i), Jobs(p, i + 1, patience - 1), k);
        if owed <= room {
          OutcomeOfWork(p, i + 1, patience - 1, k + 1, room - owed);
        }
      } else {
        OutcomeOfWork(p, i + 1, patience - 1, k, room);
      }
    }
  }

  function SessionOutcome(p: Plan, room: nat): Outcome {
    match Await(p.inbox, 0, false, p.frame)
    case Lost(_) => Disconnected
    case Refusal(reason, _) => Outcome.Rejected(reason)
    case Got(nonce, i) =>
      if !Base58.ValidateNonce(nonce).Ok? || room == 0 then Disconnected
      else
        match Await(p.inbox, i, true, p.frame)
        case Lost(_) => Disconnected
        case Refusal(reason, _) => Outcome.Rejected(reason)
        case Got(_, j) => WorkOutcome(p, j, p.patience, 0, room - 1)
  }

  /** A session ends as rejected exactly by a rejection during the handshake, as a shutdown
      exactly if it was interrupted with every job answered in full, and otherwise as
      disconnected. */
  lemma OutcomeOfSession(p: Plan, node: Node, room: nat)
    ensures SessionCourse(p, node, room).outcome == SessionOutcome(p, room)
  {
    var challenge := Await(p.inbox, 0, false, p.frame);
    if challenge.Got? && room > 0 {
      var ready := Await(p.inbox, challenge.next, true, p.frame);
      if ready.Got? {
        OutcomeOfWork(p, ready.next, p.patience, 0, room - 1);
      }
    }
  }

  // ---------------------------------------------------------------------- the language

  /** A finished job: chunks, and then one terminal frame, all under one id. */
  predicate IsBlock(frames: seq<ClientFrame>, jobId: string) {
    |frames| >= 1
    && (forall i :: 0 <= i < |frames| - 1 ==> frames[i].Chunk? && frames[i].jobId == jobId)
    && var last := frames[|frames| - 1];
       (last.Done? || last.JobError?) && last.jobId == jobId
  }

  /** A job that was cut off: chunks only. */
  predicate IsCutBlock(frames: seq<ClientFrame>, jobId: string) {
    forall i :: 0 <= i < |frames| ==> frames[i].Chunk? && frames[i].jobId == jobId
  }

  lemma {:induction false} AnswerIsBlock(events: seq<SseEvent>, jobId: string, total: nat, usage: Option<Value>,
      finish: Finish)
    ensures IsBlock(Answer(events, jobId, total, usage, finish), jobId)
  {
    if events != [] {
      match events[0] {
        case Delta(text) =>
          var total' := if text == "" then total else SaturatingAdd(total, ByteLen(text));
          AnswerIsBlock(events[1..], jobId, total', usage, finish);
        case Usage(u) => AnswerIsBlock(events[1..], jobId, total, Some(u), finish);
        case Stop =>
        case Other => AnswerIsBlock(events[1..], jobId, total, usage, finish);
      }
    }
  }

  lemma JobIsBlock(up: Upstream, jobId: string, parse: Parser)
    ensures IsBlock(JobFrames(up, jobId, parse), jobId)
  {
    match up
    case Streaming(chunks, ending) =>
      AnswerIsBlock(Events(Complete(ReadText(chunks)), parse), jobId, 0, None, FinishOf(chunks, ending));
    case _ =>
  }

  /** A session: nothing, or one auth frame and then the jobs in order, one block each.
      A block may be missing, or be cut off after some chunks, only at the end and only
      if the socket died; a close frame may follow the last block. */
  ghost predicate IsSession(frames: seq<ClientFrame>, ids: seq<string>, died: bool) {
    frames == [] || (frames[0].Auth? && IsJobs(frames[1..], ids, died))
  }

  ghost predicate IsJobs(frames: seq<ClientFrame>, ids: seq<string>, died: bool)
    decreases |ids|
  {
    if ids == [] then frames == [] || frames == [Close]
    else
      || (exists n: nat :: n <= |frames| && IsBlock(frames[..n], ids[0]) && IsJobs(frames[n..], ids[1..], died))
      || (died && IsCutBlock(frames, ids[0]))
  }

  function Ids(jobs: seq<ServerFrame>): seq<string>
    requires forall job :: job in jobs ==> job.Job?
  {
    if jobs == [] then [] else [jobs[0].jobId] + Ids(jobs[1..])
  }

  lemma IsJobsCons(block: seq<ClientFrame>, rest: seq<ClientFrame>, id: string, ids: seq<string>, died: bool)
    requires IsBlock(block, id) && IsJobs(rest, ids, died)
    ensures IsJobs(block + rest, [id] + ids, died)
  {
    var frames, n := block + rest, |block|;
    assert frames[..n] == block && frames[n..] == rest && ([id] + ids)[1..] == ids;
  }

  lemma BlockCut(block: seq<ClientFrame>, room: nat, id: string, ids: seq<string>)
    requires IsBlock(block, id) && room < |block|
    ensures IsJobs(block[..room], [id] + ids, true)
  {
    assert IsCutBlock(block[..room], id);
  }

  /** One more block in front of what the socket cuts off. */
  lemma CutBlock(block: seq<ClientFrame>, rest: seq<ClientFrame>, end: seq<ClientFrame>, room: nat, id: string,
      ids: seq<string>)
    requires IsBlock(block, id)
    requires |block| <= room ==> IsJobs(Cut(rest + end, room - |block|), ids, |rest| > room - |block|)
    ensures IsJobs(Cut(block + rest + end, room), [id] + ids, |block + rest| > room)
  {
    Assoc(block, rest, end);
    CutConcat(block, rest + end, room);
    if |block| <= room {
      IsJobsCons(block, Cut(rest + end, room - |block|), id, ids, |rest| > room - |block|);
    } else {
      BlockCut(block, room, id, ids);
    }
  }

  /** The plan answers every job with a block. */
  ghost predicate InBlocks(p: Plan) {
    forall k, id :: IsBlock(p.answer(k, id), id)
  }

  lemma PlanInBlocks(s: Script, model: string)
    ensures InBlocks(PlanOf(s, model))
  {
    forall k: nat, id ensures IsBlock(PlanOf(s, model).answer(k, id), id) {
      JobIsBlock(s.upstream(k), id, s.parse);
    }
  }

  lemma CutNothing(end: seq<ClientFrame>, room: nat)
    requires end == [] || end == [Close]
    ensures IsJobs(Cut([] + end, room), [], false)
  {
  }

  lemma CutFirst(p: Plan, jobs: seq<ServerFrame>, k: nat, end: seq<ClientFrame>, room: nat, rest: seq<ClientFrame>)
    requires InBlocks(p) && jobs != [] && forall job :: job in jobs ==> job.Job?
    requires rest == JobBlocks(p, jobs[1..], k + 1)
    requires var first := |p.answer(k, jobs[0].jobId)|;
             first <= room ==> IsJobs(Cut(rest + end, room - first), Ids(jobs[1..]), |rest| > room - first)
    ensures IsJobs(Cut(JobBlocks(p, jobs, k) + end, room), Ids(jobs), |JobBlocks(p, jobs, k)| > room)
  {
    assert jobs == [jobs[0]] + jobs[1..];
    JobBlocksCons(p, jobs[0], jobs[1..], k);
    CutBlock(p.answer(k, jobs[0].jobId), rest, end, room, jobs[0].jobId, Ids(jobs[1..]));
  }

  lemma {:induction false} CutJobs(p: Plan, jobs: seq<ServerFrame>, k: nat, end: seq<ClientFrame>, room: nat)
    requires InBlocks(p) && (forall job :: job in jobs ==> job.Job?) && (end == [] || end == [Close])
    ensures IsJobs(Cut(JobBlocks(p, jobs, k) + end, room), Ids(jobs), |JobBlocks(p, jobs, k)| > room)
    decreases |jobs|
  {
    if jobs == [] {
      CutNothing(end, room);
    } else {
      var first := |p.answer(k, jobs[0].jobId)|;
      if first <= room {
        CutJobs(p, jobs[1..], k + 1, end, room - first);
      }
      CutFirst(p, jobs, k, end, room, JobBlocks(p, jobs[1..], k + 1));
    }
  }

  /** The ids of the jobs that a session takes up. */
  function SessionIds(p: Plan): seq<string> {
    match Await(p.inbox, 0, false, p.frame)
    case Got(_, i) =>
      (match Await(p.inbox, i, true, p.frame)
       case Got(_, j) => Ids(Jobs(p, j, p.patience))
       case _ => [])
    case _ => []
  }

  /** The socket was asked to carry more than it took, not counting a close frame. */
  function Died(p: Plan, node: Node, room: nat): bool {
    var owed := SessionFrames(p, node);
    |if owed != [] && owed[|owed| - 1].Close? then owed[..|owed| - 1] else owed| > room
  }

  lemma {:induction false} NoClose(p: Plan, jobs: seq<ServerFrame>, k: nat)
    requires InBlocks(p) && forall job :: job in jobs ==> job.Job?
    ensures Close !in JobBlocks(p, jobs, k)
  {
    if jobs != [] {
      assert jobs == [jobs[0]] + jobs[1..] && IsBlock(p.answer(k, jobs[0].jobId), jobs[0].jobId);
      JobBlocksCons(p, jobs[0], jobs[1..], k);
      NoClose(p, jobs[1..], k + 1);
    }
  }

  /** Without its close frame, if it has one. */
  lemma UnclosedLength(auth: ClientFrame, blocks: seq<ClientFrame>, end: seq<ClientFrame>)
    requires auth.Auth? && Close !in blocks && (end == [] || end == [Close])
    ensures var owed := [auth] + (blocks + end);
            |if owed[|owed| - 1].Close? then owed[..|owed| - 1] else owed| == 1 + |blocks|
  {
    var owed := [auth] + (blocks + end);
    if end == [] && blocks != [] {
      assert owed[|owed| - 1] == blocks[|blocks| - 1];
    }
  }

  lemma AuthThenJobs(auth: ClientFrame, rest: seq<ClientFrame>, ids: seq<string>, room: nat, died: bool)
    requires auth.Auth? && (room > 0 ==> IsJobs(Cut(rest, room - 1), ids, died))
    ensures IsSession(Cut([auth] + rest, room), ids, died)
  {
    CutConcat([auth], rest, room);
    if room > 0 {
      assert Cut([auth] + rest, room)[1..] == Cut(rest, room - 1);
    }
  }

  lemma ReadySession(p: Plan, auth: ClientFrame, j: nat, room: nat)
    requires InBlocks(p) && j <= |p.inbox| && auth.Auth?
    ensures var jobs := Jobs(p, j, p.patience);
            && IsSession(Cut([auth] + WorkFrames(p, j, p.patience, 0), room), Ids(jobs),
                         |JobBlocks(p, jobs, 0)| + 1 > room)
            && var owed := [auth] + WorkFrames(p, j, p.patience, 0);
               |if owed[|owed| - 1].Close? then owed[..|owed| - 1] else owed| == 1 + |JobBlocks(p, jobs, 0)|
  {
    var jobs := Jobs(p, j, p.patience);
    var blocks, end := JobBlocks(p, jobs, 0), if Interrupted(p.inbox, j, p.patience) then [Close] else [];
    NoClose(p, jobs, 0);
    UnclosedLength(auth, blocks, end);
    if room > 0 {
      CutJobs(p, jobs, 0, end, room - 1);
    }
    AuthThenJobs(auth, blocks + end, Ids(jobs), room, |blocks| + 1 > room);
  }

  lemma FramesAreSession(p: Plan, node: Node, room: nat)
    requires InBlocks(p)
    ensures IsSession(Cut(SessionFrames(p, node), room), SessionIds(p), Died(p, node, room))
  {
    var owed := SessionFrames(p, node);
    if owed != [] {
      var i := Await(p.inbox, 0, false, p.frame).next;
      var ready := Await(p.inbox, i, true, p.frame);
      if ready.Got? {
        ReadySession(p, owed[0], ready.next, room);
      } else {
        AuthThenJobs(owed[0], [], [], room, Died(p, node, room));
      }
    }
  }

  lemma ShutdownAnswered(p: Plan, node: Node, room: nat)
    requires InBlocks(p) && SessionOutcome(p, room) == Shutdown
    ensures !Died(p, node, room)
  {
    var challenge := Await(p.inbox, 0, false, p.frame);
    var ready := Await(p.inbox, challenge.next, true, p.frame);
    ReadySession(p, SessionFrames(p, node)[0], ready.next, room);
  }

  /** Against any gateway and any upstream, and whenever the socket dies, a session sends
      the session language, for the ids of the jobs in the order they came; and a session
      that ends by an interrupt has answered every job in full. */
  lemma SessionLanguage(p: Plan, node: Node, room: nat)
    requires InBlocks(p)
    ensures IsSession(Collect(SessionCourse(p, node, room).acts, FrameOf), SessionIds(p), Died(p, node, room))
    ensures SessionCourse(p, node, room).outcome == Shutdown ==> !Died(p, node, room)
  {
    FramesOfSession(p, node, room);
    FramesAreSession(p, node, room);
    OutcomeOfSession(p, node, room);
    if SessionOutcome(p, room) == Shutdown {
      ShutdownAnswered(p, node, room);
    }
  }

  // ------------------------------------------------------- what of a gateway's text matters

  /** Two plans that differ in how texts are read, but not for any text that arrives. */
  ghost predicate ReadAlike(p: Plan, q: Plan) {
    && q == p.(frame := q.frame)
    && forall i :: 0 <= i < |p.inbox| && p.inbox[i].Text? ==> p.frame(p.inbox[i].txt) == q.frame(p.inbox[i].txt)
  }

  lemma {:induction false} AwaitAlike(p: Plan, q: Plan, i: nat, ready: bool)
    requires ReadAlike(p, q) && i <= |p.inbox|
    ensures Await(p.inbox, i, ready, p.frame) == Await(q.inbox, i, ready, q.frame)
    decreases |p.inbox| - i
  {
    if i < |p.inbox| {
      AwaitAlike(p, q, i + 1, ready);
    }
  }

  lemma {:induction false} WorkAlike(p: Plan, q: Plan, i: nat, patience: nat, k: nat, room: nat)
    requires ReadAlike(p, q) && i <= |p.inbox|
    ensures WorkCourse(p, i, patience, k, room) == WorkCourse(q, i, patience, k, room)
    decreases |p.inbox| - i
  {
    if patience > 0 && i < |p.inbox| {
      WorkAlike(p, q, i + 1, patience - 1, k, room);
      if TakesJob(p, i) {
        var owed := |p.answer(k, JobAt(p, i).jobId)|;
        if owed <= room {
          WorkAlike(p, q, i + 1, patience - 1, k + 1, room - owed);
        }
      }
    }
  }

  /** A session depends on how texts are read only through the frames of those that arrive. */
  lemma OnlyFramesMatter(p: Plan, q: Plan, node: Node, room: nat)
    requires ReadAlike(p, q)
    ensures SessionCourse(p, node, room) == SessionCourse(q, node, room)
  {
    var challenge := Await(p.inbox, 0, false, p.frame);
    AwaitAlike(p, q, 0, false);
    AwaitAlike(p, q, challenge.next, true);
    if room > 0 {
      WorkAlike(p, q, Await(p.inbox, challenge.next, true, p.frame).next, p.patience, 0, room - 1);
    }
  }
}
