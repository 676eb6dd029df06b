/** One gateway session: the handshake, and then the job loop (src/run.rs). */
module Session {
  import opened Text
  import opened Sequences
  import opened Json
  import opened Protocol
  import opened StreamJob
  import Base58
  import JobBody

  datatype Outcome = Disconnected | Rejected(reason: string) | Shutdown

  /** The node's identity. Signing and the text form of signatures are foreign. */
  datatype Node = Node(pubkey: string, walletPubkey: string, model: string, sign: seq<byte> -> string)

  /** `nexus-compute-node-auth:v1` and a line feed. */
  const AUTH_DOMAIN_TAG: seq<byte> :=
      [110, 101, 120, 117, 115, 45, 99, 111, 109, 112, 117, 116, 101, 45, 110, 111, 100, 101,
       45, 97, 117, 116, 104, 58, 118, 49, 10]

  /** It is that text, byte by byte. */
  lemma DomainTag()
    ensures var text := "nexus-compute-node-auth:v1\n";
            |AUTH_DOMAIN_TAG| == |text| && forall i :: 0 <= i < |text| ==> AUTH_DOMAIN_TAG[i] == text[i] as int
  {
  }

  /** `auth_message` */
  function AuthMessage(nonce: seq<byte>): (message: seq<byte>)
    ensures |message| == |AUTH_DOMAIN_TAG| + |nonce|
    ensures AUTH_DOMAIN_TAG <= message && message[|AUTH_DOMAIN_TAG|..] == nonce
  {
    AUTH_DOMAIN_TAG + nonce
  }

  function AuthFrame(node: Node, nonce: seq<byte>): ClientFrame {
    Auth(node.pubkey, node.walletPubkey, node.model, node.sign(AuthMessage(nonce)))
  }

  // ------------------------------------------------------------ the course of a session

  /** Everything the environment decides: the messages that arrive, how many of them the
      job loop reads before it is interrupted, how the upstream answers each job, and
      how texts are parsed. */
  datatype Script = Script(inbox: seq<Incoming>, patience: nat, upstream: nat -> Upstream, frame: FrameParser,
      parse: Parser)

  /** The same with a job's frames as a function of its number and its id, and its body as
      a function of what was handed over. */
  datatype Plan = Plan(inbox: seq<Incoming>, patience: nat, frame: FrameParser,
      answer: (nat, string) -> seq<ClientFrame>, clean: Value -> Value)

  function PlanOf(s: Script, model: string): Plan {
    Plan(s.inbox, s.patience, s.frame, (k: nat, id: string) => JobFrames(s.upstream(k), id, s.parse),
         raw => JobBody.Sanitized(raw, model))
  }

  /** What is done from some message on, which message is the next to be read, and how it
      ends. */
  datatype Course = Course(acts: seq<Act>, next: nat, outcome: Outcome)

  function Then(acts: seq<Act>, course: Course): Course {
    Course(acts + course.acts, course.next, course.outcome)
  }

  /** Reading the messages from `i` up to `j`. */
  function Hearing(inbox: seq<Incoming>, i: nat, j: nat): (acts: seq<Act>)
    requires i <= j <= |inbox|
    ensures |acts| == j - i
  {
    seq(j - i, k requires 0 <= k < j - i => Received(inbox[i + k]))
  }

  datatype Wait = Lost(next: nat) | Refusal(reason: string, next: nat) | Got(nonce: string, next: nat)

  /** Waiting for a challenge (or, with `ready`, for readiness): anything else that is
      not a rejection or the end of the stream is skipped. */
  function Await(inbox: seq<Incoming>, i: nat, ready: bool, frame: FrameParser): (w: Wait)
    requires i <= |inbox|
    ensures i <= w.next <= |inbox| && (w.Got? ==> i < w.next)
    decreases |inbox| - i
  {
    if i == |inbox| then Lost(i)
    else if inbox[i].Failing? then Lost(i + 1)
    else if inbox[i].Text? then
      match frame(inbox[i].txt)
      case Some(Challenge(nonce)) => if ready then Await(inbox, i + 1, ready, frame) else Got(nonce, i + 1)
      case Some(Ready) => if ready then Got("", i + 1) else Await(inbox, i + 1, ready, frame)
      case Some(Rejected(reason)) => Refusal(reason, i + 1)
      case _ => Await(inbox, i + 1, ready, frame)
    else Await(inbox, i + 1, ready, frame)
  }

  predicate TakesJob(p: Plan, i: nat)
    requires i < |p.inbox|
  {
    p.inbox[i].Text? &&
    match p.frame(p.inbox[i].txt)
    case Some(Job(_, _)) => true
    case _ => false
  }

  function JobAt(p: Plan, i: nat): (job: ServerFrame)
    requires i < |p.inbox| && TakesJob(p, i)
    ensures job.Job?
  {
    p.frame(p.inbox[i].txt).value
  }

  /** Doing job number `k` of the session, with room for `room` frames. */
  function JobActs(p: Plan, job: ServerFrame, k: nat, room: nat): seq<Act>
    requires job.Job?
  {
    [Posted(job.jobId, p.clean(job.body))] + Acts(Cut(p.answer(k, job.jobId), room))
  }

  /** The job loop, from message `i` on, with `patience` messages to go before it is
      interrupted. */
  function WorkCourse(p: Plan, i: nat, patience: nat, k: nat, room: nat): (c: Course)
    requires i <= |p.inbox|
    ensures i <= c.next <= |p.inbox|
    decreases |p.inbox| - i
  {
    if patience == 0 then Course(if room > 0 then [Sent(Close)] else [], i, Shutdown)
    else if i == |p.inbox| then Course([], i, Disconnected)
    else if p.inbox[i].Closing? || p.inbox[i].Failing? then Course([Received(p.inbox[i])], i + 1, Disconnected)
    else if !TakesJob(p, i) then Then([Received(p.inbox[i])], WorkCourse(p, i + 1, patience - 1, k, room))
    else
      var job := JobAt(p, i);
      var owed := |p.answer(k, job.jobId)|;
      var did := [Received(p.inbox[i])] + JobActs(p, job, k, room);
      if owed > room then Course(did, i + 1, Disconnected)
      else Then(did, WorkCourse(p, i + 1, patience - 1, k + 1, room - owed))
  }

  /** After the auth frame. */
  function ReadyCourse(p: Plan, i: nat, room: nat): (c: Course)
    requires i <= |p.inbox|
    ensures i <= c.next <= |p.inbox|
  {
    var w := Await(p.inbox, i, true, p.frame);
    var heard := Hearing(p.inbox, i, w.next);
    match w
    case Lost(next) => Course(heard, next, Disconnected)
    case Refusal(reason, next) => Course(heard, next, Outcome.Rejected(reason))
    case Got(_, next) => Then(heard, WorkCourse(p, next, p.patience, 0, room))
  }

  /** After a valid challenge. */
  function AuthCourse(p: Plan, node: Node, nonce: seq<byte>, i: nat, room: nat): (c: Course)
    requires i <= |p.inbox|
    ensures i <= c.next <= |p.inbox|
  {
    if room == 0 then Course([Signed(AuthMessage(nonce))], i, Disconnected)
    else Then([Signed(AuthMessage(nonce)), Sent(AuthFrame(node, nonce))], ReadyCourse(p, i, room - 1))
  }

  function SessionCourse(p: Plan, node: Node, room: nat): (c: Course)
    ensures c.next <= |p.inbox|
  {
    var w := Await(p.inbox, 0, false, p.frame);
    var heard := Hearing(p.inbox, 0, w.next);
    match w
    case Lost(next) => Course(heard, next, Disconnected)
    case Refusal(reason, next) => Course(heard, next, Outcome.Rejected(reason))
    case Got(nonce, next) =>
      match Base58.ValidateNonce(nonce)
      case Ok(bytes) => Then(heard, AuthCourse(p, node, bytes, next, room))
      case _ => Course(heard, next, Disconnected)
  }

  // ---------------------------------------------------------------------- the program

  /** `handle_job`: the time limit is reported, and the session goes on. */
  method HandleJob(ws: Socket, up: Upstream, node: Node, jobId: string, raw: Value, parse: Parser) returns (alive: bool)
    modifies ws`log, ws`room
    ensures Delivered(old(ws.log), old(ws.room), Posted(jobId, JobBody.Sanitized(raw, node.model)),
                      JobFrames(up, jobId, parse), ws.log, ws.room, alive)
  {
    ghost var before, room, owed := ws.log, ws.room, JobFrames(up, jobId, parse);
    var body := JobBody.SanitizeJobBody(raw, node.model);
    var result := StreamJob.StreamJob(ws, up, jobId, body, parse);
    match result {
      case Some(ok) => alive := ok;
      case None =>
        ghost var sent := owed[..|owed| - 1];
        assert owed == sent + ([JobError(jobId, TimeLimit)] + []);
        alive := SendOwed(ws, JobError(jobId, TimeLimit), before, room, Posted(jobId, body), sent, [], owed);
    }
  }

  lemma HearOne(inbox: seq<Incoming>, i: nat, j: nat)
    requires i <= j < |inbox|
    ensures Hearing(inbox, i, j + 1) == Hearing(inbox, i, j) + [Received(inbox[j])]
  {
  }

  /** One waiting loop of the handshake: it reads up to the message it waits for, and does
      nothing else. */
  method AwaitFrame(ws: Socket, ready: bool, frame: FrameParser) returns (w: Wait)
    requires ws.taken <= |ws.inbox|
    modifies ws`taken, ws`log
    ensures w == Await(ws.inbox, old(ws.taken), ready, frame) && ws.taken == w.next
    ensures ws.log == old(ws.log) + Hearing(ws.inbox, old(ws.taken), w.next)
  {
    ghost var start, before := ws.taken, ws.log;
    while true
      invariant start <= ws.taken <= |ws.inbox|
      invariant Await(ws.inbox, start, ready, frame) == Await(ws.inbox, ws.taken, ready, frame)
      invariant ws.log == before + Hearing(ws.inbox, start, ws.taken)
      decreases |ws.inbox| - ws.taken
    {
      ghost var i := ws.taken;
      var message := ws.Receive();
      if message.None? {
        return Lost(ws.taken);
      }
      HearOne(ws.inbox, start, i);
      Assoc(before, Hearing(ws.inbox, start, i), [Received(ws.inbox[i])]);
      if message.value.Failing? {
        return Lost(ws.taken);
      }
      if message.value.Text? {
        match frame(message.value.txt) {
          case Some(Challenge(nonce)) =>
            if !ready { return Got(nonce, ws.taken); }
          case Some(Ready) =>
            if ready { return Got("", ws.taken); }
          case Some(Rejected(reason)) => return Refusal(reason, ws.taken);
          case _ =>
        }
      }
    }
  }

  /** The socket has gone through `done` since `before`, and the rest of `whole` is to come. */
  ghost predicate Runs(ws: Socket, before: seq<Act>, whole: Course, rest: Course)
    reads ws
  {
    ws.log + rest.acts == before + whole.acts && rest.next == whole.next && rest.outcome == whole.outcome
  }

  /** It has gone through all of it. */
  ghost predicate Ran(ws: Socket, before: seq<Act>, whole: Course, outcome: Outcome)
    reads ws
  {
    ws.log == before + whole.acts && ws.taken == whole.next && outcome == whole.outcome
  }

  lemma RunsThen(log: seq<Act>, before: seq<Act>, did: seq<Act>, rest: Course, whole: Course)
    requires log + Then(did, rest).acts == before + whole.acts
    ensures log + did + rest.acts == before + whole.acts
  {
    Assoc(log, did, rest.acts);
  }

  /** One job: it was just received, and is posted and answered as far as the socket goes. */
  method TakeJob(ws: Socket, s: Script, node: Node, job: ServerFrame, k: nat) returns (alive: bool)
    requires job.Job?
    modifies ws`log, ws`room
    ensures ws.log == old(ws.log) + JobActs(PlanOf(s, node.model), job, k, old(ws.room))
    ensures var owed := |PlanOf(s, node.model).answer(k, job.jobId)|;
            alive == (owed <= old(ws.room)) && (alive ==> ws.room == old(ws.room) - owed)
  {
    ghost var before, sent := ws.log, Cut(JobFrames(s.upstream(k), job.jobId, s.parse), ws.room);
    alive := HandleJob(ws, s.upstream(k), node, job.jobId, job.body, s.parse);
    Assoc(before, [Posted(job.jobId, JobBody.Sanitized(job.body, node.model))], Acts(sent));
  }

  /** The job loop. */
  method Work(ws: Socket, s: Script, node: Node, ghost p: Plan) returns (outcome: Outcome)
    requires p == PlanOf(s, node.model) && ws.inbox == s.inbox && ws.taken <= |s.inbox|
    modifies ws
    ensures Ran(ws, old(ws.log), WorkCourse(p, old(ws.taken), s.patience, 0, old(ws.room)), outcome)
  {
    var patience, k := s.patience, 0;
    ghost var before, whole := ws.log, WorkCourse(p, ws.taken, patience, k, ws.room);
    ghost var rest := whole;
    while patience > 0
      invariant ws.taken <= |s.inbox| && rest == WorkCourse(p, ws.taken, patience, k, ws.room)
      invariant Runs(ws, before, whole, rest)
    {
      ghost var log, room := ws.log, ws.room;
      var message := ws.Receive();
      if message.None? || message.value.Closing? || message.value.Failing? {
        return Disconnected;
      }
      ghost var did := [Received(message.value)];
      var frame := if message.value.Text? then s.frame(message.value.txt) else None;
      if frame.Some? && frame.value.Job? {
        did := did + JobActs(p, frame.value, k, room);
        Assoc(log, [Received(message.value)], JobActs(p, frame.value, k, room));
        var alive := TakeJob(ws, s, node, frame.value, k);
        if !alive {
          return Disconnected;
        }
        k := k + 1;
      }
      patience := patience - 1;
      rest := WorkCourse(p, ws.taken, patience, k, ws.room);
      RunsThen(log, before, did, rest, whole);
    }
    var _ := ws.Send(Close);
    return Shutdown;
  }

  /** From the auth frame on: waiting for readiness, and the job loop. */
  method AwaitReady(ws: Socket, s: Script, node: Node, ghost p: Plan) returns (outcome: Outcome)
    requires p == PlanOf(s, node.model) && ws.inbox == s.inbox && ws.taken <= |s.inbox|
    modifies ws
    ensures Ran(ws, old(ws.log), ReadyCourse(p, old(ws.taken), old(ws.room)), outcome)
  {
    ghost var before, i, room := ws.log, ws.taken, ws.room;
    var ready := AwaitFrame(ws, true, s.frame);
    if ready.Lost? {
      return Disconnected;
    }
    if ready.Refusal? {
      return Outcome.Rejected(ready.reason);
    }
    outcome := Work(ws, s, node, p);
    Assoc(before, Hearing(s.inbox, i, ready.next), WorkCourse(p, ready.next, s.patience, 0, room).acts);
  }

  /** Signing a valid challenge and sending the auth frame, and what follows. */
  method SignIn(ws: Socket, s: Script, node: Node, nonce: seq<byte>, ghost p: Plan) returns (outcome: Outcome)
    requires p == PlanOf(s, node.model) && ws.inbox == s.inbox && ws.taken <= |s.inbox|
    modifies ws
    ensures Ran(ws, old(ws.log), AuthCourse(p, node, nonce, old(ws.taken), old(ws.room)), outcome)
  {
    ghost var before, i, room := ws.log, ws.taken, ws.room;
    ws.Note(Signed(AuthMessage(nonce)));
    var ok := ws.Send(AuthFrame(node, nonce));
    if !ok {
      return Disconnected;
    }
    ghost var did := [Signed(AuthMessage(nonce)), Sent(AuthFrame(node, nonce))];
    assert ws.log == before + did;
    outcome := AwaitReady(ws, s, node, p);
    Assoc(before, did, ReadyCourse(p, i, room - 1).acts);
  }

  /** `serve`: on a new connection, everything that is received, signed, posted and sent. */
  method Serve(ws: Socket, s: Script, node: Node) returns (outcome: Outcome)
    requires ws.inbox == s.inbox && ws.taken == 0
    modifies ws
    ensures Ran(ws, old(ws.log), SessionCourse(PlanOf(s, node.model), node, old(ws.room)), outcome)
  {
    ghost var before, room, p := ws.log, ws.room, PlanOf(s, node.model);
    var challenge := AwaitFrame(ws, false, s.frame);
    if challenge.Lost? {
      return Disconnected;
    }
    if challenge.Refusal? {
      return Outcome.Rejected(challenge.reason);
    }
    var nonce := Base58.ValidateNonce(challenge.nonce);
    if !nonce.Ok? {
      return Disconnected;
    }
    outcome := SignIn(ws, s, node, nonce.bytes, p);
    Assoc(before, Hearing(s.inbox, 0, challenge.next), AuthCourse(p, node, nonce.bytes, challenge.next, room).acts);
  }

  /** The gateway's texts are read by `ServerFrame::parse`. */
  function GatewayScript(inbox: seq<Incoming>, patience: nat, upstream: nat -> Upstream, parse: Parser): Script {
    Script(inbox, patience, upstream, txt => ParseServerFrame(txt, parse), parse)
  }

  /** `serve` with the gateway's texts read by `ServerFrame::parse`. */
  method ServeGateway(ws: Socket, patience: nat, upstream: nat -> Upstream, parse: Parser, node: Node)
    returns (outcome: Outcome)
    requires ws.taken == 0
    modifies ws
    ensures var s := GatewayScript(ws.inbox, patience, upstream, parse);
            Ran(ws, old(ws.log), SessionCourse(PlanOf(s, node.model), node, old(ws.room)), outcome)
  {
    var s := GatewayScript(ws.inbox, patience, upstream, parse);
    outcome := Serve(ws, s, node);
  }
}
