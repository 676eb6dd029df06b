/** What the JSON texts of a gateway make a session do (src/protocol.rs, src/run.rs). */
module GatewayMeaning {
  import opened Text
  import opened Json
  import opened Protocol
  import opened StreamJob
  import opened Session
  import Base58
  import JobBody

  // ------------------------------------------------------------------------ frames

  /** The JSON value says that it is this frame. A rejection without a reason that is a string
      is one for an unknown reason, and a job without a body has the body `null`; other
      frames need all of their keys. */
  ghost predicate Says(v: Value, frame: ServerFrame) {
    && v.Obj? && "kind" in v.fields
    && match frame
       case Challenge(nonce) =>
         v.fields["kind"] == Str("challenge") && "nonce" in v.fields && v.fields["nonce"] == Str(nonce)
       case Ready => v.fields["kind"] == Str("ready")
       case Rejected(reason) =>
         && v.fields["kind"] == Str("rejected")
         && reason == (if "reason" in v.fields && v.fields["reason"].Str? then v.fields["reason"].s else "unknown")
       case Job(jobId, body) =>
         && v.fields["kind"] == Str("job") && "job_id" in v.fields && v.fields["job_id"] == Str(jobId)
         && body == if "body" in v.fields then v.fields["body"] else Null
  }

  /** A text is read as a frame exactly if it is JSON that says so. */
  lemma ParseIff(txt: string, parse: Parser, frame: ServerFrame)
    ensures ParseServerFrame(txt, parse) == Some(frame) <==> parse(txt).Some? && Says(parse(txt).value, frame)
  {
  }

  /** The object that a gateway sends for a frame. */
  function Written(frame: ServerFrame): map<string, Value> {
    match frame
    case Challenge(nonce) => map["kind" := Str("challenge"), "nonce" := Str(nonce)]
    case Ready => map["kind" := Str("ready")]
    case Rejected(reason) => map["kind" := Str("rejected"), "reason" := Str(reason)]
    case Job(jobId, body) => map["kind" := Str("job"), "job_id" := Str(jobId), "body" := body]
  }

  /** What a gateway sends is read back, whatever else is in the object. */
  lemma WrittenIsRead(txt: string, parse: Parser, frame: ServerFrame, fields: map<string, Value>)
    requires parse(txt) == Some(Obj(fields))
    requires forall key :: key in Written(frame) ==> key in fields && fields[key] == Written(frame)[key]
    ensures ParseServerFrame(txt, parse) == Some(frame)
  {
    var written := Written(frame);
    assert "kind" in written;
    match frame {
      case Challenge(_) => assert "nonce" in written;
      case Ready =>
      case Rejected(_) => assert "reason" in written;
      case Job(_, _) => assert "job_id" in written && "body" in written;
    }
    ParseIff(txt, parse, frame);
  }

  // ---------------------------------------------------------------------- handshake

  ghost predicate Brings(message: Incoming, parse: Parser, frame: ServerFrame) {
    message.Text? && parse(message.txt).Some? && Says(parse(message.txt).value, frame)
  }

  /** A message that the handshake passes over while it waits for a challenge or, with
      `ready`, for readiness. */
  ghost predicate Passed(message: Incoming, parse: Parser, ready: bool) {
    && !message.Failing?
    && (forall reason :: !Brings(message, parse, ServerFrame.Rejected(reason)))
    && (if ready then !Brings(message, parse, Ready) else forall nonce :: !Brings(message, parse, Challenge(nonce)))
  }

  ghost predicate AllPassed(inbox: seq<Incoming>, from: nat, i: nat, parse: Parser, ready: bool)
    requires i <= |inbox|
  {
    forall k :: from <= k < i ==> Passed(inbox[k], parse, ready)
  }


  lemma AwaitPasses(inbox: seq<Incoming>, i: nat, parse: Parser, frame: FrameParser, ready: bool)
    requires i < |inbox| && Passed(inbox[i], parse, ready) && forall txt :: frame(txt) == ParseServerFrame(txt, parse)
    ensures Await(inbox, i, ready, frame) == Await(inbox, i + 1, ready, frame)
  {
    if inbox[i].Text? && frame(inbox[i].txt).Some? {
      ParseIff(inbox[i].txt, parse, frame(inbox[i].txt).value);
      assert Brings(inbox[i], parse, frame(inbox[i].txt).value);
    }
  }

  /** The wait ends as the first message says that is not passed over. */
  lemma {:induction false} AwaitMeans(inbox: seq<Incoming>, from: nat, i: nat, parse: Parser, frame: FrameParser,
      ready: bool)
    requires from <= i <= |inbox| && AllPassed(inbox, from, i, parse, ready)
    requires forall txt :: frame(txt) == ParseServerFrame(txt, parse)
    ensures var w := Await(inbox, from, ready, frame);
            && (i == |inbox| ==> w == Lost(i))
            && (i < |inbox| && inbox[i].Failing? ==> w == Lost(i + 1))
            && (forall reason :: i < |inbox| && Brings(inbox[i], parse, ServerFrame.Rejected(reason)) ==>
                  w == Refusal(reason, i + 1))
            && (i < |inbox| && ready && Brings(inbox[i], parse, Ready) ==> w == Got("", i + 1))
            && (forall nonce :: i < |inbox| && !ready && Brings(inbox[i], parse, Challenge(nonce)) ==>
                  w == Got(nonce, i + 1))
    decreases i - from
  {
    if from < i {
      AwaitPasses(inbox, from, parse, frame, ready);
      AwaitMeans(inbox, from + 1, i, parse, frame, ready);
    } else if i < |inbox| && inbox[i].Text? {
      forall said | Brings(inbox[i], parse, said) ensures frame(inbox[i].txt) == Some(said) {
        ParseIff(inbox[i].txt, parse, said);
      }
    }
  }

  /** The plan reads the gateway's texts as frames. */
  ghost predicate ForGateway(p: Plan, parse: Parser) {
    forall txt :: p.frame(txt) == ParseServerFrame(txt, parse)
  }

  /** It is what `serve` goes by: job number `k` is answered as the upstream answers number
      `k`, under the id of the job, and bodies are sanitised. */
  lemma PlanMeans(inbox: seq<Incoming>, patience: nat, upstream: nat -> Upstream, parse: Parser, model: string)
    ensures var p := PlanOf(GatewayScript(inbox, patience, upstream, parse), model);
            && p.inbox == inbox && p.patience == patience && ForGateway(p, parse)
            && (forall k, id :: p.answer(k, id) == JobFrames(upstream(k), id, parse))
            && (forall raw :: p.clean(raw) == JobBody.Sanitized(raw, model))
  {
  }

  ghost predicate Encodes32(nonce: string) {
    exists bytes :: |bytes| == 32 && nonce == Base58.Encode(bytes)
  }

  /** A session whose first telling message is not a challenge over 32 bytes signs nothing and
      sends nothing: a rejection ends it with its reason, and anything else as a lost
      connection. */
  lemma NothingSigned(p: Plan, parse: Parser, node: Node, room: nat, i: nat)
    requires ForGateway(p, parse)
    requires i <= |p.inbox| && AllPassed(p.inbox, 0, i, parse, false)
    ensures var c := SessionCourse(p, node, room);
            && (i == |p.inbox| ==> c == Course(Hearing(p.inbox, 0, i), i, Disconnected))
            && (i < |p.inbox| && p.inbox[i].Failing? ==>
                  c == Course(Hearing(p.inbox, 0, i + 1), i + 1, Disconnected))
            && (forall reason :: i < |p.inbox| && Brings(p.inbox[i], parse, ServerFrame.Rejected(reason)) ==>
                  c == Course(Hearing(p.inbox, 0, i + 1), i + 1, Outcome.Rejected(reason)))
            && (forall nonce :: i < |p.inbox| && Brings(p.inbox[i], parse, Challenge(nonce)) && !Encodes32(nonce) ==>
                  c == Course(Hearing(p.inbox, 0, i + 1), i + 1, Disconnected))
  {
    AwaitMeans(p.inbox, 0, i, parse, p.frame, false);
    var w := Await(p.inbox, 0, false, p.frame);
    if w.Got? && Base58.ValidateNonce(w.nonce).Ok? {
      Base58.NonceExact(w.nonce, Base58.ValidateNonce(w.nonce).bytes);
    }
  }

  /** A challenge over 32 bytes is answered by one signature, over the tag and those bytes, and
      by the auth frame that carries it, if the socket takes that. */
  function SignedIn(node: Node, bytes: seq<byte>): seq<Act> {
    var message := AUTH_DOMAIN_TAG + bytes;
    [Signed(message), Sent(Auth(node.pubkey, node.walletPubkey, node.model, node.sign(message)))]
  }

  lemma AuthMeans(p: Plan, node: Node, bytes: seq<byte>, i: nat, room: nat)
    requires i <= |p.inbox|
    ensures var c := AuthCourse(p, node, bytes, i, room);
            if room == 0 then c == Course(SignedIn(node, bytes)[..1], i, Disconnected)
            else c == Then(SignedIn(node, bytes), ReadyCourse(p, i, room - 1))
  {
  }

  lemma SignsChallenge(p: Plan, parse: Parser, node: Node, room: nat, i: nat,
      bytes: seq<byte>)
    requires ForGateway(p, parse)
    requires i < |p.inbox| && AllPassed(p.inbox, 0, i, parse, false)
    requires |bytes| == 32 && Brings(p.inbox[i], parse, Challenge(Base58.Encode(bytes)))
    ensures var c, heard := SessionCourse(p, node, room), Hearing(p.inbox, 0, i + 1);
            if room == 0 then c == Course(heard + SignedIn(node, bytes)[..1], i + 1, Disconnected)
            else c == Then(heard, Then(SignedIn(node, bytes), ReadyCourse(p, i + 1, room - 1)))
  {
    AwaitMeans(p.inbox, 0, i, parse, p.frame, false);
    Base58.NonceExact(Base58.Encode(bytes), bytes);
    AuthMeans(p, node, bytes, i + 1, room);
  }

  /** After the auth frame, a session reads on until the gateway rejects it, until it is lost,
      or until the gateway says that it is ready, which starts the job loop. */
  lemma AfterAuth(p: Plan, parse: Parser, room: nat, from: nat, j: nat)
    requires ForGateway(p, parse)
    requires from <= j <= |p.inbox| && AllPassed(p.inbox, from, j, parse, true)
    ensures var c := ReadyCourse(p, from, room);
            && (j == |p.inbox| ==> c == Course(Hearing(p.inbox, from, j), j, Disconnected))
            && (j < |p.inbox| && p.inbox[j].Failing? ==>
                  c == Course(Hearing(p.inbox, from, j + 1), j + 1, Disconnected))
            && (forall reason :: j < |p.inbox| && Brings(p.inbox[j], parse, ServerFrame.Rejected(reason)) ==>
                  c == Course(Hearing(p.inbox, from, j + 1), j + 1, Outcome.Rejected(reason)))
            && (j < |p.inbox| && Brings(p.inbox[j], parse, Ready) ==>
                  c == Then(Hearing(p.inbox, from, j + 1), WorkCourse(p, j + 1, p.patience, 0, room)))
  {
    AwaitMeans(p.inbox, from, j, parse, p.frame, true);
  }

  // ----------------------------------------------------------------------- the job loop

  datatype Taken = Nothing | Handed(jobId: string, raw: Value)

  /** The message hands over this job, or none. */
  ghost predicate Hands(message: Incoming, parse: Parser, taken: Taken) {
    && !message.Closing? && !message.Failing?
    && match taken
       case Nothing => forall jobId, raw :: !Brings(message, parse, Job(jobId, raw))
       case Handed(jobId, raw) => Brings(message, parse, Job(jobId, raw))
  }

  ghost predicate AllHand(inbox: seq<Incoming>, from: nat, takes: seq<Taken>, parse: Parser)
    requires from + |takes| <= |inbox|
    decreases |takes|
  {
    takes == [] || (Hands(inbox[from], parse, takes[0]) && AllHand(inbox, from + 1, takes[1..], parse))
  }

  /** A message is read, and the job that it hands over, number `k`, is posted and answered. */
  function TakenActs(p: Plan, message: Incoming, taken: Taken, k: nat): seq<Act> {
    match taken
    case Nothing => [Received(message)]
    case Handed(jobId, raw) => [Received(message)] + ([Posted(jobId, p.clean(raw))] + Acts(p.answer(k, jobId)))
  }

  /** The number of the job that comes after this message. */
  function After(taken: Taken, k: nat): nat {
    if taken.Nothing? then k else k + 1
  }

  /** Message by message, over a socket that lives, and then `done`. */
  function LoopCourse(p: Plan, from: nat, takes: seq<Taken>, k: nat, done: Course): Course
    requires from + |takes| <= |p.inbox|
    decreases |takes|
  {
    if takes == [] then done
    else Then(TakenActs(p, p.inbox[from], takes[0], k), LoopCourse(p, from + 1, takes[1..], After(takes[0], k), done))
  }

  /** How many frames the jobs owe. */
  function Owes(p: Plan, taken: Taken, k: nat): nat {
    if taken.Nothing? then 0 else |p.answer(k, taken.jobId)|
  }

  function LoopOwed(p: Plan, takes: seq<Taken>, k: nat): nat {
    if takes == [] then 0 else Owes(p, takes[0], k) + LoopOwed(p, takes[1..], After(takes[0], k))
  }

  lemma HandsJob(p: Plan, i: nat, parse: Parser, taken: Taken)
    requires i < |p.inbox| && Hands(p.inbox[i], parse, taken)
    requires forall txt :: p.frame(txt) == ParseServerFrame(txt, parse)
    ensures TakesJob(p, i) <==> taken.Handed?
    ensures taken.Handed? ==> JobAt(p, i) == Job(taken.jobId, taken.raw)
  {
    var message := p.inbox[i];
    if taken.Handed? {
      ParseIff(message.txt, parse, Job(taken.jobId, taken.raw));
    } else if TakesJob(p, i) {
      ParseIff(message.txt, parse, p.frame(message.txt).value);
      assert Brings(message, parse, p.frame(message.txt).value);
    }
  }

  lemma LoopStep(p: Plan, parse: Parser, from: nat, taken: Taken, left: nat, k: nat, room: nat)
    requires ForGateway(p, parse) && from < |p.inbox| && Hands(p.inbox[from], parse, taken)
    requires left > 0 && Owes(p, taken, k) <= room
    ensures WorkCourse(p, from, left, k, room)
            == Then(TakenActs(p, p.inbox[from], taken, k),
                    WorkCourse(p, from + 1, left - 1, After(taken, k), room - Owes(p, taken, k)))
  {
    HandsJob(p, from, parse, taken);
  }

  /** The number of the job after these. */
  function Handovers(takes: seq<Taken>, k: nat): nat {
    if takes == [] then k else Handovers(takes[1..], After(takes[0], k))
  }

  lemma LoopNext(p: Plan, parse: Parser, from: nat, takes: seq<Taken>, left: nat, k: nat, room: nat, next: nat,
      spare: nat, done: Course)
    requires ForGateway(p, parse) && left > 0 && takes != [] && from + |takes| <= |p.inbox|
    requires Hands(p.inbox[from], parse, takes[0])
    requires next == After(takes[0], k) && spare == room - Owes(p, takes[0], k)
    ensures WorkCourse(p, from + 1, left - 1, next, spare) == LoopCourse(p, from + 1, takes[1..], next, done)
            ==> WorkCourse(p, from, left, k, room) == LoopCourse(p, from, takes, k, done)
  {
    LoopStep(p, parse, from, takes[0], left, k, room);
  }

  /** As long as the socket lives, the loop does for every message what it asks for, in
      order, and goes on behind them. */
  lemma {:induction false} LoopMeans(p: Plan, parse: Parser, from: nat,
      takes: seq<Taken>, left: nat, k: nat, room: nat, end: nat, after: nat, last: nat, remaining: nat)
    requires ForGateway(p, parse)
    requires from + |takes| == end <= |p.inbox| && AllHand(p.inbox, from, takes, parse) && |takes| <= left
    requires LoopOwed(p, takes, k) <= room
    requires after == left - |takes| && last == Handovers(takes, k)
    requires remaining == room - LoopOwed(p, takes, k)
    ensures WorkCourse(p, from, left, k, room)
            == LoopCourse(p, from, takes, k, WorkCourse(p, end, after, last, remaining))
    decreases |takes|
  {
    if takes != [] {
      var next, spare := After(takes[0], k), room - Owes(p, takes[0], k);
      LoopMeans(p, parse, from + 1, takes[1..], left - 1, next, spare, end, after, last, remaining);
      LoopNext(p, parse, from, takes, left, k, room, next, spare, WorkCourse(p, end, after, last, remaining));
    }
  }

  /** How a session ends at message `end`, of which it would read `left` more. */
  function Ending(inbox: seq<Incoming>, end: nat, left: nat): Course
    requires end <= |inbox|
  {
    if left == 0 then Course([Sent(Close)], end, Shutdown)
    else if end == |inbox| then Course([], end, Disconnected)
    else Course([Received(inbox[end])], end + 1, Disconnected)
  }

  lemma LoopEnds(p: Plan, end: nat, left: nat, k: nat, room: nat)
    requires end <= |p.inbox| && room > 0
    requires left == 0 || end == |p.inbox| || p.inbox[end].Closing? || p.inbox[end].Failing?
    ensures WorkCourse(p, end, left, k, room) == Ending(p.inbox, end, left)
  {
  }

  /** From the first message after readiness on. */
  lemma JobsMeans(p: Plan, parse: Parser, from: nat, takes: seq<Taken>,
      room: nat, end: nat)
    requires ForGateway(p, parse)
    requires from + |takes| == end <= |p.inbox| && AllHand(p.inbox, from, takes, parse) && |takes| <= p.patience
    requires |takes| == p.patience || end == |p.inbox| || p.inbox[end].Closing? || p.inbox[end].Failing?
    requires LoopOwed(p, takes, 0) < room
    ensures WorkCourse(p, from, p.patience, 0, room)
            == LoopCourse(p, from, takes, 0, Ending(p.inbox, end, p.patience - |takes|))
  {
    var after, last := p.patience - |takes|, Handovers(takes, 0);
    var remaining := room - LoopOwed(p, takes, 0);
    LoopMeans(p, parse, from, takes, p.patience, 0, room, end, after, last, remaining);
    LoopEnds(p, end, after, last, remaining);
  }

  /** The handshake goes through: message `i` brings the challenge, and message `j` says that
      the gateway is ready. */
  ghost predicate HandshakeAt(inbox: seq<Incoming>, parse: Parser, i: nat, bytes: seq<byte>, j: nat) {
    && i < j < |inbox| && |bytes| == 32
    && AllPassed(inbox, 0, i, parse, false) && Brings(inbox[i], parse, Challenge(Base58.Encode(bytes)))
    && AllPassed(inbox, i + 1, j, parse, true) && Brings(inbox[j], parse, Ready)
  }

  lemma HandshakeMeans(p: Plan, parse: Parser, node: Node, room: nat, i: nat,
      bytes: seq<byte>, j: nat)
    requires ForGateway(p, parse) && HandshakeAt(p.inbox, parse, i, bytes, j) && room > 0
    ensures SessionCourse(p, node, room)
            == Then(Hearing(p.inbox, 0, i + 1),
               Then(SignedIn(node, bytes),
               Then(Hearing(p.inbox, i + 1, j + 1), WorkCourse(p, j + 1, p.patience, 0, room - 1))))
  {
    SignsChallenge(p, parse, node, room, i, bytes);
    AfterAuth(p, parse, room - 1, i + 1, j);
  }

  /** A whole session over a socket that lives. The gateway sends a challenge over 32 bytes,
      says that it is ready, and hands over jobs, with messages in between that mean nothing at
      that point. The session reads in order; it signs the tag and the bytes and sends the auth
      frame right after the challenge; it posts and answers each job right after its message,
      the `k`-th job as the upstream answers the `k`-th; and it ends with the stream, or with
      a close frame when it is interrupted. */
  lemma WholeSession(p: Plan, parse: Parser, node: Node, room: nat, i: nat, bytes: seq<byte>,
      j: nat, takes: seq<Taken>, end: nat)
    requires ForGateway(p, parse) && HandshakeAt(p.inbox, parse, i, bytes, j)
    requires j + 1 + |takes| == end <= |p.inbox| && AllHand(p.inbox, j + 1, takes, parse) && |takes| <= p.patience
    requires |takes| == p.patience || end == |p.inbox| || p.inbox[end].Closing? || p.inbox[end].Failing?
    requires 2 + LoopOwed(p, takes, 0) <= room
    ensures var work := WorkCourse(p, j + 1, p.patience, 0, room - 1);
            && SessionCourse(p, node, room)
               == Then(Hearing(p.inbox, 0, i + 1),
                  Then(SignedIn(node, bytes),
                  Then(Hearing(p.inbox, i + 1, j + 1), work)))
            && work == LoopCourse(p, j + 1, takes, 0, Ending(p.inbox, end, p.patience - |takes|))
  {
    HandshakeMeans(p, parse, node, room, i, bytes, j);
    JobsMeans(p, parse, j + 1, takes, room - 1, end);
  }
}
