/** Driving a Builder session over an MCP that answers as it likes
    (agenc-worker/src/builder.rs). */
module Builder {
  import opened Text
  import opened Json
  import opened Crypto
  import Base58
  import Manifest

  /** One second in ticks of the clock, which are nanoseconds. */
  const SECOND: nat := 1_000_000_000

  datatype Request =
    | AuthChallenge(pubkey: string)
    | AuthVerify(pubkey: string, signature: string, message: string)
    | Create(parcelUid: string, brief: string)
    | Status(sid: string)
    | Tier(sid: string, tier: string)
    | Advance(sid: string, action: string)
    | Promote(sid: string)

  /** A call with its reply, where nothing stands for an error, or a two-second sleep;
      both with the time they start and end. */
  datatype Step =
    | Call(request: Request, reply: Option<Value>, at: nat, done: nat)
    | Nap(at: nat, done: nat)

  /** What the other side does with a step: the reply to a call and the time it takes, or
      how much longer than two seconds a sleep lasts. */
  datatype Answer = Answer(reply: Option<Value>, took: nat, lag: nat)

  /** The answer to step number `i`. A script that has run out stands for a child process
      that has closed its output. */
  function AnswerAt(script: seq<Answer>, i: nat): Answer {
    if i < |script| then script[i] else Answer(None, 0, 0)
  }

  /** The step went as the answer says. */
  predicate Scripted(s: Step, answer: Answer) {
    match s
    case Call(_, reply, at, done) => reply == answer.reply && done == at + answer.took
    case Nap(at, done) => done == at + 2 * SECOND + answer.lag
  }

  /** The steps `t`, logged from position `from` on, went as the script says. */
  ghost predicate ByScript(script: seq<Answer>, from: nat, t: seq<Step>) {
    forall i :: 0 <= i < |t| ==> Scripted(t[i], AnswerAt(script, from + i))
  }

  /** The `Mcp` trait and the clock. The answer to a step goes by its place in the log. */
  class Remote {
    const script: seq<Answer>
    var clock: nat
    var log: seq<Step>

    constructor (script: seq<Answer>, clock: nat)
      ensures this.script == script && this.clock == clock && log == []
    {
      this.script, this.clock, log := script, clock, [];
    }

    method Ask(request: Request) returns (reply: Option<Value>)
      modifies this
      ensures log == old(log) + [Call(request, reply, old(clock), clock)]
      ensures reply == AnswerAt(script, |old(log)|).reply
      ensures clock == old(clock) + AnswerAt(script, |old(log)|).took
    {
      var answer := AnswerAt(script, |log|);
      reply := answer.reply;
      log := log + [Call(request, reply, clock, clock + answer.took)];
      clock := clock + answer.took;
    }

    method Sleep()
      modifies this
      ensures log == old(log) + [Nap(old(clock), clock)]
      ensures clock == old(clock) + 2 * SECOND + AnswerAt(script, |old(log)|).lag
    {
      var until := clock + 2 * SECOND + AnswerAt(script, |log|).lag;
      log := log + [Nap(clock, until)];
      clock := until;
    }
  }

  // ------------------------------------------------------------------------- snapshots

  datatype Turn = Finished(files: Value) | Broken(message: string) | Wait | Go(action: string)

  function StrOr(v: Value, key: string, default: string): string {
    match v.GetStr(key)
    case Some(s) => s
    case None => default
  }

  /** What a status snapshot asks for. */
  function TurnOf(snap: Value): Turn {
    var phase, status := StrOr(snap, "phase", ""), StrOr(snap, "status", "");
    if status == "done" then Finished(match snap.Get("files") case Some(files) => files case None => Null)
    else if status == "error" then Broken(StrOr(snap, "error_message", "(no error_message)"))
    else if status == "running" then Wait
    else if phase == "brainstorm" && status == "waiting_approval" then Go("approve_spec")
    else if phase == "plan" && status == "waiting_approval" then Go("approve_plan")
    else if phase == "execute" && status == "waiting_user" then Go("next_task")
    else Wait
  }

  // -------------------------------------------------------------------------- the rules

  datatype Mission = Mission(pubkey: string, parcelUid: string, brief: string, budget: nat,
      sign: seq<byte> -> Signature)

  function SignSiws(message: string, sign: seq<byte> -> Signature): string {
    Base58.Encode(sign(Utf8(message)))
  }

  /** The text stands for the signature over the bytes of the message. */
  lemma SignatureCovers(message: string, sign: seq<byte> -> Signature)
    ensures Base58.Decode(SignSiws(message, sign)) == Some(sign(Utf8(message)))
  {
    Base58.DecodeIffEncode(SignSiws(message, sign), sign(Utf8(message)));
  }

  predicate IsStatus(s: Step) {
    s.Call? && s.request.Status?
  }

  predicate IsTier(s: Step) {
    s.Call? && s.request.Tier?
  }

  predicate IsAdvance(s: Step) {
    s.Call? && s.request.Advance?
  }

  predicate Answered(s: Step) {
    s.Call? ==> s.reply.Some?
  }

  /** A status call whose snapshot asks for `turn`. */
  predicate Shows(s: Step, turn: Turn) {
    IsStatus(s) && s.reply.Some? && TurnOf(s.reply.value) == turn
  }

  predicate Pinned(t: seq<Step>) {
    exists j :: 0 <= j < |t| && IsTier(t[j])
  }

  function MessageOf(s: Step): Option<string> {
    if s.Call? && s.reply.Some? then s.reply.value.GetStr("message") else None
  }

  /** The second call returns the message of the first with a base58 signature over its
      bytes. */
  ghost predicate Verifies(s: Step, challenge: Step, m: Mission) {
    && s.Call? && s.request.AuthVerify? && s.request.pubkey == m.pubkey
    && challenge.Call? && challenge.reply.Some? && challenge.reply.value.Obj?
    && "message" in challenge.reply.value.fields
    && challenge.reply.value.fields["message"] == Str(s.request.message)
    && Base58.Decode(s.request.signature) == Some(m.sign(Utf8(s.request.message)))
  }

  /** The challenge for the key, and at most the verification after it. */
  ghost predicate SignsIn(t: seq<Step>, m: Mission) {
    && 1 <= |t| <= 2 && t[0].Call? && t[0].request == AuthChallenge(m.pubkey)
    && (|t| == 2 ==> Verifies(t[1], t[0], m))
  }

  predicate Refuses(s: Step) {
    s.Call? && s.reply.Some? && s.reply.value.Get("authenticated") == Some(Bool(false))
  }

  /** The session that the third call opened. */
  function SessionOf(t: seq<Step>): Option<string> {
    if |t| >= 3 && t[2].Call? && t[2].reply.Some? then t[2].reply.value.GetStr("session_id") else None
  }

  /** After this step the loop looks at the clock. */
  predicate Cycles(t: seq<Step>) {
    |t| >= 3 && SessionOf(t).Some? && (|t| == 3 || t[|t| - 1].Nap? || (IsAdvance(t[|t| - 1]) && Answered(t[|t| - 1])))
  }

  /** Whole seconds since the session was opened. */
  function Elapsed(t: seq<Step>, now: nat): int
    requires |t| >= 3
  {
    (now - t[2].done) / SECOND
  }

  /** May the loop make this call, at this time, after the steps `t`? */
  predicate LoopCall(t: seq<Step>, request: Request, now: nat, m: Mission)
    requires |t| >= 3
  {
    var last := t[|t| - 1];
    match request
    case Status(sid) => SessionOf(t) == Some(sid) && Cycles(t) && Elapsed(t, now) < m.budget
    case Tier(sid, tier) =>
      SessionOf(t) == Some(sid) && tier == "community" && Shows(last, Go("approve_plan")) && !Pinned(t)
    case Advance(sid, action) =>
      && SessionOf(t) == Some(sid)
      && (if IsTier(last) then Answered(last) && Shows(t[|t| - 2], Go(action))
          else Shows(last, Go(action)) && (action == "approve_plan" ==> Pinned(t)))
    case Promote(sid) =>
      SessionOf(t) == Some(sid) && IsStatus(last) && last.reply.Some? && TurnOf(last.reply.value).Finished?
    case _ => false
  }

  predicate MayCall(t: seq<Step>, request: Request, now: nat, m: Mission) {
    if |t| == 0 then request == AuthChallenge(m.pubkey)
    else if |t| == 1 then
      && MessageOf(t[0]).Some?
      && request == AuthVerify(m.pubkey, SignSiws(MessageOf(t[0]).value, m.sign), MessageOf(t[0]).value)
    else if |t| == 2 then Answered(t[1]) && !Refuses(t[1]) && request == Create(m.parcelUid, m.brief)
    else LoopCall(t, request, now, m)
  }

  /** May step `s` come after the steps `t`? */
  predicate Follows(t: seq<Step>, s: Step, m: Mission) {
    && s.at <= s.done
    && (t != [] ==> t[|t| - 1].done <= s.at)
    && match s
       case Call(request, _, at, _) => MayCall(t, request, at, m)
       case Nap(at, done) => |t| > 3 && Shows(t[|t| - 1], Wait) && done >= at + 2 * SECOND
  }

  /** Every step follows from the ones before it. */
  predicate Protocol(t: seq<Step>, m: Mission) {
    t == [] || (Protocol(t[..|t| - 1], m) && Follows(t[..|t| - 1], t[|t| - 1], m))
  }

  datatype Outcome =
    | Promoted(sid: string, hash: string)
    | CallFailed
    | NoMessage
    | Rejected
    | NoSession
    | OverBudget
    | SessionError(message: string)

  ghost predicate IsManifest(files: Value, hash: string, show: Value -> string, sha: seq<byte> -> Digest) {
    exists bundle :: Manifest.Bundles(files, show, bundle) && hash == Manifest.HashOf(bundle, sha)
  }

  /** Do the steps `t` end with this outcome? */
  ghost predicate Ended(t: seq<Step>, r: Outcome, now: nat, m: Mission, show: Value -> string,
      sha: seq<byte> -> Digest)
  {
    && t != []
    && var last := t[|t| - 1];
       match r
       case CallFailed => !Answered(last)
       case NoMessage => |t| == 1 && Answered(last) && MessageOf(last).None?
       case Rejected => |t| == 2 && Refuses(last)
       case NoSession => |t| == 3 && Answered(last) && SessionOf(t).None?
       case OverBudget => Cycles(t) && now == last.done && Elapsed(t, now) >= m.budget
       case SessionError(message) => Shows(last, Broken(message))
       case Promoted(sid, hash) =>
         && |t| >= 2 && last.Call? && last.request == Promote(sid) && last.reply.Some?
         && IsStatus(t[|t| - 2]) && t[|t| - 2].reply.Some?
         && var turn := TurnOf(t[|t| - 2].reply.value);
            turn.Finished? && IsManifest(turn.files, hash, show, sha)
  }

  // ---------------------------------------------------------------------- the program

  lemma Extend(script: seq<Answer>, base: seq<Step>, t: seq<Step>, s: Step, m: Mission)
    requires Protocol(t, m) && Follows(t, s, m)
    requires ByScript(script, |base|, t) && Scripted(s, AnswerAt(script, |base + t|))
    ensures Protocol(t + [s], m) && ByScript(script, |base|, t + [s]) && base + t + [s] == base + (t + [s])
  {
    assert (t + [s])[..|t|] == t;
  }

  method HashFiles(files: Value, show: Value -> string, sha: seq<byte> -> Digest) returns (hash: string)
    ensures IsManifest(files, hash, show, sha)
  {
    var bundle := Manifest.FilesFromJson(files, show);
    hash := Manifest.ManifestHash(bundle, sha);
  }

  /** The steps of this run so far, after whatever was logged before it. */
  ghost predicate Running(mcp: Remote, m: Mission, base: seq<Step>, t: seq<Step>)
    reads mcp
  {
    && mcp.log == base + t && Protocol(t, m) && ByScript(mcp.script, |base|, t)
    && (t != [] ==> t[|t| - 1].done == mcp.clock)
  }

  /** One call, recorded in the steps so far. */
  method Take(mcp: Remote, request: Request, m: Mission, ghost base: seq<Step>, ghost t: seq<Step>)
      returns (reply: Option<Value>, ghost t': seq<Step>)
    requires Running(mcp, m, base, t) && MayCall(t, request, mcp.clock, m)
    modifies mcp
    ensures t' == t + [Call(request, reply, old(mcp.clock), mcp.clock)] && Running(mcp, m, base, t')
    ensures reply.Some? ==> |base| + |t| < |mcp.script|
  {
    reply := mcp.Ask(request);
    ghost var step := Call(request, reply, old(mcp.clock), mcp.clock);
    Extend(mcp.script, base, t, step, m);
    t' := t + [step];
  }

  method Rest(mcp: Remote, m: Mission, ghost base: seq<Step>, ghost t: seq<Step>) returns (ghost t': seq<Step>)
    requires Running(mcp, m, base, t) && |t| > 3 && Shows(t[|t| - 1], Wait)
    modifies mcp
    ensures t' == t + [Nap(old(mcp.clock), mcp.clock)] && Running(mcp, m, base, t')
  {
    mcp.Sleep();
    ghost var step := Nap(old(mcp.clock), mcp.clock);
    Extend(mcp.script, base, t, step, m);
    t' := t + [step];
  }

  /** The challenge, its signature and the verification. */
  method SignIn(mcp: Remote, m: Mission, ghost base: seq<Step>, show: Value -> string, sha: seq<byte> -> Digest)
      returns (r: Option<Outcome>, ghost t: seq<Step>)
    requires mcp.log == base
    modifies mcp
    ensures Running(mcp, m, base, t) && t != []
    ensures r.Some? ==> Ended(t, r.value, mcp.clock, m, show, sha)
    ensures r.None? ==> |t| == 2 && Answered(t[1]) && !Refuses(t[1]) && !IsTier(t[0]) && !IsTier(t[1])
    ensures SignsIn(t, m)
  {
    var challenge;
    challenge, t := Take(mcp, AuthChallenge(m.pubkey), m, base, []);
    if challenge.None? {
      return Some(CallFailed), t;
    }
    var message := challenge.value.GetStr("message");
    if message.None? {
      return Some(NoMessage), t;
    }
    SignatureCovers(message.value, m.sign);
    var verify;
    verify, t := Take(mcp, AuthVerify(m.pubkey, SignSiws(message.value, m.sign), message.value), m, base, t);
    if verify.None? {
      return Some(CallFailed), t;
    }
    if verify.value.Get("authenticated") == Some(Bool(false)) {
      return Some(Rejected), t;
    }
    return None, t;
  }

  /** The third call, and the session that it opens. */
  method OpenSession(mcp: Remote, m: Mission, ghost base: seq<Step>, ghost t0: seq<Step>, show: Value -> string,
      sha: seq<byte> -> Digest)
      returns (r: Option<Outcome>, sid: string, ghost t: seq<Step>)
    requires Running(mcp, m, base, t0) && |t0| == 2 && Answered(t0[1]) && !Refuses(t0[1])
    requires !IsTier(t0[0]) && !IsTier(t0[1])
    modifies mcp
    ensures Running(mcp, m, base, t) && t != []
    ensures r.Some? ==> Ended(t, r.value, mcp.clock, m, show, sha)
    ensures r.None? ==> |t| == 3 && SessionOf(t) == Some(sid) && !Pinned(t)
  {
    sid := "";
    var created;
    created, t := Take(mcp, Create(m.parcelUid, m.brief), m, base, t0);
    if created.None? {
      return Some(CallFailed), sid, t;
    }
    var session := created.value.GetStr("session_id");
    if session.None? {
      return Some(NoSession), sid, t;
    }
    return None, session.value, t;
  }

  /** Signing in and opening the session. */
  method Open(mcp: Remote, m: Mission, ghost base: seq<Step>, show: Value -> string, sha: seq<byte> -> Digest)
      returns (r: Option<Outcome>, sid: string, ghost t: seq<Step>)
    requires mcp.log == base
    modifies mcp
    ensures Running(mcp, m, base, t) && t != []
    ensures r.Some? ==> Ended(t, r.value, mcp.clock, m, show, sha)
    ensures r.None? ==> |t| == 3 && SessionOf(t) == Some(sid) && !Pinned(t)
  {
    sid := "";
    r, t := SignIn(mcp, m, base, show, sha);
    if r.None? {
      r, sid, t := OpenSession(mcp, m, base, t, show, sha);
    }
  }

  /** What the loop remembers about its steps. */
  ghost predicate Looping(t: seq<Step>, sid: string, pinned: bool, start: nat) {
    |t| >= 3 && t[2].done == start && SessionOf(t) == Some(sid) && pinned == Pinned(t)
  }

  lemma KeepLooping(t: seq<Step>, sid: string, pinned: bool, start: nat, s: Step)
    requires Looping(t, sid, pinned, start)
    ensures Looping(t + [s], sid, pinned || IsTier(s), start)
  {
    var u := t + [s];
    assert u[2] == t[2];
    if Pinned(t) {
      var j :| 0 <= j < |t| && IsTier(t[j]);
      assert IsTier(u[j]);
    }
    if Pinned(u) {
      var j :| 0 <= j < |u| && IsTier(u[j]);
      assert j < |t| ==> IsTier(t[j]);
    }
    if IsTier(s) {
      assert IsTier(u[|t|]);
    }
  }

  /** Pins the tier before the first approval of a plan, and then advances. */
  method Proceed(mcp: Remote, m: Mission, sid: string, pinned: bool, action: string, ghost start: nat,
      ghost base: seq<Step>, ghost t: seq<Step>)
      returns (ok: bool, pinned': bool, ghost t': seq<Step>)
    requires Running(mcp, m, base, t) && Looping(t, sid, pinned, start) && |t| > 3 && Shows(t[|t| - 1], Go(action))
    modifies mcp
    ensures Running(mcp, m, base, t') && |t'| > |t|
    ensures SessionOf(t') == Some(sid)
    ensures ok ==> Looping(t', sid, pinned', start) && IsAdvance(t'[|t'| - 1]) && Answered(t'[|t'| - 1])
    ensures !ok ==> !Answered(t'[|t'| - 1])
  {
    t', pinned' := t, pinned;
    var reply;
    if action == "approve_plan" && !pinned {
      reply, t' := Take(mcp, Tier(sid, "community"), m, base, t);
      KeepLooping(t, sid, pinned, start, t'[|t|]);
      if reply.None? {
        return false, pinned, t';
      }
      pinned' := true;
    }
    ghost var before := t';
    reply, t' := Take(mcp, Advance(sid, action), m, base, before);
    KeepLooping(before, sid, pinned', start, t'[|before|]);
    ok := reply.Some?;
  }

  datatype Polled = Halt(outcome: Outcome) | Complete(files: Value)

  /** How the loop may stop. */
  ghost predicate Stopped(t: seq<Step>, p: Polled, now: nat, m: Mission, show: Value -> string,
      sha: seq<byte> -> Digest)
  {
    match p
    case Halt(outcome) => Ended(t, outcome, now, m, show, sha)
    case Complete(files) => |t| > 3 && Shows(t[|t| - 1], Finished(files))
  }

  /** One turn of the loop, after the check of the clock. */
  method Round(mcp: Remote, m: Mission, sid: string, pinned: bool, ghost start: nat, ghost base: seq<Step>,
      ghost t: seq<Step>,
      show: Value -> string, sha: seq<byte> -> Digest)
      returns (stop: Option<Polled>, pinned': bool, ghost t': seq<Step>)
    requires Running(mcp, m, base, t) && Looping(t, sid, pinned, start) && Cycles(t)
            && (mcp.clock - start) / SECOND < m.budget
    modifies mcp
    ensures Running(mcp, m, base, t') && |t'| > |t| && SessionOf(t') == Some(sid)
    ensures stop.None? ==> Looping(t', sid, pinned', start) && Cycles(t') && |base| + |t| < |mcp.script|
    ensures stop.Some? ==> Stopped(t', stop.value, mcp.clock, m, show, sha)
  {
    pinned' := pinned;
    var snap;
    snap, t' := Take(mcp, Status(sid), m, base, t);
    KeepLooping(t, sid, pinned, start, t'[|t|]);
    if snap.None? {
      return Some(Halt(CallFailed)), pinned, t';
    }
    var turn := TurnOf(snap.value);
    ghost var shown := t';
    if turn.Finished? {
      return Some(Complete(turn.files)), pinned, t';
    }
    if turn.Broken? {
      return Some(Halt(SessionError(turn.message))), pinned, t';
    }
    if turn.Wait? {
      t' := Rest(mcp, m, base, shown);
      KeepLooping(shown, sid, pinned, start, t'[|shown|]);
      return None, pinned, t';
    }
    var ok;
    ok, pinned', t' := Proceed(mcp, m, sid, pinned, turn.action, start, base, shown);
    stop := if ok then None else Some(Halt(CallFailed));
  }

  /** The poll loop of `drive_builder`. */
  method Poll(mcp: Remote, m: Mission, sid: string, ghost base: seq<Step>, ghost entry: seq<Step>,
      show: Value -> string, sha: seq<byte> -> Digest)
      returns (stop: Polled, ghost t: seq<Step>)
    requires Running(mcp, m, base, entry) && |entry| == 3 && SessionOf(entry) == Some(sid) && !Pinned(entry)
    modifies mcp
    ensures Running(mcp, m, base, t) && t != [] && SessionOf(t) == Some(sid)
    ensures Stopped(t, stop, mcp.clock, m, show, sha)
  {
    var start := mcp.clock;
    var pinned := false;
    t := entry;
    while true
      invariant Running(mcp, m, base, t) && Looping(t, sid, pinned, start) && Cycles(t)
      decreases |mcp.script| - |t|
    {
      if (mcp.clock - start) / SECOND >= m.budget {
        return Halt(OverBudget), t;
      }
      ghost var before := t;
      var next;
      next, pinned, t := Round(mcp, m, sid, pinned, start, base, before, show, sha);
      if next.Some? {
        return next.value, t;
      }
    }
  }

  /** The promotion of a finished session, and the hash of its files. */
  method Finish(mcp: Remote, m: Mission, sid: string, files: Value, ghost base: seq<Step>, ghost t: seq<Step>,
      show: Value -> string, sha: seq<byte> -> Digest)
      returns (r: Outcome, ghost t': seq<Step>)
    requires Running(mcp, m, base, t) && |t| > 3 && SessionOf(t) == Some(sid) && Shows(t[|t| - 1], Finished(files))
    modifies mcp
    ensures Running(mcp, m, base, t') && Ended(t', r, mcp.clock, m, show, sha)
  {
    var reply;
    reply, t' := Take(mcp, Promote(sid), m, base, t);
    if reply.None? {
      return CallFailed, t';
    }
    assert t'[|t'| - 2] == t[|t| - 1];
    var hash := HashFiles(files, show, sha);
    return Promoted(sid, hash), t';
  }

  /** `drive_builder`: the steps that were made keep to the protocol, they went as the other
      side answered, and they end with the outcome. */
  method DriveBuilder(mcp: Remote, m: Mission, show: Value -> string, sha: seq<byte> -> Digest)
      returns (r: Outcome, ghost t: seq<Step>)
    modifies mcp
    ensures mcp.log == old(mcp.log) + t && ByScript(mcp.script, |old(mcp.log)|, t)
    ensures Protocol(t, m) && Ended(t, r, mcp.clock, m, show, sha)
  {
    ghost var base := mcp.log;
    var early, sid;
    early, sid, t := Open(mcp, m, base, show, sha);
    if early.Some? {
      return early.value, t;
    }
    var stop;
    stop, t := Poll(mcp, m, sid, base, t, show, sha);
    if stop.Halt? {
      return stop.outcome, t;
    }
    r, t := Finish(mcp, m, sid, stop.files, base, t, show, sha);
  }
}
