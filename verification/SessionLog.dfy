/** What the log of a session shows: the acts of one kind in order, and what precedes what. */
module SessionLog {
  import opened Text
  import opened Sequences
  import opened Json
  import opened Protocol
  import opened StreamJob
  import opened Session
  import Base58

  /** What `pick` takes from the acts, in order. */
  function Collect<T>(acts: seq<Act>, pick: Act -> Option<T>): seq<T> {
    if acts == [] then [] else (if pick(acts[0]).Some? then [pick(acts[0]).value] else []) + Collect(acts[1..], pick)
  }

  function FrameOf(act: Act): Option<ClientFrame> {
    if act.Sent? then Some(act.frame) else None
  }

  function MessageOf(act: Act): Option<Incoming> {
    if act.Received? then Some(act.message) else None
  }

  function PostOf(act: Act): Option<(string, Value)> {
    if act.Posted? then Some((act.jobId, act.body)) else None
  }

  lemma CollectCons<T>(act: Act, acts: seq<Act>, pick: Act -> Option<T>)
    ensures Collect([act] + acts, pick) == (if pick(act).Some? then [pick(act).value] else []) + Collect(acts, pick)
  {
    assert ([act] + acts)[1..] == acts;
  }

  lemma {:induction false} CollectConcat<T>(a: seq<Act>, b: seq<Act>, pick: Act -> Option<T>)
    ensures Collect(a + b, pick) == Collect(a, pick) + Collect(b, pick)
  {
    if a == [] {
      assert a + b == b;
    } else {
      var act, rest := a[0], a[1..];
      CollectConcat(rest, b, pick);
      CollectCons(act, rest, pick);
      CollectCons(act, rest + b, pick);
      assert a == [act] + rest;
      Assoc([act], rest, b);
      Assoc(if pick(act).Some? then [pick(act).value] else [], Collect(rest, pick), Collect(b, pick));
    }
  }

  lemma {:induction false} CollectNone<T>(acts: seq<Act>, pick: Act -> Option<T>)
    requires forall i :: 0 <= i < |acts| ==> pick(acts[i]).None?
    ensures Collect(acts, pick) == []
  {
    if acts != [] {
      CollectNone(acts[1..], pick);
    }
  }

  lemma {:induction false} CollectAll<T>(acts: seq<Act>, pick: Act -> Option<T>, xs: seq<T>)
    requires |acts| == |xs| && forall i :: 0 <= i < |xs| ==> pick(acts[i]) == Some(xs[i])
    ensures Collect(acts, pick) == xs
  {
    if acts != [] {
      CollectAll(acts[1..], pick, xs[1..]);
      assert xs == [xs[0]] + xs[1..];
    }
  }

  /** The frames sent are the ones owed, cut off where the socket died. */
  ghost predicate Sends(acts: seq<Act>, owed: seq<ClientFrame>, room: nat) {
    Collect(acts, FrameOf) == Cut(owed, room)
  }

  /** The receptions are, in order, the messages from `i` up to `j`. */
  ghost predicate Hears(acts: seq<Act>, inbox: seq<Incoming>, i: nat, j: nat)
    requires i <= j <= |inbox|
  {
    Collect(acts, MessageOf) == inbox[i..j]
  }

  /** Act `i` posts the job that the act before it received. */
  predicate Handover(acts: seq<Act>, i: nat, p: Plan)
    requires i < |acts| && acts[i].Posted?
  {
    i > 0 && acts[i - 1].Received? && acts[i - 1].message.Text?
    && match p.frame(acts[i - 1].message.txt)
       case Some(Job(id, raw)) => acts[i].jobId == id && acts[i].body == p.clean(raw)
       case _ => false
  }

  ghost predicate WorkOrdered(acts: seq<Act>, p: Plan) {
    forall i :: 0 <= i < |acts| ==> !acts[i].Signed? && (acts[i].Posted? ==> Handover(acts, i, p))
  }

  /** The message that gives readiness. */
  predicate IsReady(act: Act, p: Plan) {
    act.Received? && act.message.Text? && p.frame(act.message.txt) == Some(Ready)
  }

  /** Act `i` signs what the first challenge asks for: the challenge is the last message
      read before, and the base58 text of the 32 bytes that are signed behind the domain
      tag. */
  ghost predicate SignsChallenge(acts: seq<Act>, i: nat, p: Plan)
    requires i < |acts| && acts[i].Signed?
  {
    var challenge := Await(p.inbox, 0, false, p.frame);
    && challenge.Got? && challenge.next == i && acts[..i] == Hearing(p.inbox, 0, i)
    && exists nonce ::
         && |nonce| == 32
         && challenge.nonce == Base58.Encode(nonce)
         && acts[i].bytes == AUTH_DOMAIN_TAG + nonce
  }

  /** Before act `i` something was signed, and readiness was received after that. */
  ghost predicate AfterReady(acts: seq<Act>, i: nat, p: Plan)
    requires i < |acts|
  {
    exists q, r :: 0 <= q < r < i && acts[q].Signed? && IsReady(acts[r], p)
  }

  ghost predicate Ordered(acts: seq<Act>, p: Plan) {
    forall i :: 0 <= i < |acts| ==>
      && (acts[i].Signed? ==> SignsChallenge(acts, i, p))
      && (acts[i].Posted? ==> Handover(acts, i, p) && AfterReady(acts, i, p))
  }
}
