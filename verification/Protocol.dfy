/** The frames exchanged with the gateway and the events of an upstream stream
    (src/protocol.rs). */
module Protocol {
  import opened Text
  import opened Json

  // ------------------------------------------------------------- gateway frames

  datatype ServerFrame =
    | Challenge(nonce: string)
    | Ready
    | Rejected(reason: string)
    | Job(jobId: string, body: Value)

  function ParseServerFrame(txt: string, parse: Parser): Option<ServerFrame> {
    match parse(txt)
    case None => None
    case Some(v) =>
      match v.GetStr("kind")
      case None => None
      case Some(kind) =>
        if kind == "challenge" then
          (match v.GetStr("nonce") case Some(n) => Some(Challenge(n)) case None => None)
        else if kind == "ready" then Some(Ready)
        else if kind == "rejected" then
          (match v.GetStr("reason") case Some(r) => Some(Rejected(r)) case None => Some(Rejected("unknown")))
        else if kind == "job" then
          (match v.GetStr("job_id")
           case Some(id) => Some(Job(id, match v.Get("body") case Some(b) => b case None => Null))
           case None => None)
        else None
  }

  /** How the texts of a gateway are read; `ParseServerFrame` with some JSON parser. */
  type FrameParser = string -> Option<ServerFrame>

  /** Why a job failed; the wording of the messages is not modelled. */
  datatype Failure =
    | RequestFailed(error: string)
    | HttpStatus(status: nat, detail: string)
    | StreamBroken(error: string)
    | OversizedLine
    | OutputLimit
    | TimeLimit

  datatype ClientFrame =
    | Auth(nodePubkey: string, walletPubkey: string, model: string, signature: string)
    | Chunk(jobId: string, delta: string)
    | Done(jobId: string, usage: Value)
    | JobError(jobId: string, failure: Failure)
    | Close

  // ------------------------------------------------------------- upstream lines

  datatype SseEvent =
    | Delta(text: string)
    | Usage(usage: Value)
    | Stop
    | Other

  /** `choices[0].delta.content`, when all of it is there and is a string. */
  function DeltaContent(v: Value): Option<string> {
    match v.Get("choices")
    case Some(Arr(items)) =>
      if items == [] then None else
        (match items[0].Get("delta")
         case Some(d) => d.GetStr("content")
         case None => None)
    case _ => None
  }

  function Classify(v: Value): SseEvent {
    match DeltaContent(v)
    case Some(content) => Delta(content)
    case None =>
      match v.Get("usage")
      case Some(u) => if u.Null? then Other else Usage(u)
      case None => Other
  }

  /** A line with no `data:` field, or whose payload is not JSON, is `None`. */
  function ParseSseLine(line: string, parse: Parser): Option<SseEvent> {
    if !("data:" <= line) then None
    else
      var payload := TrimStart(line[5..]);
      if payload == "[DONE]" then Some(Stop)
      else match parse(payload)
        case None => None
        case Some(v) => Some(Classify(v))
  }

  /** Only the keys that the client knows matter: texts whose objects agree on them are the
      same frame, whatever else a newer gateway puts in. */
  lemma OnlyKnownKeysMatter(a: string, b: string, p: Parser, q: Parser)
    requires p(a).Some? && q(b).Some?
    requires forall key :: key in {"kind", "nonce", "reason", "job_id", "body"} ==>
               p(a).value.Get(key) == q(b).value.Get(key)
    ensures ParseServerFrame(a, p) == ParseServerFrame(b, q)
  {
    var v, w := p(a).value, q(b).value;
    assert v.Get("kind") == w.Get("kind") && v.Get("nonce") == w.Get("nonce") && v.Get("reason") == w.Get("reason");
    assert v.Get("job_id") == w.Get("job_id") && v.Get("body") == w.Get("body");
  }
}
