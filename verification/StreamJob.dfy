/** One inference job: the upstream's byte stream is cut into lines, and the
    answer goes back to the gateway frame by frame (src/run.rs). */
module StreamJob {
  import opened Text
  import opened Sequences
  import opened Lines
  import opened Json
  import opened Protocol
  import opened Output

  const MAX_SSE_BUFFER_BYTES: nat := 1024 * 1024

  // ------------------------------------------------------------ the environment

  /** How a response body ends: by closing, by a transport error, or never,
      so that the time limit strikes at a read. */
  datatype Ending = Closed | Broken(error: string) | Stalled

  /** What the upstream does with one request. Chunks are text: each is taken
      to be valid UTF-8 on its own. */
  datatype Upstream =
    | Refused(error: string)
    | NoAnswer
    | HttpError(status: nat, detail: string)
    | Streaming(chunks: seq<string>, ending: Ending)

  /** What reading the socket yields. */
  datatype Incoming = Text(txt: string) | Ping | Ignored | Closing | Failing

  /** What a session does, in order. */
  datatype Act =
    | Received(message: Incoming)
    | Signed(bytes: seq<byte>)
    | Posted(jobId: string, body: Value)
    | Sent(frame: ClientFrame)

  function Acts(frames: seq<ClientFrame>): (acts: seq<Act>)
    ensures |acts| == |frames|
  {
    seq(|frames|, i requires 0 <= i < |frames| => Sent(frames[i]))
  }

  /** A gateway connection. What will arrive on it is fixed; a stream that has run out is
      closed. It takes `room` more messages and is dead for sending after that. */
  class Socket {
    const inbox: seq<Incoming>
    var taken: nat
    var room: nat
    var log: seq<Act>

    constructor (inbox: seq<Incoming>, room: nat)
      ensures this.inbox == inbox && this.taken == 0 && this.room == room && this.log == []
    {
      this.inbox, this.taken, this.room, this.log := inbox, 0, room, [];
    }

    /** The next message, if there is one: the only way to log a reception. */
    method Receive() returns (message: Option<Incoming>)
      modifies this`taken, this`log
      ensures message.Some? <==> old(taken) < |inbox|
      ensures message.Some? ==> message.value == inbox[old(taken)] && taken == old(taken) + 1
      ensures log == old(log) + if message.Some? then [Received(message.value)] else []
      ensures message.None? ==> taken == old(taken)
    {
      if taken >= |inbox| {
        return None;
      }
      message := Some(inbox[taken]);
      log := log + [Received(inbox[taken])];
      taken := taken + 1;
    }

    method Note(act: Act)
      requires act.Signed? || act.Posted?
      modifies this`log
      ensures log == old(log) + [act]
    {
      log := log + [act];
    }

    method Send(frame: ClientFrame) returns (ok: bool)
      modifies this`log, this`room
      ensures ok == (old(room) > 0)
      ensures ok ==> log == old(log) + [Sent(frame)] && room == old(room) - 1
      ensures !ok ==> log == old(log) && room == old(room)
    {
      ok := room > 0;
      if ok {
        log := log + [Sent(frame)];
        room := room - 1;
      }
    }
  }

  // -------------------------------------------------------------- the simple form

  function Concat(chunks: seq<string>): string {
    if chunks == [] then "" else chunks[0] + Concat(chunks[1..])
  }

  function TrimmedLength(s: string, n: nat): (m: nat)
    requires n <= |s|
    ensures m <= n
  {
    if n > 0 && (s[n - 1] == '\r' || s[n - 1] == '\n') then TrimmedLength(s, n - 1) else n
  }

  /** `trim_end_matches(['\r', '\n'])` */
  function TrimLineEnd(s: string): string {
    s[..TrimmedLength(s, |s|)]
  }

  /** The event of one line; empty lines and lines that do not parse change nothing. */
  function LineEvent(line: string, parse: Parser): SseEvent {
    var l := TrimLineEnd(line);
    if l == "" then Other else
      match ParseSseLine(l, parse)
      case Some(e) => e
      case None => Other
  }

  function Events(lines: seq<string>, parse: Parser): (es: seq<SseEvent>)
    ensures |es| == |lines|
  {
    if lines == [] then [] else [LineEvent(lines[0], parse)] + Events(lines[1..], parse)
  }

  /** How a job ends when its events run out before a stop. */
  datatype Finish = Ended | Failed(failure: Failure)

  function Terminal(jobId: string, usage: Option<Value>, finish: Finish): ClientFrame {
    match finish
    case Ended => Done(jobId, if usage.Some? then usage.value else Obj(map[]))
    case Failed(failure) => JobError(jobId, failure)
  }

  /** The frames owed for a list of events: one chunk for each piece of text, and
      one terminal frame at the stop, at the output limit, or at the end. */
  function Answer(events: seq<SseEvent>, jobId: string, total: nat, usage: Option<Value>, finish: Finish)
    : (frames: seq<ClientFrame>)
    ensures |frames| >= 1
  {
    if events == [] then [Terminal(jobId, usage, finish)] else
      match events[0]
      case Delta(text) =>
        if text == "" then Answer(events[1..], jobId, total, usage, finish)
        else
          var total' := SaturatingAdd(total, ByteLen(text));
          if total' > MAX_JOB_OUTPUT_BYTES then [JobError(jobId, OutputLimit)]
          else [Chunk(jobId, text)] + Answer(events[1..], jobId, total', usage, finish)
      case Usage(u) => Answer(events[1..], jobId, total, Some(u), finish)
      case Stop => [Terminal(jobId, usage, Ended)]
      case Other => Answer(events[1..], jobId, total, usage, finish)
  }

  // ------------------------------------------------- the buffer and its ceiling

  /** The unfinished line after the first `i` chunks. */
  function Unfinished(chunks: seq<string>, i: nat): string
    requires i <= |chunks|
  {
    Tail(Concat(chunks[..i]))
  }

  /** Chunk `i` leaves the line buffer within its ceiling when it is appended to
      the unfinished line of the text before it. */
  predicate Fits(chunks: seq<string>, i: nat)
    requires i < |chunks|
  {
    ByteLen(Unfinished(chunks, i) + chunks[i]) <= MAX_SSE_BUFFER_BYTES
  }

  /** The first chunk from `k` on that does not fit, or the number of chunks. */
  function FirstOverflow(chunks: seq<string>, k: nat): (r: nat)
    requires k <= |chunks|
    ensures k <= r <= |chunks|
    ensures forall i :: k <= i < r ==> Fits(chunks, i)
    ensures r < |chunks| ==> !Fits(chunks, r)
    decreases |chunks| - k
  {
    if k < |chunks| && Fits(chunks, k) then FirstOverflow(chunks, k + 1) else k
  }

  /** The text that is read before the ceiling stops the job. */
  function ReadText(chunks: seq<string>): string {
    Concat(chunks[..FirstOverflow(chunks, 0)])
  }

  /** How a job ends when no ceiling interferes. */
  function NaturalFinish(ending: Ending): Finish {
    match ending
    case Closed => Ended
    case Broken(e) => Failed(StreamBroken(e))
    case Stalled => Failed(TimeLimit)
  }

  function FinishOf(chunks: seq<string>, ending: Ending): Finish {
    if FirstOverflow(chunks, 0) < |chunks| then Failed(OversizedLine) else NaturalFinish(ending)
  }

  /** Every frame a job owes the gateway. */
  function JobFrames(up: Upstream, jobId: string, parse: Parser): (frames: seq<ClientFrame>)
    ensures |frames| >= 1
  {
    match up
    case Refused(e) => [JobError(jobId, RequestFailed(e))]
    case NoAnswer => [JobError(jobId, TimeLimit)]
    case HttpError(status, detail) =>
      [JobError(jobId, HttpStatus(status, if |detail| <= 200 then detail else detail[..200]))]
    case Streaming(chunks, ending) =>
      Answer(Events(Complete(ReadText(chunks)), parse), jobId, 0, None, FinishOf(chunks, ending))
  }

  // ------------------------------------------------------------------- the pump

  /** The frames still owed once `ahead` is all the text to come. */
  function Owed(ahead: string, jobId: string, total: nat, usage: Option<Value>, finish: Finish, parse: Parser)
    : (frames: seq<ClientFrame>)
    ensures |frames| >= 1
  {
    Answer(Events(Complete(ahead), parse), jobId, total, usage, finish)
  }

  lemma {:induction false} TrimmedLengthPrefix(s: string, t: string, n: nat)
    requires n <= |s| && s <= t
    ensures TrimmedLength(s, n) == TrimmedLength(t, n)
  {
    if n > 0 {
      TrimmedLengthPrefix(s, t, n - 1);
    }
  }

  /** Trimming the drained line takes its terminator away. */
  lemma TrimTerminator(buf: string)
    requires Find(buf) < |buf|
    ensures TrimLineEnd(buf[..Find(buf) + 1]) == TrimLineEnd(buf[..Find(buf)])
  {
    var line := buf[..Find(buf)];
    TrimmedLengthPrefix(line, buf[..Find(buf) + 1], |line|);
  }

  /** Draining one line from the front of the buffer. */
  lemma OwedDrain(buf: string, more: string, jobId: string, total: nat, usage: Option<Value>, finish: Finish,
      parse: Parser)
    requires Find(buf) < |buf|
    ensures var i := Find(buf);
            var events := Events(Complete(buf[i + 1..] + more), parse);
            Events(Complete(buf + more), parse) == [LineEvent(buf[..i], parse)] + events
    ensures Tail(buf) == Tail(buf[Find(buf) + 1..])
  {
    var i := Find(buf);
    FindAppend(buf, more);
    assert (buf + more)[..i] == buf[..i];
    assert (buf + more)[i + 1..] == buf[i + 1..] + more;
    var ls := Complete(buf[i + 1..] + more);
    assert ([buf[..i]] + ls)[1..] == ls;
  }

  /** What handling the first line of the buffer leaves to be sent. */
  lemma OwedStep(buf: string, more: string, jobId: string, total: nat, usage: Option<Value>, finish: Finish,
      parse: Parser)
    requires Find(buf) < |buf|
    ensures var owed := Owed(buf + more, jobId, total, usage, finish, parse);
            var ahead := buf[Find(buf) + 1..] + more;
            match LineEvent(buf[..Find(buf)], parse)
            case Delta(text) =>
              var total' := SaturatingAdd(total, ByteLen(text));
              if text == "" then owed == Owed(ahead, jobId, total, usage, finish, parse)
              else if total' > MAX_JOB_OUTPUT_BYTES then owed == [JobError(jobId, OutputLimit)]
              else owed == [Chunk(jobId, text)] + Owed(ahead, jobId, total', usage, finish, parse)
            case Usage(u) => owed == Owed(ahead, jobId, total, Some(u), finish, parse)
            case Stop => owed == [Terminal(jobId, usage, Ended)]
            case Other => owed == Owed(ahead, jobId, total, usage, finish, parse)
    ensures Tail(buf) == Tail(buf[Find(buf) + 1..])
  {
    OwedDrain(buf, more, jobId, total, usage, finish, parse);
    var events := Events(Complete(buf[Find(buf) + 1..] + more), parse);
    assert ([LineEvent(buf[..Find(buf)], parse)] + events)[1..] == events;
  }

  lemma {:induction false} ConcatAppend(a: seq<string>, b: seq<string>)
    ensures Concat(a + b) == Concat(a) + Concat(b)
  {
    if a == [] {
      assert a + b == b;
    } else {
      assert (a + b)[1..] == a[1..] + b;
      ConcatAppend(a[1..], b);
    }
  }

  lemma ConcatSnoc(chunks: seq<string>, i: nat)
    requires i < |chunks|
    ensures Concat(chunks[..i + 1]) == Concat(chunks[..i]) + chunks[i]
  {
    assert chunks[..i + 1] == chunks[..i] + [chunks[i]];
    ConcatAppend(chunks[..i], [chunks[i]]);
    assert Concat([chunks[i]]) == chunks[i];
  }

  function Cut(frames: seq<ClientFrame>, room: nat): seq<ClientFrame> {
    if |frames| <= room then frames else frames[..room]
  }

  /** The chunks from `i` up to the ceiling. */
  ghost function Ahead(chunks: seq<string>, i: nat): string
    requires i <= |chunks|
  {
    Concat(chunks[i..FirstOverflow(chunks, i)])
  }

  lemma PumpStart(chunks: seq<string>)
    ensures Unfinished(chunks, 0) == "" && "" + Ahead(chunks, 0) == ReadText(chunks)
    ensures Ahead(chunks, |chunks|) == ""
  {
    var r := FirstOverflow(chunks, 0);
    assert chunks[0..r] == chunks[..r];
    NoNewlineSplit("");
  }

  /** Reading one more chunk into a buffer that holds an unfinished line. */
  lemma ReadStep(chunks: seq<string>, i: nat, buf: string)
    requires i < |chunks| && buf == Unfinished(chunks, i)
    ensures if ByteLen(buf + chunks[i]) > MAX_SSE_BUFFER_BYTES
            then FirstOverflow(chunks, i) == i && Ahead(chunks, i) == ""
            else
              && FirstOverflow(chunks, i) == FirstOverflow(chunks, i + 1)
              && Tail(buf + chunks[i]) == Unfinished(chunks, i + 1)
              && buf + Ahead(chunks, i) == (buf + chunks[i]) + Ahead(chunks, i + 1)
  {
    SplitConcat(Concat(chunks[..i]), chunks[i]);
    ConcatSnoc(chunks, i);
    if Fits(chunks, i) {
      var r := FirstOverflow(chunks, i + 1);
      assert chunks[i..r][1..] == chunks[i + 1..r];
      Assoc(buf, chunks[i], Ahead(chunks, i + 1));
    }
  }

  /** Nothing is owed for an unfinished line but the end of the job. */
  lemma OwedEnd(buf: string, jobId: string, total: nat, usage: Option<Value>, finish: Finish, parse: Parser)
    requires NoNewline(buf)
    ensures Owed(buf + "", jobId, total, usage, finish, parse) == [Terminal(jobId, usage, finish)]
  {
    NoNewlineSplit(buf);
    assert buf + "" == buf;
  }

  /** From `before`, with `room` left, a job was posted and `frames` were sent. */
  ghost predicate Sending(before: seq<Act>, room: nat, posted: Act, frames: seq<ClientFrame>, now: seq<Act>,
      left: nat)
  {
    now == before + [posted] + Acts(frames) && left + |frames| == room
  }

  /** The same at the end of a job: all of `owed` that the socket took. */
  ghost predicate Delivered(before: seq<Act>, room: nat, posted: Act, owed: seq<ClientFrame>, now: seq<Act>, left: nat,
      alive: bool)
  {
    Sending(before, room, posted, Cut(owed, room), now, left) && alive == (|owed| <= room)
  }

  /** What a job did: it ran to its last frame or found the socket dead, or the time
      limit cut it off before it could send the frame that reports the limit. */
  ghost predicate Completed(before: seq<Act>, room: nat, posted: Act, owed: seq<ClientFrame>, now: seq<Act>, left: nat,
                            alive: Option<bool>, jobId: string)
  {
    match alive
    case Some(ok) => Delivered(before, room, posted, owed, now, left, ok)
    case None =>
      && |owed| >= 1 && owed[|owed| - 1] == JobError(jobId, TimeLimit)
      && Sending(before, room, posted, owed[..|owed| - 1], now, left)
  }

  lemma SendingOne(before: seq<Act>, room: nat, posted: Act, frames: seq<ClientFrame>, now: seq<Act>, left: nat,
      frame: ClientFrame)
    requires Sending(before, room, posted, frames, now, left) && left > 0
    ensures Sending(before, room, posted, frames + [frame], now + [Sent(frame)], left - 1)
  {
    assert Acts(frames + [frame]) == Acts(frames) + [Sent(frame)];
  }

  /** A frame that is still owed is sent, or finds the socket dead. */
  method SendOwed(ws: Socket, frame: ClientFrame, ghost before: seq<Act>, ghost room: nat, ghost posted: Act,
                  ghost frames: seq<ClientFrame>, ghost rest: seq<ClientFrame>, ghost owed: seq<ClientFrame>)
    returns (ok: bool)
    requires Sending(before, room, posted, frames, ws.log, ws.room)
    requires owed == frames + ([frame] + rest)
    modifies ws`log, ws`room
    ensures ok ==> Sending(before, room, posted, frames + [frame], ws.log, ws.room)
    ensures !ok || rest == [] ==> Delivered(before, room, posted, owed, ws.log, ws.room, ok)
    ensures !ok ==> Cut(owed, room) == frames
    ensures ok && rest == [] ==> Cut(owed, room) == frames + [frame]
  {
    if ws.room > 0 {
      SendingOne(before, room, posted, frames, ws.log, ws.room, frame);
    }
    ok := ws.Send(frame);
    if !ok {
      assert Cut(owed, room) == frames;
    } else {
      assert [frame] + [] == [frame];
    }
  }

  /** The pieces of a job's state that change as lines are handled. */
  datatype Pump = Pump(total: nat, usage: Option<Value>)

  /** The inner loop of `stream_job`: handle every complete line of the buffer.
      `Some(ok)` ends the job. */
  method DrainLines(ws: Socket, jobId: string, parse: Parser, buf0: string, pump0: Pump,
                    ghost unfinished: string, ghost ahead: string, ghost finish: Finish, ghost before: seq<Act>,
                    ghost room: nat, ghost posted: Act, ghost frames0: seq<ClientFrame>, ghost owed: seq<ClientFrame>)
    returns (ended: Option<bool>, buf: string, pump: Pump, ghost frames: seq<ClientFrame>, ghost unsent: seq<string>)
    requires Tail(buf0) == unfinished
    requires Counted(pump0.total, frames0)
    requires Sending(before, room, posted, frames0, ws.log, ws.room)
    requires owed == frames0 + Owed(buf0 + ahead, jobId, pump0.total, pump0.usage, finish, parse)
    modifies ws`log, ws`room
    ensures ended.Some? ==> Delivered(before, room, posted, owed, ws.log, ws.room, ended.value)
    ensures ended.None? ==> NoNewline(buf) && buf == unfinished
    ensures ended.None? ==> owed == frames + Owed(buf + ahead, jobId, pump.total, pump.usage, finish, parse)
    ensures ended.None? ==> Sending(before, room, posted, frames, ws.log, ws.room)
    ensures ended.None? ==> Counted(pump.total, frames)
    ensures ended.Some? ==> CountedBut(pump.total, Cut(owed, room), unsent)
  {
    buf, pump, frames, unsent, ended := buf0, pump0, frames0, [], None;
    while Find(buf) < |buf|
      invariant Tail(buf) == unfinished
      invariant Counted(pump.total, frames) && unsent == []
      invariant owed == frames + Owed(buf + ahead, jobId, pump.total, pump.usage, finish, parse)
      invariant Sending(before, room, posted, frames, ws.log, ws.room)
      decreases |buf|
    {
      var nl := Find(buf);
      ghost var due := Owed(buf + ahead, jobId, pump.total, pump.usage, finish, parse);
      OwedStep(buf, ahead, jobId, pump.total, pump.usage, finish, parse);
      TrimTerminator(buf);
      var line := TrimLineEnd(buf[..nl + 1]);
      buf := buf[nl + 1..];
      if line == "" {
        continue;
      }
      match ParseSseLine(line, parse) {
        case Some(Delta(delta)) =>
          if delta != "" {
            var total := SaturatingAdd(pump.total, ByteLen(delta));
            CountOne(pump.total, frames, jobId, delta);
            pump := pump.(total := total);
            var ok;
            if total > MAX_JOB_OUTPUT_BYTES {
              unsent := [delta];
              CountedLast(total, frames, JobError(jobId, OutputLimit), unsent);
              ok := SendOwed(ws, JobError(jobId, OutputLimit), before, room, posted, frames, [], owed);
              ended := Some(ok);
              return;
            }
            ghost var rest := Owed(buf + ahead, jobId, total, pump.usage, finish, parse);
            assert due == [Chunk(jobId, delta)] + rest;
            ok := SendOwed(ws, Chunk(jobId, delta), before, room, posted, frames, rest, owed);
            if !ok {
              unsent := [delta];
              ended := Some(false);
              return;
            }
            Assoc(frames, [Chunk(jobId, delta)], rest);
            frames := frames + [Chunk(jobId, delta)];
          }
        case Some(Usage(u)) =>
          pump := pump.(usage := Some(u));
        case Some(Stop) =>
          CountedLast(pump.total, frames, Terminal(jobId, pump.usage, Ended), []);
          var ok := SendOwed(ws, Terminal(jobId, pump.usage, Ended), before, room, posted, frames, [], owed);
          ended := Some(ok);
          return;
        case Some(Other) =>
        case None =>
      }
    }
    NoNewlineSplit(buf);
  }

  /** The end of the body, by closing or by an error, or the time limit that strikes at
      the read that would have seen it. */
  method EndBody(ws: Socket, ending: Ending, jobId: string, usage: Option<Value>,
                 ghost before: seq<Act>, ghost room: nat, ghost posted: Act, ghost frames: seq<ClientFrame>,
                 ghost owed: seq<ClientFrame>)
    returns (alive: Option<bool>)
    requires Sending(before, room, posted, frames, ws.log, ws.room)
    requires owed == frames + [Terminal(jobId, usage, NaturalFinish(ending))]
    modifies ws`log, ws`room
    ensures Completed(before, room, posted, owed, ws.log, ws.room, alive, jobId)
  {
    if ending.Stalled? {
      assert owed[..|owed| - 1] == frames;
      return None;
    }
    var last := if ending.Broken? then JobError(jobId, StreamBroken(ending.error)) else Terminal(jobId, usage, Ended);
    var ok := SendOwed(ws, last, before, room, posted, frames, [], owed);
    return Some(ok);
  }

  /** Before chunk `i` is read: the buffer is the unfinished line, and what was sent and
      what is still owed make up the whole answer. */
  ghost predicate Pumping(chunks: seq<string>, i: nat, buf: string, pump: Pump, jobId: string, finish: Finish,
      parse: Parser, frames: seq<ClientFrame>, owed: seq<ClientFrame>)
    requires i <= |chunks|
  {
    && FirstOverflow(chunks, i) == FirstOverflow(chunks, 0)
    && buf == Unfinished(chunks, i) && NoNewline(buf)
    && owed == frames + Owed(buf + Ahead(chunks, i), jobId, pump.total, pump.usage, finish, parse)
  }

  lemma StartPumping(chunks: seq<string>, ending: Ending, jobId: string, parse: Parser)
    ensures var owed := JobFrames(Streaming(chunks, ending), jobId, parse);
            Pumping(chunks, 0, "", Pump(0, None), jobId, FinishOf(chunks, ending), parse, [], owed)
  {
    PumpStart(chunks);
  }

  lemma ReadPumping(chunks: seq<string>, i: nat, buf: string, pump: Pump, jobId: string, finish: Finish,
      parse: Parser, frames: seq<ClientFrame>, owed: seq<ClientFrame>)
    requires i < |chunks| && Pumping(chunks, i, buf, pump, jobId, finish, parse, frames, owed)
    ensures var more := buf + chunks[i];
            if ByteLen(more) > MAX_SSE_BUFFER_BYTES
            then FirstOverflow(chunks, 0) == i && owed == frames + [Terminal(jobId, pump.usage, finish)]
            else
              && FirstOverflow(chunks, i + 1) == FirstOverflow(chunks, 0)
              && Tail(more) == Unfinished(chunks, i + 1)
              && owed == frames + Owed(more + Ahead(chunks, i + 1), jobId, pump.total, pump.usage, finish, parse)
  {
    OwedEnd(buf, jobId, pump.total, pump.usage, finish, parse);
    ReadStep(chunks, i, buf);
  }

  lemma DonePumping(chunks: seq<string>, buf: string, pump: Pump, jobId: string, ending: Ending,
      parse: Parser, frames: seq<ClientFrame>, owed: seq<ClientFrame>)
    requires Pumping(chunks, |chunks|, buf, pump, jobId, FinishOf(chunks, ending), parse, frames, owed)
    ensures owed == frames + [Terminal(jobId, pump.usage, NaturalFinish(ending))]
  {
    PumpStart(chunks);
    OwedEnd(buf, jobId, pump.total, pump.usage, FinishOf(chunks, ending), parse);
  }

  /** The reading loop of `stream_job`. */
  method PumpBody(ws: Socket, chunks: seq<string>, ending: Ending, jobId: string, parse: Parser,
                  ghost before: seq<Act>, ghost room: nat, ghost posted: Act)
    returns (alive: Option<bool>)
    requires Sending(before, room, posted, [], ws.log, ws.room)
    modifies ws`log, ws`room
    ensures var owed := JobFrames(Streaming(chunks, ending), jobId, parse);
            Completed(before, room, posted, owed, ws.log, ws.room, alive, jobId)
  {
    ghost var owed := JobFrames(Streaming(chunks, ending), jobId, parse);
    ghost var finish := FinishOf(chunks, ending);
    ghost var frames: seq<ClientFrame>, unsent: seq<string> := [], [];
    var buf, pump, i := "", Pump(0, None), 0;
    StartPumping(chunks, ending, jobId, parse);
    while i < |chunks|
      invariant 0 <= i <= |chunks|
      invariant Pumping(chunks, i, buf, pump, jobId, finish, parse, frames, owed)
      invariant Counted(pump.total, frames)
      invariant Sending(before, room, posted, frames, ws.log, ws.room)
    {
      ReadPumping(chunks, i, buf, pump, jobId, finish, parse, frames, owed);
      buf := buf + chunks[i];
      if ByteLen(buf) > MAX_SSE_BUFFER_BYTES {
        var ok := SendOwed(ws, JobError(jobId, OversizedLine), before, room, posted, frames, [], owed);
        return Some(ok);
      }
      i := i + 1;
      var ended;
      ghost var unfinished, ahead := Unfinished(chunks, i), Ahead(chunks, i);
      ended, buf, pump, frames, unsent :=
          DrainLines(ws, jobId, parse, buf, pump, unfinished, ahead, finish, before, room, posted, frames, owed);
      if ended.Some? {
        return ended;
      }
    }
    DonePumping(chunks, buf, pump, jobId, ending, parse, frames, owed);
    alive := EndBody(ws, ending, jobId, pump.usage, before, room, posted, frames, owed);
  }

  /** A job that comes to nothing but one report. */
  method Report(ws: Socket, jobId: string, failure: Failure, ghost before: seq<Act>, ghost room: nat, ghost posted: Act)
    returns (alive: Option<bool>)
    requires Sending(before, room, posted, [], ws.log, ws.room)
    modifies ws`log, ws`room
    ensures Completed(before, room, posted, [JobError(jobId, failure)], ws.log, ws.room, alive, jobId)
  {
    var ok := SendOwed(ws, JobError(jobId, failure), before, room, posted, [], [], [JobError(jobId, failure)]);
    return Some(ok);
  }

  /** `stream_job`: `None` stands for the run that the time limit cuts off. */
  method StreamJob(ws: Socket, up: Upstream, jobId: string, body: Value, parse: Parser)
    returns (alive: Option<bool>)
    modifies ws`log, ws`room
    ensures Completed(old(ws.log), old(ws.room), Posted(jobId, body), JobFrames(up, jobId, parse), ws.log, ws.room,
            alive, jobId)
  {
    ghost var before, room, posted := ws.log, ws.room, Posted(jobId, body);
    ws.Note(Posted(jobId, body));
    assert Sending(before, room, posted, [], ws.log, ws.room);
    if up.Streaming? {
      alive := PumpBody(ws, up.chunks, up.ending, jobId, parse, before, room, posted);
      return;
    }
    if up.NoAnswer? {
      return None;
    }
    var failure := if up.Refused? then RequestFailed(up.error)
                   else HttpStatus(up.status, if |up.detail| <= 200 then up.detail else up.detail[..200]);
    alive := Report(ws, jobId, failure, before, room, posted);
  }
}
