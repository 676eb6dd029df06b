/** What the frames of a job do and do not depend on (src/run.rs, src/limits.rs). */
module StreamJobProperties {
  import opened Text
  import opened Sequences
  import opened Lines
  import opened Json
  import opened Protocol
  import opened Output
  import opened StreamJob

  // ------------------------------------------------------ chunking does not matter

  /** Split the whole text at its line feeds, drop an unterminated last line,
      and answer the events of the rest. No chunk and no buffer is mentioned. */
  function SimpleForm(text: string, ending: Ending, jobId: string, parse: Parser): seq<ClientFrame> {
    Answer(Events(Complete(text), parse), jobId, 0, None, NaturalFinish(ending))
  }

  lemma {:induction false} EventsConcat(a: seq<string>, b: seq<string>, parse: Parser)
    ensures Events(a + b, parse) == Events(a, parse) + Events(b, parse)
  {
    if a == [] {
      assert a + b == b;
    } else {
      assert (a + b)[1..] == a[1..] + b;
      EventsConcat(a[1..], b, parse);
    }
  }

  /** `short` is what the answer `long` comes to if the run ends early with an
      oversized line: all of it, or all of it up to that report. */
  ghost predicate CutShort(short: seq<ClientFrame>, long: seq<ClientFrame>, jobId: string)
    requires |short| >= 1
  {
    if short[|short| - 1] == JobError(jobId, OversizedLine)
    then |short| <= |long| && forall i :: 0 <= i < |short| - 1 ==> short[i] == long[i]
    else short == long
  }

  lemma CutShortCons(frame: ClientFrame, short: seq<ClientFrame>, long: seq<ClientFrame>, jobId: string)
    requires |short| >= 1 && CutShort(short, long, jobId)
    ensures CutShort([frame] + short, [frame] + long, jobId)
  {
  }

  /** An answer that stopped before running out of events ignores later events;
      one that ran out is, but for its last frame, what any continuation starts with. */
  lemma {:induction false} AnswerExtend(a: seq<SseEvent>, b: seq<SseEvent>, jobId: string, total: nat,
      usage: Option<Value>, finish: Finish)
    ensures CutShort(Answer(a, jobId, total, usage, Failed(OversizedLine)),
                     Answer(a + b, jobId, total, usage, finish), jobId)
  {
    if a != [] {
      var rest := a[1..];
      assert a + b == [a[0]] + (rest + b);
      match a[0] {
        case Delta(text) =>
          var total' := if text == "" then total else SaturatingAdd(total, ByteLen(text));
          AnswerExtend(rest, b, jobId, total', usage, finish);
          CutShortCons(Chunk(jobId, text), Answer(rest, jobId, total', usage, Failed(OversizedLine)),
                       Answer(rest + b, jobId, total', usage, finish), jobId);
        case Usage(u) => AnswerExtend(rest, b, jobId, total, Some(u), finish);
        case Stop =>
        case Other => AnswerExtend(rest, b, jobId, total, usage, finish);
      }
    }
  }

  /** Text that arrives after an oversized line was reported. */
  lemma {:induction false} MoreText(read: string, rest: string, ending: Ending, jobId: string, parse: Parser)
    ensures CutShort(Answer(Events(Complete(read), parse), jobId, 0, None, Failed(OversizedLine)),
                     SimpleForm(read + rest, ending, jobId, parse), jobId)
  {
    SplitConcat(read, rest);
    var done, more := Complete(read), Complete(Tail(read) + rest);
    EventsConcat(done, more, parse);
    AnswerExtend(Events(done, parse), Events(more, parse), jobId, 0, None, NaturalFinish(ending));
  }

  lemma ReadSplit(chunks: seq<string>) returns (rest: string)
    ensures Concat(chunks) == ReadText(chunks) + rest
    ensures FirstOverflow(chunks, 0) == |chunks| ==> rest == "" && Concat(chunks) == ReadText(chunks)
  {
    var r := FirstOverflow(chunks, 0);
    assert chunks == chunks[..r] + chunks[r..];
    ConcatAppend(chunks[..r], chunks[r..]);
    rest := Concat(chunks[r..]);
  }

  /** Reading only the text up to the ceiling. */
  lemma {:induction false} ReadPart(chunks: seq<string>, ending: Ending, jobId: string, parse: Parser)
    ensures var owed := JobFrames(Streaming(chunks, ending), jobId, parse);
            var simple := SimpleForm(Concat(chunks), ending, jobId, parse);
            if FirstOverflow(chunks, 0) == |chunks| then owed == simple else CutShort(owed, simple, jobId)
  {
    var rest := ReadSplit(chunks);
    if FirstOverflow(chunks, 0) < |chunks| {
      MoreText(ReadText(chunks), rest, ending, jobId, parse);
    }
  }

  lemma {:induction false} NoFalseReport(events: seq<SseEvent>, jobId: string, total: nat, usage: Option<Value>,
      finish: Finish)
    requires finish != Failed(OversizedLine)
    ensures JobError(jobId, OversizedLine) !in Answer(events, jobId, total, usage, finish)
  {
    if events != [] {
      match events[0] {
        case Delta(text) =>
          var total' := if text == "" then total else SaturatingAdd(total, ByteLen(text));
          NoFalseReport(events[1..], jobId, total', usage, finish);
        case Usage(u) => NoFalseReport(events[1..], jobId, total, Some(u), finish);
        case Stop =>
        case Other => NoFalseReport(events[1..], jobId, total, usage, finish);
      }
    }
  }

  /** What reaches the gateway, whatever the chunks and whenever the socket dies. */
  function Delivery(chunks: seq<string>, ending: Ending, jobId: string, parse: Parser, room: nat): seq<ClientFrame> {
    Cut(JobFrames(Streaming(chunks, ending), jobId, parse), room)
  }

  lemma ReportOrSame(owed: seq<ClientFrame>, simple: seq<ClientFrame>, jobId: string, room: nat)
    requires |owed| >= 1 && CutShort(owed, simple, jobId) && JobError(jobId, OversizedLine) !in simple
    ensures JobError(jobId, OversizedLine) !in Cut(owed, room) <==> Cut(owed, room) == Cut(simple, room)
  {
    var report := JobError(jobId, OversizedLine);
    if owed[|owed| - 1] == report && |owed| > room {
      assert forall i :: 0 <= i < room ==> owed[i] == simple[i] && simple[i] in simple;
      assert Cut(owed, room) == Cut(simple, room);
    } else if owed[|owed| - 1] == report {
      assert Cut(owed, room)[|owed| - 1] == report;
      assert forall frame :: frame in Cut(simple, room) ==> frame in simple;
    }
  }

  /** It is what the simple form says exactly when no oversized line is reported. */
  lemma {:induction false} RefinesSimpleForm(chunks: seq<string>, ending: Ending, jobId: string, parse: Parser,
      room: nat)
    ensures JobError(jobId, OversizedLine) !in Delivery(chunks, ending, jobId, parse, room)
            <==>
            Delivery(chunks, ending, jobId, parse, room) == Cut(SimpleForm(Concat(chunks), ending, jobId, parse), room)
  {
    var owed := JobFrames(Streaming(chunks, ending), jobId, parse);
    var simple := SimpleForm(Concat(chunks), ending, jobId, parse);
    ReadPart(chunks, ending, jobId, parse);
    NoFalseReport(Events(Complete(Concat(chunks)), parse), jobId, 0, None, NaturalFinish(ending));
    if owed == simple {
      assert CutShort(owed, simple, jobId);
    }
    ReportOrSame(owed, simple, jobId, room);
  }

  /** Two ways of cutting the same text give the gateway the same frames. */
  lemma {:induction false} ChunkingDoesNotMatter(a: seq<string>, b: seq<string>, ending: Ending, jobId: string,
      parse: Parser, room: nat)
    requires Concat(a) == Concat(b)
    requires JobError(jobId, OversizedLine) !in Delivery(a, ending, jobId, parse, room)
    requires JobError(jobId, OversizedLine) !in Delivery(b, ending, jobId, parse, room)
    ensures Delivery(a, ending, jobId, parse, room) == Delivery(b, ending, jobId, parse, room)
  {
    RefinesSimpleForm(a, ending, jobId, parse, room);
    RefinesSimpleForm(b, ending, jobId, parse, room);
  }

  // ---------------------------------------------------------- what of a line matters

  /** The payload of a line, if it has one. */
  function Payload(line: string): Option<string> {
    var l := TrimLineEnd(line);
    if "data:" <= l then Some(TrimStart(l[5..])) else None
  }

  /** Parsers that agree on the payload read the line alike. */
  lemma SamePayloadSameEvent(line: string, p: Parser, q: Parser)
    requires Payload(line).Some? ==> p(Payload(line).value) == q(Payload(line).value)
    ensures LineEvent(line, p) == LineEvent(line, q)
    ensures Payload(line).None? ==> LineEvent(line, p) == Other
  {
  }

  lemma {:induction false} SamePayloadsSameEvents(lines: seq<string>, p: Parser, q: Parser)
    requires forall line :: line in lines && Payload(line).Some? ==> p(Payload(line).value) == q(Payload(line).value)
    ensures Events(lines, p) == Events(lines, q)
  {
    if lines != [] {
      SamePayloadSameEvent(lines[0], p, q);
      SamePayloadsSameEvents(lines[1..], p, q);
    }
  }

  /** A job depends on the JSON parser only through the payloads of the complete lines that
      were read. */
  lemma OnlyPayloadsMatter(chunks: seq<string>, ending: Ending, jobId: string, p: Parser, q: Parser)
    requires forall line :: line in Complete(ReadText(chunks)) && Payload(line).Some?
                            ==> p(Payload(line).value) == q(Payload(line).value)
    ensures JobFrames(Streaming(chunks, ending), jobId, p) == JobFrames(Streaming(chunks, ending), jobId, q)
  {
    SamePayloadsSameEvents(Complete(ReadText(chunks)), p, q);
  }

  lemma {:induction false} AnswerSkipsOther(a: seq<SseEvent>, junk: seq<SseEvent>, b: seq<SseEvent>, jobId: string,
      total: nat, usage: Option<Value>, finish: Finish)
    requires forall event :: event in junk ==> event == Other
    ensures Answer(a + junk + b, jobId, total, usage, finish) == Answer(a + b, jobId, total, usage, finish)
    decreases |a| + |junk|
  {
    if a != [] {
      var rest := a[1..];
      assert a + junk + b == [a[0]] + (rest + junk + b) && a + b == [a[0]] + (rest + b);
      match a[0] {
        case Delta(text) =>
          var total' := if text == "" then total else SaturatingAdd(total, ByteLen(text));
          AnswerSkipsOther(rest, junk, b, jobId, total', usage, finish);
        case Usage(u) => AnswerSkipsOther(rest, junk, b, jobId, total, Some(u), finish);
        case Stop =>
        case Other => AnswerSkipsOther(rest, junk, b, jobId, total, usage, finish);
      }
    } else if junk != [] {
      assert junk[0] in junk && forall event :: event in junk[1..] ==> event in junk;
      assert a + junk + b == [junk[0]] + (a + junk[1..] + b);
      AnswerSkipsOther(a, junk[1..], b, jobId, total, usage, finish);
    } else {
      assert a + junk + b == a + b;
    }
  }

  lemma {:induction false} FieldlessEvents(lines: seq<string>, parse: Parser)
    requires forall line :: line in lines ==> Payload(line).None?
    ensures forall event :: event in Events(lines, parse) ==> event == Other
  {
    if lines != [] {
      SamePayloadSameEvent(lines[0], parse, parse);
      FieldlessEvents(lines[1..], parse);
    }
  }

  /** Lines without a data field (comments, other fields, blank lines) may stand anywhere:
      nothing that is sent changes. */
  lemma OtherLinesIgnored(a: seq<string>, junk: seq<string>, b: seq<string>, jobId: string, finish: Finish,
      parse: Parser)
    requires forall line :: line in junk ==> Payload(line).None?
    ensures Answer(Events(a + junk + b, parse), jobId, 0, None, finish)
            == Answer(Events(a + b, parse), jobId, 0, None, finish)
  {
    FieldlessEvents(junk, parse);
    EventsConcat(a + junk, b, parse);
    EventsConcat(a, junk, parse);
    EventsConcat(a, b, parse);
    AnswerSkipsOther(Events(a, parse), Events(junk, parse), Events(b, parse), jobId, 0, None, finish);
  }

  /** Lines may end in a carriage return and a line feed as well as in a line feed. */
  lemma CarriageReturnIgnored(line: string, parse: Parser)
    ensures LineEvent(line + "\r", parse) == LineEvent(line, parse)
  {
    var l := line + "\r";
    assert l[|l| - 1] == '\r';
    TrimmedLengthPrefix(line, l, |line|);
    assert TrimLineEnd(l) == TrimLineEnd(line);
  }

  // ------------------------------------------------------------ the buffer ceiling

  lemma {:induction false} LineWithinText(s: string, line: string)
    requires line in Complete(s)
    ensures ByteLen(line) + 1 <= ByteLen(s)
    decreases |s|
  {
    var i := Find(s);
    if i < |s| {
      assert s == s[..i] + "\n" + s[i + 1..];
      Utf8Concat(s[..i] + "\n", s[i + 1..]);
      Utf8Concat(s[..i], "\n");
      assert ByteLen("\n") == 1 by { assert Utf8("\n") == EncodeChar('\n') + Utf8(""); }
      if line != s[..i] {
        LineWithinText(s[i + 1..], line);
      }
    }
  }

  lemma {:induction false} ReadLinesFitTo(chunks: seq<string>, k: nat, line: string)
    requires k <= |chunks| && forall i :: 0 <= i < k ==> Fits(chunks, i)
    requires line in Complete(Concat(chunks[..k]))
    ensures ByteLen(line) < MAX_SSE_BUFFER_BYTES
  {
    if k > 0 {
      var before := Concat(chunks[..k - 1]);
      ConcatSnoc(chunks, k - 1);
      SplitConcat(before, chunks[k - 1]);
      if line in Complete(before) {
        ReadLinesFitTo(chunks, k - 1, line);
      } else {
        assert Fits(chunks, k - 1);
        LineWithinText(Tail(before) + chunks[k - 1], line);
      }
    }
  }

  lemma PrefixBytes(s: string, t: string)
    requires s <= t
    ensures ByteLen(s) <= ByteLen(t)
  {
    assert t == s + t[|s|..];
    Utf8Concat(s, t[|s|..]);
  }

  /** For every chunking, no line that is handed to the parser is longer than the
      ceiling, even counting the terminator that was trimmed off. */
  lemma {:induction false} ParsedLinesFit(chunks: seq<string>, line: string)
    requires line in Complete(ReadText(chunks))
    ensures ByteLen(TrimLineEnd(line)) <= ByteLen(line) < MAX_SSE_BUFFER_BYTES
  {
    ReadLinesFitTo(chunks, FirstOverflow(chunks, 0), line);
    PrefixBytes(TrimLineEnd(line), line);
  }

  lemma FindBeyond(tail: string, t: string)
    requires NoNewline(tail)
    ensures Find(tail + t) >= |tail|
  {
    assert forall j :: 0 <= j < |tail| ==> (tail + t)[j] == tail[j];
  }

  lemma FirstPiece(s: string)
    ensures Split(s)[0] == s[..Find(s)]
  {
    if Find(s) == |s| {
      assert s[..Find(s)] == s;
    }
  }

  /** The unfinished line of a prefix is the start of a line of the whole text. */
  lemma {:induction false} TailStartsLine(s: string, t: string) returns (line: string)
    ensures line in Split(s + t) && Tail(s) <= line
  {
    var tail := Tail(s);
    SplitConcat(s, t);
    TailNoNewline(s);
    FindBeyond(tail, t);
    FirstPiece(tail + t);
    line := Split(tail + t)[0];
    Assoc(Complete(s), Complete(tail + t), [Tail(tail + t)]);
    assert Split(s + t) == Complete(s) + Split(tail + t);
    assert Split(s + t)[|Complete(s)|] == line;
  }

  lemma {:induction false} ChunkFits(chunks: seq<string>, i: nat)
    requires i < |chunks|
    requires forall line :: line in Split(Concat(chunks)) ==> ByteLen(line) + ByteLen(chunks[i]) <= MAX_SSE_BUFFER_BYTES
    ensures Fits(chunks, i)
  {
    assert chunks == chunks[..i] + chunks[i..];
    ConcatAppend(chunks[..i], chunks[i..]);
    var line := TailStartsLine(Concat(chunks[..i]), Concat(chunks[i..]));
    PrefixBytes(Unfinished(chunks, i), line);
    Utf8Concat(Unfinished(chunks, i), chunks[i]);
  }

  /** The ceiling is never reached when the longest line and the longest chunk fit
      it together. */
  lemma {:induction false} NoOverflow(chunks: seq<string>)
    requires forall line, chunk :: line in Split(Concat(chunks)) && chunk in chunks ==>
               ByteLen(line) + ByteLen(chunk) <= MAX_SSE_BUFFER_BYTES
    ensures FirstOverflow(chunks, 0) == |chunks|
  {
    forall i | 0 <= i < |chunks| ensures Fits(chunks, i) {
      ChunkFits(chunks, i);
    }
  }

  // ------------------------------------------------------- deltas are conserved

  /** The non-empty pieces of text up to the first stop. */
  function Deltas(events: seq<SseEvent>): seq<string> {
    if events == [] || events[0].Stop? then []
    else if events[0].Delta? && events[0].text != "" then [events[0].text] + Deltas(events[1..])
    else Deltas(events[1..])
  }

  function Stops(events: seq<SseEvent>): bool {
    Stop in events
  }

  /** The last usage report before the first stop, or else `usage`. */
  function LastUsage(events: seq<SseEvent>, usage: Option<Value>): Option<Value> {
    if events == [] || events[0].Stop? then usage
    else LastUsage(events[1..], if events[0].Usage? then Some(events[0].usage) else usage)
  }

  /** How many of the texts can be sent, in order, before the total passes the limit. */
  function Fitting(texts: seq<string>, total: nat): (n: nat)
    requires total <= MAX_JOB_OUTPUT_BYTES
    ensures n <= |texts|
  {
    if texts == [] || total + ByteLen(texts[0]) > MAX_JOB_OUTPUT_BYTES then 0
    else 1 + Fitting(texts[1..], total + ByteLen(texts[0]))
  }

  /** What fits stays within the limit, and one text more does not. */
  lemma {:induction false} FittingExact(texts: seq<string>, total: nat)
    requires total <= MAX_JOB_OUTPUT_BYTES
    ensures var n := Fitting(texts, total);
            && total + Bytes(texts[..n]) <= MAX_JOB_OUTPUT_BYTES
            && (n < |texts| ==> total + Bytes(texts[..n + 1]) > MAX_JOB_OUTPUT_BYTES)
  {
    if texts == [] || total + ByteLen(texts[0]) > MAX_JOB_OUTPUT_BYTES {
      assert texts != [] ==> texts[..1][1..] == [];
    } else {
      var n := Fitting(texts[1..], total + ByteLen(texts[0]));
      FittingExact(texts[1..], total + ByteLen(texts[0]));
      assert texts[..n + 1][1..] == texts[1..][..n];
      assert n + 1 < |texts| ==> texts[..n + 2][1..] == texts[1..][..n + 1];
    }
  }

  /** One chunk for each of the first `n` texts, and then a last frame. */
  function ChunksThen(jobId: string, texts: seq<string>, n: nat, last: ClientFrame): seq<ClientFrame>
    requires n <= |texts|
  {
    seq(n, i requires 0 <= i < n => Chunk(jobId, texts[i])) + [last]
  }

  lemma ChunksThenCons(jobId: string, text: string, texts: seq<string>, n: nat, last: ClientFrame)
    requires n <= |texts|
    ensures ChunksThen(jobId, [text] + texts, n + 1, last) == [Chunk(jobId, text)] + ChunksThen(jobId, texts, n, last)
  {
  }

  /** The last frame of a job: it reports the limit exactly when a delta was left out. */
  function LastFrame(events: seq<SseEvent>, jobId: string, total: nat, usage: Option<Value>,
      finish: Finish): ClientFrame
    requires total <= MAX_JOB_OUTPUT_BYTES
  {
    if Fitting(Deltas(events), total) < |Deltas(events)| then JobError(jobId, OutputLimit)
    else Terminal(jobId, LastUsage(events, usage), if Stops(events) then Ended else finish)
  }

  /** The deltas that fit, in order, and the last frame. */
  function ClosedForm(events: seq<SseEvent>, jobId: string, total: nat, usage: Option<Value>,
      finish: Finish): seq<ClientFrame>
    requires total <= MAX_JOB_OUTPUT_BYTES
  {
    ChunksThen(jobId, Deltas(events), Fitting(Deltas(events), total), LastFrame(events, jobId, total, usage, finish))
  }

  lemma FirstDeltaFits(text: string, rest: seq<SseEvent>, total: nat)
    requires text != "" && total + ByteLen(text) <= MAX_JOB_OUTPUT_BYTES
    ensures Deltas([Delta(text)] + rest) == [text] + Deltas(rest)
    ensures Fitting([text] + Deltas(rest), total) == Fitting(Deltas(rest), total + ByteLen(text)) + 1
  {
    assert ([Delta(text)] + rest)[1..] == rest;
    assert ([text] + Deltas(rest))[1..] == Deltas(rest);
  }

  lemma FirstDeltaLast(text: string, rest: seq<SseEvent>, jobId: string, total: nat, usage: Option<Value>,
      finish: Finish)
    requires text != "" && total + ByteLen(text) <= MAX_JOB_OUTPUT_BYTES
    ensures LastFrame([Delta(text)] + rest, jobId, total, usage, finish)
            == LastFrame(rest, jobId, total + ByteLen(text), usage, finish)
  {
    FirstDeltaFits(text, rest, total);
    assert ([Delta(text)] + rest)[1..] == rest;
    assert Stops([Delta(text)] + rest) == Stops(rest);
  }

  lemma FirstDeltaClosed(text: string, rest: seq<SseEvent>, jobId: string, total: nat, usage: Option<Value>,
      finish: Finish)
    requires text != "" && total + ByteLen(text) <= MAX_JOB_OUTPUT_BYTES
    ensures ClosedForm([Delta(text)] + rest, jobId, total, usage, finish)
            == [Chunk(jobId, text)] + ClosedForm(rest, jobId, total + ByteLen(text), usage, finish)
  {
    var texts, last := Deltas(rest), LastFrame(rest, jobId, total + ByteLen(text), usage, finish);
    var n := Fitting(texts, total + ByteLen(text));
    FirstDeltaFits(text, rest, total);
    FirstDeltaLast(text, rest, jobId, total, usage, finish);
    ChunksThenCons(jobId, text, texts, n, last);
    assert ClosedForm([Delta(text)] + rest, jobId, total, usage, finish)
        == ChunksThen(jobId, [text] + texts, n + 1, last);
  }

  lemma FirstDeltaDropped(text: string, rest: seq<SseEvent>, jobId: string, total: nat, usage: Option<Value>,
      finish: Finish)
    requires text != "" && total <= MAX_JOB_OUTPUT_BYTES < total + ByteLen(text)
    ensures ClosedForm([Delta(text)] + rest, jobId, total, usage, finish) == [JobError(jobId, OutputLimit)]
  {
  }

  lemma OtherClosed(event: SseEvent, rest: seq<SseEvent>, jobId: string, total: nat, usage: Option<Value>,
      finish: Finish)
    requires total <= MAX_JOB_OUTPUT_BYTES
    requires !event.Stop? && (event.Delta? ==> event.text == "")
    ensures ClosedForm([event] + rest, jobId, total, usage, finish)
            == ClosedForm(rest, jobId, total, if event.Usage? then Some(event.usage) else usage, finish)
  {
    assert ([event] + rest)[1..] == rest;
  }

  /** The answer in one piece: the deltas that fit, in order, and one terminal frame.
      A `done` means that every delta up to the stop, or up to a clean end, was sent. */
  lemma {:induction false} DeltasConserved(events: seq<SseEvent>, jobId: string, total: nat, usage: Option<Value>,
      finish: Finish)
    requires total <= MAX_JOB_OUTPUT_BYTES
    ensures Answer(events, jobId, total, usage, finish) == ClosedForm(events, jobId, total, usage, finish)
  {
    if events != [] && !events[0].Stop? {
      var event, rest := events[0], events[1..];
      assert events == [event] + rest;
      if event.Delta? && event.text != "" {
        var total' := total + ByteLen(event.text);
        if total' > MAX_JOB_OUTPUT_BYTES {
          FirstDeltaDropped(event.text, rest, jobId, total, usage, finish);
        } else {
          FirstDeltaClosed(event.text, rest, jobId, total, usage, finish);
          DeltasConserved(rest, jobId, total', usage, finish);
        }
      } else {
        OtherClosed(event, rest, jobId, total, usage, finish);
        DeltasConserved(rest, jobId, total, if event.Usage? then Some(event.usage) else usage, finish);
      }
    }
  }

  // ------------------------------------------------------------- what a run sends

  /** Chunk by chunk, and possibly a last frame that is none. */
  lemma {:induction false} TextsOfChunks(frames: seq<ClientFrame>, texts: seq<string>)
    requires |texts| <= |frames| <= |texts| + 1
    requires forall i :: 0 <= i < |texts| ==> frames[i].Chunk? && frames[i].delta == texts[i]
    requires |frames| > |texts| ==> !frames[|texts|].Chunk?
    ensures ChunkTexts(frames) == texts
  {
    if texts == [] {
      assert frames != [] ==> ChunkTexts(frames[1..]) == [];
    } else {
      TextsOfChunks(frames[1..], texts[1..]);
      assert texts == TextOf(frames[0]) + texts[1..];
    }
  }

  lemma {:induction false} DeltasExtend(a: seq<SseEvent>, b: seq<SseEvent>)
    ensures Deltas(a) <= Deltas(a + b)
  {
    if a != [] {
      assert (a + b)[0] == a[0] && (a + b)[1..] == a[1..] + b;
      DeltasExtend(a[1..], b);
    }
  }

  /** The deltas of the text up to the ceiling are the first deltas of the whole text. */
  lemma ReadDeltas(chunks: seq<string>, parse: Parser)
    ensures Deltas(Events(Complete(ReadText(chunks)), parse)) <= Deltas(Events(Complete(Concat(chunks)), parse))
  {
    var read := ReadText(chunks);
    var rest := ReadSplit(chunks);
    SplitConcat(read, rest);
    var done, more := Complete(read), Complete(Tail(read) + rest);
    EventsConcat(done, more, parse);
    DeltasExtend(Events(done, parse), Events(more, parse));
  }

  function Least(a: nat, b: nat): nat {
    if a <= b then a else b
  }

  lemma {:induction false} BytesSplit(a: seq<string>, b: seq<string>)
    ensures Bytes(a + b) == Bytes(a) + Bytes(b)
  {
    if a == [] {
      assert a + b == b;
    } else {
      assert (a + b)[1..] == a[1..] + b;
      BytesSplit(a[1..], b);
    }
  }

  lemma TextsOfCut(jobId: string, texts: seq<string>, n: nat, last: ClientFrame, room: nat)
    requires n <= |texts| && !last.Chunk?
    ensures ChunkTexts(Cut(ChunksThen(jobId, texts, n, last), room)) == texts[..Least(n, room)]
  {
    TextsOfChunks(Cut(ChunksThen(jobId, texts, n, last), room), texts[..Least(n, room)]);
  }

  lemma TextsOfAnswer(events: seq<SseEvent>, jobId: string, finish: Finish, room: nat)
    ensures ChunkTexts(Cut(Answer(events, jobId, 0, None, finish), room))
            == Deltas(events)[..Least(Fitting(Deltas(events), 0), room)]
  {
    DeltasConserved(events, jobId, 0, None, finish);
    TextsOfCut(jobId, Deltas(events), Fitting(Deltas(events), 0), LastFrame(events, jobId, 0, None, finish), room);
  }

  /** What fits, and less, stays within the limit. */
  lemma FewerFit(texts: seq<string>, m: nat)
    requires m <= Fitting(texts, 0)
    ensures Bytes(texts[..m]) <= MAX_JOB_OUTPUT_BYTES
  {
    var n := Fitting(texts, 0);
    FittingExact(texts, 0);
    assert texts[..n] == texts[..m] + texts[m..n];
    BytesSplit(texts[..m], texts[m..n]);
  }

  /** Whatever the chunks, their end and the socket's life, the texts that are sent are the
      first deltas of the body, as many as fit the output limit and the socket takes. */
  lemma TextsDelivered(chunks: seq<string>, ending: Ending, jobId: string, parse: Parser, room: nat)
    ensures var deltas := Deltas(Events(Complete(ReadText(chunks)), parse));
            var sent := ChunkTexts(Delivery(chunks, ending, jobId, parse, room));
            && sent == deltas[..Least(Fitting(deltas, 0), room)]
            && sent <= Deltas(Events(Complete(Concat(chunks)), parse))
            && Bytes(sent) <= MAX_JOB_OUTPUT_BYTES
  {
    var events := Events(Complete(ReadText(chunks)), parse);
    TextsOfAnswer(events, jobId, FinishOf(chunks, ending), room);
    ReadDeltas(chunks, parse);
    FewerFit(Deltas(events), Least(Fitting(Deltas(events), 0), room));
  }

  // ------------------------------------------------- when an oversized line is reported

  /** The chunk that does not fit comes before any stop, every delta before it is within the
      output limit, and the socket lives to carry them and the report. */
  predicate ReportsOversized(chunks: seq<string>, parse: Parser, room: nat) {
    var events := Events(Complete(ReadText(chunks)), parse);
    && FirstOverflow(chunks, 0) < |chunks|
    && !Stops(events)
    && Fitting(Deltas(events), 0) == |Deltas(events)| < room
  }

  lemma ChunksThenHolds(jobId: string, texts: seq<string>, n: nat, last: ClientFrame, report: ClientFrame, room: nat)
    requires n <= |texts| && report.JobError?
    ensures report in Cut(ChunksThen(jobId, texts, n, last), room) <==> last == report && n < room
  {
    var frames := ChunksThen(jobId, texts, n, last);
    if last == report && n < room {
      assert Cut(frames, room)[n] == report;
    }
  }

  /** An oversized line is reported exactly under that condition. */
  lemma OversizedExactly(chunks: seq<string>, ending: Ending, jobId: string, parse: Parser, room: nat)
    ensures JobError(jobId, OversizedLine) in Delivery(chunks, ending, jobId, parse, room)
            <==> ReportsOversized(chunks, parse, room)
  {
    var events, finish := Events(Complete(ReadText(chunks)), parse), FinishOf(chunks, ending);
    var n, last := Fitting(Deltas(events), 0), LastFrame(events, jobId, 0, None, finish);
    DeltasConserved(events, jobId, 0, None, finish);
    ChunksThenHolds(jobId, Deltas(events), n, last, JobError(jobId, OversizedLine), room);
  }

  /** So the delivery is that of the simple form unless that condition holds. */
  lemma SimpleFormUnlessOversized(chunks: seq<string>, ending: Ending, jobId: string, parse: Parser, room: nat)
    ensures Delivery(chunks, ending, jobId, parse, room) == Cut(SimpleForm(Concat(chunks), ending, jobId, parse), room)
            <==> !ReportsOversized(chunks, parse, room)
  {
    RefinesSimpleForm(chunks, ending, jobId, parse, room);
    OversizedExactly(chunks, ending, jobId, parse, room);
  }

  function Feeds(n: nat): string {
    if n == 0 then "" else "\n" + Feeds(n - 1)
  }

  function OneByOne(n: nat): (chunks: seq<string>)
    ensures |chunks| == n && forall chunk :: chunk in chunks ==> chunk == "\n"
  {
    if n == 0 then [] else ["\n"] + OneByOne(n - 1)
  }

  lemma {:induction false} FeedsFacts(n: nat)
    ensures Concat(OneByOne(n)) == Feeds(n) && ByteLen(Feeds(n)) == n
    ensures forall line :: line in Split(Feeds(n)) ==> line == ""
  {
    if n > 0 {
      FeedsFacts(n - 1);
      assert OneByOne(n)[1..] == OneByOne(n - 1);
      Utf8Concat("\n", Feeds(n - 1));
      assert ByteLen("\n") == 1 by { assert Utf8("\n") == EncodeChar('\n') + Utf8(""); }
      assert Find(Feeds(n)) == 0 && Feeds(n)[1..] == Feeds(n - 1);
      assert Split(Feeds(n)) == [""] + Split(Feeds(n - 1));
    }
  }

  lemma {:induction false} BlankAnswer(lines: seq<string>, jobId: string, finish: Finish, parse: Parser)
    requires forall line :: line in lines ==> line == ""
    ensures Answer(Events(lines, parse), jobId, 0, None, finish) == [Terminal(jobId, None, finish)]
  {
    if lines != [] {
      var event, rest := LineEvent(lines[0], parse), Events(lines[1..], parse);
      assert lines[0] in lines && forall line :: line in lines[1..] ==> line in lines;
      SamePayloadSameEvent(lines[0], parse, parse);
      assert ([event] + rest)[1..] == rest;
      BlankAnswer(lines[1..], jobId, finish, parse);
    }
  }

  lemma AllAtOnce(n: nat, jobId: string, parse: Parser)
    requires n > MAX_SSE_BUFFER_BYTES
    ensures JobFrames(Streaming([Feeds(n)], Closed), jobId, parse) == [JobError(jobId, OversizedLine)]
  {
    var once := [Feeds(n)];
    FeedsFacts(n);
    PumpStart(once);
    assert "" + once[0] == Feeds(n);
    assert FirstOverflow(once, 0) == 0 && ReadText(once) == "";
    NoNewlineSplit("");
    BlankAnswer([], jobId, Failed(OversizedLine), parse);
  }

  lemma FeedFits(n: nat)
    ensures FirstOverflow(OneByOne(n), 0) == n
  {
    FeedsFacts(n);
    assert ByteLen("\n") == 1 by { assert Utf8("\n") == EncodeChar('\n') + Utf8(""); }
    assert ByteLen("") == 0;
    NoOverflow(OneByOne(n));
  }

  lemma OneAtATime(n: nat, jobId: string, parse: Parser)
    ensures JobFrames(Streaming(OneByOne(n), Closed), jobId, parse) == [Done(jobId, Obj(map[]))]
  {
    var pieces := OneByOne(n);
    FeedsFacts(n);
    FeedFits(n);
    assert pieces[..n] == pieces;
    assert forall line :: line in Complete(Feeds(n)) ==> line in Split(Feeds(n));
    BlankAnswer(Complete(Feeds(n)), jobId, Ended, parse);
  }

  /** The condition is needed: more blank lines than the buffer holds are done with if they
      come one by one, and are an oversized line if they come at once. */
  lemma ChunkingCanMatter(n: nat, jobId: string, parse: Parser, room: nat)
    requires n > MAX_SSE_BUFFER_BYTES && room > 0
    ensures Concat([Feeds(n)]) == Concat(OneByOne(n))
    ensures Delivery([Feeds(n)], Closed, jobId, parse, room) == [JobError(jobId, OversizedLine)]
    ensures Delivery(OneByOne(n), Closed, jobId, parse, room) == [Done(jobId, Obj(map[]))]
  {
    FeedsFacts(n);
    AllAtOnce(n, jobId, parse);
    OneAtATime(n, jobId, parse);
  }
}
