/** What the data lines of an upstream body mean, and so what a job sends for a body
    (src/protocol.rs, src/run.rs). */
module JobMeaning {
  import opened Text
  import opened Sequences
  import opened Lines
  import opened Json
  import opened Protocol
  import opened Output
  import opened StreamJob
  import opened StreamJobProperties

  // ------------------------------------------------------------------- one line

  ghost predicate LineEnds(s: string) {
    forall i :: 0 <= i < |s| ==> s[i] == '\r' || s[i] == '\n'
  }

  /** A line that carries `payload`: the field name, any white space, the payload, and any
      line ends. */
  ghost predicate Lays(line: string, space: string, payload: string, end: string) {
    && line == "data:" + space + payload + end
    && Blank(space) && LineEnds(end)
    && (payload != "" ==>
          && !IsWhitespace(payload[0])
          && payload[|payload| - 1] != '\r' && payload[|payload| - 1] != '\n')
  }

  ghost predicate Carries(line: string, payload: string) {
    exists space, end :: Lays(line, space, payload, end)
  }

  predicate IsLineEnd(c: char) {
    c == '\r' || c == '\n'
  }

  lemma {:induction false} TrimmedLengthEnds(s: string, n: nat)
    requires n <= |s|
    ensures var m := TrimmedLength(s, n);
            && (forall j :: m <= j < n ==> IsLineEnd(s[j]))
            && (m > 0 ==> !IsLineEnd(s[m - 1]))
  {
    if n > 0 && IsLineEnd(s[n - 1]) {
      TrimmedLengthEnds(s, n - 1);
    }
  }

  lemma {:induction false} TrimmedLengthExact(s: string, m: nat, n: nat)
    requires m <= n <= |s| && (m > 0 ==> !IsLineEnd(s[m - 1]))
    requires forall j :: m <= j < n ==> IsLineEnd(s[j])
    ensures TrimmedLength(s, n) == m
  {
    if m < n {
      TrimmedLengthExact(s, m, n - 1);
    }
  }

  lemma {:induction false} SkipSpaceExact(s: string, i: nat, k: nat)
    requires i <= k <= |s| && (k < |s| ==> !IsWhitespace(s[k]))
    requires forall j :: i <= j < k ==> IsWhitespace(s[j])
    ensures SkipSpace(s, i) == k
    decreases k - i
  {
    if i < k {
      SkipSpaceExact(s, i + 1, k);
    }
  }

  lemma {:induction false} SkipSpaceAll(s: string, i: nat)
    requires i <= |s|
    ensures forall j :: i <= j < SkipSpace(s, i) ==> IsWhitespace(s[j])
    decreases |s| - i
  {
    if i < |s| && IsWhitespace(s[i]) {
      SkipSpaceAll(s, i + 1);
    }
  }

  /** The payload of a line is found exactly if the line carries it. */
  lemma PayloadIff(line: string, payload: string)
    ensures Payload(line) == Some(payload) <==> Carries(line, payload)
  {
    if Payload(line) == Some(payload) {
      PayloadLaid(line);
    }
    if Carries(line, payload) {
      var space, end :| Lays(line, space, payload, end);
      LaidPayload(line, space, payload, end);
    }
  }

  lemma Pieces(line: string, k: nat, m: nat)
    requires "data:" <= line && 5 + k <= m <= |line|
    ensures line == "data:" + line[5..m][..k] + line[5..m][k..] + line[m..]
  {
  }

  lemma PayloadLaid(line: string)
    requires Payload(line).Some?
    ensures Carries(line, Payload(line).value)
  {
    var m := TrimmedLength(line, |line|);
    var rest := line[5..m];
    var k := SkipSpace(rest, 0);
    TrimmedLengthEnds(line, |line|);
    SkipSpaceAll(rest, 0);
    assert TrimLineEnd(line)[5..] == rest;
    Pieces(line, k, m);
    assert rest[k..] != "" ==> rest[k..][|rest| - k - 1] == line[m - 1];
    assert Lays(line, rest[..k], rest[k..], line[m..]);
  }

  lemma LaidPayload(line: string, space: string, payload: string, end: string)
    requires Lays(line, space, payload, end)
    ensures Payload(line) == Some(payload)
  {
    if payload != "" {
      var m := 5 + |space| + |payload|;
      assert line[m - 1] == payload[|payload| - 1];
      assert forall j :: m <= j < |line| ==> line[j] == end[j - m];
      TrimmedLengthExact(line, m, |line|);
      var l := TrimLineEnd(line);
      assert l == "data:" + space + payload;
      LaidTrimmed(l, space, payload);
    } else {
      BlankLaid(line, space, end);
    }
  }

  lemma LaidTrimmed(l: string, space: string, payload: string)
    requires l == "data:" + space + payload && Blank(space) && payload != "" && !IsWhitespace(payload[0])
    ensures "data:" <= l && TrimStart(l[5..]) == payload
  {
    var rest := l[5..];
    assert rest == space + payload && rest[|space|] == payload[0];
    SkipSpaceExact(rest, 0, |space|);
  }

  lemma BlankLaid(line: string, space: string, end: string)
    requires line == "data:" + space + end && Blank(space) && LineEnds(end)
    ensures Payload(line) == Some("")
  {
    var m := TrimmedLength(line, |line|);
    TrimmedLengthEnds(line, |line|);
    assert line[4] == ':';
    assert m >= 5;
    AllBlank(line, space, end);
    var l := line[..m];
    forall i | 0 <= i < m - 5 ensures IsWhitespace(l[5..][i]) {
      assert l[5..][i] == line[i + 5];
    }
    SkipSpaceExact(l[5..], 0, m - 5);
    assert TrimLineEnd(line) == l && l[..5] == "data:";
  }

  lemma AllBlank(line: string, space: string, end: string)
    requires line == "data:" + space + end && Blank(space) && LineEnds(end)
    ensures forall i :: 5 <= i < |line| ==> IsWhitespace(line[i])
  {
    forall i | 5 <= i < |line| ensures IsWhitespace(line[i]) {
      if i - 5 < |space| {
        assert line[i] == space[i - 5];
      } else {
        assert line[i] == end[i - 5 - |space|];
      }
    }
  }

  // ------------------------------------------------------------------ one payload

  /** `choices` is an array whose first item has a `delta` with the string `content`. */
  ghost predicate HasContent(v: Value, content: string) {
    && v.Obj? && "choices" in v.fields
    && v.fields["choices"].Arr? && v.fields["choices"].items != []
    && v.fields["choices"].items[0].Obj? && "delta" in v.fields["choices"].items[0].fields
    && v.fields["choices"].items[0].fields["delta"].Obj?
    && "content" in v.fields["choices"].items[0].fields["delta"].fields
    && v.fields["choices"].items[0].fields["delta"].fields["content"] == Str(content)
  }

  ghost predicate HasUsage(v: Value, usage: Value) {
    v.Obj? && "usage" in v.fields && v.fields["usage"] == usage && usage != Null
  }

  /** What a payload that is not ignored stands for. */
  ghost predicate Tells(payload: string, parse: Parser, event: SseEvent) {
    match event
    case Stop => payload == "[DONE]"
    case Delta(content) => payload != "[DONE]" && parse(payload).Some? && HasContent(parse(payload).value, content)
    case Usage(usage) =>
      && payload != "[DONE]" && parse(payload).Some? && HasUsage(parse(payload).value, usage)
      && !exists content :: HasContent(parse(payload).value, content)
    case Other => false
  }

  lemma ContentIff(v: Value, content: string)
    ensures DeltaContent(v) == Some(content) <==> HasContent(v, content)
  {
  }

  lemma ClassifyTells(v: Value)
    ensures forall content :: Classify(v) == Delta(content) <==> HasContent(v, content)
    ensures forall usage :: Classify(v) == Usage(usage) <==>
                              HasUsage(v, usage) && !exists content :: HasContent(v, content)
    ensures Classify(v) != Stop
  {
    forall content ensures Classify(v) == Delta(content) <==> HasContent(v, content) {
      ContentIff(v, content);
    }
    if DeltaContent(v).Some? {
      ContentIff(v, DeltaContent(v).value);
    }
  }

  ghost predicate Means(line: string, parse: Parser, event: SseEvent) {
    exists payload :: Carries(line, payload) && Tells(payload, parse, event)
  }

  lemma PayloadEvent(line: string, payload: string, parse: Parser, event: SseEvent)
    requires Payload(line) == Some(payload) && event != Other
    ensures LineEvent(line, parse) == event <==> Tells(payload, parse, event)
  {
    if parse(payload).Some? {
      ClassifyTells(parse(payload).value);
    }
  }

  /** A line is taken for a stop, a piece of text or a usage report exactly if it carries a
      payload that says so; otherwise it changes nothing. */
  lemma LineMeans(line: string, parse: Parser, event: SseEvent)
    requires event != Other
    ensures LineEvent(line, parse) == event <==> Means(line, parse, event)
  {
    if Payload(line).Some? {
      var payload := Payload(line).value;
      PayloadIff(line, payload);
      PayloadEvent(line, payload, parse, event);
      forall other | Carries(line, other) ensures other == payload {
        PayloadIff(line, other);
      }
    } else {
      SamePayloadSameEvent(line, parse, parse);
      forall other ensures !Carries(line, other) {
        PayloadIff(line, other);
      }
    }
  }

  /** The line means this event, or nothing that matters. */
  ghost predicate Reads(line: string, parse: Parser, event: SseEvent) {
    if event.Other? then forall other :: !Means(line, parse, other) else Means(line, parse, event)
  }

  lemma ReadsEvent(line: string, parse: Parser, event: SseEvent)
    requires Reads(line, parse, event)
    ensures LineEvent(line, parse) == event
  {
    if event.Other? {
      if LineEvent(line, parse) != Other {
        LineMeans(line, parse, LineEvent(line, parse));
      }
    } else {
      LineMeans(line, parse, event);
    }
  }

  // -------------------------------------------------------------------- whole bodies

  /** Every line with its line feed. */
  function Terminated(lines: seq<string>): string {
    if lines == [] then "" else lines[0] + "\n" + Terminated(lines[1..])
  }

  lemma FirstLine(first: string, more: string)
    requires NoNewline(first)
    ensures Complete(first + "\n" + more) == [first] + Complete(more)
  {
    var text := first + "\n" + more;
    assert text[|first|] == '\n' && forall i :: 0 <= i < |first| ==> text[i] == first[i];
    assert Find(text) == |first| && text[..|first|] == first && text[|first| + 1..] == more;
  }

  lemma FirstTerminated(first: string, more: string, rest: string, lines: seq<string>, done: seq<string>)
    requires NoNewline(first) && Complete(more + rest) == lines + done
    ensures Complete(first + "\n" + more + rest) == [first] + lines + done
  {
    assert first + "\n" + more + rest == first + "\n" + (more + rest);
    FirstLine(first, more + rest);
    Assoc([first], lines, done);
  }

  lemma {:induction false} CompleteTerminated(lines: seq<string>, rest: string)
    requires AllNoNewline(lines)
    ensures Complete(Terminated(lines) + rest) == lines + Complete(rest)
  {
    if lines == [] {
      assert Terminated(lines) + rest == rest;
    } else {
      CompleteTerminated(lines[1..], rest);
      FirstTerminated(lines[0], Terminated(lines[1..]), rest, lines[1..], Complete(rest));
      assert lines == [lines[0]] + lines[1..];
    }
  }

  ghost predicate AllRead(lines: seq<string>, parse: Parser, events: seq<SseEvent>) {
    |lines| == |events| && forall i :: 0 <= i < |lines| ==> Reads(lines[i], parse, events[i])
  }

  lemma {:induction false} EventsRead(lines: seq<string>, parse: Parser, events: seq<SseEvent>)
    requires AllRead(lines, parse, events)
    ensures Events(lines, parse) == events
  {
    if lines != [] {
      assert Reads(lines[0], parse, events[0]);
      ReadsEvent(lines[0], parse, events[0]);
      assert forall i :: 0 <= i < |lines[1..]| ==> lines[1..][i] == lines[i + 1] && events[1..][i] == events[i + 1];
      EventsRead(lines[1..], parse, events[1..]);
    }
  }

  lemma TailAfter(before: string, tail: string)
    requires NoNewline(tail) && (before == "" || before[|before| - 1] == '\n')
    ensures Tail(before + tail) == tail
  {
    SplitConcat(before, tail);
    NoNewlineSplit(tail);
    if before != "" {
      var init := before[..|before| - 1];
      assert before == init + "\n";
      SplitConcat(init, "\n");
      TailNoNewline(init);
      FirstLine(Tail(init), "");
      assert Tail(init) + "\n" + "" == Tail(init) + "\n";
      AtEnd(Tail(init));
    }
    assert "" + tail == tail;
  }

  lemma AtEnd(line: string)
    requires NoNewline(line)
    ensures Tail(line + "\n") == ""
  {
    var text := line + "\n";
    assert text[|line|] == '\n' && forall i :: 0 <= i < |line| ==> text[i] == line[i];
    assert Find(text) == |line| && text[|line| + 1..] == "";
  }

  /** A chunk fits if the line it goes on with, as far as it has come, and the chunk make at
      most a mebibyte. */
  lemma FitsMeans(chunks: seq<string>, i: nat, before: string, tail: string)
    requires i < |chunks| && Concat(chunks[..i]) == before + tail
    requires NoNewline(tail) && (before == "" || before[|before| - 1] == '\n')
    ensures Fits(chunks, i) <==> ByteLen(tail + chunks[i]) <= 1048576
  {
    TailAfter(before, tail);
  }

  lemma ReadAll(chunks: seq<string>, r: nat)
    requires r == FirstOverflow(chunks, 0) == |chunks|
    ensures ReadText(chunks) == Concat(chunks)
  {
    assert chunks[..r] == chunks;
  }

  lemma AllFit(chunks: seq<string>)
    requires forall i :: 0 <= i < |chunks| ==> Fits(chunks, i)
    ensures ReadText(chunks) == Concat(chunks) && FirstOverflow(chunks, 0) == |chunks|
  {
    ReadAll(chunks, FirstOverflow(chunks, 0));
  }

  lemma {:induction false} NothingAfterStop(events: seq<SseEvent>, more: seq<SseEvent>, usage: Option<Value>)
    requires Stop !in events
    ensures Deltas(events + [Stop] + more) == Deltas(events)
    ensures LastUsage(events + [Stop] + more, usage) == LastUsage(events, usage)
  {
    var all := events + [Stop] + more;
    if events != [] {
      assert all[0] == events[0] && all[1..] == events[1..] + [Stop] + more && events[0] in events;
      assert forall event :: event in events[1..] ==> event in events;
      NothingAfterStop(events[1..], more, if events[0].Usage? then Some(events[0].usage) else usage);
    }
  }

  /** The first `n` texts are all that fit, and are sent; then comes a report of the limit, or
      `last` if no text is left. */
  ghost predicate SendsFirst(frames: seq<ClientFrame>, jobId: string, texts: seq<string>, n: nat, last: ClientFrame) {
    && n <= |texts| && Bytes(texts[..n]) <= 8388608
    && (n < |texts| ==> Bytes(texts[..n + 1]) > 8388608)
    && |frames| == n + 1
    && (forall i :: 0 <= i < n ==> frames[i] == Chunk(jobId, texts[i]))
    && frames[n] == if n < |texts| then JobError(jobId, OutputLimit) else last
  }

  /** The frames for texts that may be sent up to the limit, and what the job ends with if
      it is not exceeded. */
  ghost predicate Answers(frames: seq<ClientFrame>, jobId: string, texts: seq<string>, last: ClientFrame) {
    exists n :: SendsFirst(frames, jobId, texts, n, last)
  }

  lemma AnswerAnswers(events: seq<SseEvent>, jobId: string, finish: Finish)
    ensures var usage := LastUsage(events, None);
            var ended := if Stop in events then Ended else finish;
            Answers(Answer(events, jobId, 0, None, finish), jobId, Deltas(events), Terminal(jobId, usage, ended))
  {
    var texts := Deltas(events);
    var n := Fitting(texts, 0);
    DeltasConserved(events, jobId, 0, None, finish);
    FittingExact(texts, 0);
    var ended := if Stop in events then Ended else finish;
    var last := Terminal(jobId, LastUsage(events, None), ended);
    assert SendsFirst(Answer(events, jobId, 0, None, finish), jobId, texts, n, last);
  }

  /** The usage that a job reports: the last one, or an empty object. */
  function UsageOr(usage: Option<Value>): Value {
    if usage.Some? then usage.value else Obj(map[])
  }

  lemma StoppedEvents(lines: seq<string>, parse: Parser, events: seq<SseEvent>, stop: string)
    requires AllRead(lines, parse, events) && Carries(stop, "[DONE]")
    ensures Events(lines + [stop], parse) == events + [Stop]
  {
    assert Reads(stop, parse, Stop);
    assert AllRead(lines + [stop], parse, events + [Stop]);
    EventsRead(lines + [stop], parse, events + [Stop]);
  }

  lemma BodyEvents(text: string, parse: Parser, lines: seq<string>, events: seq<SseEvent>, stop: string, rest: string)
    requires text == Terminated(lines + [stop]) + rest && AllNoNewline(lines + [stop])
    requires AllRead(lines, parse, events) && Carries(stop, "[DONE]")
    ensures Events(Complete(text), parse) == events + [Stop] + Events(Complete(rest), parse)
  {
    CompleteTerminated(lines + [stop], rest);
    StoppedEvents(lines, parse, events, stop);
    EventsConcat(lines + [stop], Complete(rest), parse);
  }

  lemma StoppedAnswer(events: seq<SseEvent>, more: seq<SseEvent>, jobId: string, finish: Finish)
    requires Stop !in events
    ensures Answers(Answer(events + [Stop] + more, jobId, 0, None, finish), jobId, Deltas(events),
                    Done(jobId, UsageOr(LastUsage(events, None))))
  {
    NothingAfterStop(events, more, None);
    assert (events + [Stop] + more)[|events|] == Stop;
    AnswerAnswers(events + [Stop] + more, jobId, finish);
  }

  /** A body whose lines mean these events, and then a line that carries the sentinel: one
      chunk for each piece of text, as far as they fit the output limit, and a `done` with the
      last usage if all of them fit. What follows the sentinel, and how the body ends, does
      not matter. */
  lemma StoppedBody(chunks: seq<string>, ending: Ending, jobId: string, parse: Parser, lines: seq<string>,
      events: seq<SseEvent>, stop: string, rest: string)
    requires forall i :: 0 <= i < |chunks| ==> Fits(chunks, i)
    requires Concat(chunks) == Terminated(lines + [stop]) + rest && AllNoNewline(lines + [stop])
    requires AllRead(lines, parse, events) && Stop !in events && Carries(stop, "[DONE]")
    ensures Answers(JobFrames(Streaming(chunks, ending), jobId, parse), jobId, Deltas(events),
                    Done(jobId, UsageOr(LastUsage(events, None))))
  {
    AllFit(chunks);
    BodyEvents(Concat(chunks), parse, lines, events, stop, rest);
    StoppedAnswer(events, Events(Complete(rest), parse), jobId, NaturalFinish(ending));
  }

  /** The same without the sentinel: the end of the body decides what comes last, and an
      unfinished last line is dropped. */
  lemma OpenBody(chunks: seq<string>, ending: Ending, jobId: string, parse: Parser, lines: seq<string>,
      events: seq<SseEvent>, rest: string)
    requires forall i :: 0 <= i < |chunks| ==> Fits(chunks, i)
    requires Concat(chunks) == Terminated(lines) + rest && AllNoNewline(lines) && NoNewline(rest)
    requires AllRead(lines, parse, events) && Stop !in events
    ensures Answers(JobFrames(Streaming(chunks, ending), jobId, parse), jobId, Deltas(events),
                    match ending
                    case Closed => Done(jobId, UsageOr(LastUsage(events, None)))
                    case Broken(error) => JobError(jobId, StreamBroken(error))
                    case Stalled => JobError(jobId, TimeLimit))
  {
    AllFit(chunks);
    CompleteTerminated(lines, rest);
    NoNewlineSplit(rest);
    EventsRead(lines, parse, events);
    assert lines + [] == lines;
    AnswerAnswers(events, jobId, NaturalFinish(ending));
  }

  /** The pieces of text up to the stop are those of any part, and then those of the rest. */
  lemma {:induction false} DeltasAppend(a: seq<SseEvent>, b: seq<SseEvent>)
    requires Stop !in a
    ensures Deltas(a + b) == Deltas(a) + Deltas(b)
  {
    if a == [] {
      assert a + b == b;
    } else {
      assert a[0] in a && (a + b)[1..] == a[1..] + b;
      assert forall event :: event in a[1..] ==> event in a;
      DeltasAppend(a[1..], b);
    }
  }

  /** One event is one piece of text, if it is text and not empty. */
  lemma DeltasOne(event: SseEvent)
    ensures Deltas([event]) == if event.Delta? && event.text != "" then [event.text] else []
  {
    assert [event][1..] == [];
  }

  /** Of several usage reports the last one counts. */
  lemma {:induction false} LastUsageMeans(a: seq<SseEvent>, usage: Value, b: seq<SseEvent>, before: Option<Value>)
    requires Stop !in a && Stop !in b && forall event :: event in b ==> !event.Usage?
    ensures LastUsage(a + [Usage(usage)] + b, before) == Some(usage)
  {
    var all := a + [Usage(usage)] + b;
    if a != [] {
      assert a[0] in a && forall event :: event in a[1..] ==> event in a;
      assert all[0] == a[0] && all[1..] == a[1..] + [Usage(usage)] + b;
      LastUsageMeans(a[1..], usage, b, if a[0].Usage? then Some(a[0].usage) else before);
    } else {
      assert all[0] == Usage(usage) && all[1..] == b;
      UsageKept(b, Some(usage));
    }
  }

  lemma {:induction false} UsageKept(b: seq<SseEvent>, before: Option<Value>)
    requires Stop !in b && forall event :: event in b ==> !event.Usage?
    ensures LastUsage(b, before) == before
  {
    if b != [] {
      assert b[0] in b && forall event :: event in b[1..] ==> event in b;
      UsageKept(b[1..], before);
    }
  }

  /** Texts are counted in UTF-8 bytes. */
  lemma {:induction false} BytesMean(texts: seq<string>)
    ensures Bytes(texts) == |Utf8(Concat(texts))|
  {
    if texts != [] {
      BytesMean(texts[1..]);
      Utf8Concat(texts[0], Concat(texts[1..]));
    }
  }

  // ------------------------------------------------------------- bodies as they are sent

  /** A chat completion chunk with this content, whatever else it holds. */
  ghost predicate IsContentLine(line: string, parse: Parser, content: string) {
    exists payload ::
      && Carries(line, payload) && payload != "[DONE]"
      && parse(payload).Some? && HasContent(parse(payload).value, content)
  }

  ghost predicate IsUsageLine(line: string, parse: Parser, usage: Value) {
    exists payload ::
      && Carries(line, payload) && payload != "[DONE]"
      && parse(payload).Some? && HasUsage(parse(payload).value, usage)
      && "choices" !in parse(payload).value.fields
  }

  function Contents(texts: seq<string>): (events: seq<SseEvent>)
    ensures |events| == |texts|
    ensures forall i :: 0 <= i < |texts| ==> events[i] == Delta(texts[i])
  {
    seq(|texts|, i requires 0 <= i < |texts| => Delta(texts[i]))
  }

  lemma {:induction false} ContentsOnly(texts: seq<string>, usage: Value)
    requires forall i :: 0 <= i < |texts| ==> texts[i] != ""
    ensures Deltas(Contents(texts) + [Usage(usage)]) == texts
    ensures LastUsage(Contents(texts) + [Usage(usage)], None) == Some(usage)
  {
    var events := Contents(texts) + [Usage(usage)];
    if texts != [] {
      assert events[1..] == Contents(texts[1..]) + [Usage(usage)];
      ContentsOnly(texts[1..], usage);
      assert texts == [texts[0]] + texts[1..];
    } else {
      assert events == [Usage(usage)] && events[1..] == [];
    }
  }

  /** What an ordinary completion looks like: lines with the pieces of text, a line with the
      usage, and the sentinel. All of it is passed on, and the job is done with that usage. */
  lemma PlainBody(chunks: seq<string>, ending: Ending, jobId: string, parse: Parser, lines: seq<string>,
      texts: seq<string>, report: string, usage: Value, stop: string, rest: string)
    requires forall i :: 0 <= i < |chunks| ==> Fits(chunks, i)
    requires Concat(chunks) == Terminated(lines + [report] + [stop]) + rest && AllNoNewline(lines + [report] + [stop])
    requires |lines| == |texts| && forall i :: 0 <= i < |lines| ==> IsContentLine(lines[i], parse, texts[i])
    requires IsUsageLine(report, parse, usage) && Carries(stop, "[DONE]")
    requires (forall i :: 0 <= i < |texts| ==> texts[i] != "") && Bytes(texts) <= 8388608
    ensures var frames := JobFrames(Streaming(chunks, ending), jobId, parse);
            && |frames| == |texts| + 1
            && (forall i :: 0 <= i < |texts| ==> frames[i] == Chunk(jobId, texts[i]))
            && frames[|texts|] == Done(jobId, usage)
  {
    var events := Contents(texts) + [Usage(usage)];
    forall i | 0 <= i < |lines| + 1 ensures Reads((lines + [report])[i], parse, events[i]) {
      if i < |lines| {
        ContentMeans(lines[i], parse, texts[i]);
      } else {
        UsageMeans(report, parse, usage);
      }
    }
    ContentsOnly(texts, usage);
    StoppedBody(chunks, ending, jobId, parse, lines + [report], events, stop, rest);
    var frames := JobFrames(Streaming(chunks, ending), jobId, parse);
    var n :| SendsFirst(frames, jobId, texts, n, Done(jobId, usage));
    FewerBytes(texts, n);
  }

  lemma ContentMeans(line: string, parse: Parser, content: string)
    requires IsContentLine(line, parse, content)
    ensures Reads(line, parse, Delta(content))
  {
    var payload :| Carries(line, payload) && payload != "[DONE]"
                   && parse(payload).Some? && HasContent(parse(payload).value, content);
    assert Tells(payload, parse, Delta(content));
  }

  lemma UsageMeans(line: string, parse: Parser, usage: Value)
    requires IsUsageLine(line, parse, usage)
    ensures Reads(line, parse, Usage(usage))
  {
    var payload :| Carries(line, payload) && payload != "[DONE]"
                   && parse(payload).Some? && HasUsage(parse(payload).value, usage)
                   && "choices" !in parse(payload).value.fields;
    assert Tells(payload, parse, Usage(usage));
  }

  /** If all of the texts are within the limit, then none is left out. */
  lemma FewerBytes(texts: seq<string>, n: nat)
    requires n <= |texts| && Bytes(texts) <= 8388608
    ensures n < |texts| ==> Bytes(texts[..n + 1]) <= 8388608
  {
    if n < |texts| {
      assert texts == texts[..n + 1] + texts[n + 1..];
      BytesSplit(texts[..n + 1], texts[n + 1..]);
    }
  }

  /** A job that does not get as far as a body comes to one report under its id. */
  lemma NoBody(up: Upstream, jobId: string, parse: Parser)
    ensures forall error :: up == Refused(error) ==>
              JobFrames(up, jobId, parse) == [JobError(jobId, RequestFailed(error))]
    ensures up == NoAnswer ==> JobFrames(up, jobId, parse) == [JobError(jobId, TimeLimit)]
    ensures forall status, detail :: up == HttpError(status, detail) ==>
              exists shown ::
                && JobFrames(up, jobId, parse) == [JobError(jobId, HttpStatus(status, shown))]
                && shown <= detail && (|shown| == 200 || (|shown| < 200 && shown == detail))
  {
    if up.HttpError? {
      var shown := if |up.detail| <= 200 then up.detail else up.detail[..200];
      assert JobFrames(up, jobId, parse) == [JobError(jobId, HttpStatus(up.status, shown))];
    }
  }
}
