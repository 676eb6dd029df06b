/** How much text a job has sent, and the limit on it (src/run.rs, src/limits.rs). */
module Output {
  import opened Text
  import opened Sequences
  import opened Protocol

  const MAX_JOB_OUTPUT_BYTES: nat := 8 * 1024 * 1024

  /** `saturating_add` on 64 bits. */
  function SaturatingAdd(a: nat, b: nat): nat {
    if a + b >= U64_LIMIT then U64_LIMIT - 1 else a + b
  }

  function Bytes(texts: seq<string>): nat {
    if texts == [] then 0 else ByteLen(texts[0]) + Bytes(texts[1..])
  }

  function TextOf(frame: ClientFrame): seq<string> {
    if frame.Chunk? then [frame.delta] else []
  }

  /** The texts of the chunks among the frames. */
  function ChunkTexts(frames: seq<ClientFrame>): seq<string> {
    if frames == [] then [] else TextOf(frames[0]) + ChunkTexts(frames[1..])
  }

  /** The running total is what the chunks that were sent amount to, and is within the limit. */
  ghost predicate Counted(total: nat, frames: seq<ClientFrame>) {
    total == Bytes(ChunkTexts(frames)) <= MAX_JOB_OUTPUT_BYTES
  }

  /** At the end of a job at most one text was counted and not sent. */
  ghost predicate CountedBut(total: nat, frames: seq<ClientFrame>, unsent: seq<string>) {
    && |unsent| <= 1
    && Bytes(ChunkTexts(frames)) <= MAX_JOB_OUTPUT_BYTES
    && total == SaturatingAdd(Bytes(ChunkTexts(frames)), Bytes(unsent))
  }

  lemma {:induction false} BytesSnoc(texts: seq<string>, text: string)
    ensures Bytes(texts + [text]) == Bytes(texts) + ByteLen(text)
  {
    if texts == [] {
      assert texts + [text] == [text] && [text][1..] == [];
    } else {
      assert (texts + [text])[1..] == texts[1..] + [text];
      BytesSnoc(texts[1..], text);
    }
  }

  lemma {:induction false} ChunkTextsSnoc(frames: seq<ClientFrame>, frame: ClientFrame)
    ensures ChunkTexts(frames + [frame]) == ChunkTexts(frames) + TextOf(frame)
  {
    if frames == [] {
      assert frames + [frame] == [frame] && [frame][1..] == [];
    } else {
      assert (frames + [frame])[1..] == frames[1..] + [frame];
      ChunkTextsSnoc(frames[1..], frame);
      Assoc(TextOf(frames[0]), ChunkTexts(frames[1..]), TextOf(frame));
    }
  }

  /** Sending a chunk that was counted, failing to, and sending any other frame. */
  lemma CountOne(total: nat, frames: seq<ClientFrame>, jobId: string, text: string)
    requires Counted(total, frames)
    ensures var total' := SaturatingAdd(total, ByteLen(text));
            && CountedBut(total', frames, [text])
            && (total' <= MAX_JOB_OUTPUT_BYTES ==> Counted(total', frames + [Chunk(jobId, text)]))
  {
    assert Bytes([text]) == ByteLen(text) + Bytes([]);
    ChunkTextsSnoc(frames, Chunk(jobId, text));
    BytesSnoc(ChunkTexts(frames), text);
  }

  lemma CountedLast(total: nat, frames: seq<ClientFrame>, last: ClientFrame, unsent: seq<string>)
    requires CountedBut(total, frames, unsent) && !last.Chunk?
    ensures CountedBut(total, frames + [last], unsent)
  {
    ChunkTextsSnoc(frames, last);
    assert ChunkTexts(frames) + [] == ChunkTexts(frames);
  }
}
