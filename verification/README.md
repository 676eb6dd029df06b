# Verified model of the Nexus compute client

This project models the parts of the Nexus client that face a peer they do not control, and
the encodings that other parties recompute, and proves what they promise. It is plain Dafny,
one module for each concern; `dafny verify dfyconfig.toml` checks all of it.

**Streaming and the gateway session** (`Protocol`, `Output`, `StreamJob`,
`StreamJobProperties`, `JobMeaning`, `Session`, `SessionLog`, `SessionProperties`,
`SessionOrder`, `GatewayMeaning`, `JobBody`, `Base58`, `Backoff`). `StreamJob` is the chunk pump: a buffer that grows, a byte ceiling on the
buffer and one on the output, a usage register, an early exit at `[DONE]`. It is proved to send
exactly the frames that splitting the whole text into lines and folding over them gives, unless
it reports an oversized line. `Session` wraps it in the handshake and the job loop, over any
sequence of incoming messages and a socket that may die after any number of frames; its
contract fixes everything that is received, signed, posted and sent, in order, as a function
of what arrives (`SessionCourse`), and the lemmas about sessions are about that function.
`JobMeaning` and `GatewayMeaning` say, in terms of the JSON values that texts parse to, what
the lines of a body and the texts of a gateway mean, and what jobs and sessions do for them.
`Backoff` holds the two supervisors.

**The provider run** (`JobBoard`, `Builder`, `BuilderProperties`, `Settlement`,
`SettlementProperties`). The MCP, the job board, the sidecar and the RPC node are responders
that answer as they like; every call, with its reply and its time, goes into a log. The rules
that a log keeps are stated once, step by step (`Builder.Follows`, `Settlement.Iterates`), the
methods are proved to extend the logs by exactly such steps, and the properties of whole runs
are lemmas about logs.

**Check, sign and frame** (`Base64`, `Wire`, `Tx`). A decoder and an encoder for the legacy
Solana transaction format and for padded base64, each proved canonical in both directions, and
on top of them the guard, the signer and the theorem that what is broadcast is what was checked.

**Canonical encodings** (`OrderedJson`, `Hex`, `Proof`, `Manifest`, `Siws`). The proof body,
the manifest text and the sign-in message, with readers or sorted forms that undo them.

`Text`, `Lines`, `Sequences`, `Json` and `Crypto` are shared vocabulary; `Text` proves its UTF-8
encoding and that strings are ordered as their bytes.

## How the outside is modelled

- Strings are sequences of Unicode scalar values; `ByteLen` and `Utf8` give their UTF-8 bytes.
  64-bit integers are subset types, wide multiplication and saturation are written out.
- SHA-256, Ed25519, the JSON parser and printer, the random draw and the clock are parameters,
  universally quantified in every theorem.
- A peer is a finite script of answers of any length. A script that has run out stands for a
  closed connection. Time passes in calls and sleeps only, as much as the script says.
- The messages that will arrive on a socket are fixed with it; reading takes the next one and
  logs it. The reply to a call goes by its place in the log, so that no reply can be known
  before it is asked for. Requests to the board, the sidecar and the RPC node are stamped with
  the number of steps that the MCP had logged by then, which orders the two logs.
- A send either takes the whole frame or finds the socket dead. The job time limit strikes at
  reads of the upstream.
- Ctrl-c may end the job loop before any message and any sleep of a supervisor.
- `lines.sort()` is modelled as an insertion sort in place; only the sorted order matters.

## Where the code and its documentation part, and what turned out conditional

- The header of `src/protocol.rs` (lines 10-12) says the signature covers the raw nonce bytes.
  The code signs the domain tag followed by the nonce (`src/run.rs:181`), and so does the model.
- `src/run.rs:42` documents the jitter factor as below 1.25. Floating-point rounding can reach
  1.25, so the model's draw includes both ends.
- Chunking is irrelevant except for an oversized line, which is reported exactly when some
  chunk does not fit the buffer, no stop comes before it, all deltas before it fit the output
  limit and the socket lives to carry the report (`OversizedExactly`,
  `SimpleFormUnlessOversized`). `ChunkingCanMatter` is a text that is delivered differently
  when it comes at once and when it comes in pieces.
- A delay is shorter than the next one for all jitter draws exactly while its base is below the
  cap (`DelaysGrowExactlyBelowCap`).
- The manifest text and the sign-in message are canonical for paths and fields without line
  feeds. `Manifest.LineFeedCollision` and `Siws.LineFeedCollision` are concrete collisions with
  them. A line reader gets the manifest's entries back exactly when no path has a line feed
  (`Manifest.ReadManifestIff`), and the sign-in message exactly when no field has one
  (`Siws.ParseIffBuild`).

## Model

| member | source | states |
|---|---|---|
| `Protocol.OnlyKnownKeysMatter` | src/protocol.rs:72-92 | texts whose objects agree on the five keys the client knows are the same frame, whatever else they hold and whatever parser reads them |
| `GatewayMeaning.ParseIff` | src/protocol.rs:72-92 | a text is read as a frame if and only if it is JSON that says so: the kind, and the nonce, the reason or `unknown`, the job id, and the body or null |
| `GatewayMeaning.WrittenIsRead` | src/protocol.rs:72-92 | the object that a gateway sends for a frame is read back as that frame, whatever else is in it |
| `StreamJob.DrainLines` | src/run.rs:331-362 | handling all complete lines keeps sent frames plus frames owed constant and leaves exactly the unfinished line, without a line feed; the running total is the bytes of the chunks sent, plus at an exit at most one text that was counted and not sent |
| `StreamJob.PumpBody` | src/run.rs:308-367 | over any chunks and any ending, what was sent is the owed frames as far as the socket took them |
| `StreamJob.StreamJob` | src/run.rs:284-368 | the same for all four kinds of failure exit; a run cut off by the time limit lacks only the report of it |
| `StreamJobProperties.RefinesSimpleForm` | src/run.rs:305-367 | the delivery equals the split-whole-text-and-fold form if and only if no oversized line is reported |
| `StreamJobProperties.ChunkingDoesNotMatter` | src/run.rs:305-367 | two ways of cutting the same text deliver the same frames, if neither is reported as oversized |
| `StreamJobProperties.OversizedExactly` | src/run.rs:321-360 | an oversized line is reported if and only if a chunk does not fit the buffer, no stop precedes it, every delta before it is within the output limit and the socket takes the report |
| `StreamJobProperties.SimpleFormUnlessOversized` | src/run.rs:305-367 | the delivery is that of the simple form if and only if that condition fails |
| `StreamJobProperties.ChunkingCanMatter` | src/run.rs:325-329 | more blank lines than the buffer holds are a finished job one by one and an oversized line all at once |
| `StreamJobProperties.OnlyPayloadsMatter` | src/protocol.rs:124-147 | a job depends on the JSON parser only through the payloads of the complete lines that were read |
| `StreamJobProperties.OtherLinesIgnored` | src/run.rs:332-361 | lines without a data field, inserted anywhere, change nothing that is sent |
| `StreamJobProperties.CarriageReturnIgnored` | src/run.rs:334 | a carriage return before the line feed does not change the event of a line |
| `StreamJobProperties.ParsedLinesFit` | src/run.rs:325-338 | no line longer than the buffer ceiling is ever parsed, for every chunking |
| `StreamJobProperties.NoOverflow` | src/limits.rs:60-62 | if the longest line and the longest chunk fit the ceiling together, the oversized exit is never taken |
| `StreamJobProperties.DeltasConserved` | src/run.rs:339-360 | the answer is one chunk for each non-empty delta up to the stop, in order, as far as they fit, and then one terminal frame; a `done` means none was left out, and saturation never shows |
| `StreamJobProperties.FittingExact` | src/limits.rs:58-59 | what fits stays within the output ceiling and one delta more would pass it |
| `StreamJobProperties.TextsDelivered` | src/run.rs:339-356 | whatever the chunks, their ending and the socket, the chunk texts delivered are the first deltas of the body, as many as fit the output limit and the socket takes, at most 8 MiB in all |
| `JobMeaning.PayloadIff` | src/protocol.rs:124-125 | a line has a payload if and only if it is `data:`, white space, the payload and line ends |
| `JobMeaning.LineMeans` | src/protocol.rs:124-147 | a line is a stop if and only if its payload is `[DONE]`, a piece of text if and only if the JSON has it as a string at the first choice's delta content, and a usage report if and only if it has no such text and a usage that is not null |
| `JobMeaning.FitsMeans` | src/run.rs:325-329 | a chunk fits if and only if it and the unfinished line before it make at most 1048576 bytes |
| `JobMeaning.StoppedBody` | src/run.rs:305-360 | a body of lines with these meanings and then the sentinel gives one chunk for each non-empty text that fits 8388608 bytes, and then `done` with the last usage, or the limit report exactly if a text is left; what follows does not matter |
| `JobMeaning.OpenBody` | src/run.rs:305-367 | without the sentinel the last frame is `done`, the stream error or the time-limit report, as the body ends; an unfinished line is dropped |
| `JobMeaning.PlainBody` | src/run.rs:305-360 | content lines, a usage line and the sentinel give exactly those texts as chunks, and `done` with that usage |
| `JobMeaning.LastUsageMeans` | src/run.rs:355-358 | of several usage reports the last one counts |
| `JobMeaning.DeltasAppend` | src/run.rs:339-354 | the texts of a list of events are those of a part without a stop, and then those of the rest |
| `JobMeaning.DeltasOne` | src/run.rs:339-354 | an event is one text, if it is a text and not empty |
| `JobMeaning.BytesMean` | src/run.rs:340-341 | texts are counted in UTF-8 bytes |
| `JobMeaning.NoBody` | src/run.rs:284-304 | a refused request, no answer in time, and an error status are one report each, the last with the first 200 characters of the detail |
| `Session.AuthMessage` | src/limits.rs:44-53 | the signed bytes are the domain tag and then exactly the nonce |
| `Session.DomainTag` | src/limits.rs:44 | the tag is the documented text, byte by byte |
| `Session.HandleJob` | src/run.rs:253-278 | the job is posted sanitised and all it owes is delivered, the time-limit report included |
| `Session.AwaitFrame` | src/run.rs:155-168 | waiting reads the messages up to the first challenge (or readiness), rejection or end, in order, and does nothing else |
| `Session.SignIn` | src/run.rs:181-198 | one signature over the tagged nonce, then one auth frame and what follows it, or a dead socket |
| `Session.AwaitReady` | src/run.rs:201-214 | after the auth frame nothing but reading up to readiness, rejection or the end, and then the job loop |
| `Session.Work` | src/run.rs:218-246 | each message is read, and a job is posted and answered right after it was read; the loop ends as the stream, the socket or the interrupt says |
| `Session.Serve` | src/run.rs:147-247 | on a new connection, everything received, signed, posted and sent, in order, how far the inbox was read, and the outcome, as a function of the inbox and the life of the socket |
| `Session.ServeGateway` | src/protocol.rs:72-92 | the same with gateway texts read by the frame parser |
| `GatewayMeaning.PlanMeans` | src/run.rs:147-282 | the session answers job number k under its id as the upstream answers request number k, and posts sanitised bodies |
| `GatewayMeaning.NothingSigned` | src/run.rs:155-180 | if the first message that tells anything is a rejection, an error or a challenge that is not 32 bytes, the session ends there, with the reason or as disconnected, and has done nothing but read |
| `GatewayMeaning.SignsChallenge` | src/run.rs:155-198 | the first challenge over 32 bytes is answered at once by one signature over the tag and those bytes and by the auth frame of this node with it |
| `GatewayMeaning.AfterAuth` | src/run.rs:201-214 | after the auth frame a message that says ready starts the job loop, and a rejection ends the session with its reason |
| `GatewayMeaning.WholeSession` | src/run.rs:147-247 | over a socket that lives: the complete log and outcome of a session with a challenge, readiness and any jobs, each read, posted sanitised and answered in turn, until the stream ends or the interrupt closes it |
| `SessionProperties.FramesOfSession` | src/run.rs:147-278 | the frames sent are the owed frames cut where the socket died: the auth frame after a valid challenge, one block for each job after readiness, a close frame after an interrupt |
| `SessionProperties.OutcomeOfSession` | src/run.rs:147-247 | rejected exactly by a rejection during the handshake, shut down exactly if interrupted with every job answered in full, otherwise disconnected |
| `SessionProperties.PlanInBlocks` | src/run.rs:253-368 | whatever the upstream does, every job of a session is answered by a block |
| `SessionProperties.JobIsBlock` | src/run.rs:253-368 | every job is zero or more chunks and then one done or job_error, all under its id |
| `SessionProperties.SessionLanguage` | src/run.rs:147-278 | every session is one auth frame and then the blocks of the jobs in order; only the last may be incomplete, and only if the socket died; a shutdown has answered every job |
| `SessionProperties.OnlyFramesMatter` | src/protocol.rs:72-92 | a session depends on how texts are read only through the frames of those that arrive |
| `SessionOrder.SessionHears` | src/run.rs:154-245 | the messages received are those that arrived, in order, from the first up to the last one read |
| `SessionOrder.SessionPosts` | src/run.rs:229-234 | the posts are, in order, the jobs taken up, each with its own id and its own sanitised body; all of them unless the socket died |
| `SessionOrder.SessionInOrder` | src/run.rs:147-247 | what is signed is the tagged 32 bytes of the first challenge that arrived, with nothing read after it; a job is posted only after that, after readiness arrived, and directly after it was received |
| `SessionOrder.AuthAnswersChallenge` | src/run.rs:154-188 | anything is sent only if the first challenge is the base58 text of 32 bytes, and then first the auth frame of this node, signed over the domain tag and those bytes |
| `JobBody.SanitizeJobBody` | src/limits.rs:149-170 | the loop and the insertions compute the sanitised body |
| `JobBody.SanitizedFields` | src/limits.rs:149-170 | each key of the result: model and stream are the client's, max_tokens is an integer of at most 8192 and kept when it was one, eleven named keys keep their value, the rest is gone |
| `JobBody.OnlyAllowedMatter` | src/limits.rs:153-157 | bodies that agree on the allowed keys are sanitised alike |
| `JobBody.SanitizeTwice` | src/limits.rs:149-170 | sanitising with one model and then another is sanitising with the other |
| `Base58.ConvertBack` | src/limits.rs:117-119 | change of base with leading zeros is undone by changing back |
| `Base58.DecodeIffEncode` | src/limits.rs:117-119 | decoding accepts exactly the encodings |
| `Base58.EncodeMeans` | src/limits.rs:117-119 | the text is the number of the bytes in base 58, with as many leading zeros |
| `Base58.TextLength` | src/limits.rs:30-32 | up to 32 bytes take at most 12 characters more than bytes |
| `Base58.NonceExact` | src/limits.rs:113-124 | a nonce is accepted if and only if it is the base58 text of the 32 bytes returned; that text has at most 44 characters |
| `Backoff.JitterBand` | src/run.rs:40-44 | every jittered delay lies within 75% and 125% of its base, and both ends occur |
| `Backoff.JitterExact` | src/run.rs:40-44 | the delay is 0.75 plus half the draw of the base, rounded down to milliseconds |
| `Backoff.BaseValues` | src/run.rs:30-38 | the bases are 1, 2, 4, 8 and 16 seconds and then 30 |
| `Backoff.DelaysGrowExactlyBelowCap` | src/run.rs:30-44 | a delay is shorter than the next for all draws if and only if its base is below the cap |
| `Backoff.ReconnectLoop` | src/run.rs:112-143 | the k-th disconnect sleeps a jittered min(2^(k-1), 30) seconds; rejection and shutdown end the loop |
| `Backoff.WorkLoop` | src/main.rs:614-653 | no delay after a submission, otherwise the schedule counted from the last submission |
| `Backoff.DelayMeans` | src/main.rs:614-653 | nothing is slept after a submission; after the k-th iteration in a row without one, 1, 2, 4, 8, 16 and then 30 seconds, give or take a quarter |
| `JobBoard.ClaimExact` | src/work.rs:125-139 | no 128-bit overflow, and claiming means reward at least the floor and cost times den at most reward times num |
| `JobBoard.ClaimMonotone` | src/work.rs:125-147 | a job stays worth claiming when the reward rises and the spec shrinks |
| `JobBoard.EstExact` | src/work.rs:145-147 | 500 lamports for every four whole bytes, saturating at 64 bits |
| `JobBoard.EligibleMeans` | src/work.rs:155-181 | a job is eligible if and only if its JSON is open, of another owner, with a reward in range, a task and a parcel, and the reward reaches the floor and pays for the spec |
| `JobBoard.SelectJob` | src/work.rs:153-194 | the loop returns the fold of all candidates |
| `JobBoard.SelectedIsEarliestBest` | src/work.rs:153-194 | a job is selected if and only if one is eligible, and it is the earliest of maximal reward |
| `JobBoard.SelectedMeans` | src/work.rs:182-193 | what is picked is handed on with the task, parcel, reward and brief of its JSON |
| `JobBoard.SelectedConcat` | src/work.rs:188-191 | selecting from a concatenation is choosing the better of the two selections |
| `JobBoard.IneligibleIgnored` | src/work.rs:155-181 | ineligible jobs inserted anywhere change nothing |
| `JobBoard.ShuffleKeepsReward` | src/work.rs:153-194 | permuting the board keeps the winning reward |
| `JobBoard.BriefHoldsBoth` | src/work.rs:197-211 | the brief is never empty, starts with the title and ends with the description |
| `JobBoard.BriefMeans` | src/work.rs:197-211 | title and short description trimmed, with a blank line between them; one of them alone; or a fixed sentence |
| `Text.TrimExact` | src/work.rs:198-205 | trimming takes away white space at both ends, all of it and nothing else |
| `Text.AsciiSpace` | src/work.rs:198-205 | which ASCII characters are white space |
| `Base64.DecodeIffEncode` | agenc-worker/src/tx.rs:75-77 | decoding accepts exactly the padded canonical encodings |
| `Base64.EncodedNoSpace` | agenc-worker/src/tx.rs:156-168 | trimming leaves encoded text alone |
| `Base64.SextetsMean` | agenc-worker/src/tx.rs:75-77 | the digits of a group are the same number as its bytes, filled up with zero bits |
| `Base64.PaddingExamples` | agenc-worker/src/tx.rs:75-77 | the examples of section 10 of RFC 4648 for each kind of padding |
| `Base64.FirstGroup` | agenc-worker/src/tx.rs:75-77 | groups of three bytes are encoded one after the other |
| `Wire.DecLenIff` | agenc-worker/src/tx.rs:78-79 | a compact-u16 is read exactly from its shortest form |
| `Wire.DecVecIff` | agenc-worker/src/tx.rs:78-79 | a length-prefixed vector is read exactly from what its writer wrote |
| `Wire.DecMessageIff` | agenc-worker/src/tx.rs:162-165 | a message is read exactly from its serialisation |
| `Wire.DecTransactionIff` | agenc-worker/src/tx.rs:78-79 | bytes decode to a transaction if and only if they are its encoding followed by what is left |
| `Wire.EncMessageAppend` | agenc-worker/src/tx.rs:162-165 | the serialisation of a message does not depend on what follows it |
| `Wire.LenBytesValue` | agenc-worker/src/tx.rs:162-165 | a length is written as its value in groups of seven bits |
| `Wire.LenBytesShape` | agenc-worker/src/tx.rs:162-165 | each group but the last is marked, and there are as few as possible |
| `Wire.MessageLayout` | agenc-worker/src/tx.rs:162-165 | a message byte by byte: header, keys behind their number, block hash, and instructions behind their number |
| `Wire.TransactionLayout` | agenc-worker/src/tx.rs:114-121 | a transaction is its signatures behind their number, and the message |
| `Tx.AssertExpected` | agenc-worker/src/tx.rs:70-105 | acceptance if and only if the input decodes, every program index is in range, the key at some instruction's program index is the program, and every such instruction has at least 8 bytes of data of which the first 8 are allowed |
| `Tx.JudgeInstructions` | agenc-worker/src/tx.rs:81-104 | the loop with its flag accepts exactly those messages |
| `Tx.JudgeExact` | agenc-worker/src/tx.rs:81-104 | no fault and some addressee is the same as acceptance |
| `Tx.FirstFaultReported` | agenc-worker/src/tx.rs:83-103 | the error is that of the first instruction at fault, or else that the program is absent |
| `Tx.RefusedExactly` | agenc-worker/src/tx.rs:83-103 | the error in full: an index out of range, too little data, or the discriminator of the first instruction that is not allowed, or the absent program if the keys named by the instructions are all others |
| `Tx.FetchExactly` | agenc-worker/src/tx.rs:75-79 | an input decodes to a transaction if and only if, trimmed, it is the base64 of its encoding and a remainder |
| `Tx.AssembleWireTx` | agenc-worker/src/tx.rs:114-121 | the framed bytes start with a vector of exactly the one signature, and the message is what is left |
| `Tx.SignAndFrame` | agenc-worker/src/tx.rs:152-169 | the posted text is the base64 of one signature over the decoded message and that message; decoding errors are passed on |
| `Tx.BroadcastIsChecked` | agenc-worker/src/tx.rs:70-169 | the posted text decodes, with nothing left over, to one signature and the checked message, so the guard says the same of it; signing it again changes nothing |
| `Tx.SignedBytesComeFromInput` | agenc-worker/src/tx.rs:156-165 | the signed bytes stand verbatim in the input between its signatures and what follows |
| `Tx.PostedByMessageAlone` | agenc-worker/src/tx.rs:152-169 | two inputs are posted alike if and only if their messages are equal |
| `Hex.EncodeInjective` | agenc-worker/src/proof.rs:107-110 | different bytes have different hexadecimal texts |
| `Hex.DecodeIffEncode` | agenc-worker/src/proof.rs:107-110 | decoding accepts exactly the lower-case texts that encoding gives |
| `Hex.EncodeMeans` | agenc-worker/src/proof.rs:107-110 | each byte is written as the digits of its upper and lower half |
| `OrderedJson.ReadWrite` | agenc-worker/src/proof.rs:106-111 | reading a written item gives it back and leaves what followed |
| `OrderedJson.BytesInjective` | agenc-worker/src/proof.rs:106-111 | different items are written as different bytes |
| `OrderedJson.EscapeMeans` | agenc-worker/src/proof.rs:106-111 | which characters of a string are escaped, and how |
| `OrderedJson.FieldLayout` | agenc-worker/src/proof.rs:106-111 | the punctuation around keys and values |
| `OrderedJson.ItemLayout` | agenc-worker/src/proof.rs:106-111 | the braces of records, the quotation marks of strings, and the two truth values |
| `Proof.RecoverSigned` | agenc-worker/src/proof.rs:66-71 | the input and the signature are read back from the signed text, with the field names and their order |
| `Proof.BodyBytesInjective` | agenc-worker/src/proof.rs:41-77 | two inputs have the same signed bytes if and only if they are equal in every field |
| `Proof.BodyMeans` | agenc-worker/src/proof.rs:41-77 | the signed bytes are the UTF-8 of a text that reads as exactly the twelve fields, with their names, in order |
| `Proof.ProofMeans` | agenc-worker/src/proof.rs:85-114 | the signature in a proof decodes to the signature over the bytes of its body, and the hash is of a text that the proof is read back from |
| `Proof.CommitmentBinds` | agenc-worker/src/proof.rs:85-114 | two proofs have the same hashed bytes if and only if input and signature are equal |
| `Manifest.SortLines` | agenc-worker/src/manifest.rs:28 | sorting in place gives the sorted lines |
| `Manifest.SortedUnique` | agenc-worker/src/manifest.rs:28 | a multiset of lines has one sorted order |
| `Text.OrderOfBytes` | agenc-worker/src/manifest.rs:28 | strings are ordered exactly as their UTF-8 bytes |
| `Manifest.ManifestHash` | agenc-worker/src/manifest.rs:20-31 | the hash is taken over the sorted and joined lines |
| `Manifest.HashMeans` | agenc-worker/src/manifest.rs:20-31 | the hash is the hexadecimal digest of the lines `path:digest` of the files, in the order of their bytes and joined by line feeds |
| `Manifest.OrderDoesNotMatter` | agenc-worker/src/manifest.rs:15-31 | permuting the files keeps the text and the hash |
| `Manifest.TextIsCanonical` | agenc-worker/src/manifest.rs:20-31 | for paths without line feeds, equal texts if and only if equal multisets of path and content digest |
| `Manifest.ParseLineIff` | agenc-worker/src/manifest.rs:23-27 | a line is read exactly from the path and digest it was written for, line feeds or not |
| `Manifest.ReadManifestIff` | agenc-worker/src/manifest.rs:20-31 | a reader that splits at every line feed gets the entries of the bundle back if and only if no path has a line feed |
| `Manifest.LineFeedCollision` | agenc-worker/src/manifest.rs:25-29 | with a line feed in a path, one file gives the text of two |
| `Manifest.FilesFromJson` | agenc-worker/src/manifest.rs:42-55 | every entry of an object once, strings by their bytes and other values printed; nothing for other values |
| `Manifest.BundleMeans` | agenc-worker/src/manifest.rs:42-55 | every key once, with the bytes of its string or of its printed value |
| `Manifest.BundleOrderDoesNotMatter` | agenc-worker/src/manifest.rs:42-55 | the order in which an object yields its entries does not reach the hash |
| `Manifest.JsonIsCanonical` | agenc-worker/src/manifest.rs:20-55 | two objects with plain keys give the same text if and only if they have the same keys with contents of the same digest |
| `Siws.BuildIsLines` | src/wallet_auth.rs:42-53 | the message is ten lines, the domain in two of them |
| `Siws.ParseIffBuild` | src/wallet_auth.rs:34-54 | a line reader accepts a text with these claims if and only if they have no line feeds and the text is their message |
| `Siws.PlainIsUnique` | src/wallet_auth.rs:34-54 | the signed bytes of claims without line feeds are those of no other claims at all |
| `Siws.LineFeedCollision` | src/wallet_auth.rs:42-53 | with line feeds, different claims are signed as the same bytes |
| `Builder.SignIn` | agenc-worker/src/builder.rs:221-239 | challenge, then its message back with a base58 signature that decodes to the signature over the bytes of exactly that message; a refusal stops the run |
| `Builder.Open` | agenc-worker/src/builder.rs:220-261 | three calls in order, and the session id of the third reply |
| `Builder.Proceed` | agenc-worker/src/builder.rs:308-335 | the tier before the first approval of a plan, and then the action |
| `Builder.Round` | agenc-worker/src/builder.rs:273-335 | one turn follows from the snapshot it reads |
| `Builder.Poll` | agenc-worker/src/builder.rs:266-336 | the loop keeps the rules and stops only for a reason the log shows |
| `Builder.DriveBuilder` | agenc-worker/src/builder.rs:212-361 | the log of the MCP grows by exactly the steps of this run, which keep the rules and end as the outcome says; a returned hash is that of the files in the last snapshot |
| `BuilderProperties.Opening` | agenc-worker/src/builder.rs:220-257 | the first three calls and their arguments, the signature over the bytes of the message included, and no others among them |
| `BuilderProperties.OpeningMeans` | agenc-worker/src/builder.rs:220-257 | the opening in terms of the JSON replies: the message signed is the reply's `message`, and the session is only opened if `authenticated` was not false |
| `BuilderProperties.SessionMeans` | agenc-worker/src/builder.rs:246-344 | after the opening every call is for the `session_id` of the third reply, and the only tier is `community` |
| `BuilderProperties.OutcomeMeans` | agenc-worker/src/builder.rs:220-361 | every outcome in terms of the JSON of the last replies, and for a promotion the hash of the `files` of the done snapshot |
| `BuilderProperties.FailureIsLast` | agenc-worker/src/builder.rs:273-336 | nothing follows a failed call |
| `BuilderProperties.TierOnce` | agenc-worker/src/builder.rs:267-316 | the tier is set at most once |
| `BuilderProperties.TierPlacement` | agenc-worker/src/builder.rs:301-316 | the tier call directly follows a plan that waits for approval and directly precedes its approval |
| `BuilderProperties.TierThenApproval` | agenc-worker/src/builder.rs:308-335 | a finished run that set the tier has approved the plan next |
| `BuilderProperties.ApprovalNeedsTier` | agenc-worker/src/builder.rs:301-335 | no approval of a plan precedes the tier call |
| `BuilderProperties.ActionMatchesLatest` | agenc-worker/src/builder.rs:318-335 | each action matches the latest snapshot |
| `BuilderProperties.ActionsAreCalledFor` | agenc-worker/src/builder.rs:301-335 | in every run, an action is the one that the phase and the status of the latest snapshot call for |
| `BuilderProperties.ReportedBefore` | agenc-worker/src/builder.rs:301-344 | in every run, the tier directly follows a plan reported to wait for approval, and the promotion a session reported done |
| `BuilderProperties.PromotionIsLast` | agenc-worker/src/builder.rs:338-344 | the promotion is the last call and directly follows a snapshot that is done |
| `BuilderProperties.NapsBounded` | agenc-worker/src/builder.rs:266-300 | at most half the budget, rounded up, in sleeps, against any responder |
| `BuilderProperties.CallsBounded` | agenc-worker/src/builder.rs:266-336 | if every call takes time, the number of calls is at most linear in the budget, although turns that advance never sleep |
| `Settlement.Leg` | agenc-worker/src/worker.rs:224-227 | one request, and one broadcast exactly if the answer holds a transaction that passes its discriminator; the error says what stopped it |
| `Settlement.WorkerRoundtrip` | agenc-worker/src/worker.rs:213-261 | the claim leg, and only after it succeeded the submission leg with the commitment to this task and artifact |
| `Settlement.Settle` | src/work.rs:285-321 | nothing happens after a build that was not promoted, and otherwise one round trip with the promoted session and artifact |
| `Settlement.WorkOnce` | src/work.rs:263-321 | the log of the MCP grows by exactly the steps of the build and the other log by the board and the settlement, each only if the one before allows it, and the result is the one that goes with them |
| `Settlement.Register` | src/work.rs:219-251 | one leg with the registration discriminator |
| `SettlementProperties.LegIsGuarded` | agenc-worker/src/worker.rs:224-227 | whatever a leg broadcasts passes the guard itself, with that leg's one discriminator |
| `SettlementProperties.LegMeans` | agenc-worker/src/worker.rs:133-163 | something is broadcast if and only if the reply has an `unsignedTxB64` that the guard accepts; it decodes to that message under the wallet's one signature; success means a reply with a result and no error |
| `SettlementProperties.SettlesInOrder` | agenc-worker/src/worker.rs:213-261 | the effects are a prefix of claim request, claim, submission request, submission, and success means all four |
| `SettlementProperties.GuardsExclude` | agenc-worker/src/worker.rs:34-36 | no transaction passes as two different kinds |
| `SettlementProperties.NothingWithoutJob` | src/work.rs:271-278 | the MCP is called if and only if some job is eligible, nothing else beyond the board is requested otherwise, and an idle iteration is one without |
| `SettlementProperties.IterationOrder` | src/work.rs:263-321 | the board is fetched before the first MCP step, the steps keep the rules for the selected job, and anything after the board comes after the last step, which is the promotion, and uses that task and that artifact |
| `SettlementProperties.SessionForJob` | src/work.rs:281-296 | the MCP is asked to sign in the wallet's key with its signature, to open a session for the selected job's parcel and brief in that order, and for nothing later than the configured budget after that |
| `SettlementProperties.BoardMeans` | src/work.rs:326-342 | the board's jobs are the array under `jobs`, or none |
| `SettlementProperties.PromotedSession` | agenc-worker/src/builder.rs:246-344 | the session that is promoted is the one that was opened for the parcel and brief of the selected job |
| `SettlementProperties.ProofHashCommits` | agenc-worker/src/worker.rs:229-247 | the submitted hash commits to a proof of exactly these ten fields, signed over its own body |
| `SettlementProperties.ResultMeansSettled` | src/work.rs:285-321 | a result means both transactions went out after the last MCP step and differ, and that the submission carried the commitment over the same task, the promoted session and the hash of the files it was promoted with |

## Left out

- StreamJob.StreamJob: chunks are texts, so a code point that a chunk boundary cuts, which the lossy decoding of `src/run.rs:323` would replace, does not occur; the time limit does not strike in the middle of a send, which depends on the websocket library's queue.
- StreamJob.DrainLines, StreamJob.PumpBody and StreamJob.EndBody are one function in the source; Session.Serve, Settlement.WorkOnce and Builder.DriveBuilder are likewise split at their phases.
- Session.Serve: a failure to encode the auth frame (`src/run.rs:189-195`) cannot happen for plain fields and has no branch.
- Tx.SignAndFrame: serialising a message with a vector of more than 65535 items would be an error in the source; no decoded message has one, and the encoder of the model is simply total.
- Backoff.ReconnectLoop: ctrl-c racing the whole supervised loop (`src/run.rs:95-98`), which may drop a job at any await, is not modelled.
- Settlement.WorkOnce: the `initialize` request that spawning the MCP child makes before `work_once` is called is outside the iteration; the identifiers and envelopes of JSON-RPC requests (`agenc-worker/src/builder.rs:92-148`) are not part of this model.
- Settlement.Leg: the identity of a landed transaction and its confirmation on the chain are outside the client.
- Manifest.FilesFromJson: how a non-string value is printed is a parameter.
- JobBoard.SelectJob: the serialised size of a job spec is a parameter.
- The wording of error messages; errors are constructors that carry what the message carries of importance.
- General JSON parsing; parsed values are a datatype, and only what the proof body needs is written and read.
- Cryptography, key files, wallet import, `src/solana_stake.rs`, `src/config.rs` and the command line: single-path code, or code of other libraries.
- The cap on incoming websocket frames (`src/limits.rs:129-135`), which the library enforces.
- The HTTP exchange around the sign-in message (`src/wallet_auth.rs:87-149`).
