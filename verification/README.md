# bitty-ai in Dafny

A model of the parts of bitty-ai where a mistake would be hard to see by reading one
function: the helper's control protocol, the provider-routing publication proof, the
hand-written JSON reader and writers, and the length-prefixed formats. Everything is proved
for all inputs, all interleavings of calls and all behaviours of peers, registries, random
sources and streams.

- **Control protocol.** `Streams`, `Framing`, `Establishment`, `ControlProtocol`, `Outbox`,
  `HelperState`, `HelperControl`, `HelperRuns`. The helper is a class with the source's fields, writing
  framed records to a stream that may be chopped, interrupted or cut at any byte. A ghost log
  holds every record accepted, comparison made, record sent and step reported.
  `ControlProtocol` says what a lawful log is, entry by entry, and derives the laws of whole
  runs; `HelperState` says which step, which records and which error answer each record;
  `HelperControl` proves every method keeps its log lawful and answers so; `HelperRuns` puts the two
  together for any sequence of public calls and for the driver loop.
- **JSON.** `Json` defines the texts of RFC 8259 by syntax trees, independent of any parser.
  `JsonReader` is the reader as functions, `JsonParser` the same reader over a moving position,
  `JsonGrammar` the proof that it accepts exactly those texts. `JsonWriter` and `JsonBuffer`
  are the writers, `JsonViews` the field lookups. `ContextRead` is the largest encoder built
  on them.
- **Publication proof.** `ProviderProjection`, `ProviderRegistry`, `ProviderWriter`,
  `ProviderBinding`, `ProjectionRules`, `ProviderPublication`, `PublicationRules`,
  `ProviderFrames`, `PublicationState`, `PublicationLedger`, `PublicationLog`, `PublicationWorld`. The two printers are
  buffer-growing loops proved against one printed form; the two `Rules` modules spell out
  which data, frames and payloads are accepted and which refusal the others get. Lifetimes are heap cells shared
  between clones; `PublicationLedger` is the same process as plain values, where the life of a
  proof is decided, `PublicationLog` the law of its log, and `PublicationWorld` proves that the
  objects follow the values call by call.
- **Formats.** `Bytes`, `Utf8`, `LaunchManifest`, `FallbackEnvelope`, `StablePrefix`, `Fnv`.
- **Dispatch.** `Dispatch` is the gate chain and the two contacting handlers; `DispatchRuns`
  is any sequence of calls at any of the five entries over one provider and one executor.

Bytes are numbers below 256; text is a sequence of Unicode scalar values, so UTF-8 validity
of text inputs is assumed and lengths are UTF-8 lengths where the source counts bytes. In
`StablePrefix` a byte is the character of the same code. Integers are unbounded and every
32-bit or 64-bit bound of the source is written out.

What the source takes from elsewhere is a parameter: the registry's and the random source's
answers (`Oracle`), the record codec and its size limits (`Codec`, `Limits`), the SHA-256 hex
digest (`hash`), the parser's depth bound (`max`), the TLS library's key check (`keyError`),
the artifact store (`Store`), the gate predicates, decoders and result encoders of the
dispatch chain, the injected provider and the injected executor. `Limits` requires that one
maximal frame fits the byte budget. Binary layouts follow the tables in the source.

Three findings. The collision check on lifetimes is two deep: an identifier is minted exactly
when it repeats neither of the last two (`FreshIsUnused`), so three consecutive lifetimes
differ, but a fourth may repeat the first; `FourthLifetimeMayRepeat` builds the lawful log
and `FourthLifetimeRepeats` drives a session to it. A publication ends the proofs of the state
that publishes and of copies made later, but an alias cloned earlier goes on accepting them
(`AliasOutlivesPublish`); a proof is accepted exactly until its holder publishes or an alias
is reset (`AcceptedUntilEnded`). And the two projections
disagree on a model with no capability: the registry projection prints it, the payload
projection refuses it, so the registry's own bytes are accepted exactly when every model has
a capability (`RegistryBytesAreAccepted`); the runtime registry never registers such a model.

## Model

| member | source | states |
|---|---|---|
| Streams.ByteStream.Read | crates/bitty-ai-control/src/framing.rs:302-337 | a read moves a non-empty piece of what the peer sent, or nothing only at end of file, or is interrupted, or fails; the bytes land where asked and nothing else changes |
| Streams.ByteStream.Write | crates/bitty-ai-control/src/framing.rs:370-380 | a write extends the stream by a prefix of the bytes given, or leaves it alone; a stream that refuses no write for good always takes something or asks to be called again |
| Framing.FillBuffer | crates/bitty-ai-control/src/framing.rs:302-337 | however the bytes are chopped and interrupted, a full buffer holds exactly the next bytes of the stream, and a short one reports how many there were |
| Framing.ReadRecord | crates/bitty-ai-control/src/framing.rs:159-187 | the outcome and the bytes left are those of a specification on the flat byte sequence, for every chunking; only a failing read can give an I/O error |
| Framing.WriteAll | crates/bitty-ai-control/src/framing.rs:370-380 | success puts all bytes on the stream; failure leaves a strict prefix of them; a willing stream never fails |
| Framing.FrameWriter.EnqueueFrame | crates/bitty-ai-control/src/framing.rs:268-299 | accepted exactly when the frame is non-empty, within the frame bound, and both queue bounds hold; the byte count stays the sum of queued frames and prefixes |
| Framing.FrameWriter.Enqueue | crates/bitty-ai-control/src/framing.rs:219-227 | appends exactly the encoded record; on an empty queue the queue and byte-budget refusals cannot occur |
| Framing.FrameWriter.WriteFrame | crates/bitty-ai-control/src/framing.rs:358-368 | success puts prefix and frame on the stream; failure leaves a strict prefix of them; on a willing stream every frame within the bound succeeds |
| Framing.FrameWriter.Flush | crates/bitty-ai-control/src/framing.rs:237-248 | success puts every queued frame on the stream in order; failure leaves a prefix of that; the queue is empty either way; a willing stream never fails |
| Framing.FrameWriter.Clear | crates/bitty-ai-control/src/framing.rs:263-266 | empties the queue and its byte count |
| Framing.WireBytesIsLength | crates/bitty-ai-control/src/framing.rs:268-299 | the queue's byte count is the length of its wire form, so the saturating subtraction never clips |
| Framing.ReadsBackInOrder | crates/bitty-ai-control/src/framing.rs:159-187 | a reader of flushed frames followed by any cut of one more frame gets every record in order, then a clean end or the matching truncation error |
| Framing.ReadsExactly | crates/bitty-ai-control/src/framing.rs:159-187 | a record is read exactly when a whole frame within every bound stands at the front and decodes to it |
| Framing.ReadRefusals | crates/bitty-ai-control/src/framing.rs:159-187 | each read error with its exact condition and the bytes left after it: end of file, short prefix, zero length, too large, shorter than its header, no memory, short body, a small kind that is too large, an undecodable record |
| Framing.WireIsPrefixed | crates/bitty-ai-control/src/framing.rs:358-368 | a frame goes out behind its length in four bytes, most significant first |
| Establishment.Mismatch | crates/bitty-ai-control/src/manifest.rs:495-548 | no field is named exactly when all seventeen echoed values equal the expected ones |
| Establishment.MismatchIsFirst | crates/bitty-ai-control/src/manifest.rs:495-548 | the field named is the first of the seventeen that differs |
| ControlProtocol.WordsOfRuns | crates/bitty-ai-control/src/state.rs:710-915 | the sent records of every lawful log form a cut of Established Projection (Ack Bound)* Ack? (Invalidate? Lifetime Projection (Ack Bound)* Ack?)*, closed by at most one Error that never follows a bare Established or Lifetime |
| ControlProtocol.SequencesAreConsecutive | crates/bitty-ai-control/src/state.rs:1304-1328 | the k-th sent record carries sequence k: no gap, no repeat |
| ControlProtocol.EveryBoundIsBacked | crates/bitty-ai-control/src/state.rs:1055-1104 | each Bound is the answer to the bind of the acknowledgement sent just before it, for the same lifetime, revision and tuple, after the registry agreed to the bytes of that very publication; the lifetime is the current one |
| ControlProtocol.AckVersionsIncrease | crates/bitty-ai-control/src/state.rs:995-1053 | acknowledged versions strictly increase over the whole session |
| ControlProtocol.BoundVersionsIncrease | crates/bitty-ai-control/src/state.rs:1055-1104 | bound versions strictly increase over the whole session, across rotations |
| ControlProtocol.ReceiptsAreFresh | crates/bitty-ai-control/src/state.rs:1077-1104 | a receipt differs from the one issued before it, whatever lies between |
| ControlProtocol.AcksAreSeparated | crates/bitty-ai-control/src/state.rs:995-1053 | two acknowledgements always have a Bound or a new Lifetime between them |
| ControlProtocol.ErrorIsLast | crates/bitty-ai-control/src/state.rs:1326-1358 | nothing follows an Error |
| ControlProtocol.ConsecutiveLifetimesDiffer | crates/bitty-ai-control/src/state.rs:1255-1296 | any three consecutive lifetimes are pairwise distinct |
| ControlProtocol.FourthLifetimeMayRepeat | crates/bitty-ai-control/src/state.rs:550-579 | the collision check is two lifetimes deep: for any three distinct identifiers there is a lawful log announcing them and then the first again |
| ControlProtocol.RevisionsCountMutations | crates/bitty-ai-control/src/state.rs:806-862 | every projection sent carries the first revision announced plus the number of rotations so far that directly follow the helper's own mutation notice |
| ControlProtocol.CorrelatedOncePerRotation | crates/bitty-ai-control/src/state.rs:1113-1181 | a retired lifetime is correlated at most once before the next rotation |
| ControlProtocol.RetainedIsPublished | crates/bitty-ai-control/src/state.rs:1019-1053 | while an acknowledgement waits, the retained bytes are those of the publication it answers |
| Outbox.Outbox.Send | crates/bitty-ai-control/src/state.rs:1311-1324 | a record is wholly on the stream and logged, or the stream holds a piece of it; only success moves the counter; a refusal is never for lack of queue space or byte budget; it succeeds when the counter, the codec, the frame bound and the stream allow it |
| Outbox.Outbox.constructor | crates/bitty-ai-control/src/state.rs:676-696 | starts with nothing sent and the outgoing counter at zero |
| Outbox.Outbox.Clear | crates/bitty-ai-control/src/state.rs:1351-1358 | clearing the queue keeps stream and log in agreement |
| HelperControl.Helper.constructor | crates/bitty-ai-control/src/state.rs:618-696 | starts before establishment with no authority and an empty log |
| HelperControl.Helper.StateInvariant | crates/bitty-ai-control/src/state.rs:772-790 | awaiting a bind exactly when a publication is pending; pending excludes a receipt; both carry the last accepted version; pending names the current lifetime; the live revision is the one established plus the mutations carried out since, two counters that only establishing and mutating change; inactive means everything is cleared |
| HelperControl.Helper.CountersAreLogged | crates/bitty-ai-control/src/state.rs:710-862 | in a live session the established revision is that of the first lifetime in the log, the mutation count is the number of rotations that follow the helper's own mutation notice, and the current lifetime is the last one announced |
| HelperControl.Helper.Establish | crates/bitty-ai-control/src/state.rs:710-759 | accepts only the expected establishment as record one, then announces lifetime and projection at the snapshot's revision with no mutation counted; every other outcome revokes, with the error of the first check that failed; it succeeds whenever the expected record is next, the registry and the random source answer and both records can be carried |
| HelperControl.Helper.Step | crates/bitty-ai-control/src/state.rs:772-790 | a record that was addressed to this session is answered by its kind: a publication gives Published with its tuple and leaves the helper awaiting the bind, with exactly Got, the acknowledgement and the step added to the log; a bind gives NowBound with its Bound in the log; an invalidation gives exactly AuthorityClosed, LifetimeRotated or PredecessorCorrelated; PeerError comes from an Error record and from nothing else. Each refusal is named by the check that makes it. The incoming counter rises by one on every success, the live revision is kept, and it succeeds whenever the next record is in order and nothing stands in its way |
| HelperControl.Helper.Announce | crates/bitty-ai-control/src/state.rs:735-759 | the session opens with Established and Projection, as records one and two, whenever both can be carried |
| HelperControl.Helper.Handle | crates/bitty-ai-control/src/state.rs:776-789 | each kind of record gets the answer of that kind, with the exact log; a refusal is the error of the first failing check for that kind; any other kind revokes; a record nothing stands in the way of is handled |
| HelperControl.Helper.Emit | crates/bitty-ai-control/src/state.rs:1304-1309 | a failed send revokes and sends no Error; a successful one extends the log by exactly that record; it succeeds when the record can be carried |
| HelperControl.Helper.Fail | crates/bitty-ai-control/src/state.rs:1330-1349 | every fault ends revoked with its reason; a fault with a code adds exactly that Error record when it can be carried, and never more than one; the error returned is the one its code and reason belong to |
| HelperControl.Helper.Withdraw | crates/bitty-ai-control/src/state.rs:806-862 | the helper withdraws its own lifetime before replacing it, whenever that record can be carried |
| HelperControl.Helper.ReadIncoming | crates/bitty-ai-control/src/state.rs:1198-1225 | a record read is the next frame of the stream; any framing or transport fault revokes with the error that fault maps to; a whole decodable frame is read when no read fails |
| HelperControl.Helper.ValidateEnvelope | crates/bitty-ai-control/src/state.rs:1227-1245 | passes exactly records from the Core, of this session, carrying the next sequence |
| HelperControl.Helper.HandlePublish | crates/bitty-ai-control/src/state.rs:995-1053 | acknowledges a publication for the current lifetime and this session whose version increases, with exactly the acknowledgement and the step logged; anything else revokes with the first failing check; with no refusal, a fresh identifier and a record that can be carried it succeeds |
| HelperControl.Helper.Acknowledge | crates/bitty-ai-control/src/state.rs:1019-1053 | retires the previous receipt, retains the published bytes and sends the acknowledgement |
| HelperControl.Helper.HandleBind | crates/bitty-ai-control/src/state.rs:1055-1104 | binds only the pending publication, and only when the registry agrees to its retained bytes, with the comparison, the Bound and the step logged; each refusal is named; with a fresh receipt and a record that can be carried it succeeds |
| HelperControl.Helper.IssueReceipt | crates/bitty-ai-control/src/state.rs:1077-1104 | the receipt differs from the acknowledgement id and from the last receipt |
| HelperControl.Helper.SendReceipt | crates/bitty-ai-control/src/state.rs:1077-1104 | the pending publication becomes the bound one under the new receipt, and exactly its Bound and the step are logged |
| HelperControl.Helper.HandleInvalidate | crates/bitty-ai-control/src/state.rs:1113-1181 | names the current lifetime, or the open predecessor, or revokes; a registry mutation from the Core revokes; the step and the log are those of closing, rotating or correlating; it succeeds when it closes, correlates, or a successor can be announced |
| HelperControl.Helper.InvalidateCurrent | crates/bitty-ai-control/src/state.rs:1117-1160 | closes when authority is withdrawn, otherwise rotates at the same revision, with exactly those records logged; rotating succeeds when the registry agrees, the identifier is unused and both records can be carried; otherwise the first failing check is named |
| HelperControl.Helper.CorrelatePredecessor | crates/bitty-ai-control/src/state.rs:1162-1178 | closes the predecessor window without touching the current lifetime |
| HelperControl.Helper.RetiredTwiceIsGone | crates/bitty-ai-control/src/state.rs:1113-1181 | a lifetime retired two rotations ago matches neither the current one nor the open predecessor, so invalidating it revokes; the two matches never overlap |
| HelperControl.Helper.Renew | crates/bitty-ai-control/src/state.rs:1255-1296 | mints a lifetime no recent one uses, at the snapshot revision, and announces it, whenever the identifier is unused and both records can be carried |
| HelperControl.Helper.Succeed | crates/bitty-ai-control/src/state.rs:1288-1296 | the current lifetime becomes the predecessor and the new one is announced with its projection |
| HelperControl.Helper.RegistryMutated | crates/bitty-ai-control/src/state.rs:806-862 | withdraws, mutates, and rotates to the next revision, counting one mutation exactly on success, with exactly Invalidate, Lifetime, Projection and the step logged; each refusal is named by its check; it succeeds when the registry agrees before and after, the identifier is unused and the three records can be carried |
| HelperControl.Helper.AnnounceMutated | crates/bitty-ai-control/src/state.rs:830-862 | after the withdrawal the registry is mutated and the successor announced at the revision the registry then reports, one higher |
| HelperControl.Helper.Retire | crates/bitty-ai-control/src/state.rs:1298-1302 | before a lifetime is replaced nothing is pending and the active receipt is retired, with everything else kept |
| HelperControl.Helper.ResetLifetime | crates/bitty-ai-control/src/state.rs:875-915 | withdraws and rotates at the same revision, with exactly those three records and the step logged; each refusal is named by its check; it succeeds when the registry agrees, the identifier is unused and the three records can be carried |
| HelperControl.Helper.HandleError | crates/bitty-ai-control/src/state.rs:780-783 | a peer error closes the session |
| HelperControl.Helper.CloseByPeer | crates/bitty-ai-control/src/state.rs:1124-1131 | authority is cleared and the reason recorded |
| HelperControl.Helper.Close | crates/bitty-ai-control/src/state.rs:928-935 | revokes and clears |
| HelperControl.Helper.ClearAuthority | crates/bitty-ai-control/src/state.rs:1351-1358 | every authority field is cleared |
| HelperState.FreshIsUnused | crates/bitty-ai-control/src/state.rs:1255-1286 | a lifetime is minted exactly when entropy and secret are drawn and the identifier repeats neither of the last two lifetimes |
| HelperState.FirstIdentifierIsMintedAgain | crates/bitty-ai-control/src/state.rs:1255-1286 | after any three distinct lifetimes, drawing the first identifier again mints it |
| HelperState.PublishIsRefused | crates/bitty-ai-control/src/state.rs:995-1018 | the refusals of a publication in order: stale authority, one already pending, another session's identifier, a version not above the last, no fresh identifier, a failed send |
| HelperState.BindIsRefused | crates/bitty-ai-control/src/state.rs:1055-1104 | the refusals of a bind in order: nothing pending, another publication, a registry that fails, bytes that differ, no fresh receipt, a failed send |
| HelperState.RotationIsRefused | crates/bitty-ai-control/src/state.rs:1132-1160 | the refusals of a rotation in order: the registry, its revision, the identifier, a failed send |
| HelperControl.Helper.MintsTheUnused | crates/bitty-ai-control/src/state.rs:1255-1286 | a live session mints exactly the identifiers its last two lifetimes do not use |
| HelperRuns.LawfulRunsObeyRunLaws | crates/bitty-ai-control/src/state.rs:710-1358 | a lawful log satisfies all the run laws above at once: record language, sequences, last error, backed and current Bounds, increasing ack and bound versions, separated acks, fresh receipts, retained bytes at every prefix, lifetimes, counted revisions |
| HelperRuns.OneCall | crates/bitty-ai-control/src/state.rs:710-935 | each public call keeps the session valid, counts one mutation exactly when a mutation call succeeds, and fixes the established revision once the session left its first phase |
| HelperRuns.AnyRun | crates/bitty-ai-control/src/state.rs:710-935 | any sequence of public calls, against any peer, registry, random source and stream, leaves a log that obeys the run laws; every acknowledgement sent names a publication of this session; the live revision is the established one plus the mutation calls that succeeded; a revoked helper writes nothing more |
| HelperRuns.ResetTo | crates/bitty-ai-control/src/state.rs:875-915 | a reset to an identifier unused by the last two lifetimes succeeds and announces it |
| HelperRuns.FourthLifetimeRepeats | crates/bitty-ai-control/src/state.rs:710-915 | a session established with a and reset to b, to c and to a again announces all four |
| HelperRuns.PeerReadsTheRun | crates/bitty-ai-control/src/framing.rs:159-187 | a peer reads back exactly the sent records in order, then a clean end or one truncated frame |
| HelperRuns.Drive | crates/bitty-ai-control/src/entrypoint.rs:221-233 | the driver loop ends, always revoked; it reports a peer's withdrawal exactly when that is what revoked the session, and a peer's error exactly when that is |
| LaunchManifest.Parse | crates/bitty-ai-control/src/manifest.rs:186-280 | parsing by cursor gives what the field table says, error for error |
| LaunchManifest.Encode | crates/bitty-ai-control/src/manifest.rs:323-349 | the buffer holds the fields of the table in order |
| LaunchManifest.Cursor.Take | crates/bitty-ai-control/src/manifest.rs:646-657 | takes exactly the next bytes or reports truncation |
| LaunchManifest.Cursor.Bounded | crates/bitty-ai-control/src/manifest.rs:681-695 | takes a field behind its 32-bit length, bounded before the bytes are taken |
| LaunchManifest.Cursor.Field | crates/bitty-ai-control/src/manifest.rs:659-705 | reads one field of its kind: exact value, fixed size, bounded bytes or bounded non-empty UTF-8 |
| LaunchManifest.Cursor.Fields | crates/bitty-ai-control/src/manifest.rs:191-251 | reads a table of fields in order, stopping at the first failure |
| LaunchManifest.ParseUndoesEncode | crates/bitty-ai-control/src/manifest.rs:186-349 | parsing the encoding of a valid manifest gives that manifest |
| LaunchManifest.EncodeUndoesParse | crates/bitty-ai-control/src/manifest.rs:186-349 | whatever parses is valid and encodes to the same bytes |
| LaunchManifest.ParsedExactly | crates/bitty-ai-control/src/manifest.rs:186-280 | bytes parse as a manifest exactly when they are its twenty fields laid out in order and the manifest may be launched: 32-byte nonces and hash, non-empty UTF-8 names of at most 128 bytes, the fixed purpose, profile and key tags, certificates and key non-empty within 1024 and 256 bytes, and a helper key that passes the key check against the helper certificate |
| LaunchManifest.ValidMeans | crates/bitty-ai-control/src/manifest.rs:359-412 | the field table and the checks after it allow exactly those manifests |
| LaunchManifest.EncodedIsWire | crates/bitty-ai-control/src/manifest.rs:323-349 | the encoding is the fields in wire order, variable ones behind four-byte lengths |
| LaunchManifest.ReadableIsJudged | crates/bitty-ai-control/src/manifest.rs:186-280 | readable bytes are refused for the first of: total size, trailing bytes, purpose, profile, an empty certificate or key, the helper key; otherwise accepted |
| LaunchManifest.FieldRefusals | crates/bitty-ai-control/src/manifest.rs:646-705 | why one field is refused: its bytes run out, its value, its length or its encoding |
| LaunchManifest.FirstUnreadable | crates/bitty-ai-control/src/manifest.rs:191-251 | the error is that of the first field that cannot be read |
| LaunchManifest.ValidManifestsFit | crates/bitty-ai-control/src/manifest.rs:186-189 | a valid manifest takes at most 2948 bytes, so the 4096-byte bound never rejects one |
| LaunchManifest.ReadFrom | crates/bitty-ai-control/src/manifest.rs:295-315 | for every chunking the outcome is that of parsing all the bytes; only a failed or interrupted read can give an I/O error |
| JsonGrammar.AcceptsExactlyObjectTexts | crates/bitty-ai-endpoint/src/lib.rs:1065-1079 | accepts a text with a value exactly when the text is an RFC 8259 object text without unpaired surrogate escapes, nested within the bound, meaning that value |
| JsonParser.ParseParamsObject | crates/bitty-ai-endpoint/src/lib.rs:1065-1079 | the parser over a moving position terminates on every text and accepts exactly those object texts |
| JsonParser.Parser.Ws | crates/bitty-ai-endpoint/src/lib.rs:785-791 | leaves the position after the leading whitespace |
| JsonParser.Parser.Literal | crates/bitty-ai-endpoint/src/lib.rs:823-831 | takes exactly the word at the position |
| JsonParser.Parser.Number | crates/bitty-ai-endpoint/src/lib.rs:833-882 | takes the number token at the position, verbatim |
| JsonParser.Parser.SkipNumber | crates/bitty-ai-endpoint/src/lib.rs:833-873 | stops exactly after the number token |
| JsonParser.Parser.Hex4 | crates/bitty-ai-endpoint/src/lib.rs:884-897 | four hexadecimal digits, most significant first |
| JsonParser.Parser.Unicode | crates/bitty-ai-endpoint/src/lib.rs:947-977 | one scalar, or a surrogate pair; unpaired surrogates are refused |
| JsonParser.Parser.Escape | crates/bitty-ai-endpoint/src/lib.rs:912-982 | the character an escape stands for |
| JsonParser.Parser.String | crates/bitty-ai-endpoint/src/lib.rs:899-1005 | the characters up to the closing quote, stopping just after it |
| JsonParser.Parser.Value | crates/bitty-ai-endpoint/src/lib.rs:806-821 | the value at the position, refused past the depth bound |
| JsonParser.Parser.Scalar | crates/bitty-ai-endpoint/src/lib.rs:806-821 | a string, a literal or a number |
| JsonParser.Parser.Items | crates/bitty-ai-endpoint/src/lib.rs:1015-1028 | the items read so far, then the rest |
| JsonParser.Parser.Key | crates/bitty-ai-endpoint/src/lib.rs:1041-1047 | a key and its colon |
| JsonParser.Parser.Members | crates/bitty-ai-endpoint/src/lib.rs:1040-1060 | the members read so far, then the rest |
| JsonParser.Parser.Array | crates/bitty-ai-endpoint/src/lib.rs:1007-1029 | the items in order up to the closing bracket |
| JsonParser.Parser.Object | crates/bitty-ai-endpoint/src/lib.rs:1031-1061 | the members in order up to the closing brace |
| JsonGrammar.StringReads | crates/bitty-ai-endpoint/src/lib.rs:899-1005 | every well-formed string syntax is read as its characters, stopping after the closing quote, whatever follows |
| JsonGrammar.StringSyntax | crates/bitty-ai-endpoint/src/lib.rs:899-1005 | whatever the string reader accepts is well-formed string syntax |
| JsonGrammar.PairReads | crates/bitty-ai-endpoint/src/lib.rs:947-966 | every valid surrogate pair is read as its scalar |
| JsonWriter.ScansExactlyNumberTokens | crates/bitty-ai-endpoint/src/lib.rs:833-882 | takes a whole text as a number exactly when it is a token of section 6 of RFC 8259 |
| JsonWriter.EscapeInto | crates/bitty-ai-endpoint/src/lib.rs:1796-1812 | appends the escaped text |
| JsonWriter.EncodeStr | crates/bitty-ai-endpoint/src/lib.rs:1814-1820 | the quoted text |
| JsonWriter.AppendJsonString | crates/bitty-ai-endpoint/src/provider_binding.rs:290-308 | appends the quoted text |
| JsonWriter.QuoteReadsBack | crates/bitty-ai-endpoint/src/lib.rs:1796-1820 | the reader turns any quoted Unicode text back into that text, in any surrounding document |
| JsonWriter.EscapeSpelling | crates/bitty-ai-endpoint/src/lib.rs:1796-1812 | how every character is spelled: seven short escapes, \u00 and two digits for other controls, itself otherwise |
| JsonViews.LookupAt | crates/bitty-ai-endpoint/src/lib.rs:756-768 | a lookup finds the first field of that name |
| JsonViews.Utf8LenMeans | crates/bitty-ai-endpoint/src/provider_binding.rs:266-275 | the length counted is that of the text's UTF-8 encoding |
| JsonWriter.DecimalMeans | crates/bitty-ai-endpoint/src/lib.rs:720-730 | a decimal form has no leading zero and stands for its number |
| JsonWriter.DecimalIsCanonical | crates/bitty-ai-endpoint/src/lib.rs:720-730 | it is the only such form |
| JsonWriter.CompactReadsBack | crates/bitty-ai-endpoint/src/lib.rs:1790-1820 | the parser reads a compactly written object back as itself |
| JsonWriter.CompactIsInjective | crates/bitty-ai-endpoint/src/lib.rs:1790-1820 | no two objects share a compact text |
| ContextRead.HandleContextRead | crates/bitty-ai-endpoint/src/lib.rs:2441-2667 | the scope list is refused when empty or too long; otherwise the records picked are, in store order, exactly those of the asked generation whose owner is in the scopes; the read succeeds exactly when every picked record fits, and the text returned is read back by the crate's own parser as those very records, their ids and their absences; a refusal is that of the first that does not fit |
| ContextRead.SelectedArePicked | crates/bitty-ai-endpoint/src/lib.rs:2481-2496 | what the loop keeps is an increasing list of positions: exactly the records of that generation and those owners |
| ContextRead.ShapeErrorMeans | crates/bitty-ai-endpoint/src/lib.rs:2497-2549 | which refusal a misshapen record gets, check by check |
| ContextRead.RecordErrorMeans | crates/bitty-ai-endpoint/src/lib.rs:2497-2609 | which refusal a record gets where it stands, counts included |
| ContextRead.FirstErrorIsFirst | crates/bitty-ai-endpoint/src/lib.rs:2481-2641 | the refusal is that of the first record that does not fit |
| ContextRead.AbsencesAreListed | crates/bitty-ai-endpoint/src/lib.rs:2550-2609 | the absences are those of the unavailable artifacts, in record order |
| ContextRead.AbsenceNames | crates/bitty-ai-endpoint/src/lib.rs:2424-2439 | the five outcomes have five different names, spelled out |
| ContextRead.BudgetIsTheLeast | crates/bitty-ai-host/src/context_providers.rs:301-310 | the budget is the smaller of the byte ceiling, or its default, and four bytes a token of the token ceiling |
| ContextRead.CollectRecords | crates/bitty-ai-endpoint/src/lib.rs:2481-2641 | the three lists grow in step: records, their ids, and the absent artifacts |
| ContextRead.ResultText | crates/bitty-ai-endpoint/src/lib.rs:2645-2666 | the members of the result in their fixed order |
| ContextRead.AppendRecord | crates/bitty-ai-endpoint/src/lib.rs:2616-2640 | one record object, trust label included |
| ContextRead.AppendAbsent | crates/bitty-ai-endpoint/src/lib.rs:2599-2607 | one absence entry |
| ContextRead.EncodeContent | crates/bitty-ai-endpoint/src/lib.rs:2550-2615 | inline text or a reference |
| ContextRead.AcceptedExactly | crates/bitty-ai-endpoint/src/lib.rs:2497-2609 | a read succeeds exactly when every selected record fits and neither count passes its bound |
| ContextRead.ResultReadsBack | crates/bitty-ai-endpoint/src/lib.rs:2441-2667 | the crate's parser reads the text back as exactly the selected records in order, with their ids as references and the unavailable artifact records as absences, in order |
| ProviderWriter.ProjectRegistry | crates/bitty-ai-endpoint/src/provider_binding.rs:182-264 | the bytes are the printed form of the entries grouped by provider, or the refusal |
| ProviderWriter.ProjectPayload | crates/bitty-ai-endpoint/src/provider_binding.rs:406-537 | the bytes are the printed form of the providers the payload lists, or the first refusal |
| ProviderFrames.ParseFrame | crates/bitty-ai-endpoint/src/provider_binding.rs:310-333 | the moving-position parser and the key checks read a frame as the grammar does, or refuse it |
| ProviderFrames.ValidatePayload | crates/bitty-ai-endpoint/src/provider_binding.rs:347-358 | a payload passes exactly when it is its own canonical form and hashes to the digest |
| ProviderFrames.ParsePublicationFrame | crates/bitty-ai-endpoint/src/provider_binding.rs:310-369 | a frame accepted holds a sound identity and the canonical bytes its digest names |
| ProviderFrames.ParseAckFrame | crates/bitty-ai-endpoint/src/provider_binding.rs:371-404 | the acknowledgement a frame spells, or the first refusal |
| ProviderWriter.ProjectProviders | crates/bitty-ai-endpoint/src/provider_binding.rs:423-527 | the providers read so far are in the buffer, in order, with ids increasing |
| ProviderWriter.ProjectProvider | crates/bitty-ai-endpoint/src/provider_binding.rs:427-453 | one provider read and printed |
| ProviderWriter.ProjectModels | crates/bitty-ai-endpoint/src/provider_binding.rs:453-525 | the models read so far are in the buffer, in order, with names increasing and the total bounded |
| ProviderWriter.ReadModel | crates/bitty-ai-endpoint/src/provider_binding.rs:459-505 | the model a parsed object lists, or why it is refused |
| ProviderWriter.ReadLabels | crates/bitty-ai-endpoint/src/provider_binding.rs:478-499 | every entry is a known label |
| ProviderWriter.AppendModel | crates/bitty-ai-endpoint/src/provider_binding.rs:509-524 | appends the model's object |
| ProviderWriter.AppendEntries | crates/bitty-ai-endpoint/src/provider_binding.rs:228-251 | appends the models of one provider |
| ProviderWriter.CheckEntries | crates/bitty-ai-endpoint/src/provider_binding.rs:193-204 | every entry has sound names and no repeated capability |
| ProviderRegistry.LabelsAreSorted | crates/bitty-ai-endpoint/src/provider_binding.rs:199-200 | the sorted labels are the model's labels, in order |
| ProviderRegistry.NoRepeatIsIncreasing | crates/bitty-ai-endpoint/src/provider_binding.rs:199-203 | no equal neighbours among sorted labels exactly when they strictly increase |
| ProviderRegistry.SortedLabelsAreKnown | crates/bitty-ai-endpoint/src/provider_binding.rs:277-288 | every label printed is one the payload side knows |
| ProviderProjection.LessIsTotal | crates/bitty-ai-endpoint/src/provider_binding.rs:436-438 | the string order is total, so a failed comparison is its converse or equality |
| ProviderProjection.AcceptedPayloadIsCanonical | crates/bitty-ai-endpoint/src/provider_binding.rs:406-537 | whatever payload is accepted is read as sorted, bounded, duplicate-free data |
| ProviderProjection.CanonicalDataReadsBack | crates/bitty-ai-endpoint/src/provider_binding.rs:406-537 | canonicalising the printed value of canonical data gives that data |
| ProviderProjection.PrintParses | crates/bitty-ai-endpoint/src/provider_binding.rs:182-264 | the parser reads a printed projection back as the value it was printed from |
| ProviderProjection.PrintIsInjective | crates/bitty-ai-endpoint/src/provider_binding.rs:182-264 | two lists of providers with the same bytes are the same list |
| ProviderProjection.AcceptsExactlyPrintedProjections | crates/bitty-ai-endpoint/src/provider_binding.rs:347-358 | the payloads that pass the canonical-bytes check are exactly the printed forms of canonical data |
| ProviderProjection.IdsAreSorted | crates/bitty-ai-endpoint/src/provider_binding.rs:436-439 | ids of a canonical list strictly increase, so none repeats |
| ProviderProjection.NamesAreSorted | crates/bitty-ai-endpoint/src/provider_binding.rs:467-470 | model names of one provider strictly increase, so none repeats |
| ProjectionRules.CanonicalMeans | crates/bitty-ai-endpoint/src/provider_binding.rs:406-537 | the data a projection may stand for, rule by rule: at most 32 providers and 64 models, plain ids and names of 1 to 128 bytes without control characters, strictly increasing, one to eight known capabilities in order, 32-bit numbers |
| ProjectionRules.LessMeans | crates/bitty-ai-endpoint/src/provider_binding.rs:436-438 | texts are ordered by the first character in which they differ, a prefix first |
| ProjectionRules.TextOkMeans | crates/bitty-ai-endpoint/src/provider_binding.rs:266-275 | text passes exactly with 1 to 128 bytes of UTF-8 and no control character |
| ProjectionRules.LabelsAreCapabilities | crates/bitty-ai-endpoint/src/provider_binding.rs:277-288 | the labels a payload may carry are exactly the labels of the eight capabilities |
| ProjectionRules.ModelReads | crates/bitty-ai-endpoint/src/provider_binding.rs:459-505 | a model is read exactly from its five named fields under those rules; only a missing name is a JSON error |
| ProjectionRules.ProviderRefusals | crates/bitty-ai-endpoint/src/provider_binding.rs:427-453 | why a provider is refused before its models are read |
| ProjectionRules.PayloadRefusals | crates/bitty-ai-endpoint/src/provider_binding.rs:406-422 | why a payload is refused before its providers are read |
| ProjectionRules.FirstBadProvider | crates/bitty-ai-endpoint/src/provider_binding.rs:423-527 | the error is that of the first provider refused |
| ProjectionRules.RepeatsAreFound | crates/bitty-ai-endpoint/src/provider_binding.rs:199-203 | the check on sorted labels finds exactly a capability listed twice |
| ProjectionRules.RowsShowEntries | crates/bitty-ai-endpoint/src/provider_binding.rs:212-251 | each printed model carries its entry's provider, name, window and two costs under their own names, and its capabilities sorted |
| ProjectionRules.GroupsAreApart | crates/bitty-ai-endpoint/src/provider_binding.rs:212-218 | neighbouring groups belong to different providers |
| ProjectionRules.RegistryRules | crates/bitty-ai-endpoint/src/provider_binding.rs:182-264 | which registries are projected, to which text, and which refusal the others get |
| ProviderBinding.GroupingKeepsRows | crates/bitty-ai-endpoint/src/provider_binding.rs:212-218 | grouping entries by provider loses and adds nothing |
| ProviderBinding.GroupingUndoesFlattening | crates/bitty-ai-endpoint/src/provider_binding.rs:212-218 | grouping the rows of a canonical list gives that list back |
| ProviderBinding.RegistryIsCanonical | crates/bitty-ai-endpoint/src/provider_binding.rs:182-264 | a projected registry stands for canonical data exactly when every model has a capability |
| ProviderBinding.RegistryBytesAreAccepted | crates/bitty-ai-endpoint/src/provider_binding.rs:182-264 | the registry's own bytes are accepted as a payload exactly when every model has a capability: the two projections differ on an empty list |
| ProviderBinding.BytesMatchExactlyWhenDataMatch | crates/bitty-ai-endpoint/src/metadata_publication.rs:425-431 | registry bytes equal published bytes exactly when the published models are the registry's models and no published provider is empty |
| ProviderPublication.PayloadChecksAreExact | crates/bitty-ai-endpoint/src/provider_binding.rs:347-358 | the payload checks pass exactly for accepted bytes that hash to the digest |
| ProviderPublication.PublicationIsSound | crates/bitty-ai-endpoint/src/provider_binding.rs:310-369 | an accepted publication has a valid identity, the provider-routing domain, accepted bytes, and their hash as digest |
| ProviderPublication.FramesReadBack | crates/bitty-ai-endpoint/src/provider_binding.rs:310-404 | the frame of any publishable projection is accepted as that publication, and its acknowledgement frame names the same identity |
| PublicationRules.PublicationReads | crates/bitty-ai-endpoint/src/provider_binding.rs:310-369 | a frame is read as a publication exactly when it is within 256 KiB, parses, repeats no key at any depth, holds exactly the five keys, shows a valid identity, the domain, a 64-digit digest and a 64-bit version, and its payload is accepted and hashes to the digest |
| PublicationRules.AckReads | crates/bitty-ai-endpoint/src/provider_binding.rs:371-404 | the same for an acknowledgement and its four keys |
| PublicationRules.PublicationRefusals | crates/bitty-ai-endpoint/src/provider_binding.rs:310-369 | which refusal a frame gets: size, JSON, identity, domain, digest, payload, in that order |
| PublicationRules.PayloadRefused | crates/bitty-ai-endpoint/src/provider_binding.rs:347-358 | which refusal a payload gets: size, projection, non-canonical bytes, digest |
| PublicationRules.NoDuplicateKeysMeans | crates/bitty-ai-endpoint/src/provider_binding.rs:310-333 | a repeated key is found in any object, however deep |
| PublicationRules.ExactKeysMeans | crates/bitty-ai-endpoint/src/provider_binding.rs:539-555 | as many different keys as expected, all expected, are exactly the expected keys |
| PublicationRules.IdentityMeans | crates/bitty-ai-endpoint/src/provider_binding.rs:310-346 | an identity is 1 to 128 letters, digits or one of four marks |
| PublicationState.Lifetime.constructor | crates/bitty-ai-endpoint/src/metadata_publication.rs:135-148 | a cell is born revoked exactly when its sequence is the exhaustion sentinel |
| PublicationState.Lifetime.Revoke | crates/bitty-ai-endpoint/src/metadata_publication.rs:158-160 | marks the cell, and with it every alias, revoked |
| PublicationState.State.constructor | crates/bitty-ai-endpoint/src/metadata_publication.rs:178-193 | a fresh state holds its cell and nothing else |
| PublicationState.State.Clone | crates/bitty-ai-endpoint/src/metadata_publication.rs:195-213 | a clone shares the cell and copies everything else |
| PublicationState.State.Restart | crates/bitty-ai-endpoint/src/metadata_publication.rs:226-229 | the old cell is revoked for every alias; the state is empty over the new cell, and every proof it knew is superseded |
| PublicationState.State.Publish | crates/bitty-ai-endpoint/src/metadata_publication.rs:351-383 | accepts exactly a frame that parses on a live lifetime with a version above the last accepted one, an id never accepted before and room for one more; then clears every other slot, moves the epoch by one without saturating, and supersedes every proof known so far; a refusal changes nothing |
| PublicationState.PublishMeans | crates/bitty-ai-endpoint/src/metadata_publication.rs:351-383 | when a publication is accepted and, in order, why not: revoked, unreadable, stale or replayed version, id used before, limit reached |
| PublicationState.AckMeans | crates/bitty-ai-endpoint/src/metadata_publication.rs:386-405 | when an acknowledgement is accepted and, in order, why not |
| PublicationState.BindMeans | crates/bitty-ai-endpoint/src/metadata_publication.rs:411-440 | when a bind succeeds, with which proof, and, in order, why not |
| PublicationState.BindConsumes | crates/bitty-ai-endpoint/src/metadata_publication.rs:411-440 | a bind that succeeds or finds other bytes leaves nothing to bind again; any other leaves the slots alone |
| PublicationState.VerifyMeans | crates/bitty-ai-endpoint/src/metadata_publication.rs:449-489 | when a proof verifies and, in order, why not |
| PublicationState.State.Acknowledge | crates/bitty-ai-endpoint/src/metadata_publication.rs:386-405 | moves the pending publication to the acknowledged slot exactly when the frame names it |
| PublicationState.State.Bind | crates/bitty-ai-endpoint/src/metadata_publication.rs:411-440 | issues a proof carrying epoch, revision and lifetime token, which then verifies; a byte mismatch clears the acknowledgement, any other refusal changes nothing |
| PublicationState.State.SupersededIsStale | crates/bitty-ai-endpoint/src/metadata_publication.rs:351-489 | a superseded proof verifies for no registry in any state the object reaches from then on, bound again or not |
| PublicationState.BindSucceedsExactly | crates/bitty-ai-endpoint/src/metadata_publication.rs:411-440 | on a live state with a matching acknowledgement, binding succeeds exactly when the published models are the registry's models and no published provider is empty |
| PublicationLedger.StepKeepsWorld | crates/bitty-ai-endpoint/src/metadata_publication.rs:115-489 | every call keeps sequences unique below the counter, exhausted cells revoked, at most one slot taken, and the epoch equal to the number of accepted ids |
| PublicationLedger.LiveTokensAreUnique | crates/bitty-ai-endpoint/src/metadata_publication.rs:115-148 | two live cells never share a token, exhaustion included |
| PublicationLedger.GoneStays | crates/bitty-ai-endpoint/src/metadata_publication.rs:215-251 | a proof out of a state's reach stays out of reach over every call on any state |
| PublicationLedger.SlotsTold | crates/bitty-ai-endpoint/src/metadata_publication.rs:351-489 | what each call does to the slots of a state: only its own calls touch them |
| PublicationLedger.OneCallEndsOrKeeps | crates/bitty-ai-endpoint/src/metadata_publication.rs:351-489 | a proof a state accepts is still accepted after any call, unless the call is a publication of that state or a reset of an alias of its lifetime, and then it is gone |
| PublicationLedger.AcceptedUntilEnded | crates/bitty-ai-endpoint/src/metadata_publication.rs:195-489 | over any run, an accepted proof is accepted at the end if and only if the state published nothing new and no alias of its lifetime was reset; otherwise it is gone for good |
| PublicationLedger.IssuedUntilEnded | crates/bitty-ai-endpoint/src/metadata_publication.rs:411-489 | the same from the bind that issued the proof: accepted exactly until then, and afterwards refused for every registry |
| PublicationLedger.AliasOutlivesPublish | crates/bitty-ai-endpoint/src/metadata_publication.rs:195-213 | an alias cloned before a publication still accepts the proof that the publisher now refuses for every registry |
| PublicationLog.ResetEndsProofs | crates/bitty-ai-endpoint/src/metadata_publication.rs:215-251 | once any alias of the issuing lifetime is reset, the proof is refused by every state from then on |
| PublicationLog.PublishEndsProofs | crates/bitty-ai-endpoint/src/metadata_publication.rs:351-383 | a proof issued by a state is refused by every check on that state after its next publication, whatever is acknowledged and bound since |
| PublicationLog.LaterCopiesRefuseToo | crates/bitty-ai-endpoint/src/metadata_publication.rs:195-213 | so is it by every clone taken after that publication |
| PublicationLog.HistoriesRise | crates/bitty-ai-endpoint/src/metadata_publication.rs:351-383 | in a lawful log the publications of a state since its last reset have strictly rising versions and different ids |
| PublicationLog.PublicationsRise | crates/bitty-ai-endpoint/src/metadata_publication.rs:351-383 | of two publications of one state with no reset between them, the later has the higher version and another id |
| PublicationLog.ClonesRiseToo | crates/bitty-ai-endpoint/src/metadata_publication.rs:195-213 | the same between a publication and a later one of a clone taken after it |
| PublicationLog.NextPublicationRises | crates/bitty-ai-endpoint/src/metadata_publication.rs:351-383 | a publication exceeds every one in the history it follows |
| PublicationLog.StepIsLawful | crates/bitty-ai-endpoint/src/metadata_publication.rs:195-489 | every call extends a lawful log lawfully: a publication follows the state's history with a higher version and an unused id; a proof is issued for the last publication only; a check accepts only under the issuing cell, never after its reset, never an ended proof, never one that is not of the last publication |
| PublicationLog.RunIsLawful | crates/bitty-ai-endpoint/src/metadata_publication.rs:115-489 | the log of every run of calls, on any number of states and aliases, is lawful |
| PublicationWorld.Process.LiveTokensAreUnique | crates/bitty-ai-endpoint/src/metadata_publication.rs:115-148 | two live cells never share a token, exhaustion included |
| PublicationWorld.Process.Mint | crates/bitty-ai-endpoint/src/metadata_publication.rs:135-148 | takes the next sequence, or the revoked sentinel once the counter is exhausted, as the value model does |
| PublicationWorld.Process.Default | crates/bitty-ai-endpoint/src/metadata_publication.rs:178-193 | a new empty state on a new cell, as the value model says |
| PublicationWorld.Process.CloneOf | crates/bitty-ai-endpoint/src/metadata_publication.rs:195-213 | an alias of the same cell with the same slots and the same issued and superseded proofs |
| PublicationWorld.Process.ResetState | crates/bitty-ai-endpoint/src/metadata_publication.rs:226-229 | the cell is revoked for every alias and never reused; every proof the state knew is superseded |
| PublicationWorld.Process.PublishOn | crates/bitty-ai-endpoint/src/metadata_publication.rs:351-383 | verdict, new state and log entry are those of the value model; on success every proof the state issued is superseded |
| PublicationWorld.Process.AcknowledgeOn | crates/bitty-ai-endpoint/src/metadata_publication.rs:386-405 | verdict and new state are those of the value model; epoch, issued and superseded proofs are kept |
| PublicationWorld.Process.BindOn | crates/bitty-ai-endpoint/src/metadata_publication.rs:411-440 | verdict and new state are those of the value model; a proof is logged under the state and cell that minted it; superseded proofs are kept |
| PublicationWorld.Process.Check | crates/bitty-ai-endpoint/src/metadata_publication.rs:449-489 | the verdict is that of the value model and is logged with state and cell; a superseded proof is refused |
| PublicationWorld.OneCall | crates/bitty-ai-endpoint/src/metadata_publication.rs:195-489 | every call on the objects does to world and log exactly what the value model says |
| PublicationWorld.AnyRun | crates/bitty-ai-endpoint/src/metadata_publication.rs:115-489 | any interleaving of calls on any number of states, aliases included, leaves exactly the world and the log the value model gives those calls, verdicts and cells included, so the log is lawful; live tokens stay unique |
| StablePrefix.StablePrefixLen | crates/bitty-ai-host/src/cache_disclosure.rs:369-387 | the walk that strips section after section gives the length of the part that reads as version and four stable sections, when a runtime section and the policy block follow |
| StablePrefix.SkippingIsReading | crates/bitty-ai-host/src/cache_disclosure.rs:395-424 | stripping a section succeeds exactly when the section reads, and leaves what reading leaves |
| StablePrefix.FindsTheBoundary | crates/bitty-ai-host/src/cache_disclosure.rs:369-424 | on every rendered prompt the walker stops where the runtime section starts, whatever the texts hold |
| StablePrefix.PrefixDeterminesTheTexts | crates/bitty-ai-host/src/cache_disclosure.rs:369-424 | equal prefixes hold the same version and the same four texts |
| StablePrefix.PrefixIsSelfDelimiting | crates/bitty-ai-host/src/cache_disclosure.rs:369-424 | two accepted forms that agree on the prefix bytes of one have the same prefix length |
| StablePrefix.SectionReads | crates/bitty-ai-host/src/cache_disclosure.rs:395-424 | a section is skipped by its declared length, whatever its text holds |
| StablePrefix.SectionShape | crates/bitty-ai-host/src/cache_disclosure.rs:395-424 | whatever is skipped is a section with that header and that text |
| StablePrefix.NewKey | crates/bitty-ai-host/src/cache_disclosure.rs:280-316 | the key carries this provider, this model, this scope, the length of the stable prefix and the digest of exactly those bytes; there is a key exactly when both names are valid, the text is non-empty and within the bound, and the walker finds the boundary |
| StablePrefix.KeyRefusals | crates/bitty-ai-host/src/cache_disclosure.rs:280-316 | each refusal with its exact condition |
| StablePrefix.KeysSeparateRoutes | crates/bitty-ai-host/src/cache_disclosure.rs:280-316 | equal keys mean one provider, one model, one scope and one prefix length |
| StablePrefix.RouteNames | crates/bitty-ai-host/src/cache_disclosure.rs:324-360 | the names a route may carry, by their character codes; a provider's name is always fit for a model |
| StablePrefix.LayoutIsAccepted | crates/bitty-ai-host/src/cache_disclosure.rs:369-424 | every text laid out as version, four sections, runtime section and policy block is accepted, and the walker stops right after its stable part |
| StablePrefix.AcceptedIsALayout | crates/bitty-ai-host/src/cache_disclosure.rs:369-424 | and nothing else is accepted |
| StablePrefix.SamePrefixSameKey | crates/bitty-ai-host/src/cache_disclosure.rs:280-316 | on one route, agreeing on one's stable prefix means sharing a key |
| StablePrefix.OneByteChangesTheKey | crates/bitty-ai-host/src/cache_disclosure.rs:280-316 | changing one byte inside the stable prefix always changes the key |
| Fnv.Fnv1a64 | crates/bitty-ai-host/src/cache_disclosure.rs:431-438 | the digest of the bytes |
| Fnv.PrimeInverts | crates/bitty-ai-host/src/cache_disclosure.rs:159-161 | multiplication by the prime modulo 2^64 is undone by 0xce965057aff6957b |
| Fnv.StepIsBijective | crates/bitty-ai-host/src/cache_disclosure.rs:431-438 | each step is a bijection of the 64-bit state |
| Fnv.OneByteIsEnough | crates/bitty-ai-host/src/cache_disclosure.rs:431-438 | two texts of one length that differ in exactly one byte never share a digest |
| Fnv.ReferenceDigests | crates/bitty-ai-host/src/cache_disclosure.rs:431-438 | the published FNV-1a values of the empty text and of "a" |
| Fnv.OfComponents | crates/bitty-ai-host/src/cache_disclosure.rs:542-566 | the digest of the length-framed components, or the first unknown one, or no input |
| Fnv.FramedIsInjective | crates/bitty-ai-host/src/cache_disclosure.rs:526-566 | regrouping or reordering components always changes the framed text |
| Utf8.AsciiReads | crates/bitty-ai-host/src/cache_disclosure.rs:983-1008 | ASCII text is UTF-8 and is read as itself |
| Utf8.TextReads | crates/bitty-ai-host/src/cache_disclosure.rs:983-1008 | encoded text is UTF-8 and is read as itself |
| Utf8.Utf8IsText | crates/bitty-ai-host/src/cache_disclosure.rs:983-1008 | and UTF-8 is nothing but encoded text |
| Utf8.InvalidRunIsMaximal | crates/bitty-ai-host/src/cache_disclosure.rs:983-1008 | an invalid run is the longest start of a character there is, or a single byte |
| Utf8.FirstCharIsThere | crates/bitty-ai-host/src/cache_disclosure.rs:983-1008 | a first character is read exactly when the bytes start with its encoding |
| FallbackEnvelope.ToBytes | crates/bitty-ai-host/src/cache_disclosure.rs:837-851 | magic and three length-framed fields |
| FallbackEnvelope.FromBytes | crates/bitty-ai-host/src/cache_disclosure.rs:865-949 | the envelope the bytes encode, or the first refusal |
| FallbackEnvelope.TakeThenAdvance | crates/bitty-ai-host/src/cache_disclosure.rs:916-949 | taking a field and then moving past it gives the field and rest that the format defines, with the same refusal |
| FallbackEnvelope.DecodeUndoesEncode | crates/bitty-ai-host/src/cache_disclosure.rs:837-887 | decoding the encoding of a valid envelope gives that envelope |
| FallbackEnvelope.EncodeUndoesDecode | crates/bitty-ai-host/src/cache_disclosure.rs:837-887 | whatever decodes is valid and encodes to the same bytes |
| FallbackEnvelope.FieldsStandInOrder | crates/bitty-ai-host/src/cache_disclosure.rs:837-851 | magic, id, kind and text stand in that order, each behind eight bytes of length |
| FallbackEnvelope.FieldRefusals | crates/bitty-ai-host/src/cache_disclosure.rs:916-949 | why a field is refused: too short, too long for its kind, an overrun, or no text |
| FallbackEnvelope.ScrubMeans | crates/bitty-ai-host/src/cache_disclosure.rs:983-1020 | printable ASCII stays, every other character and every invalid run becomes a question mark |
| FallbackEnvelope.ScrubText | crates/bitty-ai-host/src/cache_disclosure.rs:983-1020 | one character per character or invalid run, refused with the exact count when there are too many |
| FallbackEnvelope.ScrubbedIsPrintable | crates/bitty-ai-host/src/cache_disclosure.rs:983-1020 | scrubbed text is printable ASCII |
| FallbackEnvelope.ScrubIsIdempotent | crates/bitty-ai-host/src/cache_disclosure.rs:983-1020 | scrubbing scrubbed text changes nothing |
| FallbackEnvelope.FallbackFor | crates/bitty-ai-host/src/cache_disclosure.rs:1037-1044 | every input gives an envelope that is valid and decodes again, or the size refusal |
| Dispatch.GateRefusalsAreUniform | crates/bitty-ai-endpoint/src/lib.rs:428-504 | a gate refusal is the same at all five entries and nothing is contacted |
| Dispatch.WiredOutcomesPersist | crates/bitty-ai-endpoint/src/lib.rs:584-627 | whatever an entry answers, every deeper entry answers the same |
| Dispatch.GatesAdmitExactly | crates/bitty-ai-endpoint/src/lib.rs:428-471 | the gate chain admits under a scope exactly when method, grant, consent, time range, deadline and params all hold |
| Dispatch.GateRefusals | crates/bitty-ai-endpoint/src/lib.rs:428-471 | which gate refuses, in order, and with which error |
| Dispatch.AdmittedOutcomes | crates/bitty-ai-endpoint/src/lib.rs:494-627 | what each of the five entries answers to an admitted request, by the method it names |
| Dispatch.FirstRefusalStops | crates/bitty-ai-endpoint/src/lib.rs:3186-3290 | of an ordered list of checks the first that fails is the one reported |
| Dispatch.RequestPassesEveryCheck | crates/bitty-ai-endpoint/src/lib.rs:3197-3290 | no check refuses a completion exactly when: no sampling is declared, the caller scope is well formed and is provider/ and the referenced id, the injected provider has that id, message bytes fit the budget, the timeout is in 1..=30000, the envelope is sound and the deadline is ahead |
| Dispatch.ExecutionPassesEveryCheck | crates/bitty-ai-endpoint/src/lib.rs:3763-3849 | no check refuses a tool call exactly when: at most 16 KiB of arguments match the digest, the scope is ai.invoke, the tool is well named and registered, consent is given, and the allow-set, if any, holds it |
| Dispatch.HandleComplete | crates/bitty-ai-endpoint/src/lib.rs:3186-3362 | records one request exactly when all those facts hold, else nothing, and that request carries the decoded model, messages, context references, tools, budget, timeout and time, each in its own field; the answer is the first failing check, or the provider's own within the timeout |
| Dispatch.HandleToolDispatch | crates/bitty-ai-endpoint/src/lib.rs:3752-3923 | records one execution exactly when all those facts hold, else nothing, and it is of the decoded tool, on the digested bytes, at the decoded time; the answer is the first failing check, or the executor's own |
| Dispatch.CompletionRefusals | crates/bitty-ai-endpoint/src/lib.rs:3186-3290 | which refusal a completion gets: the first of decoding, sampling, scope, provider, budget, timeout, envelope, deadline |
| Dispatch.CompletionAnswers | crates/bitty-ai-endpoint/src/lib.rs:3291-3362 | once the provider is called: its refusal, a late turn's refusal, or the encoded turn |
| Dispatch.ToolRefusals | crates/bitty-ai-endpoint/src/lib.rs:3752-3849 | which refusal a tool call gets: the first of decoding, size, digest, scope, name, registry, consent, allow-set |
| Dispatch.ToolAnswers | crates/bitty-ai-endpoint/src/lib.rs:3850-3923 | once the executor is called its answer is the result |
| Dispatch.SizesAdd | crates/bitty-ai-endpoint/src/lib.rs:3186-3290 | the size checked against the budget is the sum over the messages |
| Dispatch.DispatchWithComplete | crates/bitty-ai-endpoint/src/lib.rs:2735-2763 | a request is recorded only on the completion method, behind all six gates and the facts above; every other method has the outcome of the entry below |
| Dispatch.DispatchWithTools | crates/bitty-ai-endpoint/src/lib.rs:3482-3510 | an execution is recorded only on the tool method, behind all six gates under ai.invoke and the facts above; every other method is the completion entry's |
| DispatchRuns.CompletionsAreTheProviders | crates/bitty-ai-endpoint/src/lib.rs:2735-3362 | at any entry, a completion is ready exactly when this very call contacted the provider and the answer came within its timeout and encodes to that text |
| DispatchRuns.ToolResultsAreTheExecutors | crates/bitty-ai-endpoint/src/lib.rs:3482-3923 | at any entry, a tool call is ready exactly when this very call contacted the executor under ai.invoke and it answered that text |
| DispatchRuns.EveryRequestIsBacked | crates/bitty-ai-endpoint/src/lib.rs:2735-2763 | request j of a run is that of call p[j], field by field, for a strictly increasing p that lists every call reaching the provider and no other |
| DispatchRuns.EveryExecutionIsBacked | crates/bitty-ai-endpoint/src/lib.rs:3482-3510 | the same for executions: tool, bytes and time are those of the call |
| DispatchRuns.ContactsAreAtMostCalls | crates/bitty-ai-endpoint/src/lib.rs:3482-3510 | a run contacts provider and executor together at most once per call |
| DispatchRuns.OneCall | crates/bitty-ai-endpoint/src/lib.rs:3482-3510 | one call at any entry: its outcome, and the one request or execution it may record |
| DispatchRuns.AnyRun | crates/bitty-ai-endpoint/src/lib.rs:3482-3510 | over any sequence of calls at any of the five entries, sharing one provider and one executor, every recorded request and execution belongs to exactly one call of the owning method behind which all the facts hold, in order; every other call records nothing; no call records both |
| DispatchRuns.DeeperCallAgrees | crates/bitty-ai-endpoint/src/lib.rs:3482-3510 | where an entry answers, every deeper entry gives the same answer and the same contact |
| DispatchRuns.DeeperRunsAgree | crates/bitty-ai-endpoint/src/lib.rs:3482-3510 | raising any calls of a fully answered run to deeper entries changes no outcome and no contact of the whole run |

## Left out

- The TLS server and its handshake, descriptor adoption, zeroization and all display text: input and output only.
- The binary layout of control records, which belongs to the contract crate: records are a datatype and the codec is a parameter.
- The lifetime secret drawn with each lifetime: it is drawn and never read here, so only whether drawing it fails is modelled.
- `run_helper` before establishment: reading the manifest and driving the session are modelled, building the server between them is not.
- The generic metadata publication and acknowledgement: it does not consult the lifetime cell.
- SHA-256: the proofs need only that it is a function.
- The per-method decoders, the ten read-only handlers and the completion and tool result encoders: repeated field checks, parameters here.
- The strict dispatch entry: past the gates `dispatch_with_strict` refuses every call.
- A stream interrupted for ever: a stream's behaviour is a finite script, after which it serves every call, so every read and write loop ends.
- Concurrency inside one state: calls are atomic, in any order; the lifetime counter and the revoked flag are the only shared cells.
- Machine-size overflow of lengths and counters other than the 64-bit sequences, versions and lifetime counter: no input of the stated bounds reaches it.
- `SecretField` scrubbing, `snapshot.rs`, `config.rs`, `control_registry.rs`, the writer lease, the garbage-collection preview and the cache-hint envelopes: single-branch checks.
- The runtime registry's registration: its entries are taken as strictly sorted with 32-bit numbers (`Registered`).
- The manifest's twenty reads in a row as separate statements: they are one walk over a table of fields, and the accessors for one, two and four bytes are one method.
- The library sort of capability labels: an insertion sort stands for it, and only its result is claimed.
- The library's cut of bytes into valid and invalid UTF-8 chunks: it is written out in `Utf8` after its documentation.
