# Precall: a model of enrichment, ingest and search, with proofs

Precall records screenshots on client machines, ships them to a broker over
multiplexed virtual channels, stores each client's data in three SQLite files
(`ukg.db`, `SemanticTextStore.db`, `SemanticImageStore.db`), enriches captures
with text and image embeddings in the background, and serves search and export.

This project models the parts of that system where several steps have to agree:

- **Enrichment** (`Protocol`, `Enrichment`, `UkgDb`, `Semantic`). A pass moves
  captures through two paced queues and writes three databases that share no
  transaction. Every committed write is one `Event`; a pass is the list of its
  events (`Protocol.Pass`), and a crash is a prefix of that list. The class
  `Enrichment.Enricher` is the worker itself, loop for loop and write for write;
  it is proved to perform exactly the events of `Pass`, in that order. Whatever
  the outside decides (clock, embedder replies, reported spaces, stored objects) is
  one parameter, `Env`. `Safety` says what each single write respects,
  `PassSafety` that every write of a pass does respect it, and `Runs`, `Pacing`,
  `Starvation` and `Arrivals` draw the conclusions for runs of any length, with a
  stop after any write. `Outcomes` and `PassOutcomes` say what an attempt and a whole
  pass do to each capture, told on that capture's own data; `Warrants` why a pass may
  give up, refuse, raise a flag or store a row at all. `FlagGap` locates the one place in a pass where a stop can
  do harm, and `Limits` holds the runs that break the promises with the exact
  conditions under which they hold.
- **The wire** (`Mux`, `Gfx`, `Ingest`, `Sessions`). The channel codec over an
  arbitrarily chunked stream, the RDPGFX PDUs of MS-RDPEGFX section 2.2, frame
  reassembly, the 64-slot pairing queue, what a session stores, from the bytes that
  arrive to objects and rows, and the connection counter.
- **Search** (`Ranking`, `Filters`, `Sorting`, and `Semantic.SemanticIndex.Search`).
  Filtering while scanning, the candidate lists, reciprocal rank fusion over
  truncated windows, and the final three-key ordering. Scores are reals.
- **Paging and dates** (`Paging`, `Calendar`).

Four parts of `Protocol.Disk` (`refused`, `asked`, `owed`, `goals`) are history: no
modelled operation branches on them; they exist so that properties can be stated.
`goals` is the space for which each leg was last cleared. Nor does anything branch
on the `space` of a row once it is stored: the database keeps only its coordinates.
(The space an embedder reports with a reply does decide whether a store is rebuilt.)

## Assumptions of the run theorems

- Every pass of a run is `PassSafety.Honest` (no embedder calls its space `unknown`)
  and uses the same embedding width. Without the former,
  `Limits.PlaceholderSpaceMixes`.
- Recovery after crashes, and nothing else, also asks of every pass
  (`Runs.Heeds`): while a rebuild stands interrupted, no reply comes in the space
  that it abandons (`PassSafety.PassResumes`); and the process does not stop in the
  gap, after exactly the writes that `FlagGap.InGap` counts. `Limits` shows what
  happens otherwise: `OvertakenImageExactly`, `OvertakenTextExactly` and
  `FlagGapExactly` are the exact conditions, `OvertakenRebuildLosesAnImage` and
  `FlagGapLosesAText` are runs.
- `Runs.CompletedRunsStaySound` needs no further assumption on replies, and `Pacing`
  none on the clock. The initial state has to be sound or recoverable once
  (`PassSafety.Restartable`); runs keep it so.

## Where the code and its words differ

The model follows the code.

- `reset_image_embedding_states` is documented to forget the pacing rows too; it
  deletes the image verdicts only (crates/precall-store/src/ukg.rs:686-692).
- `ymd_from_filetime` divides by the nanoseconds of a day although its argument
  counts 100 ns ticks (crates/precall-store/src/objects.rs:15);
  `Calendar.YmdIsTheDayOnlyAtTheEpoch` gives the days on which this is harmless.
- START_FRAME carries the frame id before the timestamp
  (crates/precall-proto/src/gfx.rs:105-108).
- A text vector of the wrong width leaves its capture processed for good, like a
  refusal (crates/precall-api/src/enrich.rs:282-288); the model records both as
  `refused`.
- A clear is described as one step but deletes from three tables in three commits
  (crates/precall-store/src/semantic.rs:118-125); `Semantic.ClearNeverTears` is why
  it may be treated as one.
- The export promises everything; `Paging.ExportCompleteExactly` says when it
  delivers.

## Model

| member | source | states |
|---|---|---|
| Enrichment.Enricher.EnrichClient | crates/precall-api/src/enrich.rs:145-363 | One pass, with its early return, both queue loops and every branch, performs exactly the writes of `Pass`, in that order, on the three databases |
| Enrichment.Enricher.Prepare | crates/precall-api/src/enrich.rs:182-221 | Both stores are brought into the reported spaces, then each raised flag is lowered and its leg re-queued; nothing happens when the service reports no spaces |
| Enrichment.Enricher.InstallSpace | crates/precall-api/src/enrich.rs:290-297 | On a mismatch the store is cleared and its leg re-queued before the label moves; the label is written last in every case |
| Enrichment.Enricher.DrainBackfill | crates/precall-api/src/enrich.rs:243-265 | Queue 1 attempts its captures in order and stops at the first sign of an absent image route |
| Enrichment.Enricher.DrainFresh | crates/precall-api/src/enrich.rs:268-359 | Queue 2 attempts all its captures; once the image route is absent only the text leg runs |
| Enrichment.Enricher.FreshCapture | crates/precall-api/src/enrich.rs:268-358 | Touch, text leg, image leg; marked processed only when neither leg has to be retried |
| Enrichment.Enricher.TextStage | crates/precall-api/src/enrich.rs:273-322 | The embedder is called only for non-empty text without a stored embedding |
| Enrichment.Enricher.TextReply | crates/precall-api/src/enrich.rs:281-314 | Each outcome's writes: a usable vector becomes the store's newest row under its own label; any other reply leaves the store alone |
| Enrichment.Enricher.StepImage | crates/precall-api/src/enrich.rs:403-505 | Every branch taken before the embedder is called, with the state it records |
| Enrichment.Enricher.RecordImage | crates/precall-api/src/enrich.rs:510-587 | Each outcome's writes: a usable vector becomes the store's newest row and the image is done; a refusal or a wrong width skips it; a failed call leaves it pending; each with one more attempt |
| Outcomes.UsableTextIsStored | crates/precall-api/src/enrich.rs:280-299 | A fresh capture with text and no row, answered with a vector of the right width, ends its attempt with that row, under that vector's label, and is not counted as refused |
| Outcomes.ImageAttemptRecorded | crates/precall-api/src/enrich.rs:433-504 | An undecided image ends its attempt done with its row, pending, or skipped, as the object and the reply say, with one more attempt on record |
| Outcomes.FreshAttempt | crates/precall-api/src/enrich.rs:268-358 | An attempt on a fresh capture, on its own data: clock, text, refusal, image and verdict fare as object and replies say; it is marked processed exactly when neither leg has to be retried; other captures are untouched unless a reply moves a store to another space |
| Outcomes.BackfillAttempt | crates/precall-api/src/enrich.rs:244-265 | The same for an attempt from queue 1, which touches neither text nor the processed mark |
| PassOutcomes.StartOutcome | crates/precall-api/src/enrich.rs:182-221 | The start of a pass, table by table: labels, which rows stay, who is re-queued, both flags down, pacing kept |
| PassOutcomes.SettledPass | crates/precall-api/src/enrich.rs:145-363 | A pass whose replies are all in the spaces it reports, both routes there: every capture of its two batches ends exactly as object and replies say, every other one as the start left it |
| PassOutcomes.WorkResults | crates/precall-api/src/enrich.rs:226-359 | The same from any state in which the two batches are chosen, for services that cannot name their spaces |
| Warrants.SkippedOnlyForCause | crates/precall-api/src/enrich.rs:445-502 | After any pass an image is skipped only if it was before, has no token or timestamp, has no readable JPEG, or was turned down |
| Warrants.RefusedAndFlaggedOnlyForCause | crates/precall-api/src/enrich.rs:301-309 | After any pass a text counts as refused only if it did or was turned down, and a flag stands raised only if it did or some reply said the route is absent |
| Warrants.FailedImageStaysQueued | crates/precall-api/src/enrich.rs:575-585 | An image whose object is missing or unreadable, or whose call fails, is after any pass still in one of the two queues, with neither verdict nor embedding |
| Warrants.AbsentRouteAskedOnce | crates/precall-api/src/enrich.rs:257-264 | Once an image call is told that the route is absent, no further image is sent in that pass, from either queue |
| Runs.StoresStayCoherent | crates/precall-api/src/enrich.rs:182-202 | Wherever a run of passes stops, after any write and with spaces changing at will: a store's rows all come from its label's space, have one width, name each capture at most once, and no image is both skipped and embedded |
| Runs.QueriesStayInTheirSpace | crates/precall-api/src/routes.rs:158-170 | In every reachable state, a query that passes the space check is compared only with vectors of its own space |
| Runs.CrashesAreRecoverable | crates/precall-api/src/enrich.rs:539-556 | Wherever a heedful run stops: each leg is sound (done images have embeddings; processed texts are stored, refused or covered by a raised flag), or its store is empty and its label differs from the space for which it was being rebuilt |
| Runs.TargetPassRestores | crates/precall-api/src/enrich.rs:541-545 | After any heedful run, wherever it stopped, one pass that reports the space for which each unfinished leg was cleared leaves both legs sound |
| Runs.HeedfulRunsEndSound | crates/precall-api/src/enrich.rs:182-202 | The same for a pass that reports any space but the one an unfinished leg abandons |
| Runs.CompletedRunsStaySound | crates/precall-api/src/enrich.rs:278-322 | No lost work: from a sound state, any number of completed passes, with any replies, spaces and mid-pass rebuilds and captures arriving in between, leave every processed text stored, refused or flagged, and every done image embedded |
| Runs.MidRebuild | crates/precall-api/src/enrich.rs:193-201 | At every write inside a rebuild, the leg is sound or its store is empty with a label that still reads as a mismatch |
| Runs.ResumptionExactly | crates/precall-api/src/enrich.rs:182-221 | The start of a pass makes a leg sound if and only if it was sound, or the reported space is not the one the store is labelled with, or (image leg) its flag was raised |
| Runs.NextPassRestores | crates/precall-api/src/enrich.rs:182-202 | From any recoverable state, a pass that reports a space other than the label of each unsound leg ends with both legs sound |
| Runs.CompletedPassIsSound | crates/precall-api/src/enrich.rs:355-358 | One completed pass over a recoverable state keeps sound whatever its start made sound, across rebuilds in the middle of the pass |
| Runs.NewClientIsReady | crates/precall-api/src/enrich.rs:162-172 | A client with empty stores and unprocessed captures meets the premises of the run theorems |
| Safety.InvStep | crates/precall-api/src/enrich.rs:373-379 | Each single write, performed under its guard, keeps every store in one space with at most one embedding per capture, and skipped and embedded apart |
| Safety.RecoverableStep | crates/precall-api/src/enrich.rs:541-545 | Each single write, performed under its guard, leaves each leg sound, or emptied under a label that differs from the space being installed |
| PassSafety.PassConduct | crates/precall-api/src/enrich.rs:145-363 | Every write of every pass meets those guards in the state in which it happens |
| PassSafety.QueuesDrainable | crates/precall-api/src/enrich.rs:226-231 | The two batches of a pass hold at most 64 captures each, due, free of duplicates and disjoint, and queue 1 only captures with an image token |
| Limits.OvertakenRebuildLosesAnImage | crates/precall-api/src/enrich.rs:193-201 | A rebuild stopped after clearing, then a pass in the old space that embeds one image: an image embedded before is still marked done, has no embedding, is in neither queue, and the leg is no longer recoverable |
| Limits.OvertakenImageExactly | crates/precall-api/src/enrich.rs:539-553 | While an image rebuild stands interrupted, storing a reply leaves the leg recoverable if and only if the reply is not in the abandoned space, or no other image is marked done |
| Limits.OvertakenTextExactly | crates/precall-api/src/enrich.rs:289-299 | While a text rebuild stands interrupted, storing a reply leaves the leg recoverable if and only if the reply is not in the abandoned space, or no other processed text needs an embedding |
| Limits.FlagGapLosesAText | crates/precall-api/src/enrich.rs:211-213 | A stop between lowering the text flag and re-queueing loses a text that only the flag covered |
| Limits.FlagGapExactly | crates/precall-api/src/enrich.rs:210-215 | A pass stopped after any number of writes leaves the text leg recoverable if and only if it did not stop between lowering the flag and re-queueing, or the pass was rebuilding the text store, or that store stands emptied for another space, or every processed text was stored or refused anyway |
| FlagGap.OwedExactly | crates/precall-api/src/enrich.rs:182-215 | A stopped process has lowered the text flag without re-queueing if and only if the service reported spaces, the flag was raised, and the stop came one write after both stores were installed |
| Limits.PlaceholderSpaceMixes | crates/precall-api/src/enrich.rs:380-385 | An embedder that reported the placeholder as its space would end up in one store with the next space |
| Pacing.AttemptsArePaced | crates/precall-api/src/enrich.rs:604-607 | In every run, two attempts on one capture are at least the backoff apart, across queues, crashes, rebuilds and re-queueings |
| Pacing.EmbedderCallsArePaced | crates/precall-api/src/enrich.rs:281-281 | In every run, a capture's text (or image) is sent to the embedder at most once per backoff period |
| Pacing.SkippedStaysSkipped | crates/precall-api/src/enrich.rs:432-442 | In every run, a skipped image goes to the embedder again only after the image states were reset |
| Starvation.NoStarvation | crates/precall-store/src/ukg.rs:625-683 | A due capture that nothing overtakes is attempted within (members ahead) + 1 passes, and within floor(ahead / 64) + 1 passes when none is cut short |
| Starvation.NobodyStarves | crates/precall-store/src/ukg.rs:625-683 | The same on the columns: an unprocessed capture, or a processed one with a token whose image is neither done nor skipped, due after 600,000,000 ticks, is attempted within n + 1 passes, and within floor(n / 64) + 1 when no reply says that the image route is absent |
| Starvation.MovesForward | crates/precall-store/src/ukg.rs:658-663 | A pass that leaves a due capture out has attempted, and moved behind it, at least one member ahead of it; a full batch unless cut short |
| Starvation.BackfillTouches | crates/precall-api/src/enrich.rs:257-264 | Queue 1 attempts a prefix of its batch: all of it unless the image route is absent, and its first capture even then |
| Starvation.FreshTouches | crates/precall-api/src/enrich.rs:268-269 | Queue 2 attempts exactly its batch |
| Arrivals.ArrivalCommutes | crates/precall-broker/src/ingest.rs:287-287 | A capture stored by the broker amid writes that are not about it leaves the same state as one stored before or after them |
| Arrivals.QueuesUnaffected | crates/precall-api/src/enrich.rs:226-231 | Both queue loops perform the same writes whether or not a new capture has arrived since they were selected |
| UkgDb.BatchIsFair | crates/precall-store/src/ukg.rs:632-683 | A batch holds only due members, and leaves one out only if it is full of members that come before it |
| UkgDb.QueuesExhaust | crates/precall-store/src/ukg.rs:644-675 | The queues forget nobody: every capture is in queue 2, or in queue 1, or processed with no token, a done state or a skipped state |
| UkgDb.BatchSelects | crates/precall-store/src/ukg.rs:644-675 | A batch holds rows that meet the query's conditions, each once, and all of them unless it is full |
| UkgDb.BatchOnTables | crates/precall-store/src/ukg.rs:648-649 | A row that meets them and is left out of 64 has 64 before it that were attempted earlier, or on a tie have the smaller id |
| UkgDb.TextNeededExactly | crates/precall-api/src/enrich.rs:274-280 | There is text to embed if and only if some region has words or two regions have any text |
| UkgDb.Ukg.CapturesNeedingImageEmbedding | crates/precall-store/src/ukg.rs:632-655 | The batch of processed captures with a token and no settled image state, least recently attempted first |
| UkgDb.Ukg.CapturesPendingEnrichment | crates/precall-store/src/ukg.rs:664-683 | The batch of unprocessed captures whose backoff has elapsed, least recently attempted first |
| UkgDb.Ukg.TouchEnrichAttempt | crates/precall-store/src/ukg.rs:704-711 | The capture's attempt clock becomes `now`; nothing else changes |
| UkgDb.Ukg.SetImageEmbeddingState | crates/precall-store/src/ukg.rs:602-622 | State and attempt count of one capture are replaced or created |
| UkgDb.Ukg.ResetImageEmbeddingStates | crates/precall-store/src/ukg.rs:689-692 | All image verdicts go; pacing rows stay |
| UkgDb.Ukg.MarkProcessed | crates/precall-store/src/ukg.rs:289-295 | One existing capture becomes processed |
| UkgDb.Ukg.MarkAllUnprocessed | crates/precall-store/src/ukg.rs:696-700 | Every capture becomes unprocessed |
| Semantic.SemanticIndex.InsertEmbedding | crates/precall-store/src/semantic.rs:137-168 | Wrong widths and key lengths are refused without effect; otherwise exactly one searchable row is added, at the end |
| Semantic.SemanticIndex.HasItem | crates/precall-store/src/semantic.rs:231-244 | True exactly when the join that search uses has a row with this key |
| Semantic.SemanticIndex.Search | crates/precall-store/src/semantic.rs:175-218 | Filtering during the scan is exact: the result is the first k permitted hits of the complete stable ranking |
| Semantic.SearchIsTopK | crates/precall-store/src/semantic.rs:195-217 | A search returns the k best: hits of allowed rows with their own similarity, scores never rising, a row left out only behind k as good |
| Sorting.SortStable | crates/precall-store/src/semantic.rs:215-215 | The ranking is stable: hits that tie keep their scan order |
| Semantic.SemanticIndex.Clear | crates/precall-store/src/semantic.rs:118-125 | No searchable row remains and the label is untouched |
| Semantic.SemanticIndex.SetSpaceId | crates/precall-store/src/semantic.rs:101-114 | The label changes and no row does |
| Semantic.ClearNeverTears | crates/precall-store/src/semantic.rs:118-125 | A clear stopped between its three deletions shows the rows of one not begun or of one completed, and never an orphan that would divide `has_item` from search |
| Semantic.FoundIffHas | crates/precall-store/src/semantic.rs:224-230 | `has_item` of a capture holds exactly when an unlimited search returns that capture |
| Semantic.JoinInsert | crates/precall-store/src/semantic.rs:151-166 | The three rows of one insert add exactly one row to the join, after all others |
| Semantic.ItemKeyBijection | crates/precall-store/src/semantic.rs:248-253 | A key decodes to a capture id if and only if it is that id's key |
| Semantic.KeyBytes | crates/precall-store/src/semantic.rs:129-133 | A key is eight zero bytes, then the id in two's complement, lowest byte first |
| Mux.MuxCodec.Decode | crates/precall-proto/src/codec.rs:46-65 | Reads the bytes at the front: channel number, four length bytes with the lowest first, payload; refuses a length above 16 MiB and an unknown number; consumes exactly the frame's bytes, or nothing |
| Mux.MuxCodec.Encode | crates/precall-proto/src/codec.rs:70-79 | Appends those bytes, or refuses a payload above 16 MiB without touching the buffer |
| Mux.WireFormat | crates/precall-proto/src/channel.rs:51-60 | Known bytes: numbers 1 to 5 for the five channels, the length as b1 + 256 b2 + 65536 b3 + 16777216 b4, the payload; they decode to their frame and the frame encodes to them |
| Mux.DecodeInTwo | crates/precall-proto/src/codec.rs:46-65 | For any bytes, valid or not, decoding a stream is decoding a prefix and resuming with the rest |
| Mux.FeedAndDrain | crates/precall-proto/src/codec.rs:42-65 | The frames and the error obtained from chunks are those of the unchunked stream, however it is cut |
| Mux.StreamRoundTrip | crates/precall-proto/src/codec.rs:42-80 | Any list of legal frames decodes back to itself with nothing left over |
| Gfx.RoundTripExactly | crates/precall-proto/src/gfx.rs:102-220 | A PDU decodes to itself, consuming `encoded_len` bytes whatever follows, if and only if its length fits 32 bits |
| Gfx.IterRoundTrip | crates/precall-proto/src/gfx.rs:223-252 | Concatenated encodings iterate to exactly the encoded PDUs, then to whatever follows them |
| Gfx.ErrorIsLast | crates/precall-proto/src/gfx.rs:246-249 | On arbitrary input only the last item can be an error |
| Gfx.IterAll | crates/precall-proto/src/gfx.rs:235-252 | On arbitrary input the iteration ends, after at most one item per eight bytes and one more |
| Gfx.GfxPduIter.Next | crates/precall-proto/src/gfx.rs:237-251 | Each call yields the next item and shortens the rest; the end is reached exactly when nothing is left |
| Gfx.EncodeInto | crates/precall-proto/src/gfx.rs:102-143 | Appends the PDU's bytes, each field at its offset |
| Gfx.EncodeWritesTheWire | crates/precall-proto/src/gfx.rs:102-143 | Known bytes: command number, zero flags, whole length, then every field of each PDU at its offset, lowest byte first |
| Gfx.DecodeReadsTheWire | crates/precall-proto/src/gfx.rs:157-220 | A decoded PDU has the command number, the length and every field that the bytes say |
| Gfx.DecodesExactly | crates/precall-proto/src/gfx.rs:157-220 | Bytes decode if and only if the command is known and the length is covered and covers the fixed fields and the bitmap |
| Ingest.FrameAssembler.Finish | crates/precall-broker/src/ingest.rs:375-398 | Only the open frame can finish: one region verbatim under its codec; several so that a reader recovers every rectangle and payload, under the last codec; none as an empty uncompressed frame |
| Ingest.FrameAssembler.AddRegion | crates/precall-broker/src/ingest.rs:367-371 | A region outside a frame is dropped |
| Ingest.FrameAssembler.Begin | crates/precall-broker/src/ingest.rs:362-366 | Opening a frame discards whatever was being collected |
| Ingest.ShotsComplete | crates/precall-broker/src/ingest.rs:351-399 | From any assembler state complete frames come out one for one, in order, each holding its regions in that sense |
| Ingest.BlobReadsBack | crates/precall-broker/src/ingest.rs:386-394 | The rectangles and payloads of a frame of several regions are read back from its bytes, in order |
| Ingest.FramesSurviveTheWire | crates/precall-broker/src/ingest.rs:230-257 | One payload of complete frames, sent among arbitrary other channel frames and cut into chunks anywhere, is assembled as sent whatever the assembler was doing before (whole sessions are `Ingest.BytesToPairs`) |
| Ingest.PairingExactly | crates/precall-broker/src/ingest.rs:244-276 | The queue is the newest completed frames, at most 64, and the k-th capture gets the k-th frame for every k if and only if each capture arrives while 1 to 64 frames are unclaimed |
| Ingest.IngestSession.HandleGfx | crates/precall-broker/src/ingest.rs:230-257 | The PDUs before the first error are assembled, their frames queued in order; an error is reported exactly when there is one; no row and no object changes |
| Ingest.IngestSession.HandleMeta | crates/precall-broker/src/ingest.rs:259-297 | A batch for another client changes nothing; otherwise each record in turn takes the oldest queued frame, or none, puts its object, and adds a row unless its token is known |
| Ingest.IngestSession.StoreRecord | crates/precall-broker/src/ingest.rs:271-287 | One record: pairing, put, insert, in that order, keep the session's invariant |
| Ingest.IngestSession.Run | crates/precall-broker/src/ingest.rs:191-204 | However the arriving bytes are cut, the session does what its decoded frames say, up to the first error |
| Ingest.OneRowPerToken | crates/precall-store/src/ukg.rs:145-158 | Over any records every token has exactly one row, that of the first record that brought it, behind the rows found before |
| Ingest.LastPutWins | crates/precall-store/src/objects.rs:102-120 | An object is what the last record with its path wrote |
| Ingest.PathOfPlainToken | crates/precall-store/src/objects.rs:66-76 | A path keeps letters, digits, '-', '_' and '.' of a token, and a token of only those whole |
| Ingest.ResentRecord | crates/precall-broker/src/ingest.rs:274-287 | A record whose token is known replaces the object at its path and leaves every row as it was |
| Ingest.SentIsServed | crates/precall-broker/src/ingest.rs:191-204 | Serving what a client sent assembles its PDUs across payloads and takes its records in order, without an error |
| Ingest.BytesToPairs | crates/precall-broker/src/ingest.rs:182-204 | From the encoded stream: exactly the sent frames complete, exactly the sent records arrive, and in a balanced order the k-th record is given the k-th frame |
| Ingest.StoreWhatWasSent | crates/precall-broker/src/ingest.rs:182-297 | From bytes in any chunks to objects: frames cut into payloads anywhere, interleaved with records in a balanced order; the k-th record stores exactly the k-th frame, a single JPEG region byte for byte under the JPEG extension |
| Ingest.ObjectsAreFrames | crates/precall-broker/src/ingest.rs:271-286 | A record's object is its own frame unless a later record has the same path |
| Ingest.BalancedSessionsStoreInOrder | crates/precall-broker/src/ingest.rs:272-286 | After a balanced session the k-th capture is stored with exactly the k-th completed frame |
| Sessions.EveryInterleaving | crates/precall-broker/src/ingest.rs:130-135 | Under every interleaving at most `max_clients` sessions are admitted, and the counter is the number of admitted and withdrawing tasks, so it never underflows |
| Sessions.InvStep | crates/precall-broker/src/ingest.rs:412-417 | Each atomic operation keeps this, and the counter is positive before each subtraction |
| Sessions.RefusedExactly | crates/precall-broker/src/ingest.rs:130-134 | After any interleaving, the next connection is refused if and only if the connections so far, less the withdrawals and closings so far, fill the limit |
| Sessions.RefusalWithAFreePlace | crates/precall-broker/src/ingest.rs:130-134 | A refusal still being undone can cost another client a free place |
| Ranking.SearchListsCapturesOnce | crates/precall-store/src/semantic.rs:175-218 | From a store with at most one embedding per capture, the complete ranking lists no capture twice, best first |
| Ranking.FilteredOneRow | crates/precall-store/src/semantic.rs:197-202 | The allow-list keeps that so |
| Ranking.SearchedIsWindow | crates/precall-api/src/routes.rs:333-343 | The candidates of the search that runs, with its filter and its pool, are exactly the first `pool` candidates of the complete ranking that the filter admits |
| Ranking.LegsAreWindows | crates/precall-api/src/routes.rs:301-343 | The lists that are fused, lexical and semantic, are the windows of the full lists, which are free of duplicates |
| Ranking.SearchTruncationBound | crates/precall-api/src/routes.rs:172-184 | The searches that run lower no fused score by more than n / (61 + pool) for n legs against searches without a cut, and raise none |
| Ranking.SemanticCandidates | crates/precall-api/src/routes.rs:197-214 | The loop returns the captures of the positive hits, each at its best rank |
| Ranking.CandidatesAreDistinct | crates/precall-api/src/routes.rs:191-211 | A leg's list is duplicate-free and holds exactly the captures with a hit of positive similarity |
| Ranking.WindowOfCandidates | crates/precall-api/src/routes.rs:340-343 | Cutting the hits to the pool cuts the candidates to the pool, and drops nothing else but hits without evidence |
| Ranking.FilteredCandidates | crates/precall-api/src/routes.rs:191-196 | Filtering before ranking gives the unfiltered candidates that pass the filter, in the same order |
| Ranking.ReciprocalRankFusion | crates/precall-api/src/routes.rs:243-251 | The loop lists exactly the captures of the legs, each with the sum of its per-leg weights |
| Ranking.LegScoreAt | crates/precall-api/src/routes.rs:246-247 | In a duplicate-free leg a capture at rank k contributes 1 / (61 + k), once |
| Ranking.FusionIgnoresLegOrder | crates/precall-api/src/routes.rs:238-251 | The order of the legs does not change a score |
| Ranking.FusionDominance | crates/precall-api/src/routes.rs:238-251 | A capture above another in every leg that lists the other scores strictly more |
| Ranking.FinalOrder | crates/precall-api/src/routes.rs:456-490 | The page is the `limit` best of the ranked hits, whatever order the hash map has: scores never rise, no lexical hit stands behind another kind at equal score, nothing newer behind something older at equal score and kind, and what is left out comes after all of it |
| Ranking.DominanceInResults | crates/precall-api/src/routes.rs:456-490 | A dominating capture comes before the one it dominates, and is on the page if the other is |
| Ranking.TruncationBound | crates/precall-api/src/routes.rs:172-184 | Fusing windows of `pool` lowers no score by more than n / (61 + pool) for n legs, and raises none |
| Ranking.PoolCoversPage | crates/precall-api/src/routes.rs:182-184 | For every requested limit, limit <= pool <= 500, and the limit is the one asked for if that is between 1 and 200 |
| Filters.CaptureIdsMatchingFilters | crates/precall-store/src/ukg.rs:441-482 | `None` exactly when no filter is set, otherwise exactly the captures in the time range that belong to a named application or path |
| Paging.Timeline | crates/precall-store/src/ukg.rs:300-332 | At most `limit` captures older than the cursor, newest first, one left out only behind a full page of captures at least as new |
| Paging.Export | crates/precall-api/src/routes.rs:638-662 | The loop ends on every table and returns the pages one after another |
| Paging.PagesCompleteExactly | crates/precall-api/src/routes.rs:640-645 | The pages hold every entry if and only if none ends inside a group of equal timestamps |
| Paging.ExportCompleteExactly | crates/precall-api/src/routes.rs:633-669 | The export is complete if and only if, besides, no timestamp is the largest possible |
| Paging.ExportMissesOnlyTies | crates/precall-api/src/routes.rs:640-645 | Whatever the table, the export holds captures only, newest first, and misses one below the largest timestamp only if it holds one of the same time |
| Paging.DistinctTimestampsExportAll | crates/precall-api/src/routes.rs:633-669 | With distinct timestamps below the maximum every capture comes exactly once, newest first |
| Calendar.CivilIsInverse | crates/precall-store/src/objects.rs:16-26 | Every day number gives a valid Gregorian date whose day count is that number |
| Calendar.CivilIsOnto | crates/precall-store/src/objects.rs:16-26 | Every valid date is reached, from its own day count |
| Calendar.CivilIsIncreasing | crates/precall-store/src/objects.rs:16-26 | Later days have strictly later dates |
| Calendar.CivilFollowsTheCalendar | crates/precall-store/src/objects.rs:16-26 | The day after a date is the calendar's next day |
| Calendar.CivilEpoch | crates/precall-store/src/objects.rs:17-17 | Day 0 is 1 January 1970 |
| Calendar.YearOfEraCorrect | crates/precall-store/src/objects.rs:20-22 | The closed formula finds the year of the era: the day falls within it, and on a 366th day only where a leap day ends it |
| Calendar.YmdIsTheDayOnlyAtTheEpoch | crates/precall-store/src/objects.rs:12-16 | With the divisor as coded, the date is that of the timestamp's day if and only if that day is day 0 or day -1 |

## Left out

- Runs.CrashesAreRecoverable: not claimed when a reply in the abandoned space is stored while a rebuild stands interrupted, nor for a stop between lowering the text flag and re-queueing, because it is false there except under the conditions of `Limits.OvertakenImageExactly`, `Limits.OvertakenTextExactly` and `Limits.FlagGapExactly`.
- Enrichment.Enricher.EnrichClient: the topic rows attached after a finished text leg and the statistics are not among the writes, because no queue, leg or search reads them.
- Enrichment.Enricher.TextStage: omits the attachment of topics after a finished text leg, for the same reason.
- Runs.StoresStayCoherent: takes the space an embedder reports for a vector as that vector's true space, because the embedder is outside the system.
- Starvation.NoStarvation: speaks of passes that reach their queues; how often passes start is the scheduler's business.
- Arrivals.ArrivalCommutes: covers captures inserted while a pass runs; a client wiped or purged while a pass runs is not modelled.
- Ingest.IngestSession.HandleMeta: a failing object write or capture insert, which ends the session in the middle of a batch, is not modelled; which characters are alphanumeric, and how a payload parses, are parameters.
- Ingest.IngestSession.Run: heartbeats, goodbyes and the effects of audio and control frames are left out; whether such a frame is handled without an error is a parameter.
- Statements that fail: the worker gives up the client, which in the model is a pass that stops before the statement.
- Two enrichment workers on one client at once: the service starts one.
- HTTP, TLS, sockets, the async runtime, the JSON handshake, authentication, the live WebSocket feed: I/O.
- A stream that ends inside a frame: reported by the framing library, not by the codec.
- The embedders, including their choice of outcome and their cosine numerics: replies are parameters, similarity is an arbitrary real-valued function, and there is no NaN.
- The storage format of vectors as 32-bit floats, region ids and metadata of embeddings: no modelled property depends on them.
- SQL text, FTS5, bm25 and `search_fts` with its own order of application parameters: the lexical leg of a search is an arbitrary list of captures.
- The `LastError` and `UpdatedAt` columns of image verdicts, the statistics counters and the log lines: nothing in a pass reads them.
- Dwell times, the audio channel, region texts in the export: easy members only.
- Encryption, hashing, key files and the filesystem: an object read is a JPEG, a raw frame only, missing, corrupt or unreadable.
- The merging of title and link metadata into search hits: ranking uses the capture id, the timestamp and the legs only.
- The windows, applications, files and web pages of a capture record: a record is its token and its time.
- Overflow of `ticks - DELTA` and of `now - backoff` in 64 bits: timestamps are far from the ends of the range.
- The client's own PDU writer, which lays out bytes differently from `GfxPdu::encode`: the model follows the shared encoder.
