# PQ-Shield protocol verification

PQ-Shield serves model predictions over channels protected by post-quantum cryptography, and measures
what that costs.  This project models the part of it that has to be right for the measurements and the
security claims to mean anything, and proves what that part promises.

* **The streaming signature protocol.**  A response is cut into chunks of tokens, each chunk is sealed,
  and the stream is signed in one of three ways: once at the end (`buffer_and_sign`), every chunk
  (`per_chunk`), or through a running hash with a signed checkpoint every k chunks and a signed terminal
  record (`hash_chain`).  Modelled are the token chunker, the server's strategies, the wire records, the
  verification functions, and the three clients that were written on top of them: the benchmark client,
  the client that attacks are replayed through, and the client of the live demo.
* **The attacks.**  The campaign's mutations of a captured stream, its bookkeeping, and the live demo's
  adversary that rewrites a stream record by record.
* **The session layer.**  The hybrid key exchange, the server's session cache, resumption over any
  interleaving of clients, the signed handshake transcript, and the concurrent load generator.
* **Measurement arithmetic.**  The link emulator, the closed-form cost and exposure models, Holm's
  adjustment, and the feeder of fixed randomness for known-answer tests.

## How it is modelled

Cryptography is a record of functions (`Primitives.Crypto`, `SecurePredict.Suite`, `KeyExchange.Kex`) with
stated laws; randomness is an argument.  Nothing is assumed about the hash: a theorem about the running
hash or a transcript either concludes that two inputs are the same, or names two different inputs with the
same hash (`Chain.FindCollision`).  Where a later theorem needs it, `Chain.CollisionFree` says that the
finitely many pairs which two given streams point at are no collisions.  Signatures are unforgeable in the
sense that whatever verifies was signed in this stream (`Messages.Unforgeable` over `Server.SignedLog`), and
only sealed pairs open (`Soundness.OnlySealedOpen`).  The laws about what must work (`Soundness.Correct`) speak
only of what the server did sign and seal.  All of the streaming assumptions can be met at once, for streams of any
length and whatever arrives instead of them: `Consistency.AssumptionsHoldTogether` constructs the functions.  The laws
of the session layer and of the identity key have their own constructions in `SessionConsistency`.

Code that changes state keeps that form: the server's strategy, the client's chain state, the live client, the
adversary, the chunker, the prediction server, the client session, the link, the connection pump and the
randomness feeder are classes whose methods are proved against functions of the history; the clients' record
loops, the campaign cell, the load generator and Holm's loop are methods with invariants.  Concurrency is a
state machine over the steps between two awaits, and every theorem about it is for every interleaving.

The theorems are layered.  `Acceptance` is an independent definition of what a client may accept.  The clients'
code is proved to decide exactly that; the server's code is proved to send exactly `Served` and `ServedFinal` and
to sign exactly `SignedLog`; and `Soundness`, `Replay`, `Campaign`, `LiveOutcome` and `EndToEnd` prove what acceptance means.

## What the proofs found

* Under `hash_chain` the benchmark client's `stream_fully_verified` alone does not notice stripped checkpoints; the
  three flags beside it do.  `Agreement.VerdictExact` says exactly what the verdict means,
  `Agreement.VerdictAloneMissesStripping` gives the stripped streams, and `Agreement.Compare` proves agreement of the
  three clients for the conjunction.
* The live demo's page shows the number that the rejected record carries, not its position in what arrived.  After a
  drop or a duplicate these always differ, after a reorder unless the pair lies strictly inside a checkpoint window:
  `LiveOutcome.ShownPlace` has the number for each attack and `LiveOutcome.NumberIsPosition` the exact condition.
* A signature flip of the live demo also hits the terminal record, except under `per_chunk`, even if its target index is
  past the end of the stream (`LiveOutcome.TamperedSignatureCaught`).
* The server caches a session's key before it has authenticated the payload, so a refused request can replace the cached
  key of an open handshake; `SecurePredict.RefusalReplacesKey` has the exact condition.
* The live demo's reorder attack on the last chunk is a drop: there is no next record that would release the one
  held back.  `Agreement.ReorderOfLastChunkIsDrop` has the exact condition.
* `--reuse-handshake` is documented (api/secure_app.py, lines 13-18) as one handshake for many calls, but a request
  without a session sends `keep_session = false` and the server forgets the handshake after it, so the second call
  gets a 404.  `SecurePredict.CachedHandshakeServesOnce` shows it, `SecurePredict.HandshakeReuse` gives the exact
  condition, and the model follows the code.
* The semaphore of the load generator never blocks, because there are as many permits as coroutines
  (`LoadGenerator.NeverBlocked`).
* The live demo's byte flip is described as the flip of one bit; the code inverts all eight bits of the byte, and
  so does the model.

## Model

| member | source | states |
|---|---|---|
| Bytes.BigEndianRoundTrip | crypto/streaming.py:102-103 | the 4-byte index encoding and its reading are inverse to each other, in both directions |
| Messages.LabelsSpell | crypto/streaming.py:98-114 | the domain and the role labels in clear, and the layout of the context's input |
| Messages.EncodeStarts | crypto/streaming.py:117-134 | every signed message starts with the label of its role and the session's context |
| Messages.DecodeEncode | crypto/streaming.py:117-134 | every signed message can be read back from its bytes, whatever its role |
| Messages.EncodeInjective | crypto/streaming.py:117-134 | no message of one role, session context, index or length is signed as the bytes of a different one |
| Messages.SessionsSeparated | crypto/streaming.py:106-108 | messages of two sessions never share their bytes, unless the two handshake ids collide under the hash |
| Messages.VerifiedIsLogged | crypto/streaming.py:117-134 | a message that verifies is one that the server signed, role and all |
| Chain.Preimage | crypto/streaming.py:111-114 | the genesis input has 35 bytes and every link's input at least 36, the difference that separates chains of different lengths |
| Chain.ChainBinding | crypto/streaming.py:247-250 | two chains of any lengths that end in the same hash are the same chain, or walking back finds two colliding inputs |
| Chain.ChainBindingAcross | crypto/streaming.py:106-114 | a chain value also fixes its session: no chain of one session, not even its genesis value, equals that of a chain of another session, or walking back names a collision |
| Server.SigningStrategy.AddChunk | crypto/streaming.py:171-273 | the rows returned so far are exactly the served stream of the plaintexts so far; buffer_and_sign returns none |
| Server.SigningStrategy.AddSigned | crypto/streaming.py:199-213 | a per-chunk row is the specified one for its position, and the log grows by its message only |
| Server.SigningStrategy.AddChained | crypto/streaming.py:247-272 | a hash-chain row is the specified one; the running hash and the counter since the last checkpoint stay those of the whole history |
| Server.SigningStrategy.Finalize | crypto/streaming.py:175-288 | the terminal record is that of the whole stream, and the key has then signed exactly the specified log |
| Server.ChunkLogStep | crypto/streaming.py:261-264 | each row adds exactly the one message its signature is on, and an unscheduled hash-chain row adds none |
| Server.ChainedRow | crypto/streaming.py:247-264 | one more row folds into the chain of all rows before it, and the checkpoint on it speaks of that chain |
| Verify.HashChainClientState.Absorb | crypto/streaming.py:328-332 | the client's running hash is the chain hash of everything absorbed, and the count its length |
| Verify.HashChainClientState.VerifyHashChainChunk | crypto/streaming.py:383-413 | a checkpoint is valid exactly if it verifies against the chain of everything absorbed, and missing exactly if the schedule asks for one that is not there |
| Verify.HashChainClientState.VerifyHashChainFinal | crypto/streaming.py:416-431 | a stream is fully verified exactly if hash, length and signature all match the client's own chain |
| Acceptance.RejectedAt | threats/streaming_mitm_experiment.py:129-181 | no rejection exactly for accepted streams; otherwise the first unacceptable row, or the stream's length for its end |
| Acceptance.FirstBad | threats/streaming_mitm_experiment.py:149-173 | all rows before it are acceptable, and it is not |
| Acceptance.CoveredBy | threats/streaming_mitm_experiment.py:165-175 | coverage ends at the last row before the position that carries a signature |
| Soundness.CheckpointSoundnessOrCollision | crypto/streaming.py:404-411 | a checkpoint that verifies proves that everything absorbed is the server's prefix of the same length, although it carries no count; or a collision is named |
| Soundness.CheckpointSoundness | crypto/streaming.py:404-411 | the same for streams whose chains do not collide: the prefix ends at a scheduled position |
| Soundness.TerminalSoundnessOrCollision | crypto/streaming.py:416-431 | an accepted terminal record proves length, indices and envelopes of the whole stream, with no index compared; or a collision is named |
| Soundness.PerChunkRowSoundness | crypto/streaming.py:354-369 | a row that passes signature, order and AEAD is the server's row for that position |
| Soundness.PerChunkPrefixSoundness | crypto/streaming.py:199-226 | every prefix that per_chunk has let through is already the server's own prefix |
| Soundness.AcceptedIsGenuine | crypto/streaming.py:354-431 | an accepted stream is the sent one in length, order, nonces and ciphertexts, whatever happened on the way |
| Soundness.BufferedSoundness | crypto/streaming.py:343-351 | an accepted buffered envelope is the one that was sent |
| Soundness.GenuineRowOk | crypto/streaming.py:354-413 | the server's own row at its own place is accepted and opens to its plaintext |
| Soundness.GenuineFinalOk | crypto/streaming.py:372-431 | the server's own terminal record is accepted after the server's rows |
| Consistency.AssumptionsHoldTogether | crypto/streaming.py:161-288 | for every strategy, all plaintexts, whatever links arrive and any length of signatures, one choice of functions meets every assumption of the streaming theorems at once, for every stream with those links |
| Consistency.CampaignAssumptionsHoldTogether | threats/streaming_attack_campaign.py:65-120 | in particular for every attack of the campaign, at every position, with any donor whose records were not sealed here |
| SessionConsistency.SessionsCanWork | crypto/hybrid_kex.py:90-129 | there is cryptography that meets the laws of the session layer, under which a ciphertext opens under its own key only |
| SessionConsistency.IdentityCanExist | crypto/handshake_auth.py:52-87 | there is an identity key, for any hash and handshakes, that verifies exactly their transcripts |
| Replay.ReplayThroughClient | threats/streaming_mitm_experiment.py:129-181 | the loop returns exactly the first rejected position and the coverage at that moment, with and without the enforced schedule |
| Replay.ReplayPerChunk | threats/streaming_mitm_experiment.py:149-161 | the per-chunk loop, with everything before the rejection covered |
| Replay.ReplayHashChain | threats/streaming_mitm_experiment.py:163-179 | the hash-chain loop, with coverage up to the last verified checkpoint |
| Replay.BoundedDetection | threats/streaming_mitm_experiment.py:163-179 | a stream that first differs at d, or ends there too early, is rejected by the end of d's checkpoint window, nothing from d on is ever covered, and fewer than k chunks are uncovered by then |
| Replay.BacklogBound | threats/streaming_mitm_experiment.py:139-144 | at any rejection, of any stream, fewer than k chunks are on display uncovered |
| Replay.ExactDetection | crypto/streaming.py:383-413 | after a genuine prefix the rejection is exactly at the first row that carries a signature, is due for one or does not open, else at the end |
| Replay.ExactDetectionPerChunk | crypto/streaming.py:354-369 | a changed per-chunk stream is rejected at the very row that differs |
| Replay.ExactTruncation | crypto/streaming.py:274-288 | a stream cut short is rejected exactly where it was cut |
| Replay.GenuineAccepted | threats/streaming_attack_campaign.py:125-127 | no genuine stream is rejected, by an enforcing or a non-enforcing client |
| Campaign.CheckpointPositions | threats/streaming_attack_campaign.py:61-62 | exactly the positions that carry a signature, the smallest one first |
| Campaign.ServedCheckpoints | crypto/streaming.py:261-271 | a served stream carries checkpoints at exactly the multiples of k |
| Campaign.DropCaught | threats/streaming_attack_campaign.py:76-78 | the exact position at which dropping any chunk is caught |
| Campaign.ReorderCaught | threats/streaming_attack_campaign.py:79-82 | the exact position at which swapping any two neighbours is caught |
| Campaign.DuplicateCaught | threats/streaming_attack_campaign.py:83-85 | the exact position at which repeating any chunk is caught |
| Campaign.ReplayCaught | threats/streaming_attack_campaign.py:86-89 | a foreign record is caught at its own position |
| Campaign.SessionReplayCaught | threats/streaming_attack_campaign.py:93-94 | a foreign stream, even an empty one, is caught at position 0 |
| Campaign.StripCaught | threats/streaming_attack_campaign.py:99-101 | stripping is caught at k - 1, the first missing checkpoint |
| Campaign.MoveCaught | threats/streaming_attack_campaign.py:103-108 | a moved checkpoint is caught where it is missing |
| Campaign.StripAcceptedWhenNotEnforced | threats/streaming_mitm_experiment.py:143-144 | a client that does not enforce the schedule accepts the stripped stream, for every k |
| Campaign.CampaignCaught | threats/streaming_attack_campaign.py:65-120 | every applicable attack, at every position, is caught at exactly the tabulated position |
| Campaign.CampaignExposure | threats/streaming_attack_campaign.py:148-157 | fewer than k attacker-influenced and fewer than k uncovered chunks are shown before the rejection |
| CampaignTable.MutationParts | threats/streaming_attack_campaign.py:65-73 | the first affected position is that: before it all records are the genuine ones, and at it they are not or one stream ends |
| CampaignTable.NothingForged | threats/streaming_attack_campaign.py:74-120 | every record that arrives comes from a capture, with its own signature, none or another captured one, and what becomes of the terminal record |
| CampaignTable.TrialShows | threats/streaming_attack_campaign.py:140-157 | for every attack, position, interval and length: the exact position of rejection, what is covered by then, how many records arrive and how many of them are genuine |
| CampaignRun.RunTrial | threats/streaming_attack_campaign.py:140-157 | a fair trial that applies shows exactly what the table says, within the bounds; and for the client that does not enforce the schedule the acceptance of the whole stripped stream |
| CampaignRun.FalseRejections | threats/streaming_attack_campaign.py:125-127 | the benign baseline is 0 |
| CampaignRun.RunCell | threats/streaming_attack_campaign.py:123-166 | a cell stops after enough applicable draws or with the last draw; everything is detected, and every entry of the exposure and unverified lists and the mid-stream count are those of the draws; without the schedule nothing is detected, and the whole length of each attacked stream is uncovered |
| Exposure.PeriodicCover | api/secure_streaming_client.py:81-86 | with a covering row every k rows, backlog and peak after any number of rows, in rows of any weight |
| Exposure.PeakOfScheduledRun | api/secure_streaming_client.py:244-246 | the peak over a whole covered run is one full window, or everything if the run is shorter |
| BenchClient.TallyMeans | api/secure_streaming_client.py:139-202 | what the client's running counters and flags mean after any rows, including the backlog and its peak |
| BenchClient.AddRow | api/secure_streaming_client.py:150-202 | the statement-by-statement accounting of a row is one step of the specified totals |
| BenchClient.RowMeans | api/secure_streaming_client.py:139-202 | field by field, what the client learns from a row: signature, AEAD, order, coverage, text and bytes |
| BenchClient.RunStreamingTransaction | api/secure_streaming_client.py:116-252 | verdict and flags hold together exactly for accepted streams; each flag by itself says which check every row has passed; under hash_chain the verdict alone is the terminal record's; every counter is specified |
| BenchClient.ReceivePerChunk | api/secure_streaming_client.py:139-166 | the per-chunk branch: counters, flags, exposure and text are those of the rows received |
| BenchClient.ReceiveHashChain | api/secure_streaming_client.py:168-202 | the hash-chain branch, with the terminal record covering the rest only if it verifies |
| BenchClient.ReceiveBuffered | api/secure_streaming_client.py:204-222 | the buffered branch: verified exactly if signature and AEAD pass |
| BenchClient.FlagsMean | api/secure_streaming_client.py:148-198 | the three flags together say that every row is acceptable |
| LiveDemo.LiveClient.CheckSigned | webapp/demo_transaction.py:268-279 | the reason for rejecting a per-chunk row is the check that it fails first: signature, AEAD, order |
| LiveDemo.LiveClient.CheckChained | webapp/demo_transaction.py:284-299 | the reason for rejecting a hash-chain row is the check that it fails first: AEAD, missing checkpoint, mismatching checkpoint; and it covers exactly with a valid one |
| LiveDemo.RowReason | webapp/demo_transaction.py:274-294 | each reason holds exactly for the rows that fail its check and none before it |
| LiveDemo.FinalReason | webapp/demo_transaction.py:309-336 | the same for the terminal record: its signature, and count, chain or AEAD behind a valid signature |
| LiveDemo.LiveClient.CountRow | webapp/demo_transaction.py:301-308 | the rows shown uncovered, and the most there have been, are those of the whole history; everything counts as covered only without a failure |
| LiveDemo.LiveClient.ProcessChunk | webapp/demo_transaction.py:261-308 | the latched reason and place are those of the first bad row of everything processed, and the covered event comes exactly with a checkpoint valid for all of it and no failure |
| LiveDemo.LiveClient.ProcessFinal | webapp/demo_transaction.py:309-343 | a stream ends without failure exactly if it is accepted, and the page shows the place of the first rejection |
| LiveDemo.CoveredIsGenuine | webapp/demo_transaction.py:305-308 | whenever the page marks the chunks so far as covered, they are the chunks the server sent |
| LiveDemo.PageExposure | webapp/demo_transaction.py:301-308 | as long as nothing has failed, fewer than k rows are uncovered after each row, and never more than k before |
| LiveOutcome.GenuinePage | webapp/demo_transaction.py:301-308 | on a genuine stream exactly: p mod k rows are uncovered after p rows, and the most there have been is min(k, p) |
| OnlineAttack.FlipMiddleByte | webapp/demo_transaction.py:158-168 | exactly the middle byte changes, and all its bits do |
| OnlineAttack.TamperTouches | webapp/demo_transaction.py:362-366 | a flip touches one byte of the named field, in the target record and, where that is flipped too, in the terminal record, and nothing else |
| OnlineAttack.Adversary.OnChunk | webapp/demo_transaction.py:356-386 | with at most one held record, what has been let through is always the whole-list mutation of what has been seen |
| OnlineAttack.Adversary.OnFinal | webapp/demo_transaction.py:362-380 | what becomes of the terminal record |
| OnlineAttack.RunStreamingTransactionLive | webapp/demo_transaction.py:345-392 | for every attack and position, the page ends without failure exactly if the mutated list is accepted, and shows where it is first rejected |
| Agreement.Compare | threats/streaming_mitm_experiment.py:129-132 | for every record sequence the three clients agree, in the verdict and in the place of rejection |
| Agreement.ReceiveLive | webapp/demo_transaction.py:261-392 | the live client on any record sequence accepts exactly what is acceptable |
| Agreement.VerdictExact | crypto/streaming.py:416-431 | with the genuine terminal record the hash-chain verdict alone is true if and only if the stream has the sent indices and envelopes |
| Agreement.VerdictAloneMissesStripping | api/secure_streaming_client.py:229-236 | so it is true for every stripped genuine stream, which the other clients reject at k - 1 |
| Agreement.OnlineRefinesCampaign | webapp/demo_transaction.py:358-386 | the record-by-record attacks are the campaign's whole-list attacks, wherever the campaign can place them |
| Agreement.ReorderOfLastChunkIsDrop | webapp/demo_transaction.py:371-376 | a live reorder is a drop exactly at the last chunk |
| LiveOutcome.LiveAttackCaught | webapp/demo_transaction.py:345-392 | every rearranging attack within reach of a genuine stream is rejected at the campaign's position, and the page shows the number of the record that arrives there, the end, or nothing if the stream was cut |
| LiveOutcome.ShownPlace | webapp/demo_transaction.py:256-259 | which number that is: one more than the position after a drop, one less after a duplicate, the partner's within a swapped pair |
| LiveOutcome.NumberIsPosition | webapp/demo_transaction.py:256-259 | when the number is the position: never after a drop or duplicate, always after a cut or stripping, and after a reorder exactly if the pair lies inside a checkpoint window |
| LiveOutcome.IdleAccepted | webapp/demo_transaction.py:358-386 | a rearrangement or a ciphertext flip past the end, a stripping without checkpoints, and under per_chunk a signature flip past the end change nothing, and nothing is rejected |
| LiveOutcome.TamperedCiphertextCaught | webapp/demo_transaction.py:362-363 | a flipped ciphertext is rejected at the first record from there on that is signed, due or does not open: at the flipped record itself unless it still opens |
| LiveOutcome.TamperedSignatureCaught | webapp/demo_transaction.py:364-366 | for every strategy and index, also past the end: a flipped signature is rejected if and only if it does not verify, at its record or, except under per_chunk, at the terminal record, which is flipped too |
| LiveOutcome.BufferedAttackCaught | webapp/demo_transaction.py:362-380 | a buffered response with a flipped ciphertext is rejected at its end, and one that is cut off leaves no place to show |
| Chunker.Generator.FlushBuffer | api/secure_app.py:261-271 | the waiting tokens become exactly one chunk, or none if there are none, and the index counts the chunks |
| Chunker.Generator.AddToken | api/secure_app.py:273-278 | a token waits until its chunk is full, then the chunk goes out |
| Chunker.SendTokens | api/secure_app.py:273-282 | all tokens go out, in groups of the chunk size in order, the last group possibly smaller |
| Chunker.EventGenerator | api/secure_app.py:256-286 | the records of a response are the served stream of the encoded groups, and its terminal record |
| Chunker.GroupCount | api/secure_app.py:273-282 | T tokens in chunks of c make ceil(T / c) chunks |
| Chunker.PlaintextsJoin | api/secure_app.py:261-267 | the chunk plaintexts concatenate to the encoding of all tokens joined |
| Chunker.TokenInPlace | api/secure_app.py:265 | joining puts every token, whole, between those before and after it |
| Chunker.CharacterInPlace | api/secure_app.py:267 | encoding puts the code of every character between those before and after it |
| Chunker.DeliveredInPlace | api/secure_app.py:265-267 | so in the delivered bytes every token stands whole and in its place |
| Chunker.ChunkSize | api/secure_app.py:234 | the requested chunk size, or 1 where less is requested |
| Chunker.GroupSizes | api/secure_app.py:273-282 | all chunks but the last have c tokens, and together they have all |
| EndToEnd.Respond | api/secure_app.py:256-289 | chunker, server and benchmark client together deliver exactly the text, with every flag up, and with signature count, signature bytes and exposure of the closed forms |
| EndToEnd.ReceiveThroughAdversary | api/secure_streaming_client.py:129-256 | whatever has been done to a response on its way, a clean report means that the client has put together exactly the encoding of all tokens |
| EndToEnd.AcceptedTexts | crypto/streaming.py:335-413 | an accepted stream opens, row by row, to the plaintexts that were sent |
| EndToEnd.GenuineSignedRows | analysis/streaming_model_validation.py:251-262 | the closed-form signature count is exact after any number of chunks |
| EndToEnd.GenuineTotalBytes | analysis/streaming_model_validation.py:265-273 | the signature bytes of a whole stream lie within the closed-form bounds |
| EndToEnd.BytesByName | analysis/streaming_model_validation.py:265-273 | 3309 bytes a signature for ML-DSA-65, 70 to 72 for ECDSA P-256, and an error for other names |
| EndToEnd.GenuineUnverified | api/secure_streaming_client.py:69-75 | peak exposure in chunks: 0, 1 at most, or min(n, k) |
| EndToEnd.GenuineExposure | api/secure_streaming_client.py:81-86 | peak exposure of a hash chain, in chunks or in tokens |
| EndToEnd.AnalyticModelExact | webapp/findings.py:122-128 | the dashboard's analytic model is exact: signatures, bytes and min(k c, T) tokens of exposure |
| KeyExchange.KeyAgreement | crypto/hybrid_kex.py:90-129 | client and server cut the concatenated shares in the same places and derive the same key, from the ML-KEM secret followed by the X25519 secret |
| KeyExchange.WrongLengthsRefused | crypto/hybrid_kex.py:90-95 | exactly the shares of another length are refused, on both sides |
| SecurePredict.SecureServer.HandlePredict | api/secure_app.py:112-160 | responses, error codes and both maps are those of the specified request function, on every path |
| SecurePredict.ClientSession.Post | api/secure_client.py:118-183 | one request updates session and server as specified, and reports the AEAD check before the signature |
| SecurePredict.ClientSession.Transact | api/secure_client.py:97-183 | a resumed request reuses the key, a cached handshake skips the GET, anything else asks for a new handshake |
| SecurePredict.RequestCarries | api/secure_client.py:118-149 | an exchange goes exactly with the first request of a session, the wish to be remembered with all but the last, and the body sealed under the session's key |
| SecurePredict.NewHandshakeOnlyWhereNeeded | api/secure_client.py:97-106 | a resumed or cached transaction asks for no new handshake, and a resumed one does not look at the cached one |
| SecurePredict.ReportOfResponse | api/secure_client.py:165-189 | for any response, whoever made it: the plaintext of what opens under the session's key, and a valid signature exactly if it verifies under the session's own handshake |
| SecurePredict.ValidIsAnswered | api/secure_client.py:173-186 | a result with a valid signature is an answer that this server signed under this handshake, nonce and ciphertext |
| SecurePredict.RefusalsExact | api/secure_app.py:122-146 | which requests get a 404, a 400 for a wrong length or a payload that does not open, or a 500 |
| SecurePredict.RequestAnswered | api/secure_app.py:133-160 | a request of a known session with an answerable body gets the prediction and a valid signature, and the server keeps the key exactly while there are requests left |
| SecurePredict.AnyRequest | api/secure_app.py:122-160 | any request at all, well-formed or not: other ids are untouched, cached ids stay within open handshakes, an internal error is always the model's and never a missing signing key, and a refusal changes at most the cached key of a completed exchange |
| SecurePredict.RefusalReplacesKey | api/secure_app.py:122-141 | a refused request changes the server if and only if it asks to keep the session and brings an acceptable blob that makes another key than the cached one, which it then replaces |
| SecurePredict.StaysForgotten | crypto/hybrid_kex.py:107-108 | no requests and no handshakes of others bring it back |
| SecurePredict.HandshakeReuse | api/secure_app.py:13-18 | a further exchange on a handshake is accepted if and only if the answered request asked to keep the session |
| SecurePredict.CachedHandshakeServesOnce | bench/runner.py:183-186 | the transaction after an answered one on a cached handshake is an error |
| SessionSystem.PostAnswered | api/secure_client.py:131-135 | in every reachable state, whoever may post an answerable body is answered correctly |
| SessionSystem.PostUnanswered | api/secure_app.py:145-146 | a body that cannot be answered is an error and touches only the client's own entries |
| SessionSystem.OthersIntact | api/secure_app.py:158-160 | a step on one session leaves all others intact |
| SessionSystem.StepKeeps | api/secure_app.py:112-160 | every step of every client keeps the invariant that ties sessions to the two maps |
| SessionSystem.EveryRun | api/secure_client.py:38-50 | over every interleaving, also with clients that drop out or get errors: one key exchange a session, every answerable request answered, a live client's key is the cached one, cached ids stay within open handshakes, and both are gone after the last request |
| SessionSystem.NothingLeftBehind | api/secure_app.py:158-160 | once all sessions are through, both maps are empty |
| LoadGenerator.TransactKeeps | bench/runner.py:203-213 | the account of a coroutine, m requests for each exchange up to what failures spoil, survives every transaction |
| LoadGenerator.FreshAfterFailure | bench/runner.py:203-213 | after a failure the next transaction makes its own key exchange, after an answer the session goes on |
| LoadGenerator.StepKeeps | bench/runner.py:193-215 | every step keeps the invariant and leaves exactly one step less |
| LoadGenerator.RowsAppended | bench/runner.py:215 | rows are only appended, each with the index its coroutine held |
| LoadGenerator.NeverBlocked | bench/runner.py:171-199 | the semaphore never keeps a coroutine waiting |
| LoadGenerator.EveryRun | bench/runner.py:188-218 | over all interleavings: at most `concurrency` in flight, every index at most once, progress, and exactly 3 steps a request and one a coroutine in a complete run |
| LoadGenerator.TotalExchanges | bench/runner.py:189-204 | without failures a cell makes at least n / m exchanges and less than one more for each coroutine |
| LoadGenerator.RunSweepCell | bench/runner.py:152-220 | under every scheduling and every pattern of failures the cell ends, each index is recorded exactly once, and a coroutine without failures makes ceil(served / m) exchanges |
| NetemProxy.Link.ReleaseTime | bench/netem_proxy.py:49-53 | the link's state is the recurrence over all calls so far; on an idle link the release is arrival, 8 n / bw seconds and the delay; it is never earlier |
| NetemProxy.MaxPlusForm | bench/netem_proxy.py:49-53 | the recurrence is the largest of arrival plus service since then, over all calls |
| NetemProxy.MaxPlusFormFromClock | bench/netem_proxy.py:47-51 | on a clock that starts at 0 it is exactly one of these |
| NetemProxy.ReleasesSeparated | bench/netem_proxy.py:49-53 | releases are FIFO over all connections, and apart by the service time of everything between them |
| NetemProxy.BandwidthRespected | bench/netem_proxy.py:51-52 | two releases lie at least the serialisation time of all bytes between them apart |
| NetemProxy.BandwidthInBits | bench/netem_proxy.py:52 | between two releases no more than bw bits a second go over the link, and exactly that while it stays busy |
| NetemProxy.NoBottleneck | bench/netem_proxy.py:52 | without a bandwidth every call is released on arrival, after the delay alone |
| NetemProxy.Pump.OnRead | bench/netem_proxy.py:56-79 | what is read is queued with its release time, behind everything before it |
| NetemProxy.Pump.OnDeliver | bench/netem_proxy.py:59-68 | what has been written is always a prefix of what has been read, and nothing is written before its time |
| NetemProxy.ReadShared | bench/netem_proxy.py:41-47 | connections that share a link: what one reads leaves the order and the contents of all others intact |
| Holm.RunningIsMax | analysis/paper_figures.py:408-411 | the running value is the largest scaled p-value so far |
| Holm.Adjust | analysis/paper_figures.py:405-413 | the loop fills every place with its running maximum, cut off at 1 |
| Holm.AdjustedDecides | analysis/paper_figures.py:405-413 | for alpha below 1 an adjusted value is at most alpha exactly if the step-down procedure rejects |
| Holm.AdjustedRange | analysis/paper_figures.py:410-412 | adjusted values lie between the p-value and 1 |
| Holm.AdjustmentMonotone | analysis/paper_figures.py:405-413 | a hypothesis with no larger p-value gets no larger an adjusted value |
| Holm.TiesDoNotMatter | analysis/paper_figures.py:406-413 | however ties are broken, the result is the same |
| Transcript.SerializeRoundTrip | crypto/handshake_auth.py:34-45 | a serialized transcript is read back in all five fields |
| Transcript.ParsedIsSerialized | crypto/handshake_auth.py:34-45 | nothing but a serialized transcript is read |
| Transcript.DomainSpells | crypto/handshake_auth.py:30 | the domain in clear |
| Transcript.AcceptedVerifies | crypto/handshake_auth.py:90-99 | a missing signature fails, and any other is accepted exactly if it verifies for the transcript of these fields |
| Transcript.TranscriptBinding | crypto/handshake_auth.py:38-45 | equal transcripts mean equal handshakes, or two named inputs collide |
| Transcript.AcceptedIsMade | crypto/handshake_auth.py:90-99 | an accepted handshake is one that the server made, in all five fields, or a collision is named |
| Transcript.ExactlyTheMade | crypto/handshake_auth.py:90-99 | without a collision exactly the made handshakes can pass, whatever signature is offered |
| FixedRandomness.Feeder.Draw | crypto/oqs_adapter.py:276-281 | a draw fills exactly its part of the buffer with the next bytes |
| FixedRandomness.Feeder.Exit | crypto/oqs_adapter.py:288-292 | leaving raises exactly if what was copied out is not the data |
| FixedRandomness.DeliveredShape | crypto/oqs_adapter.py:276-281 | any draws get the data in order without gap or repetition, and zeros only past its end |
| FixedRandomness.DeliveredIsData | crypto/oqs_adapter.py:290-291 | the draws got precisely the data if and only if their sizes add up |

## Left out

- Cryptographic algorithms: SHA-256, AES-GCM, HKDF, ML-KEM, ML-DSA, ECDSA, RSA and X25519 are functions with the laws above; of the key exchanges only the hybrid one is modelled, and the error that X25519 raises for degenerate public keys is not.
- HTTP, server-sent events, base64, JSON, process management: requests are atomic steps, streams are sequences of records.  A missing or undecodable field, which makes the clients end with an error, is not modelled.
- Timing, CPU time and every other measured quantity: only counts, bytes and exposure are modelled.
- Indices and lengths from 2^32 on: `to_bytes(4)` and `struct.pack` raise an error there; the streaming model is stated below that bound, and `Transcript.VerifyHandshake` returns None for it.
- An empty signature field stands for an absent one, as the truth tests of the code treat it; the `signature_bytes` field of a record is taken to be the length of its signature.
- A negative checkpoint interval, which the server would treat as 1, and `verify_hash_chain_chunk` without a verification key.
- Records after the terminal record and terminal records of another strategy than the requested one.
- The three strategy classes of the server are one class with a strategy field; what the signer draws at random is indexed by the chunk it works on.
- Text encoding works character by character, as UTF-8 does; which code points fail to encode is not modelled.
- The random generator of the campaign: positions and donors are arbitrary values within the ranges it draws from, and a donor's records are assumed not to open under the victim's key.
- `expected_signature_count` for rows of protocol v1, and the fixed positions of the older `_mutate` in threats/streaming_mitm_experiment.py, which are instances of the campaign's.
- Control transactions and the fields of a result row in the load generator; a transaction has the outcomes answered, failed before the key exchange, and failed later.
- The forgetting of a handshake at the end of a stream, and the live demo's counters of signatures and their bytes.
- Requests of other parties on somebody else's handshake id, and one id used for both `/secure/predict` and `/secure/predict/stream`.
- The pinned-identity check inside `secure_predict_transaction`: it is modelled on its own, in `Transcript`.
- Floating point: the link emulator and Holm's adjustment are over the reals; NaN p-values are not modelled.
- Bootstrap and other statistics, figures, tables, dominance and trade-off scores, summaries, the web views, model profiles, generation backends and the superseded single-purpose modules: presentation, or claims that are easy beside these.
- Parsing of a request body and evaluation of the model are one function that may fail; which bodies fail is not modelled.
- SessionSystem.EveryRun: states the guarantees for clients that have not dropped out; what the server keeps for those that have is not bounded, as in the code.
