# Verified models of the SSOS firmware and its ParetoQ tools

Each module models one part of the repository and proves what that part is for. `dafny verify
dfyconfig.toml` checks all of them.

- **Two-board decode** (`Network`, `Decoder`, `Pipeline`, `Boards`, `Handshake`, `PairLink`). A
  transformer step with its key and value caches, split between a master and a worker that share one
  transmit buffer and a READY line, with two contexts in turn. The result is refinement: the split,
  interleaved run gives the tokens of two independent greedy decodes on a network without caches, once
  for the master's loop over a link with faults and once for the two boards as processes. Floating-point
  operations are parameters, so this holds bit for bit.
- **Tokenizer, quantiser, sampler** (`Tokenizer`, `QuantMatmul`, `TopP`). UTF-8 segmentation with byte
  fallback and greedy merging in place, with the round trip through decoding; group quantisation and
  the integer product, with its error bound; nucleus sampling with its early crop.
- **ParetoQ from pack to product** (`Packers`, `ShardFile`, `ParetoExport`, `ParetoMatvec`,
  `ParetoAlignment`, `ParetoLayer`, `ExportedLayer`, `Bfloat`). A matrix is packed to 2-bit codes and two
  row scales, written into a file, located, and multiplied directly or through a lookup table; then a
  whole layer in its regular and its fast form, over caches of bfloat16 words, which is the transformer
  layer of the seven matrices that were exported.
- **Packet controller** (`Packets`, `PacketText`, `PacketLines`, `SerialLine`, `Kernel`, `Device`,
  `Tape`, `SeededTape`, `Counterexamples`, `LineLaws`, `CoordLaws`, `CommandLaws`, `ModelLaws`,
  `Controller`). The 32-slot bank, the model cache that must agree with rows in the bank, saving, loading
  and resets, and the DUMP tape that installs another controller; then, on literal words, ids and numbers,
  what every line asks for, what every command does, and what the model answers.
- **Frame checksum** (`Fnv`, `ClusterFrame`). FNV-1a modulo 2^32 over a packed cluster packet.

`Products`, `Reals`, `Sequences` and `Options` hold what several modules use.

What the code promises only under a condition is stated with the exact condition:

- A packet id of more than 39 characters is stored cut and no longer found (`Packets.SentIsFound`).
- An update by id never looks at the coordinate, so two packets can share one (`Packets.PutKeepsCoords`,
  with the packets of `Counterexamples.UpdateMovesOnto`).
- `docs/PROTOCOL.md` says that changing any model packet invalidates the model cache. The code does not
  clear it when another packet takes a model row's slot by coordinate; `Kernel.ApplyCoherent` says that
  this is the only way the cache can go stale, and `Counterexamples.CacheGoesStale` is a run in which it
  does.
- A DUMP tape restores a bank exactly when coordinates are distinct, printed lines fit 239 characters and
  no body ends in a blank (`Tape.DumpReplays`); into a controller that has just booted, exactly when the
  first two records also take the places of the two seed packets (`SeededTape.DumpReplaysAfterBoot`).
- The 2-bit packer runs on over row ends and the board starts rows on whole bytes; the two agree exactly
  for one row or a multiple of four columns (`ParetoAlignment.ExactIffAligned`).
- The early crop of nucleus sampling is safe exactly for topp of at least 1/n (`TopP.CropIsSafeIff`).
- A run of the pipeline is safe exactly when it finds the worker listening (`Handshake.SafeIffListening`);
  a run that timed out on a missed pulse leaves a worker behind that is not
  (`Handshake.TimedOutRunIsUnsafe`).
- Behind the exporter's two checks every vocabulary id has exactly one node if and only if no count is
  negative, which the checks do not look at (`ShardFile.OwnedOnceIff`, with the ranges of
  `ShardFile.NegativeCountOverlaps`).

## Model

| member | source | states |
|---|---|---|
| `Boards.RunPair` | benchmarks/quark-v2-0.5m-pair-pipeline/firmware/quark_pair_pipeline/quark_pair_pipeline.ino:189-247 | whatever the caches held before and whatever the link does (lose, delay or garble a transfer, or report success when no worker was listening), either output is a prefix of greedy decoding of its own prompt on the unsplit, cache-free network, whose layers are pinned entry by entry in `Network.ActivationIs`; when the run ends normally, and always on a clean link, both outputs are those decodes in full; the caches are fit for another run without a reset |
| `Boards.PairIsValid` | benchmarks/quark-v2-0.5m-pair-pipeline/firmware/quark_pair_pipeline/quark_pair_pipeline.ino:122-135 | from caches in any state the decoder on two boards is a pair to which the theorem on interleaved runs applies, with the same two greedy decodes |
| `Boards.DecoderRealizes` | benchmarks/quark-v2-0.5m-pair-pipeline/firmware/quark_pair_pipeline/quark_pair_pipeline.ino:122-135 | the two calls of the decoder, layers 0-2 on the master and 2-4 on the worker, hand over the activation and choose the token of the unsplit network, from caches in any state |
| `Boards.FrontRealizes` | benchmarks/quark-v2-0.5m-pair-pipeline/firmware/quark_pair_pipeline/quark_pair_pipeline.ino:124-125 | the master's half computes the activation behind its layers and brings its half of the cache up to date |
| `Boards.BackRealizes` | benchmarks/quark-v2-0.5m-pair-pipeline/firmware/quark_pair_pipeline/quark_pair_pipeline.ino:304-312 | the worker's half, given that activation, chooses the token of the unsplit network and brings its half of the cache up to date |
| `Boards.NextIsUnsplit` | benchmarks/quark-v2-0.5m-pair-pipeline/firmware/quark_esp32/quark_runtime.c:566-569 | the reference token is the arg-max of the logits of an unsplit decoder that was fed the same tokens with any cache |
| `Boards.ArgmaxIsFirstMaximum` | benchmarks/quark-v2-0.5m-pair-pipeline/firmware/quark_pair_pipeline/quark_pair_pipeline.ino:59-65 | on values without NaN the chosen index holds a greatest value and every earlier value is smaller |
| `Boards.ArgmaxScan` | benchmarks/quark-v2-0.5m-pair-pipeline/firmware/quark_pair_pipeline/quark_pair_pipeline.ino:59-65 | the loop returns that index |
| `Pipeline.Master.RunPipeline` | benchmarks/quark-v2-0.5m-pair-pipeline/firmware/quark_pair_pipeline/quark_pair_pipeline.ino:189-247 | a run of two prompts on a link with any faults: outputs are prefixes of the decodes at every return and complete at a normal one; the frames dispatched follow the schedule, and a finished run dispatched total_steps(0) + total_steps(1) of them |
| `Pipeline.Master.Run` | benchmarks/quark-v2-0.5m-pair-pipeline/firmware/quark_pair_pipeline/quark_pair_pipeline.ino:196-247 | the same for two given fresh streams |
| `Pipeline.Master.Drive` | benchmarks/quark-v2-0.5m-pair-pipeline/firmware/quark_pair_pipeline/quark_pair_pipeline.ino:205-247 | the loop ends, normally only when both streams are done, and otherwise only after a fault of the link |
| `Pipeline.Master.Round` | benchmarks/quark-v2-0.5m-pair-pipeline/firmware/quark_pair_pipeline/quark_pair_pipeline.ino:205-247 | one turn leads from loop head to loop head, one dispatch later on the schedule |
| `Pipeline.Master.Step` | benchmarks/quark-v2-0.5m-pair-pipeline/firmware/quark_pair_pipeline/quark_pair_pipeline.ino:205-247 | the turn for a stream in flight: the loop-head invariant, the schedule and both decodes are kept; a finished turn has used the whole schedule |
| `Pipeline.Master.Proceed` | benchmarks/quark-v2-0.5m-pair-pipeline/firmware/quark_pair_pipeline/quark_pair_pipeline.ino:220-246 | the stream that goes next is the other one exactly while it is active; the third branch of the choice is dead; the frame sent is that stream's own |
| `Pipeline.Master.Prepare` | benchmarks/quark-v2-0.5m-pair-pipeline/firmware/quark_pair_pipeline/quark_pair_pipeline.ino:122-135 | the transmit buffer holds exactly this stream's frame: id, position, position + 1, token and its activation; only this stream's cache changes |
| `Pipeline.Master.Dispatch` | benchmarks/quark-v2-0.5m-pair-pipeline/firmware/quark_pair_pipeline/quark_pair_pipeline.ino:137-146 | a frame that is received is served by the worker on the cache of its stream; one that is not, even when success is reported, changes neither caches nor the pending answer; the prepared flag falls exactly when success is reported |
| `Pipeline.Master.Collect` | benchmarks/quark-v2-0.5m-pair-pipeline/firmware/quark_pair_pipeline/quark_pair_pipeline.ino:148-171 | a reply is accepted only when the request was answered, and on a clean link always then; it advances the stream by one position, forced within the prompt and by the worker's token behind it; a rejected one leaves the stream as it was |
| `Pipeline.Worker.Compute` | benchmarks/quark-v2-0.5m-pair-pipeline/firmware/quark_pair_pipeline/quark_pair_pipeline.ino:302-313 | the worker answers with magic, sequence and stream of the request and the token of its half, and changes the cache of that stream only |
| `Pipeline.PrepareKeeps` | benchmarks/quark-v2-0.5m-pair-pipeline/firmware/quark_pair_pipeline/quark_pair_pipeline.ino:122-135 | preparing an idle stream puts its activation of the decode into the frame |
| `Pipeline.DispatchKeeps` | benchmarks/quark-v2-0.5m-pair-pipeline/firmware/quark_pair_pipeline/quark_pair_pipeline.ino:137-146 | serving that frame yields the next token of the decode |
| `Pipeline.CollectKeeps` | benchmarks/quark-v2-0.5m-pair-pipeline/firmware/quark_pair_pipeline/quark_pair_pipeline.ino:160-170 | collecting that reply brings the stream one position further on its decode, with room left in generated[] |
| `Pipeline.OutputIsDecode` | benchmarks/quark-v2-0.5m-pair-pipeline/firmware/quark_pair_pipeline/quark_pair_pipeline.ino:161-167 | what a stream has generated is a prefix of greedy decoding, and all of it at the last position |
| `Pipeline.FeedingDecodes` | benchmarks/quark-v2-0.5m-pair-pipeline/firmware/quark_pair_pipeline/quark_pair_pipeline.ino:114-120 | feeding prompt and generated tokens position by position is greedy decoding of the prompt |
| `Pipeline.ScheduleIsExact` | benchmarks/quark-v2-0.5m-pair-pipeline/firmware/quark_pair_pipeline/quark_pair_pipeline.ino:205-247 | every (stream, position) pair of either stream is dispatched exactly once |
| `Pipeline.ScheduleAlternates` | benchmarks/quark-v2-0.5m-pair-pipeline/firmware/quark_pair_pipeline/quark_pair_pipeline.ino:205-247 | while both streams are active they take turns and stream 0 is at most one position ahead |
| `Pipeline.ScheduleStep` | benchmarks/quark-v2-0.5m-pair-pipeline/firmware/quark_pair_pipeline/quark_pair_pipeline.ino:220-246 | whose turn comes next, and that a stream that is done stays done |
| `Pipeline.SlotTaken` | benchmarks/quark-v2-0.5m-pair-pipeline/firmware/quark_pair_pipeline/quark_pair_pipeline.ino:205-247 | the stream in flight after k dispatches is the one of slot k - 1, and k never exceeds the sum of the steps |
| `Handshake.TransfersMatch` | benchmarks/quark-v2-0.5m-pair-pipeline/firmware/quark_pair_pipeline/quark_pair_pipeline.ino:137-155 | under every interleaving a request meets a worker set up to receive with all earlier requests answered, a reply one set up to respond with exactly one open, replies alternate with requests and answer their own request |
| `Handshake.RunKeepsInv` | benchmarks/quark-v2-0.5m-pair-pipeline/firmware/quark_pair_pipeline/quark_pair_pipeline.ino:288-323 | the link invariant holds after every interleaving of a run that finds the worker listening |
| `Handshake.StepKeepsInv` | benchmarks/quark-v2-0.5m-pair-pipeline/firmware/quark_pair_pipeline/quark_pair_pipeline.ino:288-323 | every single step of either process keeps it |
| `Handshake.MissedPulseOnlyTimesOut` | benchmarks/quark-v2-0.5m-pair-pipeline/firmware/quark_pair_pipeline/quark_pair_pipeline.ino:97-104 | a master that missed the low pulse stays where it is or times out; nothing else can happen |
| `Handshake.SafeIffListening` | benchmarks/quark-v2-0.5m-pair-pipeline/firmware/quark_pair_pipeline/quark_pair_pipeline.ino:97-155 | a run can meet a worker that is not set up for its transfer if and only if the worker is not listening when the run starts |
| `Handshake.TimedOutRunIsUnsafe` | benchmarks/quark-v2-0.5m-pair-pipeline/firmware/quark_pair_pipeline/quark_pair_pipeline.ino:137-155 | a missed pulse does come up: a worker that answers before the master looks again leaves the master nothing but a time-out, and the run after it starts with a worker about to respond and is not safe |
| `PairLink.InterleavedRunDecodes` | benchmarks/quark-v2-0.5m-pair-pipeline/firmware/quark_pair_pipeline/quark_pair_pipeline.ino:97-171 | the handshake and the two programs together: under every interleaving of the two boards in which the master asks as its program does, no transfer is mismatched, every reply fetched is the unsplit network's, and both outputs are greedy decodes, whole when every request is answered |
| `PairLink.ExchangeDecodes` | benchmarks/quark-v2-0.5m-pair-pipeline/firmware/quark_pair_pipeline/quark_pair_pipeline.ino:205-247 | the same for any channel over which questions and answers alternate |
| `PairLink.FrameIsTrue` | benchmarks/quark-v2-0.5m-pair-pipeline/firmware/quark_pair_pipeline/quark_pair_pipeline.ino:122-135 | after right replies the master's next frame is the right one: stream, position, token and activation |
| `PairLink.ServingIsTrue` | benchmarks/quark-v2-0.5m-pair-pipeline/firmware/quark_pair_pipeline/quark_pair_pipeline.ino:302-313 | asked the right frames in schedule order, the worker gives the unsplit network's token for the last of them |
| `PairLink.CollectedIsDecode` | benchmarks/quark-v2-0.5m-pair-pipeline/firmware/quark_pair_pipeline/quark_pair_pipeline.ino:160-170 | what a stream takes from right replies is its greedy decode as far as it goes |
| `PairLink.ServeOnBoard` | benchmarks/quark-v2-0.5m-pair-pipeline/firmware/quark_pair_pipeline/quark_pair_pipeline.ino:302-313 | the worker's in-place computation is the service of the handshake |
| `Network.SplitEqualsWhole` | benchmarks/quark-v2-0.5m-pair-pipeline/firmware/quark_esp32/quark_runtime.c:411-569 | for every cut and every content of the three caches, two decoders that pass only x give the logits of one |
| `Network.SplitComputesNetwork` | benchmarks/quark-v2-0.5m-pair-pipeline/firmware/quark_esp32/quark_runtime.c:411-564 | the split decoders compute the cache-free network at every position |
| `Network.WholeComputesNetwork` | benchmarks/quark-v2-0.5m-pair-pipeline/firmware/quark_esp32/quark_runtime.c:566-569 | an unsplit decoder fed positions 0, 1, 2, ... computes the cache-free network, whatever its cache held |
| `Network.LayersCorrect` | benchmarks/quark-v2-0.5m-pair-pipeline/firmware/quark_esp32/quark_runtime.c:437-553 | layers lo up to hi on caches that hold the past compute the cache-free activations, write row pos of these layers and no other |
| `Network.LayerCorrect` | benchmarks/quark-v2-0.5m-pair-pipeline/firmware/quark_esp32/quark_runtime.c:439-553 | the same for one layer |
| `Network.RowOfPutRow` | benchmarks/quark-v2-0.5m-pair-pipeline/firmware/quark_esp32/quark_runtime.c:469-474 | writing one cache row changes that row and no other row of any layer |
| `Network.RowsInOrder` | benchmarks/quark-v2-0.5m-pair-pipeline/firmware/quark_esp32/quark_runtime.c:469-472 | distinct (layer, position) rows do not overlap |
| `Network.HeaderShape` | benchmarks/quark-v2-0.5m-pair-pipeline/firmware/quark_esp32/quark_runtime.c:419-425 | the sizes computed from a header are those of the model's factors if and only if the heads divide the width and the key/value heads divide the heads |
| `Network.OffsetIs` | benchmarks/quark-v2-0.5m-pair-pipeline/firmware/quark_esp32/quark_runtime.c:469-472 | row offsets are l * seq_len * kv_dim + pos * kv_dim and stay inside the cache |
| `Network.AttentionEntry` | benchmarks/quark-v2-0.5m-pair-pipeline/firmware/quark_esp32/quark_runtime.c:479-515 | entry j of attention is the sum of column j / (kv_mul * head_size) * head_size + j % head_size of the value rows under the softmax of the scores: query entries from j / head_size * head_size on times key entries from j / (kv_mul * head_size) * head_size on, over the root of the head size |
| `Network.ActivationIs` | benchmarks/quark-v2-0.5m-pair-pipeline/firmware/quark_esp32/quark_runtime.c:437-553 | in the cache-free network a layer mixes into its activation the attention of the newest query over the keys and values of every position, the newest included, entry by entry as above |
| `Network.HistoryIs` | benchmarks/quark-v2-0.5m-pair-pipeline/firmware/quark_esp32/quark_runtime.c:469-477 | the key and the value of a position are made from that position's own activation, whatever comes behind it |
| `Decoder.Transformer.ForwardPartial` | benchmarks/quark-v2-0.5m-pair-pipeline/firmware/quark_esp32/quark_runtime.c:411-564 | the in-place call computes the layers between the clamped bounds, each with the attention that `Network.AttentionEntry` states entry by entry, and leaves exactly the caches of that computation |
| `Decoder.Transformer.Forward` | benchmarks/quark-v2-0.5m-pair-pipeline/firmware/quark_esp32/quark_runtime.c:566-569 | all layers and the classifier |
| `Decoder.Transformer.RunLayers` | benchmarks/quark-v2-0.5m-pair-pipeline/firmware/quark_esp32/quark_runtime.c:439-553 | the layer loop on the flat cache arrays |
| `Decoder.Transformer.RunLayer` | benchmarks/quark-v2-0.5m-pair-pipeline/firmware/quark_esp32/quark_runtime.c:441-552 | one layer on the flat cache arrays: both rows written, then attention over rows 0 to pos |
| `Decoder.Transformer.Attend` | benchmarks/quark-v2-0.5m-pair-pipeline/firmware/quark_esp32/quark_runtime.c:479-515 | the heads in turn fill the attention output, each from the key and value columns of its own group: `Network.AttentionEntry` says which |
| `Decoder.Transformer.AttendHead` | benchmarks/quark-v2-0.5m-pair-pipeline/firmware/quark_esp32/quark_runtime.c:480-514 | one head: softmax of the scores, then the weighted sum of its slice of the cached values |
| `Decoder.Transformer.Scores` | benchmarks/quark-v2-0.5m-pair-pipeline/firmware/quark_esp32/quark_runtime.c:485-496 | the scores of positions 0 to pos, each a dot product with the head's slice of the cached key |
| `Decoder.Transformer.BlendValues` | benchmarks/quark-v2-0.5m-pair-pipeline/firmware/quark_esp32/quark_runtime.c:502-514 | the weighted sum over the cached rows, accumulated in the code's order |
| `Decoder.Transformer.CopyRow` | benchmarks/quark-v2-0.5m-pair-pipeline/firmware/quark_esp32/quark_runtime.c:471-474 | one row is overwritten and everything else in the cache stays |
| `Tokenizer.RoundTrip` | benchmarks/quark-v2-0.5m-pair-pipeline/firmware/quark_esp32/quark_runtime.c:628-784 | for every NUL-free byte string, malformed UTF-8 included, decoding the encoding token by token gives the string back, on vocabularies whose byte tokens read as bytes and whose reserved tokens no lookup or merge can touch |
| `Tokenizer.PiecesCover` | benchmarks/quark-v2-0.5m-pair-pipeline/firmware/quark_esp32/quark_runtime.c:706-746 | segmentation loses no byte |
| `Tokenizer.PiecesAreCodePoints` | benchmarks/quark-v2-0.5m-pair-pipeline/firmware/quark_esp32/quark_runtime.c:706-746 | on text in the encoding of section 3 of RFC 3629 the pieces are the code points |
| `Tokenizer.PiecesAreShaped` | benchmarks/quark-v2-0.5m-pair-pipeline/firmware/quark_esp32/quark_runtime.c:706-746 | every piece is one byte and at most three continuation bytes |
| `Tokenizer.BestIsBest` | benchmarks/quark-v2-0.5m-pair-pipeline/firmware/quark_esp32/quark_runtime.c:755-765 | the scan settles on the best score above -1e10, the leftmost on ties, and on none only when there is no candidate |
| `Tokenizer.MergedIsFixpoint` | benchmarks/quark-v2-0.5m-pair-pipeline/firmware/quark_esp32/quark_runtime.c:750-778 | at the end no adjacent pair scoring above -1e10 is in the vocabulary |
| `Tokenizer.EncodeMerges` | benchmarks/quark-v2-0.5m-pair-pipeline/firmware/quark_esp32/quark_runtime.c:750-783 | from the tokens of the text a series of merges leads to the encoding, every one of a pair with the best score, the leftmost on ties, and put in its place by the token of the two strings joined; at its end no two neighbours make up a piece that scores above -1e10, and EOS comes behind it exactly when asked for |
| `Tokenizer.InitialIs` | benchmarks/quark-v2-0.5m-pair-pipeline/firmware/quark_esp32/quark_runtime.c:684-704 | before merging: BOS when asked for, the blank's token unless the text is empty, then the tokens of the pieces |
| `Tokenizer.TextTokensAre` | benchmarks/quark-v2-0.5m-pair-pipeline/firmware/quark_esp32/quark_runtime.c:706-746 | the tokens of a list of pieces are those of its pieces, in order |
| `Tokenizer.PieceTokensAre` | benchmarks/quark-v2-0.5m-pair-pipeline/firmware/quark_esp32/quark_runtime.c:731-744 | a piece that is in the vocabulary is the one token of its string, any other is its bytes plus 3 |
| `Tokenizer.PiecesAreGreedy` | benchmarks/quark-v2-0.5m-pair-pipeline/firmware/quark_esp32/quark_runtime.c:706-746 | a piece ends only in front of a byte that is no continuation, or after four bytes |
| `Tokenizer.PiecesAreUnique` | benchmarks/quark-v2-0.5m-pair-pipeline/firmware/quark_esp32/quark_runtime.c:706-746 | segmentation is the only way to cut a text into such pieces |
| `Tokenizer.MergedKeepsText` | benchmarks/quark-v2-0.5m-pair-pipeline/firmware/quark_esp32/quark_runtime.c:771-777 | merging keeps the concatenation of the pieces, whatever the vocabulary |
| `Tokenizer.MergeSpells` | benchmarks/quark-v2-0.5m-pair-pipeline/firmware/quark_esp32/quark_runtime.c:771-777 | one merge keeps what the tokens spell and touches no reserved token |
| `Tokenizer.TextSpells` | benchmarks/quark-v2-0.5m-pair-pipeline/firmware/quark_esp32/quark_runtime.c:731-744 | lookups and byte fallback spell the text |
| `Tokenizer.LookupIsTheIndex` | benchmarks/quark-v2-0.5m-pair-pipeline/firmware/quark_esp32/quark_runtime.c:644-652 | with distinct pieces the index of an equal string is the only answer a search can give |
| `Tokenizer.InitialIsIds` | benchmarks/quark-v2-0.5m-pair-pipeline/firmware/quark_esp32/quark_runtime.c:684-746 | before merging every token is a vocabulary id and there are at most strlen + 2 |
| `Tokenizer.Encoder.Run` | benchmarks/quark-v2-0.5m-pair-pipeline/firmware/quark_esp32/quark_runtime.c:654-784 | the in-place encoder fills the caller's array with the encoding and never writes beyond strlen + 3 entries; in what it leaves no two neighbours make up a piece that scores above -1e10, and EOS is last when asked for |
| `Tokenizer.Encoder.Segment` | benchmarks/quark-v2-0.5m-pair-pipeline/firmware/quark_esp32/quark_runtime.c:706-746 | the segmentation loop appends the tokens of all pieces; the piece buffer is empty whenever it is reset and never holds more than four bytes |
| `Tokenizer.Encoder.EmitPiece` | benchmarks/quark-v2-0.5m-pair-pipeline/firmware/quark_esp32/quark_runtime.c:732-744 | one token for a known piece, one for each byte of an unknown one |
| `Tokenizer.Encoder.FindBest` | benchmarks/quark-v2-0.5m-pair-pipeline/firmware/quark_esp32/quark_runtime.c:751-765 | the scan with its string buffer finds the best pair |
| `Tokenizer.Encoder.MergePair` | benchmarks/quark-v2-0.5m-pair-pipeline/firmware/quark_esp32/quark_runtime.c:772-777 | overwrite and shift left are the replacement of the pair by its token |
| `Tokenizer.Encoder.Merge` | benchmarks/quark-v2-0.5m-pair-pipeline/firmware/quark_esp32/quark_runtime.c:750-778 | the merge loop ends, each round one token shorter, with the merged tokens |
| `Tokenizer.Encoder.Print` | benchmarks/quark-v2-0.5m-pair-pipeline/firmware/quark_esp32/quark_runtime.c:757 | two pieces and a NUL fit in the string buffer |
| `TopP.CropIsSound` | benchmarks/quark-v2-0.5m-pair-pipeline/firmware/quark_esp32/quark_runtime.c:836-867 | for n >= 2 and 1/n <= topp < 1 the crop before sorting changes neither the nucleus, nor its total, nor the place of the sample, nor the probability drawn, for any order of equal values |
| `TopP.CropIsSafeIff` | benchmarks/quark-v2-0.5m-pair-pipeline/firmware/quark_esp32/quark_runtime.c:836-848 | for topp < 1 no distribution loses all its candidates if and only if topp >= 1/n |
| `TopP.CutIsShortest` | benchmarks/quark-v2-0.5m-pair-pipeline/firmware/quark_esp32/quark_runtime.c:847-855 | the truncation keeps the shortest front that holds more than topp |
| `TopP.SampleInverts` | benchmarks/quark-v2-0.5m-pair-pipeline/firmware/quark_esp32/quark_runtime.c:858-866 | the sample is where the distribution function of the nucleus passes the coin; the rounding fallback is never taken |
| `TopP.DrawnIsInverted` | benchmarks/quark-v2-0.5m-pair-pipeline/firmware/quark_esp32/quark_runtime.c:846-866 | a token drawn is entry k of a descending arrangement, with sum(..k) <= coin * sum(..m + 1) < sum(..k + 1), where entries 0 to m are the shortest front with a sum above topp |
| `TopP.SortsAgree` | benchmarks/quark-v2-0.5m-pair-pipeline/firmware/quark_esp32/quark_runtime.c:816-822 | two descending arrangements of the same candidates agree on the probabilities |
| `TopP.Sampler.Sample` | benchmarks/quark-v2-0.5m-pair-pipeline/firmware/quark_esp32/quark_runtime.c:824-867 | the buffer-based sampler draws that candidate, and the token is the sample from the nucleus of a descending arrangement of the full distribution that starts with the candidates; with a coin in [0, 1) it is where the sums of the nucleus pass the coin's share of its total |
| `TopP.ExtendedSort` | benchmarks/quark-v2-0.5m-pair-pipeline/firmware/quark_esp32/quark_runtime.c:836-845 | the sorted candidates are the front of a descending arrangement of the whole distribution |
| `TopP.Sampler.CropInto` | benchmarks/quark-v2-0.5m-pair-pipeline/firmware/quark_esp32/quark_runtime.c:837-843 | the crop loop keeps the values at or above the cutoff, in index order |
| `TopP.Sampler.Truncate` | benchmarks/quark-v2-0.5m-pair-pipeline/firmware/quark_esp32/quark_runtime.c:847-855 | the truncation loop returns last_idx and the cumulative probability |
| `TopP.Sampler.Draw` | benchmarks/quark-v2-0.5m-pair-pipeline/firmware/quark_esp32/quark_runtime.c:859-866 | the sampling loop returns the place of the sample |
| `QuantMatmul.MatmulError` | benchmarks/quark-v2-0.5m-pair-pipeline/firmware/quark_esp32/quark_runtime.c:118-142 | the product with a quantised input differs from the product with the input by at most the sum over groups of groupmax/254 times the dequantised weight magnitudes |
| `QuantMatmul.MatmulIsDot` | benchmarks/quark-v2-0.5m-pair-pipeline/firmware/quark_esp32/quark_runtime.c:371-408 | the integer product is the plain dot product of the two dequantised tensors |
| `QuantMatmul.MatmulEntry` | benchmarks/quark-v2-0.5m-pair-pipeline/firmware/quark_esp32/quark_runtime.c:371-408 | output i is the sum over j of (xq[j] * xs[j / GS]) * (wq[i * n + j] * ws[(i * n + j) / GS]) |
| `QuantMatmul.LargestIs127` | benchmarks/quark-v2-0.5m-pair-pipeline/firmware/quark_esp32/quark_runtime.c:122-141 | the values of greatest magnitude in a group become 127 or -127 |
| `QuantMatmul.RoundAwayIs` | benchmarks/quark-v2-0.5m-pair-pipeline/firmware/quark_esp32/quark_runtime.c:139 | rounding is to the nearest integer with halves away from zero, on both sides alike |
| `QuantMatmul.QuantError` | benchmarks/quark-v2-0.5m-pair-pipeline/firmware/quark_esp32/quark_runtime.c:132-141 | every quantised value lies in [-127, 127] and comes back within groupmax/254 |
| `QuantMatmul.AccumulatorFits` | benchmarks/quark-v2-0.5m-pair-pipeline/firmware/quark_esp32/quark_runtime.c:377-384 | the 32-bit accumulator of a group does not overflow below 2^17 values |
| `QuantMatmul.Quantize` | benchmarks/quark-v2-0.5m-pair-pipeline/firmware/quark_esp32/quark_runtime.c:118-143 | the loops quantise every group of a tensor without an all-zero group |
| `QuantMatmul.QuantizeGroup` | benchmarks/quark-v2-0.5m-pair-pipeline/firmware/quark_esp32/quark_runtime.c:122-141 | one group, with nothing before it changed |
| `QuantMatmul.Dequantize` | benchmarks/quark-v2-0.5m-pair-pipeline/firmware/quark_esp32/quark_runtime.c:112-116 | each value is scaled by the scale of its group |
| `QuantMatmul.ValueAt` | benchmarks/quark-v2-0.5m-pair-pipeline/firmware/quark_esp32/quark_runtime.c:112-116 | value i of a dequantised tensor is q[i] * s[i / GS] |
| `QuantMatmul.Matmul` | benchmarks/quark-v2-0.5m-pair-pipeline/firmware/quark_esp32/quark_runtime.c:371-408 | every output entry is the code's sum for its row |
| `QuantMatmul.RowLoop` | benchmarks/quark-v2-0.5m-pair-pipeline/firmware/quark_esp32/quark_runtime.c:377-406 | the group loop over one row, with the flat indices resolved |
| `Packets.PutRefinesMap` | firmware/ssos_kernel/ssos_kernel.ino:232-252 | with an id of at most 39 characters PKT is an update of a map of at most 32 packets: by id, else in place of the lowest record at the coordinate, else an insertion, and it fails exactly on a bad role or a full bank |
| `Packets.RemoveRefinesMap` | firmware/ssos_kernel/ssos_kernel.ino:497-501 | freeing the slot of an id removes the id from that map; `CommandLaws.DelRemoves` says so of the command |
| `CommandLaws.DelRemoves` | firmware/ssos_kernel/ssos_kernel.ino:490-504 | DEL on distinct ids takes the id out of the map and leaves every other slot, the counters and the flash as they were; the model is cleared exactly when the id was there and starts with model:w: |
| `CommandLaws.DelLine` | firmware/ssos_kernel/ssos_kernel.ino:490-517 | a line DEL id=X, typed in any case and with any blanks around it, does that to X |
| `CommandLaws.MClearRemovesRows` | firmware/ssos_kernel/ssos_kernel.ino:392-400 | MCLEAR takes exactly the ids model:w:0 to model:w:7 out of the map and clears the model; counters and flash stay |
| `CommandLaws.ClearSeeds` | firmware/ssos_kernel/ssos_kernel.ino:278-286 | CLEAR leaves exactly ctrl:kernel and ctrl:usb in slots 0 and 1, field by field, generation 3, two more packets counted, no model, and the flash as it was |
| `CommandLaws.ClearLines` | firmware/ssos_kernel/ssos_kernel.ino:506-546 | lines CLEAR and MCLEAR, in any case and whatever is behind them, do that |
| `CommandLaws.PktUpdates` | firmware/ssos_kernel/ssos_kernel.ino:232-252 | a PKT with a known id, or with a free coordinate and room, sets that id in the map to the record sent; generation and counter go up by one modulo 2^16 and 2^32; the model is cleared exactly for an id that starts with model:w: |
| `CommandLaws.PktReplaces` | firmware/ssos_kernel/ssos_kernel.ino:235-252 | a PKT with a new id at a coordinate that is taken puts its record into the lowest slot at that coordinate, and the id that was there is gone |
| `CommandLaws.PktRefused` | firmware/ssos_kernel/ssos_kernel.ino:232-237 | a PKT changes nothing when its role is none of 1 to 8, or when 32 packets are there and neither its id nor its coordinate is |
| `Packets.RecordIs` | firmware/ssos_kernel/ssos_kernel.ino:239-249 | the record holds the first 39, 16, 19 and 63 characters of id, hash, permission and body; without a permission it says open, and without a hash it holds eight digits that read as the FNV-1a hash of the whole body |
| `Packets.HexReads` | firmware/ssos_kernel/ssos_kernel.ino:122-124 | the eight digits printed for a hash read back as the hash, the first digit highest |
| `Packets.MapHas` | firmware/ssos_kernel/ssos_kernel.ino:128-132 | the id search is lookup in that map |
| `Packets.MapSize` | firmware/ssos_kernel/ssos_kernel.ino:146-151 | the packet count is its size |
| `Packets.PutLooksUp` | firmware/ssos_kernel/ssos_kernel.ino:235-237 | what every id finds after a PKT |
| `Packets.SentIsFound` | firmware/ssos_kernel/ssos_kernel.ino:235-245 | a stored packet is found under the id it was sent with if and only if the id has at most 39 characters |
| `Packets.PutKeepsDistinct` | firmware/ssos_kernel/ssos_kernel.ino:235-245 | ids stay distinct if and only if the id as cut is free or belongs to the overwritten packet, so always when the id fits |
| `Packets.PutKeepsCoords` | firmware/ssos_kernel/ssos_kernel.ino:235-237 | coordinates stay distinct if and only if no update by id lands on another packet's coordinate |
| `Counterexamples.UpdateMovesOnto` | firmware/ssos_kernel/ssos_kernel.ino:235-237 | two packets apart, and an update of one of them that puts both at one coordinate |
| `Packets.BodyHashTells` | firmware/ssos_kernel/ssos_kernel.ino:113-124 | bodies that differ in one byte get different default hashes |
| `PacketText.StrtolReads` | firmware/ssos_kernel/ssos_kernel.ino:364 | strtol reads a printed number back, clamped to 32 bits, and stops behind it |
| `PacketText.SaturateIs` | firmware/ssos_kernel/ssos_kernel.ino:364 | a number is clamped to -2147483648 to 2147483647 |
| `PacketText.RowRoundTrip` | firmware/ssos_kernel/ssos_kernel.ino:360-375 | nine printed Q10 numbers decode to their nine weights if and only if all lie within 8192 |
| `PacketText.DimsRoundTrip` | firmware/ssos_kernel/ssos_kernel.ino:167-194 | the printed nine coordinates parse to themselves |
| `CoordLaws.AnyListReads` | firmware/ssos_kernel/ssos_kernel.ino:184-193 | a list of any length parses to its first nine numbers, and to zeros behind fewer |
| `CoordLaws.GridRoundTrip` | firmware/ssos_kernel/ssos_kernel.ino:153-183 | what the firmware prints as grid://ssos/x.../d8:... parses back to the coordinate |
| `CoordLaws.WrapIs` | firmware/ssos_kernel/ssos_kernel.ino:173 | a number is cut to the signed 16-bit value it is congruent to |
| `PacketLines.PktLineReads` | firmware/ssos_kernel/ssos_kernel.ino:402-456 | the line printed for a stored record whose body ends in no blank, trimmed, split and parsed, asks for exactly that record |
| `LineLaws.PktLineIs` | firmware/ssos_kernel/ssos_kernel.ino:159-165 | a printed line is PKT and the fields id, d, role, hash and perm in this order, the body last |
| `LineLaws.PlainCommands` | firmware/ssos_kernel/ssos_kernel.ino:506-612 | SAVE, LOAD, CLEAR, MLOAD and MCLEAR, in any case and with anything behind them, ask for their command, and a word that is none of these, PKT or DEL asks for nothing |
| `LineLaws.DelCommand` | firmware/ssos_kernel/ssos_kernel.ino:490-498 | DEL id=X asks to delete the word X, in any case and with any blanks around it |
| `LineLaws.DelRefused` | firmware/ssos_kernel/ssos_kernel.ino:490-496 | DEL with anything but id= behind it asks for nothing |
| `LineLaws.FieldsAsk` | firmware/ssos_kernel/ssos_kernel.ino:409-452 | the fields of a PKT may come in any order, the last of a repeated field counts and coord= is another d=; the request is refused exactly without an id, without a coordinate that is one, or without a role that is one |
| `LineLaws.PktCommand` | firmware/ssos_kernel/ssos_kernel.ino:402-461 | a PKT line asks for that request, its body without the blanks at its end |
| `LineLaws.UnknownRefused` | firmware/ssos_kernel/ssos_kernel.ino:424-428 | an unknown field refuses the line whatever is in front of it |
| `LineLaws.RoleIff` | firmware/ssos_kernel/ssos_kernel.ino:440-447 | a role is read as r if and only if it is the name of r in any mixture of cases |
| `PacketLines.ScanReads` | firmware/ssos_kernel/ssos_kernel.ino:409-428 | the field loop finds the six printed fields |
| `PacketLines.RoleReads` | firmware/ssos_kernel/ssos_kernel.ino:440-445 | printed role names parse to their numbers |
| `PacketLines.LineIsClean` | firmware/ssos_kernel/ssos_kernel.ino:506-517 | whatever a line asks to store has no line breaks, and no blanks but in the body |
| `PacketLines.RecordIsStored` | firmware/ssos_kernel/ssos_kernel.ino:239-249 | every stored record fits its buffers and has a non-empty hash and permission |
| `Kernel.RunKeepsTidy` | firmware/ssos_kernel/ssos_kernel.ino:506-606 | over every run of commands, saves and resets with ids that fit, ids in the bank and in the flash stay distinct and every record is well formed |
| `Kernel.ApplyKeepsTidy` | firmware/ssos_kernel/ssos_kernel.ino:506-606 | the same for one command |
| `Kernel.RunKeepsCoherent` | firmware/ssos_kernel/ssos_kernel.ino:506-620 | over every such run in which no other packet displaces a model row by coordinate, a ready cache holds exactly the weights of the rows in the bank |
| `Kernel.ApplyCoherent` | firmware/ssos_kernel/ssos_kernel.ino:451-457 | on a ready coherent cache a command leaves it coherent if and only if it is not a PKT that pushes a model row out by its coordinate |
| `Counterexamples.CacheGoesStale` | firmware/ssos_kernel/ssos_kernel.ino:235-237 | eight rows, MLOAD and one note at the coordinate of row 0 leave a cache that is ready and agrees with no bank |
| `Kernel.PutLosesRow` | firmware/ssos_kernel/ssos_kernel.ino:235-237 | such a PKT leaves a bank from which the model can not be loaded |
| `Kernel.SavedModelSurvives` | firmware/ssos_kernel/ssos_kernel.ino:254-276 | whatever happens after the last save that succeeded, a SAVE or one of the loop's own, a reset brings back the bank, the cache and every MINFER answer of that moment |
| `Kernel.FlashIsLastSave` | firmware/ssos_kernel/ssos_kernel.ino:254-262 | in every run the flash holds the bank and the generation of the last save that succeeded |
| `Kernel.RunKeepsFlash` | firmware/ssos_kernel/ssos_kernel.ino:254-262 | only saves that succeed change the flash |
| `SerialLine.ReceiveLine` | firmware/ssos_kernel/ssos_kernel.ino:628-644 | a line without breaks is handed over as it is kept, with a newline or with a return and a newline behind it |
| `SerialLine.LineIsCut` | firmware/ssos_kernel/ssos_kernel.ino:628-644 | what is handed over are the first 239 characters of the line |
| `SerialLine.ReceiveLines` | firmware/ssos_kernel/ssos_kernel.ino:628-644 | lines are handled one after the other |
| `Tape.DumpReplays` | firmware/ssos_kernel/ssos_kernel.ino:312-317 | however the DUMP of a bank with distinct ids is cut into passes of the loop, with saves of the loop's own in between and a flash that answers or not, an empty bank takes over every record in order if and only if coordinates are distinct, every printed line has at most 239 characters and no body ends in a blank; the copy then dumps to the same text; with distinct coordinates all records arrive with their bodies cut and trimmed, otherwise records are lost |
| `SeededTape.DumpReplaysAfterBoot` | firmware/ssos_kernel/ssos_kernel.ino:613-621 | fed to a controller that has just booted and holds its two seed packets, the tape restores every record in order if and only if there are two or more, the first replaces the kernel seed and the second the usb seed (by id or by coordinate), the later ones lie at new coordinates, and no line is cut |
| `SeededTape.FedIff` | firmware/ssos_kernel/ssos_kernel.ino:232-252 | records with distinct ids sent to such a bank end in the slots 0, 1, ... if and only if each lands in its own; one that missed its slot never gets there |
| `SeededTape.LandsIff` | firmware/ssos_kernel/ssos_kernel.ino:128-144 | which slot the next record goes to, in terms of ids and coordinates |
| `Device.LoopsAreBare` | firmware/ssos_kernel/ssos_kernel.ino:628-644 | saves of the loop between any two characters change nothing but the flash, as long as no line asks for SAVE or LOAD |
| `Tape.LoadAll` | firmware/ssos_kernel/ssos_kernel.ino:402-463 | PKT lines of records at distinct coordinates fill slots 0, 1, 2, ... in order |
| `Tape.HoldAll` | firmware/ssos_kernel/ssos_kernel.ino:402-463 | for any coordinates the bank ends with only ids that were sent, a record at every coordinate that was sent, and fewer records than lines as soon as two coordinates are equal |
| `Tape.LoadOne` | firmware/ssos_kernel/ssos_kernel.ino:232-252 | a record with a new id and coordinate goes into the first free slot unchanged |
| `Tape.HoldSlot` | firmware/ssos_kernel/ssos_kernel.ino:128-144 | a record with a new id goes over its coordinate when that is taken and into a free slot otherwise |
| `Tape.UsedDistinct` | firmware/ssos_kernel/ssos_kernel.ino:312-317 | the dumped records share an id or a coordinate exactly when two used slots do |
| `PacketLines.KeptReads` | firmware/ssos_kernel/ssos_kernel.ino:506-517 | a printed line, cut to 239 characters and trimmed, asks for the record with its body cut and trimmed accordingly |
| `PacketLines.ShownIff` | firmware/ssos_kernel/ssos_kernel.ino:628-644 | nothing of a record is lost on the line if and only if its line has at most 239 characters and its body does not end in a blank |
| `Controller.Controller.StorePacket` | firmware/ssos_kernel/ssos_kernel.ino:232-252 | in place: one slot, the generation and the counter, or nothing at all |
| `Controller.Controller.Search` | firmware/ssos_kernel/ssos_kernel.ino:128-144 | the three slot searches return the lowest match |
| `Controller.Controller.PacketCount` | firmware/ssos_kernel/ssos_kernel.ino:146-151 | the count of slots in use |
| `Controller.Controller.LoadModelPackets` | firmware/ssos_kernel/ssos_kernel.ino:377-390 | all eight rows are loaded, or the cache is cleared |
| `Controller.Controller.GatherRows` | firmware/ssos_kernel/ssos_kernel.ino:377-387 | the eight rows are looked up and decoded in order; one that is missing or malformed ends it |
| `ModelLaws.MLoadLoads` | firmware/ssos_kernel/ssos_kernel.ino:377-390 | MLOAD makes the model ready if and only if the records model:w:0 to model:w:7 are there and decode, and then weight 9 r + i is number i of row r; otherwise all weights are zero; nothing else changes |
| `ModelLaws.LoadRestores` | firmware/ssos_kernel/ssos_kernel.ino:533-539 | LOAD brings back the saved bank and generation and the model of its rows, and changes nothing without them |
| `ModelLaws.ResetRestores` | firmware/ssos_kernel/ssos_kernel.ino:613-620 | a reset does the same with the packet counter at zero |
| `ModelLaws.ResetSeeds` | firmware/ssos_kernel/ssos_kernel.ino:613-620 | a reset with nothing saved leaves what CLEAR leaves |
| `Controller.Controller.ClearModelPackets` | firmware/ssos_kernel/ssos_kernel.ino:392-400 | the eight rows and the cache are gone, other slots stay |
| `Controller.Controller.SeedController` | firmware/ssos_kernel/ssos_kernel.ino:278-286 | the bank holds the two seed packets |
| `Controller.Controller.SaveBank` | firmware/ssos_kernel/ssos_kernel.ino:254-262 | a save stores the whole bank or nothing |
| `Controller.Controller.LoadBank` | firmware/ssos_kernel/ssos_kernel.ino:264-276 | a load restores the whole saved bank or changes nothing |
| `Controller.Controller.HandleDel` | firmware/ssos_kernel/ssos_kernel.ino:490-504 | in place, the slot is freed and the cache cleared for a model id: the command of `CommandLaws.DelRemoves` |
| `Controller.Controller.HandleLine` | firmware/ssos_kernel/ssos_kernel.ino:506-612 | a line does to the static state what its command does |
| `Controller.Controller.Loop` | firmware/ssos_kernel/ssos_kernel.ino:628-644 | one pass of the main loop: a save when one is due, then the characters that have come in |
| `Controller.Controller.ReceiveAll` | firmware/ssos_kernel/ssos_kernel.ino:633-643 | the serial loop over any input |
| `Controller.Controller.Setup` | firmware/ssos_kernel/ssos_kernel.ino:613-621 | power-on loads or seeds the bank and then tries the model |
| `Controller.Controller.Dump` | firmware/ssos_kernel/ssos_kernel.ino:312-317 | the listing printed is the tape of the bank |
| `Controller.Controller.ModelInfer` | firmware/ssos_kernel/tqa_runtime.cpp:274-284 | in place, eight dot products with the cached rows, the ones of `ModelLaws.AnswerIs`, or zeros when not ready |
| `Controller.Controller.AnswerModel` | firmware/ssos_kernel/ssos_kernel.ino:595-611 | what MINFER prints: nothing without a model, else the eight answers and the first place of the greatest one |
| `ModelLaws.AnswerIs` | firmware/ssos_kernel/tqa_runtime.cpp:279-283 | answer r is w[9r] x[0] + ... + w[9r + 8] x[8] |
| `ModelLaws.UnitAnswers` | firmware/ssos_kernel/tqa_runtime.cpp:279-283 | the unit vector of axis i is answered with weight 9 r + i in place r |
| `ModelLaws.AnswersAreLinear` | firmware/ssos_kernel/tqa_runtime.cpp:279-283 | the answers are additive and homogeneous in the input |
| `ModelLaws.TextToAnswer` | firmware/ssos_kernel/ssos_kernel.ino:360-390 | when row r of the bank prints q0 to q8 and MLOAD made the model ready, axis i is answered with q_i / 1024 in place r |
| `Controller.Controller.ModelClear` | firmware/ssos_kernel/tqa_runtime.cpp:267-270 | zero weights, not ready |
| `Controller.Controller.ModelLoad` | firmware/ssos_kernel/tqa_runtime.cpp:260-263 | the given weights, ready |
| `ClusterFrame.OneByteRejected` | benchmarks/paretoq-125m-six-board-distributed/firmware/common/cluster_protocol.h:52-69 | changing any single byte of an accepted 1188-byte packet makes it rejected |
| `ClusterFrame.SequenceRejected` | benchmarks/paretoq-125m-six-board-distributed/firmware/common/cluster_protocol.h:61-69 | so does changing only the sequence word |
| `ClusterFrame.ChecksumRejected` | benchmarks/paretoq-125m-six-board-distributed/firmware/common/cluster_protocol.h:66-69 | so does changing only the checksum word |
| `ClusterFrame.SealedIsAccepted` | benchmarks/paretoq-125m-six-board-distributed/firmware/common/cluster_protocol.h:71-73 | a sealed packet is valid if and only if its magic is right and it announces at most 576 payload words |
| `ClusterFrame.AcceptedIs` | benchmarks/paretoq-125m-six-board-distributed/firmware/common/cluster_protocol.h:66-69 | a packet is valid if and only if its first bytes are 25 31 51 50, bytes 22 and 23 announce at most 576 words, and its checksum word is its hash |
| `ClusterFrame.HashIs` | benchmarks/paretoq-125m-six-board-distributed/firmware/common/cluster_protocol.h:52-64 | the hash starts from 0x811C9DC5 and takes in bytes 12 to 1187, then the magic word, then the sequence word |
| `ClusterFrame.WordIsLittleEndian` | benchmarks/paretoq-125m-six-board-distributed/firmware/common/cluster_protocol.h:52-64 | a word is its four bytes, the lowest first |
| `ClusterFrame.MagicIsCovered` | benchmarks/paretoq-125m-six-board-distributed/firmware/common/cluster_protocol.h:60-62 | packets that differ only in the magic word have different hashes |
| `ClusterFrame.ClusterPacket.Checksum` | benchmarks/paretoq-125m-six-board-distributed/firmware/common/cluster_protocol.h:52-64 | the byte loop computes the hash over bytes 12 to 1187, the magic and the sequence |
| `ClusterFrame.ClusterPacket.Seal` | benchmarks/paretoq-125m-six-board-distributed/firmware/common/cluster_protocol.h:71-73 | the checksum word is written and nothing else |
| `ClusterFrame.ClusterPacket.IsValid` | benchmarks/paretoq-125m-six-board-distributed/firmware/common/cluster_protocol.h:66-69 | the three comparisons |
| `Fnv.StepIsBijection` | benchmarks/paretoq-125m-six-board-distributed/firmware/common/cluster_protocol.h:56-57 | every hash step is undone by multiplying with 899433627 and the same exclusive or |
| `Fnv.TestVectors` | firmware/ssos_kernel/ssos_kernel.ino:113-120 | the hashes of nothing, of a and of fo are the published ones |
| `Fnv.OneByteDetected` | benchmarks/paretoq-125m-six-board-distributed/firmware/common/cluster_protocol.h:55-58 | one changed byte changes the hash of a byte string |
| `Fnv.FoldTellsStates` | benchmarks/paretoq-125m-six-board-distributed/firmware/common/cluster_protocol.h:55-58 | equal bytes keep different hash states apart |
| `ParetoAlignment.ExactIffAligned` | benchmarks/paretoq-125m-six-board-distributed/firmware/common/paretoq_runtime.h:118-131 | the board computes every accepted matrix of a shape exactly, for every input, if and only if the matrix has one row or columns % 4 = 0 |
| `ParetoAlignment.WitnessFails` | benchmarks/paretoq-125m-six-board-distributed/firmware/common/paretoq_runtime.h:118-131 | for every other shape a matrix and an input that come out wrong |
| `ParetoExport.ExportComputesProduct` | benchmarks/paretoq-125m-six-board-distributed/firmware/common/paretoq_runtime.h:115-134 | an accepted matrix with aligned rows, packed, exported and located, makes the board compute exactly W x |
| `ParetoExport.ExportedHolds` | benchmarks/paretoq-125m-six-board-distributed/tools/generate_stage_headers.py:22-29 | among any other exports a matrix is found at the offsets of its record |
| `ParetoExport.LosslessIff` | benchmarks/paretoq-125m-six-board-distributed/tools/export_paretoq.py:88-100 | a four-level row passes the reconstruction check if and only if its two magnitudes are bfloat16 values |
| `ParetoExport.CodesAre` | benchmarks/paretoq-125m-six-board-distributed/tools/export_paretoq.py:83-87 | codes 0 and 3 are minus and plus the row's largest magnitude, 1 and 2 minus and plus the other |
| `ParetoExport.CodesInPlace` | benchmarks/paretoq-125m-six-board-distributed/firmware/common/paretoq_runtime.h:121-128 | the code the board reads for a column is the one the packer chose |
| `ParetoExport.ScaleInPlace` | benchmarks/paretoq-125m-six-board-distributed/firmware/common/paretoq_runtime.h:130-131 | the scales the board reads are those of the row |
| `ParetoExport.SumsAreDot` | benchmarks/paretoq-125m-six-board-distributed/firmware/common/paretoq_runtime.h:122-131 | two sums under two scales are the dot product of the row |
| `ParetoExport.Magnitudes` | benchmarks/paretoq-125m-six-board-distributed/tools/export_paretoq.py:71-73 | high and low are the largest and smallest magnitude of a row and occur in it |
| `ParetoMatvec.MatvecRegular` | benchmarks/paretoq-125m-six-board-distributed/firmware/common/paretoq_runtime.h:136-138 | the direct loop computes the specified product |
| `ParetoMatvec.MatvecRegularRows` | benchmarks/paretoq-125m-six-board-distributed/firmware/common/paretoq_runtime.h:115-134 | a row range writes its rows, cut at the last row, and no others |
| `ParetoMatvec.MatvecRanges` | benchmarks/paretoq-125m-six-board-distributed/firmware/common/paretoq_runtime.h:115-134 | any row ranges that cover the matrix, in any order, give the whole product |
| `ParetoMatvec.MatvecFast` | benchmarks/paretoq-125m-six-board-distributed/firmware/common/paretoq_runtime.h:173-189 | the product through the table is the same for any number of columns |
| `ParetoMatvec.BuildDotLookup` | benchmarks/paretoq-125m-six-board-distributed/firmware/common/paretoq_runtime.h:152-171 | every table entry holds the low or high sum of its group and code |
| `ParetoMatvec.DotGroupRegular` | benchmarks/paretoq-125m-six-board-distributed/firmware/common/paretoq_runtime.h:92-101 | a group adds its signed inputs to the two sums |
| `ParetoMatvec.DotGroupLut` | benchmarks/paretoq-125m-six-board-distributed/firmware/common/paretoq_runtime.h:103-113 | the table-driven group does the same |
| `ParetoMatvec.InitWeightLut` | benchmarks/paretoq-125m-six-board-distributed/firmware/common/paretoq_runtime.h:84-90 | the code table |
| `ParetoLayer.Layer.RunFast` | benchmarks/paretoq-125m-six-board-distributed/firmware/common/paretoq_runtime.h:370-441 | with an executor that meets the product's contract or with none, a position leaves the hidden vector and caches that the regular layer leaves, those of `ExportedLayer.LayerComputes` for exported matrices; when an executor gives up, nothing is written, or the row is in both caches and at most the attention residual in the hidden vector |
| `ParetoLayer.Layer.RunRegular` | benchmarks/paretoq-125m-six-board-distributed/firmware/common/paretoq_runtime.h:330-368 | a position below context_tokens leaves the layer of the exact key and value history, the one of `ExportedLayer.LayerComputes` for exported matrices, and both caches with its row added; any other changes nothing; that the caches lose nothing follows from the bit-level conversions |
| `ParetoLayer.GroupedQueryAttention` | benchmarks/paretoq-125m-six-board-distributed/firmware/common/paretoq_runtime.h:259-308 | attention through the bfloat16 caches is attention over the exact history, the one of `ParetoLayer.AttentionEntry`; only row position of the caches changes |
| `ParetoLayer.AttentionEntry` | benchmarks/paretoq-125m-six-board-distributed/firmware/common/paretoq_runtime.h:274-306 | entry j of attention is the rounded blend of value column j / 192 * 64 + j % 64; the probabilities are the softmax of an eighth of the products of query entries from j / 64 * 64 on with the 64 key columns from j / 192 * 64 on |
| `ExportedLayer.LayerComputes` | benchmarks/paretoq-125m-six-board-distributed/firmware/common/paretoq_runtime.h:330-368 | with the seven matrices of a layer accepted, packed and located by the exporter, the layer is the transformer layer of those matrices: rounded products with their rows, attention entry by entry over every position, both residuals, and the gated feed-forward part |
| `ExportedLayer.ProjectionIs` | benchmarks/paretoq-125m-six-board-distributed/firmware/common/paretoq_runtime.h:310-315 | a projection through an exported matrix is the rounded product with its rows |
| `ParetoLayer.GatedValueIs` | benchmarks/paretoq-125m-six-board-distributed/firmware/common/paretoq_runtime.h:360-363 | the gate goes through the activation and the other factor does not |
| `ParetoLayer.StoredIsExact` | benchmarks/paretoq-125m-six-board-distributed/firmware/common/paretoq_runtime.h:271-272 | a rounded row is stored without loss |
| `ParetoLayer.RoundedIsRounded` | benchmarks/paretoq-125m-six-board-distributed/firmware/common/paretoq_runtime.h:219-223 | a rounded vector is rounded, for conversions that are stable |
| `ParetoLayer.RoundingIsStable` | benchmarks/paretoq-125m-six-board-distributed/firmware/common/paretoq_runtime.h:66-78 | conversions that are those of the runtime on 32-bit patterns lose nothing the second time |
| `ParetoLayer.AttendHead` | benchmarks/paretoq-125m-six-board-distributed/firmware/common/paretoq_runtime.h:276-305 | one head over the caches, on the key and value columns of `ParetoLayer.AttentionEntry` |
| `ParetoLayer.HeadScores` | benchmarks/paretoq-125m-six-board-distributed/firmware/common/paretoq_runtime.h:280-289 | scaled dot products with the exact keys, on those columns |
| `ParetoLayer.ProjectAll` | benchmarks/paretoq-125m-six-board-distributed/firmware/common/paretoq_runtime.h:381-392 | executor or lookup table, every projection is the rounded product |
| `ParetoLayer.Layer.FinishRegular` | benchmarks/paretoq-125m-six-board-distributed/firmware/common/paretoq_runtime.h:349-367 | output projection, residuals and feed-forward part |
| `ParetoLayer.Layer.FinishFast` | benchmarks/paretoq-125m-six-board-distributed/firmware/common/paretoq_runtime.h:399-440 | the same through executor or table |
| `Bfloat.WidenNarrow` | benchmarks/paretoq-125m-six-board-distributed/firmware/common/paretoq_runtime.h:66-78 | every 16-bit word survives being widened and narrowed |
| `Bfloat.RoundTwice` | benchmarks/paretoq-125m-six-board-distributed/firmware/common/paretoq_runtime.h:66-78 | rounding twice is rounding once, for every value, from the bit-level conversions and a float encoding that loses at most the sign of zero |
| `Bfloat.RoundsToNearest` | benchmarks/paretoq-125m-six-board-distributed/firmware/common/paretoq_runtime.h:73-78 | below the wrap, rounding goes to a nearest word, ties to even |
| `Bfloat.NarrowsToZero` | benchmarks/paretoq-125m-six-board-distributed/firmware/common/paretoq_runtime.h:73-78 | exactly the smallest positive floats and the negative NaNs from 0xFFFF8000 on narrow to zero |
| `Packers.TwoBitRoundTrip` | benchmarks/paretoq-125m-six-board-distributed/tools/export_paretoq.py:49-64 | 2-bit codes of any number come back |
| `Packers.PackedLane` | benchmarks/paretoq-125m-six-board-distributed/tools/export_paretoq.py:53-57 | code i sits in bits 2(i % 4) of byte i / 4 and padding is zero |
| `Packers.PackedByteIs` | benchmarks/paretoq-125m-six-board-distributed/tools/export_paretoq.py:49-57 | byte k of the packed codes is c[4k] + 4 c[4k + 1] + 16 c[4k + 2] + 64 c[4k + 3] |
| `Packers.WordBytesAre` | benchmarks/paretoq-125m-six-board-distributed/tools/export_paretoq.py:40-46 | scales are stored low byte first |
| `Packers.TritRoundTrip` | benchmarks/paretoq-125m-six-board-distributed/tools/tritpack.py:12-44 | trits of any number come back, a partial last byte included |
| `Packers.TritByteIs` | benchmarks/paretoq-125m-six-board-distributed/tools/tritpack.py:12-27 | byte k of packed trits has the base-3 digits t[5k] + 1 to t[5k + 4] + 1, lowest first |
| `Packers.Pack` | benchmarks/paretoq-125m-six-board-distributed/tools/tritpack.py:12-27 | the packing loops, and their refusal exactly of values that are no trits |
| `Packers.Unpack` | benchmarks/paretoq-125m-six-board-distributed/tools/tritpack.py:30-44 | payloads are accepted exactly with the right length and no byte above 242 |
| `ShardFile.RegionsReadBack` | benchmarks/paretoq-125m-six-board-distributed/tools/verify_export.py:16-22 | every payload reads back from the finished file at its recorded offset |
| `ShardFile.RegionsAreDisjoint` | benchmarks/paretoq-125m-six-board-distributed/tools/export_paretoq.py:103-109 | regions are 64-aligned, in order and disjoint |
| `ShardFile.RegionsAre` | benchmarks/paretoq-125m-six-board-distributed/tools/export_paretoq.py:103-109 | every region starts at the first multiple of 64 behind the one in front and is as long as its payload |
| `ShardFile.Stream.AlignedWrite` | benchmarks/paretoq-125m-six-board-distributed/tools/export_paretoq.py:103-109 | padding and payload are appended and the region returned |
| `ShardFile.Stream.ExportAll` | benchmarks/paretoq-125m-six-board-distributed/tools/export_paretoq.py:141-177 | a list of writes |
| `ShardFile.FlashRowsAreMost` | benchmarks/paretoq-125m-six-board-distributed/tools/export_paretoq.py:182-216 | the flash part takes the most rows that fit, so the capacity error can not follow the budget check |
| `ShardFile.ShardIsWhole` | benchmarks/paretoq-125m-six-board-distributed/tools/verify_export.py:91-96 | with the split computed for the node, flash file then PSRAM file are the shard, byte for byte |
| `ShardFile.CheckRanges` | benchmarks/paretoq-125m-six-board-distributed/tools/export_paretoq.py:268-274 | the two coverage checks |
| `ShardFile.OneOwner` | benchmarks/paretoq-125m-six-board-distributed/tools/export_paretoq.py:268-274 | behind the checks, with nonnegative counts, an id belongs to a node if and only if it is in the vocabulary, and to no two |
| `ShardFile.OwnedOnceIff` | benchmarks/paretoq-125m-six-board-distributed/tools/export_paretoq.py:268-274 | behind the checks every vocabulary id has exactly one node and no other id has any if and only if no count is negative |
| `ShardFile.NegativeCountOverlaps` | benchmarks/paretoq-125m-six-board-distributed/tools/export_paretoq.py:268-274 | three ranges with a negative count that pass the checks, with one id in two of them |

## Left out

- Pipeline.Master.Collect: only the worker's answer to the request in flight is taken to carry the header awaited, as the header is all the master compares; timings, LED colours and printing are omitted.
- Pipeline.Master.RunPipeline: each board's caches are values here, so aliasing between the two contexts' buffers is not captured; the update in place is `Decoder`'s.
- Decoder.Transformer.RunLayer: norm, projections, rotary encoding, feed-forward part and softmax are parameters, and the scratch buffers of the run state are local.
- Handshake.TransfersMatch: SPI transactions are single steps that succeed; failing queue calls of the worker are not modelled, nor what a worker does with a transfer it was not set up for.
- Tokenizer.RoundTrip: `sscanf` and `bsearch` are represented by what they return; scores are real numbers; reading the tokenizer file is omitted, and encoding with the end-of-text token is not part of the round trip.
- Tokenizer.Encoder.Run: for a text that is not empty the vocabulary must have the blank's piece, since the code would read in front of the vocabulary without it.
- TopP.Sampler.Sample: probabilities are real numbers and `qsort` is any function that sorts; the random generator, temperature and plain multinomial sampling are omitted.
- QuantMatmul.Matmul: exact arithmetic; the vector-instruction branch is taken to compute the same integer sum; row lengths that are no multiple of the group size are not modelled.
- QuantMatmul.RowLoop: the same for one row.
- QuantMatmul.Quantize: groups that are all zero are excluded, since the code divides by their zero scale and converts what comes out to an integer.
- QuantMatmul.QuantizeGroup: the same for one group.
- ParetoMatvec.MatvecFast: exact arithmetic; in float32 the two products add up in different orders. Input vectors are sequences and the cooperative yield is omitted.
- ParetoExport.ExportComputesProduct: bfloat16 values are read and written by functions of the word; NaN and infinities are not among the real values. Record names, hashes and layer coverage of the manifest are omitted.
- ParetoLayer.Layer.RunFast: the norm, rotary encoding, softmax and the sigmoid are parameters and sums are exact; scratch buffers are fresh instead of the caller's; infinities and NaNs stand for values of their own.
- PacketLines.PktLineReads: parsing is on values; the NUL characters that the parsers write into the line are not modelled.
- Controller.Controller.SaveBank: the flash holds no blob or one whole saved bank; partial writes, wear and the boot counter are omitted.
- Controller.Controller.LoadBank: a blob that is read only in part is not modelled.
- Controller.Controller.Loop: when a save is due is a parameter, since the scheduling tensor decides it.
- Controller.Controller.ModelInfer: weights are real numbers; the parsing of its input and the printing of its answer are omitted.
- Controller.Controller.AnswerModel: the same.
- ShardFile.FlashRowsAreMost: the PSRAM capacity check is a plain comparison and is omitted.
- The adaptive scheduling tensor, benchmarks, GET and the status commands change neither bank nor cache; they are omitted.
- The three-board sketch, the ring service of the cluster nodes, training, quality and dashboard tools, drivers and host scripts are not part of this model.
