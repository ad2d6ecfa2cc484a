# A verified model of OxiLLaMa's file, dump, integrity and session logic

OxiLLaMa runs GGUF language models. This project models, in Dafny, the parts of it whose
correctness is a matter of state, order and exact arithmetic rather than of numerics, and
proves what they promise over every input and every run.

| module | what it models |
|---|---|
| `Machine`, `Ordering`, `Text` | fixed-width integers, stable sorting, byte-ordered strings and decimal numbers |
| `GgufTypes` | tensor types and the two size formulas |
| `TypeSelect`, `Mixtures`, `StandardNames` | the stateful per-tensor type selector and its row fallback; who gets more bits over a whole run; the usual tensor names |
| `GgufWriter` | the streaming writer: offsets announced first, bytes streamed after |
| `Metadata` | the key-value table and its rewriting |
| `Quantize`, `Decisions` | planning, and what every plan decides or refuses |
| `Requantize`, `TensorFates`, `FixedPoint` | a whole re-quantization run, what becomes of each tensor, and a second run over its output |
| `Float32`, `TokenList`, `DumpLogits`, `DumpRuns` | argmax over IEEE-754 values, token lists, the logit dump and its runs |
| `HttpSource` | the HTTP range source against plain slicing |
| `Integrity`, `HashEntries`, `Verify` | manifests, `name:hex` entries, the `verify` command |
| `Chat`, `Commands` | the chat loop, its transcript, its sessions and its engine context, and the meaning of a typed line |
| `Registry`, `Memory`, `Power` | the alias registry, percentiles, wrapping energy counters |

## Main results

- **Hash order is invisible.** The planner drives a stateful selector over a table that comes
  out of a hash map; `Quantize.PlanIgnoresHashOrder` shows that any two iteration orders give the
  same plan or the same refusal, and `Quantize.PlanNamesEachTensorOnce` that nothing is lost.
- **Every tensor meets its fate.** `TensorFates.EveryFate` follows each tensor from input file to
  output file: a candidate ends at the type that the mixture and the row fallback give it behind the
  tensors before it, its bytes are the codec's if it was not there yet, and everything else is copied.
  `Decisions.PlanRefusedIff` says when a plan is refused instead.
- **Who gets more bits.** Over any run of the selector, `Mixtures.DenseFfnDown`,
  `Mixtures.MoeFfnDown` and `Mixtures.AttnVPicked` say which layers are promoted, by position or by
  name; `Mixtures.MixturesOnlyAdd` says that nothing ever gets fewer bits than the target spends.
  `StandardNames` proves that the usual layer weights take their own arms, for every layer number.
- **Re-quantizing is a fixed point, exactly when.** `FixedPoint.SecondRunReproduces` follows the
  file through planning, layout, streaming and reading back, and shows that a second run copies
  everything. `FixedPoint.FixedPointIff` gives the exact condition under which the second file *is*
  the first one.
- **The announced offsets are the real ones.** `GgufWriter.StreamMatchesOffsets` and
  `Requantize.OutputHoldsPayloads`: every tensor sits where the tensor table says, so copied tensors
  are byte-identical.
- **Dry runs predict real runs** (`Quantize.DryRunPredictsRealRun`), and `Quantize.PossibleRefusals`
  says which refusals can occur at all.
- **A dump means what it records** (`DumpLogits.WholeRunMeaning`), each free token is drawn from the
  logits in its own file by a sampler that hands its state on (`DumpRuns.RunDraws`), and replaying the tokens of any
  successful run reproduces it (`DumpLogits.ReplayAlwaysReproduces`).
- **Chunk sizes show exactly when the model lets them.** Logits are a function of the calls made
  since the reset, so a model may sum floats in another order for another batching. For every model,
  a whole run with another chunk size has the same outcome as a successful run if and only if each
  boundary of its own batching can be evaluated and the model answers the two batchings alike at each
  step (`DumpLogits.ChunkSizeShowsIff`). What can be checked beforehand: two chunk sizes are
  interchangeable for a prompt, for every model, if and only if they cut it into batches of one length
  (`DumpLogits.InterchangeableIff`). A model that ignores each single batch boundary ignores every
  split (`DumpLogits.BatchInvariantIff`); for such a model chunked prefill is one-shot prefill
  (`DumpLogits.ChunkedPrefillIsOneShot`), and `DumpLogits.ChunkSizeShows` has models for which it is
  not.
- **Remote reads are slices.** Over every session and every server that keeps to sections 14.1.2,
  14.2 and 15.3.7 of RFC 9110, `HttpSource.SessionIsSliceExceptFailures` compares each outcome with
  the in-memory source.
- **Verification is exact**: `Integrity.VerificationExact`, `Integrity.CleanIffSameBytes`, and the
  round trips of base16 entries (section 8 of RFC 4648) in `HashEntries`.
- **The transcript invariant** holds over every run of chat commands (`Chat.RunsKeepOk`). What each
  command does is `Chat.EveryEffect`. The loop over the real engine resets it before each generation (`Chat.Repl.Handle`, from which
  `Chat.ContextNeverShows` follows for whole runs), and a saved and resumed chat is the chat that
  never stopped (`Chat.ResumingIsContinuing`).

## Where the code differs from what it says

- The quantizer sorts metadata so that its output is byte-reproducible. For one input it is, but a
  second pass over an output can change the header's order: the first appends missing quantization
  keys behind the sorted ones, the second sorts them in (`Metadata.HeaderOrderStableIff`,
  `Metadata.HeaderOrderUnstableExample`). As a table the metadata is a fixed point.
- Two neighbouring empty tensors get the same output offset, and the planner breaks ties by name,
  so a second run may visit them in another order (`FixedPoint.EmptyTensorsNotReproduced`).
- The planner's missing-encoder refusal cannot happen, and neither can the size mismatch that
  `verify` reports (`Quantize.PossibleRefusals`, `Verify.ComplaintIff`).
- `parse_token_ids` documents an optional trailing comma; it accepts a leading one as well
  (`TokenList.PrintedListParsesBack` covers both).
- `/load` replaces the transcript but not the current system prompt: a later `/reset` or `/system`
  goes back to the prompt that was current before the load (`Chat.HeadIsCurrentIff`,
  `Chat.LoadKeepsCurrentPrompt`).
- `render_session` documents that a *trailing* empty assistant message is skipped; the code skips
  every empty one (`Chat.TemplateSeesTranscript`).
- The HTTP source compares only the length of a body with the length asked for. That is enough
  exactly when the announced length is not larger than the real one (`HttpSource.ReadsRightIff`). A
  load from a URL never succeeds with an overstated length, but an understated one is believed and
  yields a truncated file without an error (`HttpSource.FetchedIsPrefix`,
  `HttpSource.UnderstatedLengthLoads`).
- Several power domains are summed under one wrap limit; the delta of two sums is right exactly in
  the cases of `Power.DomainsIff`.
- `/load` restores the sampler settings a session recorded, but nothing reads them: generation goes on
  with the settings the process was started with. A resumed chat is sure to go on as before exactly when
  these are the same (`Chat.SamplerMustMatchIff`).
- `use_more_bits` multiplies the layer count by seven in an `i32`, so its pattern holds exactly while
  that product fits (`TypeSelect.UseMoreBitsPatternIff`).

## How things are represented

- Objects that change in place are classes (`TypeSelector`, `DataWriter`, `HttpRangeSource`, the
  inference `Engine`s, `DumpDir`, `Repl`, `ArchitectureRegistry`, `MemoryProfiler`); loops are methods
  proved against functions, and the properties are lemmas about those functions.
- `u64`, `u32` and `i32` arithmetic wraps, saturates, is checked, or panics where the code's does.
  The release profile switches overflow checks off except in the `oxillama-gguf` crate, so
  `row_bytes`, `verify`'s cross-check and the energy delta wrap, and a size that overflows inside
  `data_size` is modelled as an error outcome.
- Strings are sequences of UTF-8 code units, compared byte by byte as `str` is; where white space is
  trimmed, of Unicode scalar values.
- A map that the code iterates is a sequence of its entries in arbitrary order with distinct keys.
- `sort_by` is a stable sort; for the total orders used here any sort is the same function.
- An `f32` is its 32-bit pattern, with the exact IEEE-754 comparison.
- The logits of a forward pass are an arbitrary function of the calls since the engine was reset,
  batch boundaries and positions included.
- Blake3, the tensor codecs, the sampler, the forward pass, the chat template, the language model
  and remote servers are parameters: arbitrary functions of their inputs. A codec may fail or return
  a wrong number of bytes; a sampler carries state and, where a result says so, returns an
  index of the logits, as every branch of the code's sampler does; a server may answer each
  request differently.
- A GGUF file is its metadata, its tensor table and its data section, whose start is offset zero.
- A directory and the saved sessions are maps from names to contents; which file a typed path names
  is a parameter, so two spellings may name one file.
- Percentages are real numbers, and their product with the sample count is exact.

## Model

| member | source | states |
|---|---|---|
| `GgufTypes.CheckedFoldExact` | crates/oxillama-gguf/src/tensor_info.rs:65-84 | when the checked element count succeeds it is the exact product of the dimensions, and the unchecked product agrees with it |
| `GgufTypes.CheckedFoldIff` | crates/oxillama-gguf/src/tensor_info.rs:65-84 | the checked element count succeeds if and only if every prefix product fits in 64 bits |
| `GgufTypes.TryDataSizeExact` | crates/oxillama-gguf/src/tensor_info.rs:86-105 | a size that is defined is the exact size of the tensor |
| `GgufTypes.SizesCoincide` | crates/oxillama-cli/src/quantize.rs:518-530 | for any number of dimensions with a 64-bit element count, a successful `row_bytes` is the file format's rounded-up size, modulo 2^64 only where the writer refuses the tensor anyway |
| `TypeSelect.UseMoreBitsPatternIff` | crates/oxillama-cli/src/quantize/type_select.rs:157-159 | the first and the last eighth of the layers and exactly one of any three consecutive layers between them get more bits, if and only if seven times the layer count fits in an `i32` |
| `TypeSelect.TypeSelector.Select` | crates/oxillama-cli/src/quantize/type_select.rs:242-384 | picks the mixture's type for the current counters and moves them as the selection step says; a layer that cannot be read leaves them alone |
| `TypeSelect.TypeSelector.constructor` | crates/oxillama-cli/src/quantize/type_select.rs:196-206 | a selector starts with all its counters at zero |
| `TypeSelect.CountersCountBranches` | crates/oxillama-cli/src/quantize/type_select.rs:242-384 | over any run of calls each counter is the number of tensors of its own arm so far, so a type depends on the order only through that number |
| `TypeSelect.RunAt` | crates/oxillama-cli/src/quantize/type_select.rs:242-384 | a successful run picks one type per tensor, each by one step from the number of tensors of each arm before it |
| `Mixtures.PromotedLayers` | crates/oxillama-cli/src/quantize/type_select.rs:151-159 | the first and the last eighth of the layers are promoted, and exactly one of any three consecutive layers between them |
| `Mixtures.DenseFfnDown` | crates/oxillama-cli/src/quantize/type_select.rs:304-346 | in a dense model the k-th ffn_down of the file is treated as layer k: with Q4_K_M and Q5_K_M it gets 6 bits in the promoted layers and the default elsewhere; likewise for every other target, falcon included |
| `Mixtures.MoeFfnDown` | crates/oxillama-cli/src/quantize/type_select.rs:304-346 | in a mixture-of-experts model the same holds for the layer that the name gives, wherever the tensor is in the file |
| `Mixtures.LayerFromName` | crates/oxillama-cli/src/quantize/type_select.rs:213-233 | a `blk.N.` name yields layer N for every number, and is refused exactly when the model has no such layer |
| `Mixtures.AttnVPicked` | crates/oxillama-cli/src/quantize/type_select.rs:262-299 | the k-th attn_v of the file is promoted against the number of value projections, or as one of the first two or four, or by grouped queries; 70B models raise 3 and 4 bits to 5, 8-expert models use Q8_0 |
| `Mixtures.OutputHeadPicked` | crates/oxillama-cli/src/quantize/type_select.rs:249-260 | the output head, or the embedding that stands in for it, gets 6 bits, or Q8_0 for falcon, indivisible rows and a Q8_0 target |
| `Mixtures.OtherArmsPicked` | crates/oxillama-cli/src/quantize/type_select.rs:300-384 | attn_k changes only in 8-expert models, the fused projection with the medium and large mixtures, and what the mixtures do not name never |
| `Mixtures.AttnOutputPicked` | crates/oxillama-cli/src/quantize/type_select.rs:347-365 | who gets more bits for the attention output, by target, with the exceptions for falcon and 8 experts |
| `Mixtures.MixturesOnlyAdd` | crates/oxillama-cli/src/quantize/type_select.rs:242-384 | no tensor of any run gets fewer bits per weight than the target's default type |
| `Mixtures.FileTypesDistinct` | crates/oxillama-cli/src/quantize/type_select.rs:60-72 | each target has the file type number that llama.cpp gives it, and no two share one |
| `StandardNames.PartTakesItsArm` | crates/oxillama-cli/src/quantize/type_select.rs:249-384 | the eight usual layer weights take their own arms, for every layer number and model |
| `StandardNames.PartIsCandidate` | crates/oxillama-cli/src/quantize/type_select.rs:394-457 | they are candidates exactly if they have two or more dimensions |
| `StandardNames.LeftAlone` | crates/oxillama-cli/src/quantize/type_select.rs:394-457 | a name with an excluded part anywhere in it, one that does not end in weight, and anything with fewer than two dimensions is never a candidate |
| `StandardNames.LayerDown` | crates/oxillama-cli/src/quantize/type_select.rs:327-337 | in a dense model in layer order, `blk.k.ffn_down.weight` gets Q6_K with Q4_K_M exactly for the promoted k |
| `TypeSelect.SelectedTypeEncodes` | crates/oxillama-cli/src/quantize/type_select.rs:242-384 | every default type and every type the mixture can pick has an encoder |
| `TypeSelect.FallbackFits` | crates/oxillama-cli/src/quantize/type_select.rs:479-496 | after the fallback, the type in use is encodable and the unsigned row length is a whole number of its blocks; the refusals occur only for rows that are not |
| `GgufWriter.DataWriter.constructor` | crates/oxillama-gguf/src/writer.rs:239-268 | a data writer starts before the first declared tensor with nothing streamed |
| `GgufWriter.DataWriter.WriteTensor` | crates/oxillama-gguf/src/writer.rs:295-362 | accepts exactly the next declared name with exactly the declared length while the offset fits; appends data and padding, keeps the order of the error checks, does not advance on an error, and a refused tensor leaves the written bytes alone unless only the offset overflowed |
| `GgufWriter.DataWriter.Finish` | crates/oxillama-gguf/src/writer.rs:406-418 | hands out the section if and only if every declared tensor was delivered |
| `GgufWriter.StreamMatchesOffsets` | crates/oxillama-gguf/src/writer.rs:477-490 | the offsets computed from declared sizes before any byte is written are where the streamed tensors really start, nothing written earlier moves, and neighbours share an offset only behind an empty tensor |
| `GgufWriter.StreamPads` | crates/oxillama-gguf/src/writer.rs:325-345 | every tensor starts at a multiple of the alignment, fewer zero bytes than one unit separate neighbours, and nothing follows the last one |
| `GgufWriter.StreamSucceeds` | crates/oxillama-gguf/src/writer.rs:325-345 | once the announced offsets fit in 64 bits, streaming tensors of the declared sizes cannot overflow |
| `GgufWriter.AlignmentPadding` | crates/oxillama-gguf/src/writer.rs:724-734 | the least padding that reaches a multiple of any alignment, and none for alignment zero |
| `Metadata.GetIff` | crates/oxillama-gguf/src/metadata.rs:157-207 | in a table with distinct keys a lookup finds exactly the pairs stored |
| `Metadata.GetOrderFree` | crates/oxillama-gguf/src/metadata.rs:157-207 | a lookup does not see the order of the table |
| `Metadata.RewriteMetadata` | crates/oxillama-cli/src/quantize.rs:244-289 | the header loop writes the sorted, rewritten pairs followed by the missing quantization keys |
| `Metadata.RewriteMeaning` | crates/oxillama-cli/src/quantize.rs:250-289 | a reader of the output finds the two quantization keys always, the alignment rewritten if and only if it was there, and every other key exactly as in the input |
| `Metadata.RewriteAgain` | crates/oxillama-cli/src/quantize.rs:244-289 | a second rewrite changes no value and adds no key; it only sorts |
| `Metadata.RewriteIdempotentAsTable` | crates/oxillama-cli/src/quantize.rs:244-289 | every lookup gives the same after a second rewrite as after the first |
| `Metadata.HeaderOrderStableIff` | crates/oxillama-cli/src/quantize.rs:246-289 | the written order of the header survives a second rewrite if and only if no added key sorts in front of one already there |
| `Metadata.HeaderOrderUnstableExample` | crates/oxillama-cli/src/quantize.rs:246-289 | the header of an ordinary unquantized model is laid out differently by a second rewrite |
| `Quantize.ReadModelInfo` | crates/oxillama-cli/src/quantize.rs:355-389 | one pass over the table collects the hyper-parameters, with defaults, the output-head flag and the value-projection count in 32-bit arithmetic |
| `Quantize.InfoFromTable` | crates/oxillama-cli/src/quantize.rs:355-389 | which metadata key feeds which hyper-parameter, in any integer width, and what replaces an absent one |
| `Quantize.InfoFromTensors` | crates/oxillama-cli/src/quantize.rs:355-389 | the model has its own output head if a tensor has that name, and one value projection per tensor named as such |
| `Quantize.PlanTensor` | crates/oxillama-cli/src/quantize.rs:409-511 | one round of planning takes the decision the planning step prescribes for the selector's current state, and leaves the selector in the next state |
| `Quantize.BuildPlan` | crates/oxillama-cli/src/quantize.rs:392-515 | the planning loop, for any iteration order of the table, is the fold of the planning step over the file order, stopping at the first refusal |
| `Quantize.FileOrderTotal` | crates/oxillama-cli/src/quantize.rs:398-407 | with distinct names, offset then name is a total order in which no two tensors tie |
| `Quantize.PlanIgnoresHashOrder` | crates/oxillama-cli/src/quantize.rs:398-407 | two iteration orders of the same metadata and tensor tables give the same hyper-parameters and the same plan or refusal |
| `Quantize.PlanCoversTensors` | crates/oxillama-cli/src/quantize.rs:409-514 | a plan has one entry per tensor, in file order, with that tensor's name, shape, type and size |
| `Quantize.PlanNamesEachTensorOnce` | crates/oxillama-cli/src/quantize.rs:398-514 | every tensor of the table has exactly one entry in the plan |
| `Quantize.PlanEntriesSound` | crates/oxillama-cli/src/quantize.rs:432-511 | a copy keeps type and size; an encode has an encoder, a row of whole blocks and the exact size modulo 2^64 |
| `Decisions.FallbackRule` | crates/oxillama-cli/src/quantize/type_select.rs:460-496 | a row of whole blocks keeps its type; otherwise 4-, 5- and 6-bit K types give way to Q5_0, Q5_1 and Q8_0, or to F16 where those do not fit, and every other type is refused |
| `Decisions.PlanDecided` | crates/oxillama-cli/src/quantize.rs:409-511 | every entry ends at its target if the tensor is a candidate and at its own type otherwise, and is re-encoded exactly if it is a candidate and not there yet, or by force; the target is what the run of selections over the earlier candidates, and the fallback, give |
| `Decisions.FileOrder` | crates/oxillama-cli/src/quantize.rs:398-407 | plans go by offset, and by name where offsets coincide |
| `Decisions.PureEndsAtDefault` | crates/oxillama-cli/src/quantize.rs:432-436 | with `--pure` every candidate ends at the default type and is copied exactly if it was there and nothing forces it |
| `Decisions.PlanRefusedIff` | crates/oxillama-cli/src/quantize.rs:409-511 | planning fails exactly if some tensor has an unreadable layer, a row its mixture type cannot fall back from, an unpermitted re-encoding, a size beyond 64 bits or a row that is empty or indivisible, and then with such a tensor's reason |
| `Quantize.PossibleRefusals` | crates/oxillama-cli/src/quantize.rs:409-511 | no plan is refused for a missing encoder; layer, IQ4_NL and row refusals need the mixture, indivisible rows need `--pure`, and the re-quantize refusal needs a real run without a flag |
| `Quantize.DryRunPredictsRealRun` | crates/oxillama-cli/src/quantize.rs:466-486 | a real run is planned with plan p if and only if the dry run is and either a flag is set or p re-encodes no quantized tensor |
| `Requantize.RunQuantize` | crates/oxillama-cli/src/quantize.rs:195-347 | a dry run plans and writes nothing; any other run yields the file of metadata, table and section that the plan describes, or the first error |
| `Requantize.StreamPlan` | crates/oxillama-cli/src/quantize.rs:303-331 | driving the streaming writer over the plan gives the section of all payloads, or the first read, codec or length error |
| `Requantize.WriteAllStreams` | crates/oxillama-cli/src/quantize.rs:303-327 | a successful data loop streamed exactly the payloads of the plan, each of its declared size |
| `Requantize.StreamsWriteAll` | crates/oxillama-cli/src/quantize.rs:303-327 | payloads of the declared sizes are all the data loop needs to succeed |
| `Requantize.OutNames` | crates/oxillama-cli/src/quantize.rs:291-295 | the output's table lists the planned tensors in the input's file order, each name once |
| `Requantize.LaidOut` | crates/oxillama-gguf/src/writer.rs:436-490 | declared sizes are payload sizes, and each payload lies at the offset of its table entry |
| `Requantize.OutputHoldsPayloads` | crates/oxillama-gguf/src/parser.rs:154-202 | a copied tensor reads the same from input and output; an encoded one reads back as what the codec makes of its input bytes, its type and shape in the input's table and its type in the output's |
| `TensorFates.EveryFate` | crates/oxillama-cli/src/quantize.rs:303-327 | from file to file, each tensor keeps name and shape; a candidate ends at its target with the codec's bytes if it was not there or force is set; all others keep type and bytes |
| `TensorFates.OutputAligned` | crates/oxillama-cli/src/quantize.rs:254-268 | the output is laid out by the alignment that a reader finds in its metadata, with zero bytes in the gaps |
| `FixedPoint.SameModelInfo` | crates/oxillama-cli/src/quantize.rs:355-389 | a run's output has the same hyper-parameters as its input |
| `FixedPoint.PlannedSizesAreDeclared` | crates/oxillama-cli/src/quantize.rs:490-511 | the sizes a plan states are the sizes the writer declares |
| `FixedPoint.OutputInFileOrderIff` | crates/oxillama-cli/src/quantize.rs:398-407 | the output's table is already in planning order if and only if each empty tensor's successor has the larger name |
| `FixedPoint.SecondPlanCopies` | crates/oxillama-cli/src/quantize.rs:398-514 | planning the tensors a plan produced, in plan order, with the same mixture and no force, copies every one with unchanged type and size |
| `FixedPoint.SecondPlan` | crates/oxillama-cli/src/quantize.rs:841-861 | the second run over an output plans the same order and types, all copies |
| `FixedPoint.SecondEmit` | crates/oxillama-cli/src/quantize.rs:291-331 | writing that plan reproduces the tensor table and the data section |
| `FixedPoint.SecondRunReproduces` | crates/oxillama-cli/src/quantize.rs:841-861 | a second run with the same target and mixture and no force, with any codec, succeeds and reproduces table, section and every metadata value |
| `FixedPoint.FixedPointIff` | crates/oxillama-cli/src/quantize.rs:195-347 | a second run returns the identical file if and only if empty tensors are in name order and the first header had no key added out of order |
| `FixedPoint.EmptyTensorsNotReproduced` | crates/oxillama-cli/src/quantize.rs:398-407 | two empty tensors in reverse name order make a run succeed whose output the second run does not reproduce |
| `Float32.Trichotomy` | crates/oxillama-cli/src/dump_logits.rs:316-326 | a value is finite, an infinity or a NaN, and the finite ones lie strictly between the infinities |
| `Float32.OrderIsOfValues` | crates/oxillama-cli/src/dump_logits.rs:328-333 | greater-than and equality of bit patterns are those of the real values they stand for, subnormal numbers and both signs included |
| `Float32.ArgmaxOf` | crates/oxillama-cli/src/dump_logits.rs:314-341 | yields the lowest index of the greatest finite value with the exact number of ties, and nothing if and only if no value is finite |
| `Float32.ArgmaxStep` | crates/oxillama-cli/src/dump_logits.rs:324-335 | one more value changes the answer exactly as the scan's IEEE-754 comparisons decide, NaN and infinities skipped |
| `Float32.ArgmaxUnique` | crates/oxillama-cli/src/dump_logits.rs:314-341 | that description has only one answer |
| `Float32.ArgmaxLowestIndex` | crates/oxillama-cli/src/dump_logits.rs:320-341 | the scan meets that description on every input, NaN and infinities included |
| `Float32.BenchArgmax` | crates/oxillama-bench/src/real_e2e.rs:297-307 | the benchmark's scan, truncated to 32 bits, is the fold `BenchBestMeaning` describes |
| `Float32.BenchBestMeaning` | crates/oxillama-bench/src/real_e2e.rs:297-307 | the benchmark finds the first of the greatest entries above minus infinity, ignoring NaN, or index 0 |
| `Float32.ArgmaxesAgreeIff` | crates/oxillama-bench/src/real_e2e.rs:297-307 | where some logit is finite the two scans agree if and only if none is plus infinity |
| `Float32.EncodeLogits` | crates/oxillama-cli/src/dump_logits.rs:352-355 | the byte loop writes the logits one after another in little-endian order |
| `Float32.FileBytesInjective` | crates/oxillama-cli/src/dump_logits.rs:343-363 | a logit file has four bytes per logit and determines every bit of them |
| `Float32.FileBytesAt` | crates/oxillama-cli/src/dump_logits.rs:352-355 | logit i is bytes 4i to 4i+3 of the file, least significant first |
| `TokenList.ParseTokenIds` | crates/oxillama-cli/src/dump_logits.rs:294-312 | the loop returns the tokens of all fields, or the error of the first bad one |
| `TokenList.AcceptedIff` | crates/oxillama-cli/src/dump_logits.rs:294-312 | a list is accepted if and only if each field is a number below 2^32 or a blank at either end |
| `TokenList.FirstBadFieldBlamed` | crates/oxillama-cli/src/dump_logits.rs:294-312 | a rejected list is rejected for its first bad field, blank inside or not a `u32` |
| `TokenList.SplitJoin` | crates/oxillama-cli/src/dump_logits.rs:296-296 | splitting at commas undoes joining with commas |
| `TokenList.PrintedListParsesBack` | crates/oxillama-cli/src/dump_logits.rs:284-312 | every list of `u32` values parses back to itself in any layout: white space around numbers, leading or trailing comma |
| `TokenList.ParsePrintParse` | crates/oxillama-cli/src/dump_logits.rs:284-312 | printing an accepted list plainly and parsing again gives the same list |
| `DumpLogits.PrefillPrompt` | crates/oxillama-cli/src/dump_logits.rs:251-271 | the batches are handed to the engine in order at their own positions; on success the engine has heard exactly those calls, holds the prompt, and the last batch's logits are returned |
| `DumpLogits.BatchesConcat` | crates/oxillama-cli/src/dump_logits.rs:257-263 | batches are non-empty, no longer than the chunk, and concatenate to the prompt |
| `DumpLogits.BatchPositions` | crates/oxillama-cli/src/dump_logits.rs:262-269 | a batch's start position is the number of tokens consumed before it |
| `DumpLogits.PrefillAnswersLastBatch` | crates/oxillama-cli/src/dump_logits.rs:261-270 | for every model, a chunked prefill fails if and only if some batch boundary cannot be evaluated, and otherwise returns the model's answer to the whole sequence of batches |
| `DumpLogits.BatchInvariantIff` | crates/oxillama-cli/src/dump_logits.rs:252-256 | a model ignores every split of every batch, then and later, if and only if it ignores each single boundary between two batches |
| `DumpLogits.ChunkedPrefillIsOneShot` | crates/oxillama-cli/src/dump_logits.rs:251-271 | for a batch-invariant model, any prompt and any chunk size, the logits are those of one pass over the prompt, unless some prefix of whole batches cannot be evaluated |
| `DumpLogits.DumpDir.WriteLogitsFile` | crates/oxillama-cli/src/dump_logits.rs:348-363 | exactly one file changes, to the little-endian logits |
| `DumpLogits.CheckOptions` | crates/oxillama-cli/src/dump_logits.rs:377-400 | empty prompts, no steps, too many forced tokens and tokens outside the vocabulary are refused in this order, before the engine is touched |
| `DumpLogits.DumpOneStep` | crates/oxillama-cli/src/dump_logits.rs:398-452 | one step of the loop is the step function; it writes its own file unless the logits have the wrong length, even when it fails later, and no other |
| `DumpLogits.DumpSteps` | crates/oxillama-cli/src/dump_logits.rs:369-459 | the loop computes the iterated step; on success the engine was reset once and since then has heard exactly the batched prompt and one decode per emitted token but the last, at consecutive positions; only step files are ever touched |
| `DumpLogits.StepFileInjective` | crates/oxillama-cli/src/dump_logits.rs:405-405 | different steps have different file names |
| `DumpLogits.WholeRunMeaning` | crates/oxillama-cli/src/dump_logits.rs:402-458 | a run of n steps has n records; record k names step k, position prompt length - 1 + k, its file, the lowest index, value and ties of the greatest finite logit, the emitted token, and whether it was forced or ends generation; the file holds the logits the model gives after the batched prompt and the first k tokens; forced tokens come first, the end-of-generation index is the least one or -1, and no other file changes |
| `DumpRuns.RunDraws` | crates/oxillama-cli/src/dump_logits.rs:402-430 | a successful run takes its sampler from the given state to the final one: forced steps leave it alone, and each free step draws its token from the logits in its file and the tokens so far, handing the new state on |
| `DumpRuns.PromptCut` | crates/oxillama-cli/src/dump_logits.rs:257-263 | a chunk size cuts the prompt into full chunks and a remainder; zero, or a size beyond the prompt, leaves it whole |
| `DumpRuns.RefusalMeans` | crates/oxillama-cli/src/dump_logits.rs:377-400 | nothing is refused up front but an empty prompt, no steps, too many forced tokens, and the first token outside the vocabulary |
| `DumpRuns.FailedRunMeans` | crates/oxillama-cli/src/dump_logits.rs:402-457 | a run that fails behind its prefill fails at one step behind a successful run, for the reason its error names |
| `DumpLogits.StepFilesAgreeIff` | crates/oxillama-cli/src/dump_logits.rs:402-458 | where two runs of any models have emitted the same k tokens, their files of step k are byte-identical if and only if the models give the same logits for what they were handed so far |
| `DumpLogits.AgreeingRunsShareSteps` | crates/oxillama-cli/src/dump_logits.rs:45-52 | two runs whose first m tokens agree, with the prompt in the same batches or a batch-invariant model, have identical files and argmax on steps 0 to m, whatever their samplers and forced lists |
| `DumpLogits.SharedForcingSharesSteps` | crates/oxillama-cli/src/dump_logits.rs:45-52 | two runs forced along the same m tokens, batched alike or under a batch-invariant model, agree on step files 0 to m |
| `DumpLogits.ReplaySteps` | crates/oxillama-cli/src/dump_logits.rs:402-458 | forcing any steps along their own tokens, batched alike or under a batch-invariant model, reproduces files, records, tokens and end-of-generation index, under any sampler |
| `DumpLogits.ReplayReproduces` | crates/oxillama-cli/src/dump_logits.rs:369-459 | whatever ids a sampler may return, replaying a successful run from its emitted ids with the same chunk size reproduces it if they are all in the vocabulary, and is refused as an invalid forced token otherwise |
| `DumpLogits.ReplayAlwaysReproduces` | crates/oxillama-cli/src/dump_logits.rs:402-458 | as a sampler returns indices of the logits, of which a step demands one per token, replaying any successful run from its emitted ids reproduces files, records, tokens and end-of-generation index |
| `DumpLogits.ChunkSizeShowsIff` | crates/oxillama-cli/src/dump_logits.rs:369-459 | for every model, a whole run with another chunk size has the same outcome as a successful run if and only if every boundary of its own batching can be evaluated and the model answers both batchings alike at each step of that run |
| `DumpLogits.ChunkSizeNeverShows` | crates/oxillama-cli/src/dump_logits.rs:369-459 | for a batch-invariant model two whole runs that differ only in chunk size have the same outcome whenever both prefills can be evaluated |
| `DumpLogits.ChunkSizeShows` | crates/oxillama-cli/src/dump_logits.rs:252-260 | for any prompt and any two chunk sizes that cut it differently, a model with two successful dumps and different files |
| `DumpLogits.InterchangeableIff` | crates/oxillama-cli/src/dump_logits.rs:257-260 | two chunk sizes give the same run for a prompt, for every model, options and directory, if and only if they cut it into batches of one length |
| `HttpSource.Open` | crates/oxillama-gguf/src/http_source.rs:67-109 | a source exists if and only if both the length and the warm-up request succeed, with the cursor at zero |
| `HttpSource.OpenConsistent` | crates/oxillama-gguf/src/http_source.rs:67-109 | whatever an allowed server answers, the cached header is a prefix of the remote bytes |
| `HttpSource.HttpRangeSource.ReadExact` | crates/oxillama-gguf/src/http_source.rs:121-170 | buffer, cursor and the request made are those of the read step: filled and advanced on success, both untouched on any error |
| `HttpSource.HttpRangeSource.Seek` | crates/oxillama-gguf/src/http_source.rs:172-178 | moves to any position up to the length, and refuses others without moving |
| `HttpSource.FetchAll` | crates/oxillama-gguf/src/http_source.rs:198-211 | loading from a URL is opening and one read of the announced length |
| `HttpSource.ReadIsSlice` | crates/oxillama-gguf/src/http_source.rs:121-170 | a successful read is the plain slice at the cursor, whether served by the cache, the range, or a whole body; errors leave the cursor alone and it never passes the length |
| `HttpSource.ReadFailsIff` | crates/oxillama-gguf/src/http_source.rs:121-170 | exactly when a read fails, and with which error at which offset |
| `HttpSource.RequestIff` | crates/oxillama-gguf/src/http_source.rs:137-153 | exactly which reads make a request, and for which bytes |
| `HttpSource.HeaderReadsAreLocal` | crates/oxillama-gguf/src/http_source.rs:67-109 | opened against a faithful server, the first 128 KiB are read without another request |
| `HttpSource.ReadsRightIff` | crates/oxillama-gguf/src/http_source.rs:143-165 | every non-empty read against every allowed server is right if and only if the announced length is not overstated, or there is nothing to read |
| `HttpSource.SessionIsSliceExceptFailures` | crates/oxillama-gguf/src/http_source.rs:121-182 | over any session and any allowed server each outcome is the in-memory source's at that cursor, or a failed read that moved nothing |
| `HttpSource.ExactSessionIsSlice` | crates/oxillama-gguf/src/source.rs:82-115 | over any session, and any announced length up to the real one, an exact server is indistinguishable from that many bytes in memory: same successes, failures and bytes |
| `HttpSource.FetchedIsPrefix` | crates/oxillama-gguf/src/http_source.rs:198-211 | whatever length is announced, a URL load that succeeds has exactly that many of the first remote bytes; it is the whole file if and only if the announced length is the real one |
| `HttpSource.UnderstatedLengthLoads` | crates/oxillama-gguf/src/http_source.rs:198-211 | an announced length of two on three remote bytes loads two bytes without an error |
| `Integrity.HashedSizeIsDataSize` | crates/oxillama-gguf/src/integrity.rs:52-64 | the recorded size is both the declared size and the number of hashed bytes; hashing fails only where slicing does |
| `Integrity.ComputeModelManifest` | crates/oxillama-gguf/src/integrity.rs:72-100 | the loop yields the hashes in name order, their combined hash and the saturated total, or the first slicing error |
| `Integrity.ManifestIgnoresOrder` | crates/oxillama-gguf/src/integrity.rs:75-77 | the manifest, or the refusal, does not depend on the store's iteration order |
| `Integrity.ManifestSeesOnlyTensors` | crates/oxillama-gguf/src/integrity.rs:195-234 | bytes outside every tensor's range do not influence the manifest |
| `Integrity.CombinedDeterminesHashes` | crates/oxillama-gguf/src/integrity.rs:88-93 | what the combined hash is fed determines the number of tensors and every one of their hashes |
| `Integrity.CombinedAt` | crates/oxillama-gguf/src/integrity.rs:88-93 | the combined hash is fed the hashes in order, 32 bytes each |
| `Integrity.TotalSizeAdds` | crates/oxillama-gguf/src/integrity.rs:79-86 | the total is additive over the listed tensors |
| `Integrity.ManifestLists` | crates/oxillama-gguf/src/integrity.rs:72-100 | a manifest lists for each tensor, and nothing else, its name, exact size and the hash of exactly its bytes, with their combined hash and saturated total |
| `Integrity.ManifestAscending` | crates/oxillama-gguf/src/integrity.rs:75-86 | a manifest lists each tensor once, in strictly increasing name order |
| `Integrity.VerifyModel` | crates/oxillama-gguf/src/integrity.rs:124-153 | the two loops compute the failures against the last listed hash of each name |
| `Integrity.VerificationExact` | crates/oxillama-gguf/src/integrity.rs:124-153 | reports, in strictly increasing name order, precisely the shared tensors whose hash differs |
| `Integrity.ReportedIff` | crates/oxillama-gguf/src/integrity.rs:134-150 | a failure is reported exactly for a tensor whose last listed hash under its name differs from its present one, and states both |
| `Integrity.CleanIffSameHashes` | crates/oxillama-gguf/src/integrity.rs:124-153 | nothing is reported against a manifest of other bytes if and only if every hash agrees; never anything against one's own |
| `Integrity.CleanIffSameBytes` | crates/oxillama-gguf/src/integrity.rs:124-153 | unless two of the tensors' contents collide, a clean verification is the same as unchanged tensor bytes |
| `HashEntries.HashToHex` | crates/oxillama-gguf/src/integrity.rs:156-163 | prints the hash as lower-case base16 |
| `HashEntries.HexToBytes32` | crates/oxillama-gguf/src/integrity.rs:345-362 | decodes 64 characters of either case into 32 bytes, or rejects at a character that is not a hex digit |
| `HashEntries.UnhexOfHex` | crates/oxillama-gguf/src/integrity.rs:345-362 | decoding inverts printing |
| `HashEntries.HexOfUnhex` | crates/oxillama-gguf/src/integrity.rs:156-163 | printing what was decoded gives the lower-case form of the input |
| `HashEntries.NibblesAreDigits` | crates/oxillama-gguf/src/integrity.rs:355-362 | digits print and read as their place in 0123456789abcdef, reading either case and nothing else |
| `HashEntries.UnhexAt` | crates/oxillama-gguf/src/integrity.rs:345-353 | byte k of a decoded string is characters 2k and 2k+1 |
| `HashEntries.EntryAcceptedIff` | crates/oxillama-gguf/src/integrity.rs:285-304 | an entry is accepted exactly if it is a name, a colon and 64 hex digits; the name is all before, the hash what the digits spell |
| `HashEntries.EntriesIff` | crates/oxillama-gguf/src/integrity.rs:279-306 | a table is built exactly if every element is an entry, and holds the last one under each name |
| `HashEntries.ValidatorIff` | crates/oxillama-gguf/src/integrity.rs:267-309 | there is no validator exactly without the key, and otherwise one exactly for an array of entries |
| `HashEntries.ReadEntry` | crates/oxillama-gguf/src/integrity.rs:279-304 | an entry is split at its last colon and checked in the order string, colon, length, digits |
| `HashEntries.FromMetadata` | crates/oxillama-gguf/src/integrity.rs:267-309 | an absent key is no validator; otherwise the table of all entries, later ones replacing earlier ones, or the first error |
| `HashEntries.EntryRoundTrip` | crates/oxillama-gguf/src/integrity.rs:285-304 | every name, colons included, and every hash survive printing and parsing |
| `HashEntries.PrintedEntriesParse` | crates/oxillama-gguf/src/integrity.rs:267-309 | a printed array of entries rebuilds the table of its pairs |
| `HashEntries.PrintedEntriesValidate` | crates/oxillama-gguf/src/integrity.rs:316-331 | with distinct names, a blob under a listed name is accepted if and only if its hash is the listed one, and unlisted names always pass |
| `Verify.VerifyTensors` | crates/oxillama-cli/src/verify.rs:90-129 | the loop returns the first complaint in iteration order |
| `Verify.ComplaintIff` | crates/oxillama-cli/src/verify.rs:90-129 | the size cross-check never fires, and a tensor passes if and only if it lies inside the file in exact arithmetic |
| `Verify.AcceptsIff` | crates/oxillama-cli/src/verify.rs:90-129 | a file passes if and only if every tensor lies inside it |
| `Verify.VerifiesIffManifest` | crates/oxillama-gguf/src/integrity.rs:72-86 | the bounds checks pass if and only if a hash manifest can be computed for the file |
| `Verify.RequantizedFileVerifies` | crates/oxillama-cli/src/verify.rs:90-129 | what re-quantization writes passes verification behind a header of any length |
| `Chat.Repl.constructor` | crates/oxillama-cli/src/main.rs:540-549 | a chat starts from an empty session of the current model seeded with the initial system prompt |
| `Chat.Repl.SeedSystemMessage` | crates/oxillama-cli/src/chat_template.rs:33-47 | the in-place removal and insertion leave at most one leading system message, the current one, and the rest as it was |
| `Chat.Repl.Handle` | crates/oxillama-cli/src/main.rs:587-675 | one line does to session, prompt, files, engine and log exactly what the command it parses to prescribes |
| `Chat.Repl.Loop` | crates/oxillama-cli/src/main.rs:579-675 | the read loop is the run of the parsed lines, ending at a quit or a failed generation |
| `Commands.TypedCommandParses` | crates/oxillama-cli/src/main.rs:587-645 | every command's typed form, in any white space, means that command |
| `Commands.ParsedIsTypable` | crates/oxillama-cli/src/main.rs:587-645 | every line means a command that can be typed: arguments are not empty and have lost their outer white space |
| `Chat.SeedWellFormed` | crates/oxillama-cli/src/chat_template.rs:33-47 | seeding keeps the turns, keeps the shape and makes the leading system message the given one or none |
| `Chat.ReseedingReplaces` | crates/oxillama-cli/src/chat_template.rs:33-47 | seeding twice is seeding once with the second prompt |
| `Chat.ObeyKeepsOk` | crates/oxillama-cli/src/main.rs:594-674 | every command keeps the invariant and the process's sampler settings, except that a failed generation ends with the one unanswered message its prompt was rendered from |
| `Chat.SayKeepsOk` | crates/oxillama-cli/src/main.rs:644-674 | each generation starts from an empty engine context with a prompt rendered from the transcript alone, and its answer completes a pair |
| `Chat.EveryEffect` | crates/oxillama-cli/src/main.rs:594-674 | a reset leaves no turns, an empty engine and the current prompt; a new system prompt keeps the turns; a save changes one file, if it can; a load puts a snapshot of this schema and model there; a turn adds the question and the answer; and nothing else changes |
| `Chat.RunsKeepOk` | crates/oxillama-cli/src/main.rs:579-675 | after any run of commands, ended or not, the transcript is at most one leading system message and whole user/assistant pairs, with one unanswered message behind it only if the model failed; the model id is the original one, and every generation so far was from a clean context |
| `Chat.FreshOk` | crates/oxillama-cli/src/main.rs:540-549 | the invariant holds at the start |
| `Chat.TemplateSeesTranscript` | crates/oxillama-cli/src/chat_template.rs:54-65 | the template sees exactly the messages that are not empty replies, and the whole transcript if and only if there are none |
| `Chat.TurnsAppend` | crates/oxillama-cli/src/chat_template.rs:54-65 | the template sees messages in transcript order |
| `Chat.SaveThenLoadRestores` | crates/oxillama-cli/src/session.rs:147-192 | saving, any commands that do not save to the same file under any spelling, and loading restore the session as it was saved |
| `Chat.ContextNeverShows` | crates/oxillama-cli/src/main.rs:644-663 | whatever the engine still holds from earlier turns, loads or resets, the same commands give the same sessions, files, prompts and replies over whole runs |
| `Chat.ResumingIsContinuing` | crates/oxillama-cli/src/main.rs:625-663 | with a deterministic model, saving, starting afresh with the same system prompt and sampler settings and loading continues exactly as if the chat had never stopped |
| `Chat.RecordedSamplerUnread` | crates/oxillama-cli/src/main.rs:560-565 | a load restores the recorded sampler settings, yet the resumed turn gets the reply for the settings the new process was started with |
| `Chat.SamplerMustMatchIff` | crates/oxillama-cli/src/main.rs:540-565 | a resumed turn equals the uninterrupted one for every deterministic model and every session if and only if the new process is started with the same sampler settings |
| `Chat.HeadIsCurrentIff` | crates/oxillama-cli/src/main.rs:598-642 | says for every command when the transcript opens with the current system prompt afterwards |
| `Chat.LoadKeepsCurrentPrompt` | crates/oxillama-cli/src/main.rs:622-640 | a load can leave the transcript opening with another prompt than the current one, which a reset brings back |
| `Registry.ArchitectureRegistry.RegisterWithAliases` | crates/oxillama-arch/src/registry.rs:159-168 | enters aliases only where free and the own id always |
| `Registry.ArchitectureRegistry.Register` | crates/oxillama-arch/src/registry.rs:147-152 | registers without aliases, replacing an earlier owner of the id |
| `Registry.ArchitectureRegistry.Get` | crates/oxillama-arch/src/registry.rs:190-197 | returns what the table holds for the key, or the unknown-architecture error |
| `Registry.LookupLaw` | crates/oxillama-arch/src/registry.rs:147-168 | after any registrations a key resolves to the last one that owns it, else to the first that lists it as an alias, else to nothing |
| `Registry.OwnIdsSurvivePermutation` | crates/oxillama-arch/src/registry.rs:154-168 | with distinct own ids, each resolves to its implementation in every order of registration |
| `Registry.AliasOrderFreeIff` | crates/oxillama-arch/src/registry.rs:159-168 | over any registrations, a key none of them owns resolves alike in every order if and only if all that list it carry one implementation |
| `Registry.OwnerOrderFreeIff` | crates/oxillama-arch/src/registry.rs:159-168 | a key that some registration owns resolves alike in every order if and only if all its owners carry one implementation, whatever aliases list it |
| `Registry.AliasesPartitionKeys` | crates/oxillama-arch/src/registry.rs:170-182 | alias sets contain their own key and are equal or disjoint according to the shared implementation |
| `Registry.AliasesShareImplementation` | crates/oxillama-arch/src/registry.rs:170-182 | after any registrations, the aliases of an id are exactly the keys resolving to its shared implementation, and none for an unknown id |
| `Memory.MemoryProfiler.Record` | crates/oxillama-bench/src/memory.rs:318-321 | appends one sample |
| `Memory.MemoryProfiler.PeakBytes` | crates/oxillama-bench/src/memory.rs:326-332 | scans for the greatest sample, with the baseline if there is none |
| `Memory.MemoryProfiler.PercentileBytes` | crates/oxillama-bench/src/memory.rs:338-348 | takes the nearest-rank entry of the sorted samples, with the baseline if there is none |
| `Memory.MemoryProfiler.MakeReport` | crates/oxillama-bench/src/memory.rs:351-359 | reports peak, median and 99th percentile of the same samples |
| `Memory.PercentileIsNearestRank` | crates/oxillama-bench/src/memory.rs:338-348 | for each percentage above 0 and up to 100, whole or not, the result is a recorded value with at least that share of samples at or below it, and no smaller value has that |
| `Memory.PercentileIgnoresOrder` | crates/oxillama-bench/src/memory.rs:338-348 | a percentile does not depend on the recording order |
| `Memory.PercentileMonotone` | crates/oxillama-bench/src/memory.rs:338-348 | a larger percentage, of any sign and size, never gives a smaller value |
| `Memory.PeakIsGreatest` | crates/oxillama-bench/src/memory.rs:326-332 | the peak is a recorded value and no sample exceeds it |
| `Memory.TopPercentileIsPeak` | crates/oxillama-bench/src/memory.rs:326-348 | from the 100th percentile on the result is the peak, also without samples |
| `Memory.BottomPercentileIsLeast` | crates/oxillama-bench/src/memory.rs:338-348 | at and below zero percent the result is the least recorded value |
| `Power.DeltaIsAdvance` | crates/oxillama-bench/src/power.rs:286-298 | if the true counter advances by at most the limit, the delta is that advance, across a wrap or not |
| `Power.DeltaIsAdvanceIff` | crates/oxillama-bench/src/power.rs:281-298 | the delta is the true advance if and only if that is at most the limit |
| `Power.EnergyConserved` | crates/oxillama-bench/src/power.rs:265-298 | over any run the deltas add up to the total advance, however often the counter wrapped |
| `Power.ReadEnergy` | crates/oxillama-bench/src/power.rs:234-244 | the loop over the domains yields their sum, saturated once at 64 bits |
| `Power.DomainsIff` | crates/oxillama-bench/src/power.rs:232-298 | for the sums of any number of domains with one limit, advancing by any amounts, the delta is the true advance if and only if no counter wraps, or one does, once, while total advance and earlier sum stay within the limit |

## Left out

- The GGUF header bytes and the parser: a file is its metadata, table and data section; parsing limits, type tags and string encoding are not part of this model.
- The tensor codecs and their rounding: a codec is an arbitrary partial function; that an encoder produces the declared number of bytes is not claimed, the writer refuses it otherwise.
- Progress output, totals for display, warnings and wall-clock times of `quantize`, `verify` and the dump.
- `write_tensor_from_chunks` and the buffered writer: the re-quantizer uses neither.
- `manifest.json` of a dump, detokenization and command-line defaults.
- Failing file writes in the dump and in `quantize`: a file either receives all its bytes or the run has already failed for another reason.
- The parse of a fetched GGUF file; retries, time-outs, redirects and header syntax of HTTP.
- `TensorStore` mutation, `set_type` and duplicate insertion: a table is given with distinct names.
- `format_manifest`, `verify_tensor` and the SHA-256 side of `verify`: single expressions over what is modelled.
- Interactive history, printing, streaming of tokens, Ctrl-C and the sampler settings of the chat loop; the terminal user interface.
- The atomic rename of a saved session and its binary encoding: a save either replaces the whole snapshot or changes nothing.
- `contains`, `list`, `len` of the registry and the table of built-in architectures.
- `PercentileBytes`: takes a real percentage and multiplies exactly; floating-point rounding, NaN and infinite percentages are not modelled.
- Time stamps of memory samples.
- Power domains with different limits, and reading the counter files.
- `DomainsIff`: assumes that the counters and the advances together fit in 64 bits, so that no sum of readings saturates; hardware counters have 32 bits.
- `ChunkSizeNeverShows`: supposes both prefills succeed or both fail, since a smaller chunk asks the model at more boundaries, and any of them may fail.
- Benchmark timing, regression gates, the HTTP server, GPU buffers, downloads and configuration files.
