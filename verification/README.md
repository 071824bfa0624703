# RAFTInfer host components: a Dafny model

RAFTInfer runs Qwen3.5 models from GGUF files. Its C++ library maps the file, derives a
configuration, locates the tensors, keeps session state and dispatches kernels; a CPU reference
defines what a forward pass computes; a Rust runtime tokenizes text and drives generation. This
project models those parts and proves what they promise to each other.

- **CPU reference network** (`Scalars`, `Matrix`, `Kernels`, `Attention`, `FullAttention`,
  `DeltaNet`, `DeltaLoops`, `DeltaStep`, `DeltaRuns`, `ReferenceNetwork`, `ReferenceExecutor`, `Causality`,
  `PayloadSpace`, `ShapeSafety`, `WeightSources`, `HalfFloats`, `ModelExecution`). The loops over flat buffers
  are methods over arrays, proved against functions on rows. A scalar is the record of the
  operations that produced it, so equalities hold operation for operation.
- **What the network computes** (`Readings`, `RealNetwork`, `RealKernels`, `RealAttention`, `RealDelta`,
  `RealExecution`, `AttentionLaws`, `RelativePositions`, `DeltaRule`). Scalars read as real numbers, with the
  functions of the C library given only by laws. `RealNetwork` writes the network down from the definitions of its
  parts; packing, scratch buffers, running state, shifted exponentials and the transposed weight are proved to
  compute it. Attention weights form a distribution, rotation keeps lengths and sees only differences of positions,
  and the delta rule contracts.
- **GGUF catalog, configuration, manifest** (`Gguf`, `Parsing`, `GgufParse`, `GgufRoundTrip`,
  `GgufReader`, `GgufCatalog`, `GgufFile`, `GgufKeys`, `Qwen35Config`, `Qwen35Fields`, `Qwen35Manifest`,
  `ModelFile`). The
  reader accepts exactly the files of GGUF version 3 ("File Structure" in the GGUF specification)
  that keep its limits.
- **Tokenizer** (`Utf8`, `ByteMaps`, `Parts`, `Bpe`, `Pretokenize`, `Segmentation`, `Tokenizer`,
  `SpecMetadata`, `TokenizerBuilder`, `TokenizerRoundTrip`, `TokenizerMeaning`). Text is a sequence of Unicode scalar
  values; the Unicode properties of a character are a parameter of which only `Sound` is assumed:
  line ends are white space, and lower-casing yields the letters of the contractions only from ASCII.
- **Tokenizer specification between C++ and Rust** (`WireFormat`, `WireRoundTrip`, `SpecWriter`,
  `SpecReader`, `WireTransfer`, `LexOrder`).
- **Run-time state machines** (`StateLayout`, `StateFits`, `HostState`, `Session`, `Generation`, `Registry`,
  `Workspace`).
- **Inputs on which a promise fails, and files spelled out** (`Witnesses`, `LoadedWitness`, `FormatExamples`).

Verify with `dafny verify dfyconfig.toml`.

Results where a promise does not hold unconditionally:

- Decoding an encoded text does not always give it back. A merged part that is also a protected
  token is decoded as text rather than through the byte table; if it has a character outside ASCII
  the result differs. `TokenizerRoundTrip.RoundTrip` states exactly when, `ClashingFails` gives an
  input, `Witnesses.ClashingBuilt` a specification that leads to it, `SafeRoundTrip` a condition on
  the vocabulary.
- Loading a model does not make it runnable. The configuration never compares the SSM inner size
  with the hidden size; the linear mixer does, at run time (`ShapeSafety.WeightsFit`). `Witnesses.MetaDerives` gives metadata
  that is accepted although they differ, and `LoadedWitness` a loaded model of each kind.
- The runtime rejects a tokenizer specification with text that is not UTF-8, which the GGUF reader
  and the writer let pass (`WireTransfer.TransferAccepted`); `Witnesses.BadTextRefused` gives a file.

## Model

| member | source | states |
|---|---|---|
| `ModelExecution.ExecuteModel` | `cpp/reference/qwen35_executor.cpp:254-331` | on a loaded model a request is answered exactly when it is nonempty, in range and within context, and the SSM inner size equals the hidden size or no layer is linear; the logits are those of the causal network specification and, read over the reals, of the plain network with every weight read from its own tensor of the file; the token is their argmax and fits 32 signed bits |
| `ModelExecution.ExecutionIsCausal` | `cpp/reference/qwen35_executor.cpp:280-330` | the logits of a prefix are final norm and output projection of row p-1 of the run on the longer token list |
| `Causality.StackCausal` | `cpp/reference/qwen35_executor.cpp:280-314` | after every layer the hidden rows of a prefix are the first rows of the longer run |
| `Causality.LayerCausal` | `cpp/reference/qwen35_executor.cpp:280-314` | one layer of either kind, mixer, residuals and feed-forward together, keeps the prefix property |
| `Causality.AttentionCausal` | `cpp/reference/qwen35.cpp:319-381` | attention rows of a prefix are the first attention rows of the whole |
| `Causality.LogitsCausal` | `cpp/reference/qwen35_executor.cpp:280-322` | the logits of a prefix are final norm and projection of that position in the hidden rows of any continuation |
| `ModelExecution.ArgmaxIsFirstMaximum` | `cpp/reference/operators.cpp:46-56` | where the comparison is an order the chosen logit is beaten by none and beats every earlier one |
| `Causality.HiddenCausal` | `cpp/reference/qwen35_executor.cpp:270-314` | embedding and any number of layers: hidden rows of a prefix are the first hidden rows of the whole |
| `ModelExecution.Argmax` | `cpp/reference/operators.cpp:46-56` | the running choice, taken only on a strictly greater logit |
| `ModelExecution.CheckTokens` | `cpp/reference/qwen35_executor.cpp:259-267` | accepts exactly the nonempty, in-context, in-vocabulary token lists |
| `ReferenceExecutor.RunLayer` | `cpp/reference/qwen35_executor.cpp:280-314` | updates the hidden rows in place to the layer specification, and succeeds exactly when weights and buffer sizes fit |
| `ReferenceExecutor.RunMixer` | `cpp/reference/qwen35_executor.cpp:285-294` | dispatches to the mixer of the layer; succeeds exactly when its weights and sizes fit |
| `ReferenceExecutor.RunLinearMixer` | `cpp/reference/qwen35_executor.cpp:132-189` | four projections packed token by token, run through the recurrence from a zero state and projected, equal the specified mixer rows; succeeds exactly when shapes and sizes fit |
| `ReferenceExecutor.RunFullMixer` | `cpp/reference/qwen35_executor.cpp:191-250` | head-interleaved query and gate, keys, values and the transposed output weight give the specified attention rows; succeeds exactly when shapes and sizes fit |
| `ReferenceExecutor.PackFullRows` | `cpp/reference/qwen35_executor.cpp:208-232` | every packed row is query halves, keys, values, gate halves, in the order the mixer reads them |
| `ReferenceExecutor.PackLinearRows` | `cpp/reference/qwen35_executor.cpp:155-174` | every packed row is convolution input, beta, alpha and output gate |
| `ReferenceExecutor.TransposedProjection` | `cpp/reference/qwen35_executor.cpp:117-130` | projecting with the transposed weight input-major is the ordinary product with the stored weight |
| `ReferenceExecutor.WidthsDoNotWrap` | `cpp/reference/qwen35_executor.cpp:137-144` | under an accepted configuration the 32-bit width products of the mixers are the true products |
| `ShapeSafety.WeightsFit` | `cpp/reference/qwen35_executor.cpp:132-250` | the tensors of a loaded model have the sizes every layer needs, exactly when the inner size agrees with the hidden size |
| `ShapeSafety.LayersDecide` | `cpp/reference/qwen35_executor.cpp:280-314` | every layer of a loaded model runs, for as many rows as a context can hold, exactly when the mixers agree |
| `ShapeSafety.PackedRowsFit` | `cpp/reference/qwen35_executor.cpp:145-155` | no packed buffer of a loaded model whose mixers agree passes 64 bits, because the tensors beside it would not fit a file |
| `PayloadSpace.PayloadsAddUp` | `cpp/model/gguf_reader.cpp:364-398` | payloads of differently named tensors add up to no more than the file |
| `PayloadSpace.FullSpace` | `cpp/model/qwen35_manifest.cpp:90-103` | the query, key and value weights of a full layer fit the file together |
| `PayloadSpace.LinearSpace` | `cpp/model/qwen35_manifest.cpp:108-136` | the projections of a linear layer and the query and output weights of a full one fit the file together |
| `PayloadSpace.SuffixesApart` | `cpp/model/qwen35_manifest.cpp:24-26` | tensors with different suffixes have different names, whatever their blocks |
| `LoadedWitness.SmallModelLoaded` | `cpp/reference/qwen35_executor.cpp:254-331` | two loaded models alike but for the inner size; the mixers agree in one of them only |
| `ShapeSafety.LayerSizes` | `cpp/reference/qwen35_executor.cpp:145-156` | the size checks of one layer hold exactly when its packed rows fit 64 bits |
| `Kernels.Linear` | `cpp/reference/qwen35_executor.cpp:87-107` | row by row the dot products with the stored weight rows; succeeds exactly when both spans match |
| `Kernels.RmsNorm` | `cpp/reference/qwen35.cpp:125-155` | every row normalised over its own elements; rejects a shape mismatch and then writes nothing |
| `Kernels.NormSpan` | `cpp/reference/qwen35.cpp:140-154` | normalises one stretch, also when input and output are the same stretch, and leaves the rest of the buffer alone |
| `Kernels.L2Normalize` | `cpp/reference/qwen35.cpp:157-167` | scales one stretch in place by the inverse square root of its squared length plus epsilon |
| `Kernels.ApplyPartialRope` | `cpp/reference/qwen35.cpp:169-186` | rotates the paired halves of the rotary part in place and leaves the rest |
| `Kernels.TransposeOutputWeight` | `cpp/reference/qwen35_executor.cpp:117-130` | the transposed matrix, or rejection of a wrong size |
| `Kernels.ResidualAdd` | `cpp/reference/qwen35_executor.cpp:109-115` | element-wise sum in place; a length mismatch changes nothing |
| `FullAttention.GatedFullAttention` | `cpp/reference/qwen35.cpp:254-382` | rejects exactly the shape mismatches; otherwise every output row is the causal specification of its own token |
| `FullAttention.LoadTokens` | `cpp/reference/qwen35.cpp:279-314` | queries and keys normalised and rotated at their own position, values copied, for every token |
| `FullAttention.AttendToken` | `cpp/reference/qwen35.cpp:319-381` | one output row is attention over the tokens up to it, whatever the reused scratch buffers held before |
| `FullAttention.AttendHead` | `cpp/reference/qwen35.cpp:321-364` | one head attends over the prefix with its scratch entries beyond the prefix never read |
| `Attention.PrepareHeadsInPlace` | `cpp/reference/qwen35.cpp:298-313` | norm and rotation of consecutive heads in place |
| `Attention.ComputeLogits` | `cpp/reference/qwen35.cpp:328-341` | the scaled dot products of the prefix and their maximum |
| `Attention.Exponentiate` | `cpp/reference/qwen35.cpp:343-349` | shifted exponentials of the prefix and their sum |
| `Attention.Accumulate` | `cpp/reference/qwen35.cpp:355-363` | the probability-weighted mix of the prefix values, added into a zeroed stretch |
| `DeltaStep.GatedDeltaStep` | `cpp/reference/qwen35.cpp:384-526` | a shape mismatch is rejected before any write; otherwise the output row and the whole new state are the step specification |
| `DeltaStep.Step` | `cpp/reference/qwen35.cpp:417-525` | convolution, shift, normalisation, recurrence, read-out, output norm and gate give the specified state and row |
| `DeltaStep.Prefill` | `cpp/reference/qwen35.cpp:528-549` | the state and all output rows are those of the specified run; a mismatch changes nothing |
| `DeltaStep.GatedDeltaState.constructor` | `cpp/reference/qwen35.cpp:236-246` | a fresh state holds zero histories and zero matrices |
| `DeltaLoops.Convolve` | `cpp/reference/qwen35.cpp:417-427` | the convolution of every channel against its history |
| `DeltaLoops.ShiftHistories` | `cpp/reference/qwen35.cpp:429-438` | every channel drops its oldest element and takes the newest input |
| `DeltaLoops.NormalizeHeads` | `cpp/reference/qwen35.cpp:440-457` | query and key heads normalised, queries also scaled, values untouched |
| `DeltaLoops.UpdateHeadSpan` | `cpp/reference/qwen35.cpp:471-506` | decay, read and write loops on the flat buffer update the matrix of one head and touch no other head |
| `DeltaLoops.RecurrentIndex` | `cpp/reference/qwen35.cpp:188-203` | the flat index of a cell is the start of its head plus its place inside the head |
| `DeltaRuns.RunMemoryAppend` | `cpp/reference/qwen35.cpp:528-549` | prefilling xs ++ ys leaves the state of prefilling xs and then ys |
| `DeltaRuns.RunRowsAppend` | `cpp/reference/qwen35.cpp:528-549` | and gives the same output rows |
| `DeltaRuns.RunRowsCausal` | `cpp/reference/qwen35.cpp:528-549` | rows already produced do not depend on tokens still to come |
| `DeltaRuns.HistoryIsTail` | `cpp/reference/qwen35.cpp:429-438` | after any number of steps a history is the last width-1 elements of initial history ++ raw inputs |
| `DeltaRuns.ConvolutionIsSliding` | `cpp/reference/qwen35.cpp:417-438` | the shift-register form equals the sliding causal convolution |
| `DeltaRule.UpdateIsDeltaRule` | `cpp/reference/qwen35.cpp:471-506` | over reals, S' = dS + k(b(v - (dS)^T k))^T cell by cell |
| `DeltaRule.ResidualShrinks` | `cpp/reference/qwen35.cpp:488-506` | over reals, v - S'^T k = (1 - b(k.k))(v - (dS)^T k) |
| `DeltaRule.RecallAfterWrite` | `cpp/reference/qwen35.cpp:500-506` | writing under a key adds the squared key length times the correction to what the key recalls |
| `DeltaRule.NormalizedLength` | `cpp/reference/qwen35.cpp:157-167` | the squared length after normalising is s/(s+eps), below one |
| `DeltaRule.SigmoidRange` | `cpp/reference/qwen35.cpp:35` | the gate lies strictly between zero and one |
| `DeltaRule.StepContracts` | `cpp/reference/qwen35.cpp:459-506` | with its own normalised key and gate no residual component of a head grows or changes sign in a step |
| `RealExecution.LogitsReal` | `cpp/reference/qwen35_executor.cpp:254-331` | read over the reals, the logits of the reference are those of the plain network written from definitions: no packing, state, shift or transposition |
| `RealExecution.LayerReal` | `cpp/reference/qwen35_executor.cpp:280-314` | a layer takes every row where norm, mixer, residual, norm, feed-forward and residual of the plain network take it |
| `RealAttention.FullMixerReal` | `cpp/reference/qwen35_executor.cpp:191-250` | a mixer row is softmax attention of its token over the tokens up to it: heads from the interleaved projection, keys and values of the shared head, gated and projected |
| `RealAttention.HeadReal` | `cpp/reference/qwen35.cpp:319-364` | one head is the mix of the values by the exponentials of the scaled inner products over their sum |
| `RealDelta.LinearMixerReal` | `cpp/reference/qwen35_executor.cpp:132-189` | a mixer row is the delta recurrence from a zero matrix over the causal convolution, read out, normalised, gated and projected |
| `RealDelta.StateReal` | `cpp/reference/qwen35.cpp:459-510` | the state buffer of a head holds the matrix the recurrence defines for the tokens so far |
| `RealDelta.ConvolvedReal` | `cpp/reference/qwen35.cpp:417-438` | tap by tap, the shift register gives the convolution of the projected rows, zero before the first token |
| `RealKernels.RmsReal` | `cpp/reference/qwen35.cpp:140-154` | a row over the root of its mean square plus epsilon, times the weight |
| `RealKernels.FeedForwardReal` | `cpp/reference/qwen35_executor.cpp:296-313` | the gate passed through x times its logistic, times up, projected down |
| `AttentionLaws.SoftmaxIsDistribution` | `cpp/reference/qwen35.cpp:343-353` | for every nonempty list of logits the weights are above zero and sum to one |
| `AttentionLaws.SoftmaxIgnoresShift` | `cpp/reference/qwen35.cpp:328-353` | a weight is the exponential of its logit over the sum of all exponentials; the maximum subtracted first does not show |
| `AttentionLaws.MaxLogitIsLargest` | `cpp/reference/qwen35.cpp:328-341` | what is subtracted is the largest logit |
| `AttentionLaws.OutputBetweenValues` | `cpp/reference/qwen35.cpp:319-364` | every component of a head output lies between the least and the greatest of the values attended |
| `AttentionLaws.KvHeadGroups` | `cpp/reference/qwen35.cpp:322-323` | query heads share key/value heads in consecutive groups of equal size |
| `AttentionLaws.RotationKeepsLength` | `cpp/reference/qwen35.cpp:169-186` | rotation keeps the length of every pair and of the whole head |
| `AttentionLaws.RotationIsRelative` | `cpp/reference/qwen35.cpp:169-186` | the inner product of a rotated query and key depends on their positions only through the difference |
| `RelativePositions.OutputIgnoresStart` | `cpp/reference/qwen35.cpp:279-381` | moving every position by the same number of tokens changes no output row |
| `DeltaRule.DecayRange` | `cpp/reference/qwen35.cpp:466-469` | a negative recurrence weight gives a decay strictly between zero and one, whatever the token |
| `DeltaRule.QuietStepShrinks` | `cpp/reference/qwen35.cpp:466-506` | where the head already answers its value, no cell of its matrix grows or changes sign and none but zero stays |
| `HalfFloats.ToFloat` | `cpp/reference/qwen35_executor.cpp:33-60` | finite numbers keep sign and value, subnormal ones included; infinities and what is not a number stay so |
| `HalfFloats.Normalize` | `cpp/reference/qwen35_executor.cpp:42-47` | a fraction is doubled, at most ten times, until its leading bit is in place |
| `WeightSources.WeightsRead` | `cpp/reference/qwen35_executor.cpp:132-250` | every field of every block and the three edge tensors hold, cell by cell, the little-endian floats of the payload of the tensor with that name and shape |
| `WeightSources.WeightsUnique` | `cpp/reference/qwen35_executor.cpp:62-85` | no other weights are read from the tensors of those names |
| `WeightSources.FloatsAreCells` | `cpp/reference/qwen35_executor.cpp:62-85` | cell i is the float whose bits are the bytes at payload start plus i times the element size |
| `Qwen35Manifest.DecimalExact` | `cpp/model/qwen35_manifest.cpp:24-26` | the block number in a tensor name is the numeral, without leading zero, that reads as it |
| `Qwen35Fields.ConfigDescribed` | `cpp/model/qwen35_config.cpp:86-232` | a configuration is derived exactly when every field stands under its own key, the sizes agree and the blocks follow the interval |
| `GgufKeys.KeyIsDotted` | `cpp/model/gguf_reader.cpp:261-290` | the key check accepts exactly nonempty segments joined by dots |
| `Gguf.LittleEndianDigit` | `cpp/model/gguf_reader.cpp:136-145` | byte i counts in units of the i-th power of 256 |
| `FormatExamples.FileExample` | `cpp/model/gguf_reader.cpp:302-401` | a file of 140 bytes, spelled out, and its catalog |
| `FormatExamples.SpecExample` | `cpp/model/model.cpp:195-220` | a tokenizer specification, spelled out byte by byte |
| `StateFits.BuffersHoldState` | `cpp/execution/qwen35_state.cpp:227-252` | the buffers of a layout are as long as the histories, matrices, keys and values the mixers carry |
| `StateFits.SlotsCountBlocks` | `cpp/execution/qwen35_state.cpp:253-266` | a slot counts the blocks of its kind before it, and the layer counts all of them |
| `StateFits.FullArgsMean` | `cpp/reference/qwen35.cpp:93-108` | the mixer accepts exactly heads that fill the hidden size, evenly shared key/value heads and whole rotary pairs inside a head |
| `StateFits.DeltaArgsMean` | `cpp/reference/qwen35.cpp:110-123` | the mixer accepts exactly value heads that fill the hidden size, evenly many for each key head |
| `Pretokenize.PieceExact` | `rust/raftinfer-runtime/src/tokenizer.rs:786-896` | a piece ends exactly where the rules say, runs given by what they contain and what follows |
| `Pretokenize.PiecesExact` | `rust/raftinfer-runtime/src/tokenizer.rs:786-847` | a text is cut by the rules in one way, and that is the scanner result |
| `Pretokenize.ContractionShape` | `rust/raftinfer-runtime/src/tokenizer.rs:849-860` | the contractions, letter by letter in either case |
| `Bpe.BpeRule` | `rust/raftinfer-runtime/src/tokenizer.rs:406-424` | joins the lowest-ranked neighbours, the leftmost of several, and starts over until none are in the table |
| `Segmentation.SearchAtPlace` | `rust/raftinfer-runtime/src/tokenizer.rs:260-285` | every segment is what stands at its place: the longest token there, or text in which no token starts, up to where one does |
| `ByteMaps.ByteCharsPinned` | `rust/raftinfer-runtime/src/tokenizer.rs:957-980` | visible Latin-1 stands for itself, the other bytes keep their order from character 256 on |
| `ByteMaps.ByteCharsFill` | `rust/raftinfer-runtime/src/tokenizer.rs:957-980` | and leave none of the 68 characters out |
| `Utf8.LossyExact` | `rust/raftinfer-runtime/src/tokenizer.rs:329` | keeps what is encoded and replaces each longest ill-formed run by one character, and nothing else does |
| `Utf8.EncodedValue` | `rust/raftinfer-runtime/src/tokenizer.rs:329` | the shortest form, six bits in every byte after the first |
| `TokenizerMeaning.IdsMean` | `rust/raftinfer-runtime/src/tokenizer.rs:170-237` | stop ids end a text or a turn; named and control ids are protected and skipped, user-defined ids protected and kept |
| `TokenizerMeaning.EndTokenStops` | `rust/raftinfer-runtime/src/tokenizer.rs:187-225` | an end token of the metadata stops, is protected, is skipped and is in range |
| `TokenizerMeaning.AcceptedMeans` | `rust/raftinfer-runtime/src/tokenizer.rs:94-237` | a tokenizer is built exactly from metadata with these keys: model, pre-tokenizer, template, lists, ids in range and flags |
| `TokenizerMeaning.RankIsPlace` | `rust/raftinfer-runtime/src/tokenizer.rs:150-173` | a pair is in the table with a rank exactly when the merge at that place of the list is the pair, joined by one space |
| `TokenizerMeaning.SkippingDecodes` | `rust/raftinfer-runtime/src/tokenizer.rs:296-330` | decoding without special tokens is plain decoding of the ids that remain |
| `TokenizerMeaning.MarkersComeOff` | `rust/raftinfer-runtime/src/tokenizer.rs:251-330` | markers are in the vocabulary and are skipped again |
| `TokenizerMeaning.MarkedRoundTrip` | `rust/raftinfer-runtime/src/tokenizer.rs:251-330` | encoded with markers and decoded without special tokens a text with no skippable id comes back exactly when no unit is misread |
| `WireTransfer.ValueArrives` | `rust/raftinfer-runtime/src/tokenizer.rs:545-570` | the runtime holds a value for exactly the keys that begin with the tokenizer prefix, and holds the value of the catalog |
| `Registry.BestMeans` | `cpp/registry/operator_registry.cpp:145-160` | the best match has the highest priority and, among equals, the first name |
| `LexOrder.FirstDifference` | `cpp/registry/operator_registry.cpp:145-160` | one name is before another exactly when it is a proper start of it or has the smaller byte where they first differ |
| `GgufFile.ReadCatalog` | `cpp/model/gguf_reader.cpp:302-401` | accepts exactly the files of the format that keep every limit, and answers their one catalog |
| `GgufFile.FileUnique` | `cpp/model/gguf_reader.cpp:302-401` | a file determines its entries and its catalog |
| `GgufFile.FileWellFormed` | `cpp/model/gguf_reader.cpp:320-398` | keys valid, values well-formed, byte sizes exact, payloads aligned, inside the file and pairwise disjoint |
| `GgufFile.HeaderWritten` | `cpp/model/gguf_reader.cpp:304-362` | a header within the limits is read back, whatever follows it |
| `GgufFile.HeaderRead` | `cpp/model/gguf_reader.cpp:304-362` | what is read as a header is the encoding of what is returned |
| `GgufRoundTrip.EntriesWritten` | `cpp/model/gguf_reader.cpp:325-338` | well-formed entries with fresh keys are read back exactly when their storage stays within the limit |
| `GgufRoundTrip.EntriesRead` | `cpp/model/gguf_reader.cpp:325-338` | entries read are well-formed, have distinct keys, and are charged exactly |
| `GgufRoundTrip.TensorsWritten` | `cpp/model/gguf_reader.cpp:340-362` | well-formed descriptors are read back exactly when their storage stays within the limit |
| `GgufRoundTrip.TensorsRead` | `cpp/model/gguf_reader.cpp:340-362` | descriptors read are well-formed with distinct names and exact byte sizes |
| `GgufRoundTrip.ArrayWritten` | `cpp/model/gguf_reader.cpp:147-171` | an array within the limits is read back with its charge |
| `GgufRoundTrip.ArrayRead` | `cpp/model/gguf_reader.cpp:147-171` | an array read is homogeneous, not nested, and its bytes are its encoding |
| `GgufRoundTrip.ScalarRead` | `cpp/model/gguf_reader.cpp:74-124` | a scalar read has the asked type and encodes to the bytes it came from |
| `GgufReader.Reader.ReadUnsigned` | `cpp/model/gguf_reader.cpp:136-145` | little-endian bytes of the given width, or nothing moves |
| `GgufReader.Reader.ReadString` | `cpp/model/gguf_reader.cpp:56-72` | length limit, bounds and charge, in that order |
| `GgufReader.Reader.ReadScalar` | `cpp/model/gguf_reader.cpp:74-124` | the value of the type, charged before it is read; booleans other than 0 and 1 are refused |
| `GgufReader.Reader.ReadArray` | `cpp/model/gguf_reader.cpp:147-171` | element type, length limit, overflow-checked storage charge, then the elements |
| `GgufReader.Reader.Charge` | `cpp/model/gguf_reader.cpp:187-196` | the budget grows by the amount exactly when the limit allows it |
| `GgufCatalog.ReadMetadata` | `cpp/model/gguf_reader.cpp:325-338` | the entries in file order and the map they build, refusing a repeated key |
| `GgufCatalog.ReadTensors` | `cpp/model/gguf_reader.cpp:340-362` | the descriptors in file order, refusing a repeated name |
| `GgufCatalog.ValidMetadataKey` | `cpp/model/gguf_reader.cpp:261-286` | the scanner accepts exactly the dotted lower-case keys |
| `GgufCatalog.TensorByteSize` | `cpp/model/gguf_reader.cpp:211-239` | the exact unbounded product, or rejection when it is zero-dimensioned, unsupported or too large |
| `GgufCatalog.AlignUp` | `cpp/model/gguf_reader.cpp:288-298` | the least multiple of the alignment at or above the value, unless none fits 64 bits |
| `GgufCatalog.CatalogAlignment` | `cpp/model/gguf_reader.cpp:241-259` | 32 by default, otherwise exactly the nonzero multiples of eight that fit 32 bits |
| `GgufCatalog.CheckSpans` | `cpp/model/gguf_reader.cpp:369-398` | collecting, sorting and comparing neighbours accepts exactly the catalogs whose payloads are aligned, inside and pairwise disjoint |
| `GgufCatalog.CollectSpans` | `cpp/model/gguf_reader.cpp:376-390` | every span aligned and ending inside the file, sums guarded against overflow |
| `GgufCatalog.NeighboursSuffice` | `cpp/model/gguf_reader.cpp:391-398` | comparing neighbours in begin order compares every pair |
| `ModelFile.PayloadFound` | `cpp/model/model.cpp:232-258` | every tensor of an accepted catalog is found, aligned, inside the file and of exactly its shape |
| `ModelFile.PayloadsDisjoint` | `cpp/model/gguf_reader.cpp:391-398` | payloads of different tensors share no byte |
| `ModelFile.FloatsOfTensor` | `cpp/reference/qwen35_executor.cpp:62-85` | a tensor reads as exactly as many floats as its shape has cells |
| `ModelFile.LoadModel` | `cpp/model/model.cpp:225-230` | loads exactly the files that pass catalog, configuration and manifest; serializing the tokenizer never fails after that |
| `Gguf.LittleEndianRoundTrip` | `cpp/model/gguf_reader.cpp:136-145` | reading undoes writing of little-endian integers |
| `Gguf.FromLittleEndianRoundTrip` | `cpp/model/gguf_reader.cpp:136-145` | writing undoes reading |
| `Qwen35Config.DeriveConfig` | `cpp/model/qwen35_config.cpp:86-230` | succeeds exactly when every field is present, the fields agree and the layer types follow the interval; answers that configuration |
| `Witnesses.MetaDerives` | `cpp/model/qwen35_config.cpp:86-230` | metadata that derives a configuration whose linear layer disagrees with the hidden size |
| `Qwen35Config.PlanHasFull` | `cpp/model/qwen35_config.cpp:195-228` | a plan of whole intervals has a full layer |
| `Qwen35Config.PlanBlocks` | `cpp/model/qwen35_config.cpp:213-228` | block b attends fully exactly when the interval divides b+1; a layer-type list may only agree |
| `Qwen35Manifest.ValidateManifest` | `cpp/model/qwen35_manifest.cpp:30-140` | locates every tensor under its name and exact shape; over unique names it fails only when no such manifest exists |
| `Qwen35Manifest.ManifestComplete` | `cpp/model/qwen35_manifest.cpp:30-140` | with unique tensor names a manifest that exists is the one the lookups find |
| `Qwen35Manifest.RequireComplete` | `cpp/model/qwen35_manifest.cpp:11-22` | a tensor of that name and shape is the one returned |
| `Qwen35Manifest.WidthsExact` | `cpp/model/qwen35_manifest.cpp:47-60` | an accepted configuration keeps every 64-bit width product exact |
| `StateLayout.Create` | `cpp/execution/qwen35_state.cpp:181-268` | succeeds exactly when inputs are nonzero, blocks indexed and every exact size fits its type; the layout is sound |
| `StateLayout.RequireValidLayout` | `cpp/execution/qwen35_state.cpp:63-176` | accepts exactly the layouts with exact sizes, one slot per block and bijective slot maps whose vectors are not too long |
| `StateLayout.CreateThenValidate` | `cpp/execution/qwen35_state.cpp:270-272` | what is created passes its own validator unless a vector would be too long |
| `StateLayout.CapacityDescribed` | `cpp/execution/qwen35_state.cpp:168-174` | whether every vector of a described layout is short enough follows from configuration and context alone |
| `StateLayout.LayoutUnique` | `cpp/execution/qwen35_state.cpp:181-268` | a configuration describes one layout |
| `StateLayout.CheckSlots` | `cpp/execution/qwen35_state.cpp:109-145` | the slot loop accepts exactly one-kind maps that are bijections onto their slot ranges |
| `StateLayout.CountDecides` | `cpp/execution/qwen35_state.cpp:139-145` | pigeonhole: distinct slots in range are onto exactly when their count is the slot count |
| `StateLayout.InOrderBijection` | `cpp/execution/qwen35_state.cpp:253-266` | consecutive numbering in block order is a bijection |
| `StateLayout.SpansTile` | `cpp/execution/qwen35_state.cpp:50-61` | every position of a buffer lies in the span of exactly one block |
| `StateLayout.PlanClosedForm` | `cpp/execution/qwen35_state.cpp:256-266` | full layers are count/I, full slots (b+1)/I - 1, linear slots b - b/I |
| `StateLayout.LayerSizes` | `cpp/execution/qwen35_state.cpp:227-242` | checked per-layer products are the exact ones and fail only on overflow |
| `StateLayout.TotalBytes` | `cpp/execution/qwen35_state.cpp:243-252` | byte totals are exact and fail only when they or their sum overflow |
| `HostState.HostState.CommitTokens` | `cpp/execution/qwen35_state.cpp:412-428` | advances every length by the count or changes nothing, exactly by the context bound |
| `HostState.HostState.Reset` | `cpp/execution/qwen35_state.cpp:430-436` | position, lengths and buffers all return to zero |
| `HostState.HostState.FullKvLength` | `cpp/execution/qwen35_state.cpp:305-314` | defined exactly for full-attention blocks; in step it is the position |
| `HostState.SpansDisjoint` | `cpp/execution/qwen35_state.cpp:50-61` | spans of two layers of one kind lie inside the buffer and do not overlap |
| `Session.Session.Prefill` | `cpp/execution/session.cpp:116-135` | refused, failed or done exactly as request, executor and context decide; the position moves only when done |
| `Session.Session.Decode` | `cpp/execution/session.cpp:137-156` | as prefill, for one token |
| `Session.Session.DecodeGreedy` | `cpp/execution/session.cpp:158-186` | as prefill, for one supplied token and the output length |
| `Session.Session.Run` | `cpp/execution/session.cpp:120-131` | after validation the commit cannot fail: a returning executor always means done |
| `Session.Session.Reset` | `cpp/execution/session.cpp:224-235` | a failing executor reset leaves the host state as it was |
| `Session.Session.ValidateRequest` | `cpp/execution/session.cpp:54-73` | accepts exactly nonempty in-vocabulary requests within the remaining context |
| `Session.Session.Drive` | `cpp/execution/session.cpp:116-235` | over any run the position equals every cache length and the tokens since the last successful reset, within context |
| `Session.RunInStep` | `cpp/execution/session.cpp:116-235` | the protocol itself, for all call sequences and executor outcomes |
| `Session.Open` | `cpp/execution/session.cpp:40-52` | opens exactly when the context is within the model and the layout is admissible |
| `Generation.GenerateTokenIds` | `rust/raftinfer-runtime/src/lib.rs:343-402` | the result is the stop-free start of the autoregressive sequence, exactly the needed tokens are fed, the context is never reached; fails exactly on invalid input, a failing reset, or a failure on the way |
| `Generation.ResultUnique` | `rust/raftinfer-runtime/src/lib.rs:385-401` | the result is the longest stop-free greedy sequence within the limit and the only one |
| `Generation.TokenSession.DecodeGreedy` | `rust/raftinfer-runtime/src/lib.rs:278-292` | outputs the greedy continuation, feeds all but its last token, fails exactly when some step does |
| `Generation.DecodeGreedyAgrees` | `rust/raftinfer-runtime/src/lib.rs:278-292` | greedy decoding after a prefill is generation without stop tokens |
| `Generation.BenchmarkSession` | `rust/raftinfer-runtime/src/lib.rs:404-467` | records exactly the measured iterations, every one yielding the same greedy sequence; fails exactly on valid input when the reset, the prefill or some decode step fails |
| `Registry.OperatorRegistry.Register` | `cpp/registry/operator_registry.cpp:112-137` | adds an admissible kernel with a new name and clears the cache, or changes nothing |
| `Registry.OperatorRegistry.Resolve` | `cpp/registry/operator_registry.cpp:139-165` | answers as an uncached search would: the match of highest priority and then of first name, or one rejection per kernel when nothing matches |
| `Registry.Replay` | `cpp/registry/operator_registry.cpp:112-165` | every answer of any interleaving of registrations and resolutions is the uncached answer over the kernels admitted so far |
| `Registry.Scan` | `cpp/registry/operator_registry.cpp:145-161` | the running best is the unique best; without one every kernel has rejected |
| `Registry.RejectionReasons` | `cpp/registry/operator_registry.cpp:42-98` | no reasons exactly when the capability matches the signature |
| `Registry.AnswerUnique` | `cpp/registry/operator_registry.cpp:139-165` | an uncached search has one answer |
| `Registry.OrderIndependent` | `cpp/registry/operator_registry.cpp:139-165` | with the kernels in another order a signature resolves to the same kernel, or fails with the same rejections |
| `Workspace.WorkspaceLayout.Allocate` | `cpp/execution/workspace_layout.hpp:13-34` | succeeds exactly when the alignment is a power of two and the rounded-up offset plus the size is within capacity in unbounded arithmetic; a failure changes nothing |
| `Workspace.WorkspaceLayout.AllocateAll` | `cpp/execution/workspace_layout.hpp:13-36` | a run of requests is placed as the specification of runs says |
| `Workspace.RangesApart` | `cpp/execution/workspace_layout.hpp:13-34` | ranges handed out are aligned, inside the capacity and pairwise disjoint |
| `Workspace.PowerTest` | `cpp/execution/workspace_layout.hpp:14-16` | alignment & (alignment - 1) is zero exactly for powers of two |
| `Workspace.MaskClears` | `cpp/execution/workspace_layout.hpp:18-22` | masking with the complement of 2^k - 1 subtracts the remainder modulo 2^k |
| `Workspace.MaskIsRoundUp` | `cpp/execution/workspace_layout.hpp:18-22` | the mask form equals rounding up |
| `Workspace.GuardIsExact` | `cpp/execution/workspace_layout.hpp:19-21` | where the overflow guard fires no 64-bit capacity could hold the rounded-up offset |
| `TokenizerRoundTrip.RoundTrip` | `rust/raftinfer-runtime/src/tokenizer.rs:251-330` | whenever a text encodes, the ids decode, and to the very text exactly when no merged part is a protected token with a non-ASCII character |
| `TokenizerRoundTrip.SafeRoundTrip` | `rust/raftinfer-runtime/src/tokenizer.rs:251-330` | a vocabulary whose non-ASCII protected tokens do not merge to themselves gives back every text that encodes |
| `TokenizerRoundTrip.ClashingFails` | `rust/raftinfer-runtime/src/tokenizer.rs:309-328` | a concrete vocabulary and text for which decoding does not give back the text |
| `Witnesses.ClashingBuilt` | `rust/raftinfer-runtime/src/tokenizer.rs:93-249` | that vocabulary is what an accepted specification builds |
| `TokenizerRoundTrip.UnitsSource` | `rust/raftinfer-runtime/src/tokenizer.rs:251-285` | the emitted units account for exactly the bytes of the text |
| `TokenizerRoundTrip.UnitDecodes` | `rust/raftinfer-runtime/src/tokenizer.rs:309-328` | a unit reads back as its source bytes, or as strictly more when it is a misread part |
| `Tokenizer.Encode` | `rust/raftinfer-runtime/src/tokenizer.rs:251-294` | succeeds exactly when every piece is within the bound and every part is in the vocabulary; the ids are those of the units, between the optional markers |
| `Tokenizer.EncodeText` | `rust/raftinfer-runtime/src/tokenizer.rs:260-285` | the segment loop yields the ids of the leftmost-longest segmentation |
| `Tokenizer.EncodePiece` | `rust/raftinfer-runtime/src/tokenizer.rs:391-404` | byte-level parts merged and looked up, failing exactly on an unknown part |
| `Tokenizer.Decode` | `rust/raftinfer-runtime/src/tokenizer.rs:296-330` | fails exactly on an id out of range or a token outside the byte table; otherwise the lossy text of the bytes |
| `TokenizerBuilder.FromSpec` | `rust/raftinfer-runtime/src/tokenizer.rs:93-249` | accepts exactly the specifications with consistent lists, ids and flags; the tokenizer built is valid and says what the metadata says |
| `TokenizerBuilder.BuiltAlike` | `rust/raftinfer-runtime/src/tokenizer.rs:208-216` | the order in which protected ids leave their set does not change what any text encodes to |
| `TokenizerBuilder.BuildMerges` | `rust/raftinfer-runtime/src/tokenizer.rs:151-177` | rejects exactly malformed and repeated merges; the rank of a pair is its place in the list |
| `TokenizerBuilder.SplitComplete` | `rust/raftinfer-runtime/src/tokenizer.rs:154-169` | a merge splits exactly when it is two nonempty space-free parts around one space |
| `TokenizerBuilder.CheckTokens` | `rust/raftinfer-runtime/src/tokenizer.rs:117-138` | accepts exactly nonempty lists of distinct nonempty tokens within the id range |
| `TokenizerBuilder.CollectProtected` | `rust/raftinfer-runtime/src/tokenizer.rs:208-216` | the protected ids with their texts, longest encoding first |
| `Segmentation.SegmentsCorrect` | `rust/raftinfer-runtime/src/tokenizer.rs:260-285` | the search yields a leftmost-longest segmentation: no protected token starts inside a gap and each special is the longest at its place |
| `Segmentation.SegmentationUnique` | `rust/raftinfer-runtime/src/tokenizer.rs:260-285` | a text has only one such segmentation |
| `Segmentation.SegmentsOrderFree` | `rust/raftinfer-runtime/src/tokenizer.rs:208-216` | the segmentation does not depend on the order of equally long tokens |
| `Segmentation.SegmentationCovers` | `rust/raftinfer-runtime/src/tokenizer.rs:260-285` | segments join to the text |
| `Segmentation.FirstIsLongest` | `rust/raftinfer-runtime/src/tokenizer.rs:426-432` | the first match in a list sorted by encoded length is the longest match |
| `Bpe.SplitStable` | `rust/raftinfer-runtime/src/tokenizer.rs:406-424` | where the result keeps a boundary between two inputs it is the two results side by side, for any merge table |
| `Bpe.RerunPart` | `rust/raftinfer-runtime/src/tokenizer.rs:406-424` | every output part, merged again from its own characters, gives back itself alone |
| `Bpe.ApplyBpe` | `rust/raftinfer-runtime/src/tokenizer.rs:406-424` | the loop computes the lowest-rank, leftmost-first merging |
| `Bpe.FindNext` | `rust/raftinfer-runtime/src/tokenizer.rs:408-416` | the pair chosen has least rank and no pair to its left has that rank |
| `Bpe.BpeKeepsText` | `rust/raftinfer-runtime/src/tokenizer.rs:406-424` | merging keeps the text |
| `Bpe.BpeEnds` | `rust/raftinfer-runtime/src/tokenizer.rs:406-424` | nothing mergeable is left |
| `ByteMaps.BuildByteMaps` | `rust/raftinfer-runtime/src/tokenizer.rs:957-980` | the encoder is the byte correspondence and the decoder its inverse, defined on nothing else |
| `ByteMaps.CharByteInverse` | `rust/raftinfer-runtime/src/tokenizer.rs:957-980` | the two directions are inverse to each other |
| `Pretokenize.PiecesLossless` | `rust/raftinfer-runtime/src/tokenizer.rs:786-847` | pieces join to the text and none is empty |
| `Pretokenize.PieceProgress` | `rust/raftinfer-runtime/src/tokenizer.rs:786-847` | every turn of the scanner takes something and no more than there is |
| `Pretokenize.PieceShape` | `rust/raftinfer-runtime/src/tokenizer.rs:786-847` | every piece is a contraction, a maximal word, maximal symbols with line ends, one numeric character, or white space: ended by all its line ends, or blanks of which two or more leave the last to a word or symbols |
| `Pretokenize.ContractionFound` | `rust/raftinfer-runtime/src/tokenizer.rs:849-860` | a contraction is found exactly when the text starts with one in either case, and takes as much of the text as of its lower-cased form |
| `Pretokenize.Pretokenize` | `rust/raftinfer-runtime/src/tokenizer.rs:786-847` | the scanning loop yields the pieces the rules cut, which join to the text |
| `Utf8.StrictDecodes` | `rust/raftinfer-runtime/src/tokenizer.rs:630-635` | strict decoding accepts exactly the encodings and answers what was encoded |
| `Utf8.LossyOfEncoded` | `rust/raftinfer-runtime/src/tokenizer.rs:329` | lossy decoding gives back encoded text |
| `Utf8.LossyGrows` | `rust/raftinfer-runtime/src/tokenizer.rs:329` | replacing ill-formed bytes never shortens |
| `Utf8.EncodedPrefix` | `rust/raftinfer-runtime/src/tokenizer.rs:260-274` | comparing encoded strings for a common start compares their characters |
| `WireTransfer.TransferAccepted` | `cpp/model/model.cpp:195-220` | the tokenizer part of any accepted catalog is written without failure, and accepted by the runtime exactly when its texts are UTF-8, with the very entries written |
| `Witnesses.BadTextRefused` | `rust/raftinfer-runtime/src/tokenizer.rs:630-635` | a file accepted as a catalog whose tokenizer part is written and then refused by the runtime |
| `WireTransfer.MetadataArrives` | `rust/raftinfer-runtime/src/tokenizer.rs:545-570` | the runtime then holds exactly the tokenizer keys, each with the value the catalog has |
| `WireTransfer.NeverFailsToWrite` | `cpp/model/model.cpp:195-220` | no string, count or nesting check of the writer can fire on an accepted catalog |
| `WireRoundTrip.SpecRoundTrip` | `rust/raftinfer-runtime/src/tokenizer.rs:524-574` | the parser accepts exactly the printed readable specifications and answers them |
| `WireRoundTrip.PrefixFree` | `rust/raftinfer-runtime/src/tokenizer.rs:524-574` | no accepted byte string is a proper start of another |
| `WireRoundTrip.EntriesPrinted` | `rust/raftinfer-runtime/src/tokenizer.rs:545-570` | printed entries parse back unless one cannot be read |
| `WireRoundTrip.EntriesParsed` | `rust/raftinfer-runtime/src/tokenizer.rs:545-570` | parsed entries are readable, in ascending order, and print to the bytes consumed |
| `WireRoundTrip.ArrayPrinted` | `rust/raftinfer-runtime/src/tokenizer.rs:676-753` | a printed array parses back exactly when its texts are UTF-8 and a token list is within the id range |
| `SpecWriter.SerializeTokenizerSpec` | `cpp/model/model.cpp:195-220` | writes the selected entries in ascending key order, failing exactly when there is none or one is not writable |
| `SpecWriter.SortedUnique` | `cpp/model/model.cpp:197-207` | the sorted selection is unique, whatever order the map is walked in |
| `SpecWriter.AppendInteger` | `cpp/model/model.cpp:92-100` | the low bytes of a value, least significant first |
| `SpecWriter.AppendScalar` | `cpp/model/model.cpp:111-152` | the payload of a value of the stated type, failing on a type mismatch, a nested array or an oversized text |
| `SpecReader.ParseTokenizerSpec` | `rust/raftinfer-runtime/src/tokenizer.rs:524-574` | accepts exactly what the unbounded parser accepts, with the metadata it kept |
| `SpecReader.ReadEntries` | `rust/raftinfer-runtime/src/tokenizer.rs:545-570` | the entry loop follows the parser, and a key can never repeat |
| `SpecReader.EntriesNeed` | `rust/raftinfer-runtime/src/tokenizer.rs:540-544` | the entry-count bound never rejects entries that are there |
| `SpecReader.ElementsNeed` | `rust/raftinfer-runtime/src/tokenizer.rs:755-780` | the array-length bound never rejects elements that are there |
| `SpecReader.FixedElements` | `rust/raftinfer-runtime/src/tokenizer.rs:716-748` | skipping fixed-width elements at once is reading them one by one |
| `SpecReader.Reader.ReadArray` | `rust/raftinfer-runtime/src/tokenizer.rs:676-753` | follows the parser on every element type and key |
| `SpecReader.Reader.ReadString` | `rust/raftinfer-runtime/src/tokenizer.rs:630-635` | length-prefixed strict UTF-8 |
| `SpecReader.Reader.ReadBytes` | `rust/raftinfer-runtime/src/tokenizer.rs:594-604` | the next bytes, or failure without an overflow |

## Left out

- CUDA kernels, graph capture, device memory, RAFT and cuBLASLt: an executor call is a parameter that returns a token and position or throws.
- Files, mapping (a file's bytes are given, and no longer than a signed 64-bit size), the C interface, the Rust bindings, environment variables, command lines, clocks and the benchmark's timings.
- Floating-point rounding and NaN: network equalities hold operation for operation and need no rounding model; what is said of the values is said over reals, a quotient by zero being zero there.
- DeltaRule.StepContracts: stated over reals, like `DeltaRule.QuietStepShrinks`; rounding can make a component grow by a rounding error.
- AttentionLaws.SoftmaxIsDistribution: rounded weights sum to one only up to rounding, and overflow of an unshifted exponential is not part of this model (`AttentionLaws.MaxLogitIsLargest` is why none is computed).
- RelativePositions.OutputIgnoresStart: rounded angles of large positions are not exactly relative.
- A stored float is identified by its type and bits, so the network is the same function of its weights whatever widening does; `HalfFloats.ToFloat` models the half-precision widening, and bfloat16, the upper half of a float's bits, is not modelled.
- The stack buffer for up to 64 corrections and the heap vector beyond are one array in the model.
- Checks that the epsilons are not negative and the rotary base is positive, inside the reference kernels: the configuration has already required both to be positive.
- ModelExecution.ExecuteModel: running out of memory is not part of this model, nor are the buffers allocated before the linear mixer rejects an inner size other than the hidden size.
- Qwen35Config.DeriveConfig: the cast of a double value to float is a parameter, and the in-memory size of one metadata value (40 bytes) is a constant of the limits.
- Pretokenize.PieceShape: not equality with the published Qwen2 pattern, from which the scanner differs on some white space; Unicode tables are a parameter.
- Byte offsets into strings: positions count characters; `Utf8.EncodedPrefix` is why searching bytes and characters agree.
- TokenizerBuilder.FromSpec: whether a chat template has the supported signature is a parameter; chat templating itself is not part of this model.
- Error texts: only acceptance, rejection and which kernels rejected are kept. Hashing of signatures is equality.
- Generation.GenerateTokenIds: the stop predicate is a pure function, where the source takes any closure, and the session answers from its token history alone.
- `std::sort` is written as insertion, and the iteration order of hash tables as an arbitrary choice.
- Tensor-descriptor validation, execution policies, diagnostics and operator signatures of particular kernels.
