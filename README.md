# bittensor tensor codec, validator bookkeeping and experiment driver, in Dafny

This project models three parts of the bittensor repository and proves properties of them.

- **The tensor wire codec** (`bittensor/serializer.py`). The module maps torch element types to the wire `DataType` codes and back. It builds `TensorDef` metadata and dispatches a value to the right encoder. It dumps a numeric tensor as a flat row-major byte buffer and reads it back. String and image batches travel as an opaque pickled blob.
- **The template validator's bookkeeping** (`bittensor/_neuron/text/template_validator/nucleus_impl.py`). In `query`, it picks the active uids, bounds top-k, maps the chosen indices back to uids, masks the responses by return code, and sums the successful responses into a zero tensor. In `scores`, it writes each queried peer's empirical term into a zero score vector, then combines it with the first-order term and rectifies the result.
- **The experiment driver** (`train_memory.py`). This covers the `chunks` generator and the post-deadline slot classification of `Nucleus.query`. It also covers the step loop that hands out uid batches from a shrinking permutation, the per-chunk loss averages and the success totals.

The modules are:

| file | module | contents |
|---|---|---|
| `py_errors.dfy` | `PyErrors` | Python exceptions as a `Result` type, `Option`, and `sum` over flags |
| `proto.dfy` | `Proto` | the `DataType` enum, `Tensor` and `TensorDef` messages, and the success return code |
| `byte_codec.dfy` | `ByteCodec` | fixed-width little-endian element bytes |
| `serializer.dfy` | `Serializer` | `serializer.py` |
| `validator.dfy` | `Validator` | `Validator.query` selection and join, and `Validator.scores` |
| `chunks.dfy` | `Chunking` | `chunks` and the chunking of the step range |
| `dispatch.dfy` | `Dispatch` | the classification loop of `Nucleus.query` |
| `batching.dfy` | `Batching` | the `perm_uids` step loop |
| `loss_stats.dfy` | `LossStats` | the loss dictionary aggregation and the success totals |

Some code changes state in place, and the model keeps that form:
- the join's `output +=` loop and the `validator_scores[uid] =` loop in `nucleus_impl.py`;
- the slot loop of `Nucleus.query`;
- the `perm_uids` loop;
- the loss dictionary loops.

These are methods over arrays, sequences and maps. Each method is proved equal to a specification function, and the lemmas are about those functions. The codec, the masks and the index maps are pure functions.

The model makes these choices:
- A tensor element is the bit pattern of its value in the low bytes of a `bv64`.
- Native byte order is taken to be little-endian.
- A Python exception is `Raise(kind)`.
- Numeric library calls are function parameters with no properties assumed. These are softmax, L2 normalisation, Gaussian noise, `unbiased_topk` and the Jacobian.
- Pickle's `dumps`/`loads`, the response decoder and `torch.randperm` are also function parameters. `draw(k)` stands for the k-th permutation drawn.

## Model

| member | source | states |
|---|---|---|
| Proto.Code | bittensor/bittensor_pb2.py:77-83 | each element type's wire number lies in 0..6, and only UNKNOWN has number 0 |
| Proto.FromCode | bittensor/bittensor_pb2.py:77-83 | a wire number names an element type exactly when it lies in 0..6 |
| Proto.CodeRoundTrip | bittensor/bittensor_pb2.py:77-83 | an element type survives the trip through its wire number, and a number in range survives the trip through its type |
| Serializer.TorchToBittensor | bittensor/serializer.py:11-22 | the code is other than UNKNOWN exactly for the four supported types (float32, float64, int32, int64); every other torch type falls to UNKNOWN; the map never fails and never yields STRING or IMAGE |
| Serializer.BittensorToTorch | bittensor/serializer.py:25-37 | the result is always one of the four supported types; any code other than the four numeric ones (UNKNOWN, STRING, IMAGE, out of range) falls back to float32 |
| Serializer.BittensorToNp | bittensor/serializer.py:39-51 | any code other than the four numeric ones falls back to numpy float32 |
| Serializer.DtypeMapsInverse | bittensor/serializer.py:11-51 | a torch type comes back through its wire code exactly when it is one of the four supported types; the numpy map followed by `torch.as_tensor` agrees with the torch map on every code |
| Serializer.Width | bittensor/serializer.py:185 | every torch element type occupies 1, 2, 4 or 8 bytes |
| Serializer.TorchOfNp | bittensor/serializer.py:233 | `torch.as_tensor` of a decoded numpy array has one of the four supported types, of the same byte width |
| Serializer.TensorToDef | bittensor/serializer.py:92-109 | AssertionError exactly when the rank is below 2; otherwise the shape and requires_grad are copied and dtype is the mapped code |
| Serializer.SerializeTensor | bittensor/serializer.py:175-191 | `.numpy()` refuses a tensor that requires grad (RuntimeError) and bfloat16 (TypeError) before the rank assertion (AssertionError); it fails exactly in those three cases. Otherwise the buffer is the `tobytes` dump of the elements, `width` bytes each, so it holds `len(elems) * width` bytes, which is product(shape) times the width for a valid tensor. The TensorDef carries the tensor's shape and dtype code, and its gradient flag is never set |
| Serializer.DeserializeTensor | bittensor/serializer.py:218-234 | a decoded tensor is well formed, has rank at least 2, and has the wire shape, gradient flag and mapped dtype; its buffer held exactly product(shape) times the width; rank below 2 always fails |
| Serializer.TensorRoundTrip | bittensor/serializer.py:175-234 | a valid tensor of rank at least 2, with a supported dtype, that does not require grad, is given back exactly by deserialize after serialize |
| Serializer.DecodeBranch | bittensor/serializer.py:227-234 | a proto whose buffer decodes to the elements of a valid rank-2-or-more tensor, with that tensor's shape, flag and element type, deserializes to that tensor |
| Serializer.UnsupportedRoundTripLossy | bittensor/serializer.py:11-51 | an unsupported dtype numpy can hold (all but bfloat16) is sent as UNKNOWN and never comes back equal; at best it decodes as an empty float32 tensor |
| Serializer.StringToDef | bittensor/serializer.py:74-89 | shape `[len(list), 1]`, dtype STRING, requires_grad False |
| Serializer.ImageToDef | bittensor/serializer.py:56-71 | shape `[len(list), 1]`, dtype IMAGE, requires_grad False |
| Serializer.SerializeString | bittensor/serializer.py:136-152 | the buffer is the pickled list and the TensorDef is the string TensorDef |
| Serializer.SerializeImage | bittensor/serializer.py:155-171 | the buffer is the pickled list and the TensorDef is the image TensorDef |
| Serializer.DeserializeBlob | bittensor/serializer.py:194-215 | the result is whatever unpickling the buffer gives |
| Serializer.BlobRoundTrip | bittensor/serializer.py:136-215 | the string and image paths give their list back whenever unpickling inverts pickling |
| Serializer.Serialize | bittensor/serializer.py:112-133 | a tensor goes to the tensor encoder; a list is dispatched on its first element only (str to the string path, image to the image path, anything else NotImplementedError); an empty list raises IndexError; any other value raises NotImplementedError |
| ByteCodec.EncodeLength | bittensor/serializer.py:185 | the byte dump holds exactly `width` bytes per element |
| ByteCodec.DecodeCount | bittensor/serializer.py:229 | reading a buffer yields as many whole elements as fit in it |
| ByteCodec.DecodeExact | bittensor/serializer.py:229 | a buffer that is a whole number of `w`-byte elements decodes to exactly length / w elements |
| ByteCodec.ElemsRoundTrip | bittensor/serializer.py:185-229 | reading back the byte dump of elements that fit their width gives the elements back |
| ByteCodec.DecodedFit | bittensor/serializer.py:229 | every element read from a buffer fits the width it was read with |
| Validator.Where | bittensor/_neuron/text/template_validator/nucleus_impl.py:63 | the positions are exactly those where the mask holds, strictly increasing, one per true entry |
| Validator.ActiveMask | bittensor/_neuron/text/template_validator/nucleus_impl.py:63 | position i holds exactly when `active[i] > 0` |
| Validator.ActiveUids | bittensor/_neuron/text/template_validator/nucleus_impl.py:63 | a uid is listed exactly when its active flag is positive, and the list is strictly increasing |
| Validator.ActiveWeights | bittensor/_neuron/text/template_validator/nucleus_impl.py:64 | one weight per active uid, the weight of that uid; IndexError exactly when an active uid lies past the weight vector |
| Validator.GatherActiveRaises | bittensor/_neuron/text/template_validator/nucleus_impl.py:63-64 | indexing the weights by the active uids raises exactly when some active uid is past the end of the weights |
| Validator.Gather | bittensor/_neuron/text/template_validator/nucleus_impl.py:70 | tensor indexing: entry j is the entry at index j, with negative indices counted from the end; IndexError exactly when some index is out of range |
| Validator.Min3 | bittensor/_neuron/text/template_validator/nucleus_impl.py:67 | the result is one of the three arguments and no larger than any of them |
| Validator.NoisyTopk | bittensor/_neuron/text/template_validator/nucleus_impl.py:68-70 | fewer than two active weights give a nan standard deviation, and `torch.normal` raises RuntimeError, exactly then. Otherwise the weights are those `unbiased_topk` returns on the noisy active weights, and the uids are `active_uids[topk_idx]` as tensor indexing gives them, so `topk_uids[j] = active_uids[topk_idx[j]]` and every chosen uid is active. The only other failure is IndexError |
| Validator.Select | bittensor/_neuron/text/template_validator/nucleus_impl.py:62-70 | the active uids are exactly the positive-flag uids in increasing order, and there are at least two; the active weights are their weights; real_topk is min(topk, n, number of active uids). The top-k weights and uids are the noisy top-k run with real_topk over those uids and weights, and every top-k uid is active. An active uid past the weights raises IndexError. Otherwise RuntimeError is raised exactly when fewer than two uids are active |
| Validator.SuccessMask | bittensor/_neuron/text/template_validator/nucleus_impl.py:79 | position i holds exactly when its return code is Success |
| Validator.MaskSelect | bittensor/_neuron/text/template_validator/nucleus_impl.py:80 | boolean-mask indexing keeps, in order, the weight at each position where the mask holds; entry j is the weight at the j-th true position, the same position `torch.where` gives `joining_uids[j]`; it fails exactly when the mask has another length |
| Validator.JoinLengths | bittensor/_neuron/text/template_validator/nucleus_impl.py:79-80 | joining uids and joining weights have the same length, the number of successful positions |
| Validator.Accumulate | bittensor/_neuron/text/template_validator/nucleus_impl.py:81-83 | every partial sum keeps the output shape |
| Validator.JoinSpec | bittensor/_neuron/text/template_validator/nucleus_impl.py:78-84 | the joined output has the output shape |
| Validator.Zeros | bittensor/_neuron/text/template_validator/nucleus_impl.py:81 | a zero tensor has the requested size and every entry is 0 |
| Validator.AddScaled | bittensor/_neuron/text/template_validator/nucleus_impl.py:83 | adding a scaled response keeps the output size |
| Validator.AddInPlace | bittensor/_neuron/text/template_validator/nucleus_impl.py:83 | after `output += v * w` in place, each entry is its old value plus `v[e] * w` |
| Validator.JoinLoop | bittensor/_neuron/text/template_validator/nucleus_impl.py:81-84 | the in-place loop ends with the accumulated sum, or with the IndexError or RuntimeError the sum raises |
| Validator.Join | bittensor/_neuron/text/template_validator/nucleus_impl.py:78-84 | the method computes the join specification, errors included |
| Validator.JoinNoSuccess | bittensor/_neuron/text/template_validator/nucleus_impl.py:81-84 | with no successful position the output is the all-zero tensor |
| Validator.SuccessSum | bittensor/_neuron/text/template_validator/nucleus_impl.py:82-83 | reference sum over the successful positions only; it keeps the output shape |
| Validator.JoinIsSuccessSum | bittensor/_neuron/text/template_validator/nucleus_impl.py:82-83 | the loop's output is the sum over successful positions of each response times the weight of its rank among the successes |
| Validator.AccumulateIgnoresFailed | bittensor/_neuron/text/template_validator/nucleus_impl.py:82-83 | every partial sum reads responses only at successful positions |
| Validator.JoinIgnoresFailed | bittensor/_neuron/text/template_validator/nucleus_impl.py:82-83 | changing the responses of failed positions does not change the output |
| Validator.EmpiricalTerm | bittensor/_neuron/text/template_validator/nucleus_impl.py:50 | for a positive loss, the term is zero, positive or negative exactly when the partial loss equals, exceeds or is below the loss |
| Validator.EmpiricalSpec | bittensor/_neuron/text/template_validator/nucleus_impl.py:40-50 | the score vector has one entry per peer weight. A zero loss raises ZeroDivisionError at the first written uid, because the Python float division comes before the store. With a positive loss, IndexError is raised exactly when some written uid lies past the vector |
| Validator.EmpiricalEntries | bittensor/_neuron/text/template_validator/nucleus_impl.py:40-50 | uids absent from the partial contexts keep 0; each present uid holds `(partial_loss - loss) / loss` |
| Validator.Scores | bittensor/_neuron/text/template_validator/nucleus_impl.py:36-58 | the in-place scoring method computes the scoring specification, errors included |
| Validator.FirstOrder | bittensor/_neuron/text/template_validator/nucleus_impl.py:52-53 | each entry is the gradient times minus the peer weight; it fails exactly when the gradient has another length |
| Validator.Multiply | bittensor/_neuron/text/template_validator/nucleus_impl.py:53 | each entry is the product of the two entries; it fails exactly when the lengths differ |
| Validator.Combine | bittensor/_neuron/text/template_validator/nucleus_impl.py:58 | each entry is `x[i] * a + y[i] * b`; it fails exactly when the vectors differ in length |
| Validator.LeakyRelu | bittensor/_neuron/text/template_validator/nucleus_impl.py:58 | same length; non-negative entries are unchanged and negative entries are scaled by 0.1 |
| Validator.LeakyReluKeepsOrder | bittensor/_neuron/text/template_validator/nucleus_impl.py:58 | rectification keeps the order between any two entries and the sign of each |
| Validator.FinalScores | bittensor/_neuron/text/template_validator/nucleus_impl.py:52-58 | the final vector has the length of the normalized empirical vector |
| Validator.FinalScoresEntries | bittensor/_neuron/text/template_validator/nucleus_impl.py:52-58 | with inputs of the peer count and a length-keeping normalization, there is one score per peer, each the rectified half-and-half sum of the normalized empirical and first-order terms |
| Validator.ScoresShape | bittensor/_neuron/text/template_validator/nucleus_impl.py:40-58 | with in-range uids and a gradient of the peer count, scoring succeeds with one score per peer weight |
| Chunking.Chunks | train_memory.py:35-38 | ValueError exactly for a zero step; no chunks for a negative step |
| Chunking.ChunksConcat | train_memory.py:35-38 | concatenating the chunks gives back the list |
| Chunking.ChunkSizes | train_memory.py:35-38 | every chunk but the last has exactly n items; the last is non-empty with at most n; there are no chunks only for an empty list |
| Chunking.ChunkCount | train_memory.py:35-38 | the number of chunks is ceil(len / n) |
| Chunking.ChunkAt | train_memory.py:35-38 | chunk c is the slice `lst[c*n : c*n + n]` |
| Chunking.Range | train_memory.py:358 | `range(n_steps)` lists 0..n_steps-1 in order |
| Chunking.StepInItsChunk | train_memory.py:358 | step i of `range(n_steps)` lies in chunk `i // chunk_size` |
| Chunking.StepsCovered | train_memory.py:358 | every step index lies in exactly one chunk of `step_chunks` |
| Dispatch.Query | train_memory.py:113-209 | both lists have one slot per uid, in uid order. A slot succeeds exactly when its future is done, returns code 1 and its tensor decodes; that slot holds the decoded tensor and every other slot keeps the nill default. Exactly the futures not done are cancelled. A code-1 response that fails to decode escapes as AttributeError |
| Batching.Cut | train_memory.py:368-369 | a slice bound is clamped to the list: a bound within the list is kept, one past the end becomes the length |
| Batching.SliceMembers | train_memory.py:368-369 | both halves of a cut hold only uids of the list; cutting a list without repeats gives two halves that share no uid, and the tail has no repeats |
| Batching.StepShape | train_memory.py:364-369 | a fresh permutation is drawn exactly when fewer than n_queried uids remain; the step's uids followed by the kept uids make up the permutation in use; with enough uids the step takes `perm[:n_queried]` and keeps `perm[n_queried:]` |
| Batching.Run | train_memory.py:364-369 | k steps hand out k batches |
| Batching.BatchSizes | train_memory.py:364-369 | with n >= n_queried, every batch has exactly n_queried uids |
| Batching.RunInvariant | train_memory.py:364-369 | the remaining uids never repeat; the batches of the permutation in use share no uid with what remains; batches from the same permutation share no uid |
| Batching.StepKeepsInv | train_memory.py:364-369 | one step of the loop keeps the invariant: the remaining uids never repeat, no batch is from a later permutation, batches of the permutation in use share no uid with what remains, batches of the same permutation share no uid |
| Batching.BatchesDisjoint | train_memory.py:364-369 | two batches taken between the same two refreshes are disjoint |
| Batching.FireChunk | train_memory.py:364-369 | firing one chunk advances the step loop by exactly the chunk's steps |
| Batching.FireChunks | train_memory.py:359-369 | firing the chunks one after another hands out the batches of as many consecutive steps as the chunks hold, from the first permutation |
| Batching.Schedule | train_memory.py:356-369 | a zero chunk size raises ValueError; otherwise the batches are those of n_steps consecutive steps from the first permutation, perm_uids carrying over between chunks |
| LossStats.CollectStep | train_memory.py:381-385 | the inner loop as written over one step's loss dictionary continues the collection: it ends with the lists collected over all entries so far, or with their KeyError |
| LossStats.CollectStepIntended | train_memory.py:381-385 | the intended inner loop over one step's loss dictionary ends with the lists collected over all entries so far |
| LossStats.CollectWrittenSnoc | train_memory.py:381-385 | as written, one more entry extends the collection by one step of the loop body, and a raise stays a raise |
| LossStats.CollectIntendedSnoc | train_memory.py:381-385 | as intended, one more entry extends the collection by one step of the loop body |
| LossStats.AddEntryWritten | train_memory.py:382-385 | the loop body as written on one entry: append under the prefixed name when the bare name is a key, KeyError when the prefixed name is not, else a fresh one-element list |
| LossStats.AddEntryIntended | train_memory.py:382-385 | the corrected loop body on one entry: append to the prefixed list if present, else start it |
| LossStats.CollectWritten | train_memory.py:379-385 | as written: every stored list is non-empty; the only failure is KeyError |
| LossStats.CollectIntended | train_memory.py:379-385 | as intended: every stored list is non-empty |
| LossStats.Mean | train_memory.py:388 | the mean of a single value is that value |
| LossStats.Averages | train_memory.py:387-388 | one average per key, for the same keys |
| LossStats.AverageInPlace | train_memory.py:387-388 | the averaging loop replaces every list by its mean |
| LossStats.AggregateLosses | train_memory.py:379-388 | the loop as written raises the collecting error, or returns the averages of the collected lists |
| LossStats.AggregateLossesSpec | train_memory.py:379-388 | the aggregation as written fails only with KeyError |
| LossStats.AggregateLossesIntended | train_memory.py:379-388 | the corrected loop returns the averages of the lists collected with the prefixed-name test |
| LossStats.WrittenKeys | train_memory.py:379-385 | as written, with no name starting with `loss/`, the loop never raises and its keys are exactly the prefixed names |
| LossStats.WrittenKeepsLast | train_memory.py:379-385 | as written, each prefixed list holds only the last value logged under its name, last in the order `as_completed` delivered the step results (train_memory.py:371-372) |
| LossStats.IntendedKeys | train_memory.py:379-385 | as intended, the keys are exactly the prefixed names |
| LossStats.IntendedValues | train_memory.py:379-385 | as intended, each prefixed list holds every value logged under its name, in order |
| LossStats.WrittenAveragesAreLast | train_memory.py:379-388 | as written, each average equals the last value logged under its name, in the order the step results completed |
| LossStats.IntendedAveragesAreMeans | train_memory.py:379-388 | as intended, each average is the mean of all values logged under its name |
| LossStats.WrittenRoutingAverage | train_memory.py:379-388 | routing losses 1.0 then 3.0 average to 3.0 as written |
| LossStats.IntendedRoutingAverage | train_memory.py:379-388 | routing losses 1.0 then 3.0 average to 2.0 as intended |
| LossStats.PrefixedNameRaises | train_memory.py:382-383 | a step logging `x` and then `loss/x` makes the loop as written raise KeyError |
| LossStats.RoutingAverage | train_memory.py:397 | the routing average, or KeyError exactly when no routing loss was logged |
| LossStats.StepSuccessRates | train_memory.py:395 | one rate per step, each between 0 and 1; ZeroDivisionError exactly when some step queried no uid |
| LossStats.FailedCountsFailures | train_memory.py:433-435 | with n_steps steps of n_queried flags each, `total_sent - total_success` is exactly the number of failed queries, between 0 and total_sent |
| LossStats.SuccessRate | train_memory.py:433-448 | the rate is total_success over total_sent; ZeroDivisionError exactly when nothing was to be sent |
| LossStats.SuccessRateBounds | train_memory.py:433-448 | with the configured shape, the success rate lies between 0 and 1 |

## Left out

- Pickle (serializer.py lines 146, 165, 203, 215) is not modelled. It is a pair of blob functions passed in. Unpickling a received buffer can run arbitrary code, which this model cannot express.
- Byte-level protobuf encoding is not modelled, and bittensor_pb2.py holds no other logic. Only the `DataType` numbers and the `Tensor`/`TensorDef` fields are kept.
- Native byte order is fixed to little-endian. Only the four supported widths and some 1- and 2-byte torch types are modelled. Other torch dtypes (complex, 3-byte, quantized) are not.
- Serializer.DeserializeTensor: a `-1` (inferred) dimension in the wire shape is not modelled; any negative dimension is refused. An empty buffer reads as zero elements.
- Serializer.DeserializeTensor: check order. The ValueError for a buffer that is not a whole number of elements comes before the rank assertion, as in the code.
- Serializer.SerializeTensor: torch is taken to refuse `.numpy()` on a tensor that requires grad whatever the grad mode. Some torch versions refuse it only while grad mode is on; under `torch.no_grad()` such a tensor would then be sent with `requires_grad=True` on the wire, which the model does not capture. The caller in train_memory.py:122 detaches first.
- The return code enum (`ReturnCode`) is not part of this model. Success is the value 1 that train_memory.py:156 compares with.
- The neural layers are not modelled: encoder, decoder, cross-entropy and the `server` baseline. The partial losses and the loss enter `scores` as inputs.
- `F.softmax`, `F.normalize`, `torch.normal`, `jacobian` and `bittensor.unbiased_topk` are parameters with no properties assumed. Noise standard deviation, tie-breaking and `partial_contexts` are not modelled. The partial contexts enter as (uid, partial loss) pairs.
- Validator.EmpiricalSpec: the loss comes from cross-entropy, so it is taken to be non-negative. A negative loss is outside the model.
- Tensors in the validator are flat sequences of reals. The (batch, seq, network_dim) shape of the join output is one length. Broadcasting is not modelled: tensors of different lengths raise RuntimeError.
- Validator.Select: its contract does not characterise when the top-k index map raises. That depends on what `unbiased_topk` returns, which is a parameter.
- Validator.NoisyTopk: the noise samples are an input. A negative `noise_offset` large enough to push the standard deviation below zero also makes `torch.normal` raise RuntimeError; the model does not capture that case.
- Dispatch.Query: gRPC futures, `time.sleep`, receptors, signing and `rpc_log` are not modelled. Each future is its state when inspected. The handler reads `e.details`. A decode failure on a code-1 response therefore escapes as AttributeError instead of being absorbed. The model states that; RPC faults keep the slot's defaults.
- The thread pool, step submission, optimizer, gradient clipping, wandb, psutil, timing, printing, `get_size`, and the score averaging and top-k print at train_memory.py:401-404 are not modelled.
- Batching.Cut: the body follows Python for a negative `n_queried`, counting from the end. The contract states only the non-negative bounds.
- LossStats.AverageInPlace: Python replaces each list by its average inside the same dictionary. The model returns a fresh map with the same keys.
- The losses are `real` values. Float rounding in sums and means is not modelled.

## Findings

| source | as written | input that shows it | evidently intended | confidence | as-written member | corrected member |
|---|---|---|---|---|---|---|
| train_memory.py:382-385 | membership is tested on the bare name `k`, but the list is stored under `'loss/' + k`. The test therefore fails for ordinary names, each step overwrites the list, and every per-chunk "average" is the last step's value. A name already present in its prefixed form makes the loop raise KeyError | two steps logging `routing` as 1.0 then 3.0 average to 3.0 (and `[("x", 1.0), ("loss/x", 2.0)]` raises KeyError) | test `'loss/' + k` so the lists collect every step's value and the average is the mean (2.0 here) | high, not executed | LossStats.WrittenRoutingAverage | LossStats.IntendedRoutingAverage |
