# Verified model of the inference caches, kernels and index of ssd-llm

This project models, in Dafny, the parts of the repository in which a clever representation stands for a
simple one, and proves that it does.

- `PagedLayer`, `PagedOps`, `PagedModel`, `PagedKvCache`: the paged KV cache. Blocks, free queue, reference
  counts, copy-on-write fork and rollback refine one plain list per sequence and layer.
- `JsonParser`, `JsonPrefix`, `JsonText`, `JsonExact`, `JsonMode`: the JSON prefix recogniser. Its exact language,
  its completeness for JSON texts (sections 2 to 7 of RFC 8259), and the redundancy of the completion heuristics.
- `AwqPacking`, `AwqError`, `AwqQuantize`, `AwqBounds`: AWQ weights. Bit packing, error bounds, the clip search,
  and the fused product.
- `ParallelSums`, `Q4kKernels`: the Q4K GPU kernels. Lanes, strides and reduction trees compute plain dot products.
- `Attention`: online softmax, two-pass softmax and grouped heads compute the same weighted mean.
- `FloatBytes`, `MmapModel`, `MmapCache`, `MmapKvCache`: the hot/cold KV cache over mapped files.
- `StableSort`, `H2oModel`, `H2oCache`: score-based eviction.
- `SchedulerModel`, `SchedulerProgress`, `BatchScheduler`: continuous batching as a state machine.
- `ChunkFile`, `StoreModel`, `FileStore`, `TextChunker`: the vector store with its three files, and the chunker.
- `Arith`, `Wrappers`: shared index arithmetic, option, result.

Code that changes things in place is modelled by classes, arrays and loops; each method is proved to take a step
of a specification on values, and the theorems are about those steps. Long Rust methods are cut into smaller Dafny
methods along their loops; the order of the statements is the source's.

Parameters stand for what lies outside: the JSON parser called by the heuristics (any that accepts JSON texts only),
`exp` (positive, turns sums into products), the power function (positive), the half-float reader and reciprocal square
root (any functions), the sampled tokens (any), the vector normalisation (any that keeps the length) and product (any),
the chunk encoding (can be undone, one line in braces), and the hashes in chunk ids (any of the lengths used).

Five expectations do not hold of the code; each is answered by the exact condition under which it does, and by a
concrete case. A rollback after a fork may damage the other sequence, since it sets a fill count without copying the
block; it does exactly where the other sequence's table ends in that block (`PagedModel.RollbackExact`,
`RollbackLosesForeignEntry`). The JSON check, described as accepting only prefixes of valid documents, accepts more, and
what it keeps may never become valid (`JsonExact.StrictLanguage`, `VerdictExact`, `AcceptedNotJson`,
`JsonMode.CompletionReachable`). With fewer query heads than key/value heads the grouped loop computes nothing
(`Attention.AllAgree`, `GroupedSkipsHeads`). A rollback into the cold part of the mapped cache loses the list and leaves
bytes that are read later (`MmapModel.RollbackExact`, `RollbackReadsStale`). A flush of the vector store that is cut off
after its first write may open as a mix (`CrashExact`, `CrashMixes`).

Run `dafny verify dfyconfig.toml` to check the whole project.

## Model

| member | source | states |
|---|---|---|
| `PagedModel.RunKeeps` | crates/ssd-llm/src/inference/paged_attention.rs:340-568 | In every state of every run of add, append, increment, fork, remove and rollback, whatever is shared, the accounts of every pool are exact: the free queue lists once each the blocks that no table holds, every other reference count is the number of tables that hold the block |
| `PagedModel.RunRefines` | crates/ssd-llm/src/inference/paged_attention.rs:340-568 | After any such run whose rollbacks are admissible, the list each sequence reads in each layer is the one that plain list operations give |
| `PagedModel.RunExact` | crates/ssd-llm/src/inference/paged_attention.rs:340-568 | A run agrees with the plain lists at every step if and only if every rollback in it is admissible when its turn comes |
| `PagedModel.StepRefines` | crates/ssd-llm/src/inference/paged_attention.rs:340-568 | Every operation keeps the cache invariant, and an admissible one does to the lists read what the plain operation does; running out of blocks changes nothing |
| `PagedModel.StepExact` | crates/ssd-llm/src/inference/paged_attention.rs:340-568 | An operation does to the lists what the plain operation does if and only if it is admissible; only a rollback ever is not |
| `PagedModel.StepIsolates` | crates/ssd-llm/src/inference/paged_attention.rs:351-568 | No operation on one sequence changes the length of another; it leaves the lists of the other alone if and only if it is not a rollback that, in some layer, overwrites a different fill count in the last block of the other's table |
| `PagedModel.StepAnswers` | crates/ssd-llm/src/inference/paged_attention.rs:340-568 | When each answer is given, as if and only ifs: unknown sequence, out of blocks (no free block, and the table is empty or its last block full or shared), new sequence. A new sequence has an id that no sequence has or had, it is the only one added, and it has no entries, or after a fork those of its source |
| `PagedModel.RollbackExact` | crates/ssd-llm/src/inference/paged_attention.rs:525-568 | A rollback that takes effect always keeps the invariant; it truncates its own sequence and touches no other if and only if, in every layer, no block is kept, or the last block kept already has the final fill count, or the layer is at least as long as the new length and no other table ends in that block |
| `PagedModel.RollbackLosesForeignEntry` | crates/ssd-llm/src/inference/paged_attention.rs:552-562 | A concrete shared block: rolling back one of two forked sequences and appending to the other loses an entry of the other |
| `PagedModel.PoolConserved` | crates/ssd-llm/src/inference/paged_attention.rs:205-286 | Free and used blocks add up to the pool; once all sequences are removed every block is free |
| `PagedModel.InitInv` | crates/ssd-llm/src/inference/paged_attention.rs:312-338 | A new cache satisfies the invariant and stands for no sequences |
| `PagedOps.AppendLayerCorrect` | crates/ssd-llm/src/inference/paged_attention.rs:351-409 | Append succeeds exactly when no block is needed or one is free; it then appends to this list alone, else the layer is unchanged; the accounts of the pool hold |
| `PagedOps.AppendWritesOwnBlocks` | crates/ssd-llm/src/inference/paged_attention.rs:386-405 | The data of a block changes in an append only if afterwards this sequence alone holds it |
| `PagedOps.ForkLayerCorrect` | crates/ssd-llm/src/inference/paged_attention.rs:496-522 | A fork takes no free block, the new sequence reads what the old one reads, and reference counts stay exact |
| `PagedOps.RemoveLayerCorrect` | crates/ssd-llm/src/inference/paged_attention.rs:472-493 | Removing a sequence gives back its blocks and leaves every other list alone |
| `PagedOps.RollbackLayerKeeps` | crates/ssd-llm/src/inference/paged_attention.rs:525-568 | In one layer, rollback keeps the accounts and all other tables; it keeps the lists of the others if and only if the fill count it writes is the old one or is that of no other table's last block |
| `PagedOps.RollbackOwnList` | crates/ssd-llm/src/inference/paged_attention.rs:525-568 | The list of the sequence itself is truncated if and only if no block is kept, or the fill count was right, or the list is not shorter than the new length |
| `PagedOps.RollbackOtherList` | crates/ssd-llm/src/inference/paged_attention.rs:525-568 | The list of any one other sequence stays if and only if the rollback does not overwrite a different fill count in the last block of its table |
| `PagedOps.RollbackLayerExact` | crates/ssd-llm/src/inference/paged_attention.rs:525-568 | The two together: rollback is truncation of this list alone exactly under the condition of `RollbackExact` |
| `PagedLayer.PushFreshKeeps` | crates/ssd-llm/src/inference/paged_attention.rs:378-383 | Taking the first free block for a full or empty table keeps free list, reference counts and all lists |
| `PagedLayer.CopyLastKeeps` | crates/ssd-llm/src/inference/paged_attention.rs:263-286 | Replacing a shared last block by a private copy keeps the accounts and every list |
| `PagedLayer.WriteLastKeeps` | crates/ssd-llm/src/inference/paged_attention.rs:402-405 | Writing the next slot of a private block appends one entry to this list and to no other |
| `PagedLayer.DropBlockKeeps` | crates/ssd-llm/src/inference/paged_attention.rs:546-550 | Dropping a block from the end or the front of a table keeps the accounts: freed at the last reference, counted down otherwise |
| `PagedLayer.SetFillKeeps` | crates/ssd-llm/src/inference/paged_attention.rs:552-562 | Writing a fill count keeps the invariant, shared block or not; the lists of the other sequences stay if and only if the count is the old one or no other table ends in the block |
| `PagedLayer.ViewFrame` | crates/ssd-llm/src/inference/paged_attention.rs:422-461 | What is read through a table depends on the vectors in its blocks and the fill count of its last block only |
| `PagedLayer.RowOfWrite` | crates/ssd-llm/src/inference/paged_attention.rs:79-95 | Writing one slot of a flat block changes that slot and no other |
| `PagedKvCache.BlockAllocator.Allocate` | crates/ssd-llm/src/inference/paged_attention.rs:205-210 | Takes the oldest free block and clears it, or reports that there is none |
| `PagedKvCache.BlockAllocator.Free` | crates/ssd-llm/src/inference/paged_attention.rs:213-220 | Counts one reference less and queues the block when none is left |
| `PagedKvCache.BlockAllocator.CopyOnWrite` | crates/ssd-llm/src/inference/paged_attention.rs:263-286 | The block itself when not shared; otherwise a copy in a free block and one reference less, or nothing when no block is free |
| `PagedKvCache.BlockAllocator.IncRef` | crates/ssd-llm/src/inference/paged_attention.rs:258-260 | Counts one reference more and changes nothing else |
| `PagedKvCache.BlockAllocator.TruncateTable` | crates/ssd-llm/src/inference/paged_attention.rs:545-563 | Pops and frees from the end of a table until the wanted length, then sets the fill count of its last block |
| `PagedKvCache.BlockAllocator.AppendEntry` | crates/ssd-llm/src/inference/paged_attention.rs:361-408 | The statements of append (new block, copy, write) are the layer operation proved correct |
| `PagedKvCache.PagedKvCache.Append` | crates/ssd-llm/src/inference/paged_attention.rs:351-409 | The class method takes exactly the modelled step, error results included, and keeps the cache valid |
| `PagedKvCache.PagedKvCache.AddSequence` | crates/ssd-llm/src/inference/paged_attention.rs:341-348 | Takes the modelled step and returns the id of the one sequence it adds, which no sequence had |
| `PagedKvCache.PagedKvCache.IncrementSeqLen` | crates/ssd-llm/src/inference/paged_attention.rs:412-419 | Same, for counting one position more |
| `PagedKvCache.PagedKvCache.ForkSequence` | crates/ssd-llm/src/inference/paged_attention.rs:496-522 | Same, for fork; nothing is added for an unknown source |
| `PagedKvCache.PagedKvCache.RemoveSequence` | crates/ssd-llm/src/inference/paged_attention.rs:472-493 | Same, for remove |
| `PagedKvCache.PagedKvCache.Rollback` | crates/ssd-llm/src/inference/paged_attention.rs:525-568 | Same, for rollback, into shared blocks too |
| `PagedKvCache.PagedKvCache.KeyAt` | crates/ssd-llm/src/inference/paged_attention.rs:422-441 | Errors exactly for an unknown sequence and for a position behind the last block; any other position gives this head's slice of what its slot holds, which inside the list is the key appended at that position |
| `PagedKvCache.PagedKvCache.ValueAt` | crates/ssd-llm/src/inference/paged_attention.rs:442-461 | Same, for values |
| `JsonExact.StrictLanguage` | crates/ssd-llm/src/inference/json_mode.rs:399-400 | A text is a prefix of some JSON text if and only if it passes the strict scan: the source's scan with no digit after a leading zero, a digit or the end of the text after a dot, after `e` and after the sign of an exponent, and only white space after the value |
| `JsonExact.VerdictExact` | crates/ssd-llm/src/inference/json_mode.rs:399-448 | The verdict is the documented one, a prefix of some valid JSON document, if and only if the text is rejected or passes the strict scan |
| `JsonExact.StrictCompletes` | crates/ssd-llm/src/inference/json_mode.rs:451-673 | A text that passes the strict scan becomes a JSON text by adding characters at its end |
| `JsonExact.AcceptedNotJson` | crates/ssd-llm/src/inference/json_mode.rs:399-400 | Concrete texts of each family that pass and begin no JSON text: a leading zero, text after the value, a missing digit run with more behind it |
| `JsonExact.ExactLanguage` | crates/ssd-llm/src/inference/json_mode.rs:451-673 | The state machine accepts exactly the prefixes of: white space, a relaxed JSON value, anything at all |
| `JsonExact.JsonPrefixesAccepted` | crates/ssd-llm/src/inference/json_mode.rs:451-673 | Every prefix of every JSON text of RFC 8259 is accepted |
| `JsonExact.AcceptedCompletes` | crates/ssd-llm/src/inference/json_mode.rs:451-673 | Every accepted text can be completed to a relaxed JSON text; `StrictLanguage` says which can be completed to a JSON text |
| `JsonExact.RelaxedAccepted` | crates/ssd-llm/src/inference/json_mode.rs:451-673 | A relaxed JSON value with anything after it is accepted |
| `JsonText.ValueParsed` | crates/ssd-llm/src/inference/json_mode.rs:461-660 | A value, relaxed or strict, followed by white space, a separator or the end is consumed by the scan of its strength to its last character, no more and no less |
| `JsonText.CharClasses` | crates/ssd-llm/src/inference/json_mode.rs:451-518 | The character tests of the recogniser are the classes of RFC 8259, given by their code points: white space, digits, hexadecimal digits, unescaped characters, escapes |
| `JsonPrefix.PrefixClosed` | crates/ssd-llm/src/inference/json_mode.rs:451-673 | Every prefix of an accepted text is accepted |
| `JsonParser.StateMachine` | crates/ssd-llm/src/inference/json_mode.rs:451-673 | The loops over the shared index terminate and return what the grammar functions say |
| `JsonParser.ParseString` | crates/ssd-llm/src/inference/json_mode.rs:479-518 | The string loop with escapes and unicode escapes stops where the grammar function says |
| `JsonParser.ParseNumber` | crates/ssd-llm/src/inference/json_mode.rs:520-556 | Same, for numbers |
| `JsonParser.ParseObject` | crates/ssd-llm/src/inference/json_mode.rs:572-625 | Same, for objects |
| `JsonParser.ParseArray` | crates/ssd-llm/src/inference/json_mode.rs:627-660 | Same, for arrays |
| `JsonParser.ParseValue` | crates/ssd-llm/src/inference/json_mode.rs:461-477 | Same, for values: dispatch on the first character |
| `JsonParser.ParseKeyword` | crates/ssd-llm/src/inference/json_mode.rs:558-570 | Same, for the three keywords |
| `JsonMode.IsValidJsonPrefix` | crates/ssd-llm/src/inference/json_mode.rs:399-448 | All completion heuristics together never change the verdict of the state machine, whatever sound JSON parser they call |
| `JsonMode.SegmentationIrrelevant` | crates/ssd-llm/src/inference/json_mode.rs:369-382 | Feeding a text in any tokens is accepted throughout exactly if it is accepted at once, and the kept text is then the whole text |
| `JsonMode.KeptTextAccepted` | crates/ssd-llm/src/inference/json_mode.rs:369-382 | Whatever tokens are fed, the kept text stays accepted, begins with the text it grew from, and extends to a relaxed JSON text |
| `JsonMode.CompletionReachable` | crates/ssd-llm/src/inference/json_mode.rs:369-391 | Some tokens turn a kept text into a JSON text if and only if it passes the strict scan; otherwise generation never completes |
| `JsonMode.JsonGrammar.FeedToken` | crates/ssd-llm/src/inference/json_mode.rs:369-382 | A rejected token leaves the text unchanged, an accepted one is appended |
| `JsonMode.JsonGrammar.FeedTokens` | crates/ssd-llm/src/inference/json_mode.rs:369-382 | Feeding several tokens returns true throughout exactly if the whole text is accepted |
| `JsonMode.JsonGrammar.IsComplete` | crates/ssd-llm/src/inference/json_mode.rs:385-391 | True exactly for a non-empty text that the JSON parser accepts; such a text is a JSON text |
| `JsonMode.ApplyJsonConstraint` | crates/ssd-llm/src/inference/json_mode.rs:679-696 | A logit becomes minus infinity exactly if an entry for it gives a rejected text; all others keep their value |
| `JsonMode.ContinuationNeverMasked` | crates/ssd-llm/src/inference/json_mode.rs:679-696 | A token that some JSON text continues with is masked if and only if another entry of the same id gives a rejected text |
| `AwqQuantize.ReadsBack` | crates/ssd-llm/src/inference/awq.rs:200-244 | For 2, 3, 4 and 8 bits, every shape and every position, the packed integer is read back as the one computed for that weight, group scale and zero point |
| `AwqQuantize.QuantizeAwq` | crates/ssd-llm/src/inference/awq.rs:267-494 | Shape mismatch and unsupported widths are refused; otherwise scales, zero points and packed bytes are those of a quantised matrix as defined |
| `AwqQuantize.GroupParameters` | crates/ssd-llm/src/inference/awq.rs:321-352 | The parameters of a group are its own bounds without clipping, and never give a larger error than those with it |
| `AwqQuantize.AllParameters` | crates/ssd-llm/src/inference/awq.rs:314-354 | Every group of every row gets its own parameters, partial last groups included |
| `AwqQuantize.PackCodes` | crates/ssd-llm/src/inference/awq.rs:356-473 | After the loops each slot holds the encoded integer of its own weight |
| `AwqQuantize.ComputeScales` | crates/ssd-llm/src/inference/awq.rs:107-127 | The loops compute the raw scales divided by their mean |
| `AwqQuantize.ScaleWeights` | crates/ssd-llm/src/inference/awq.rs:295-302 | The loops multiply every weight by the scale of its column |
| `AwqQuantize.ScalesNormalised` | crates/ssd-llm/src/inference/awq.rs:105-127 | Channel scales are positive and their mean is 1 |
| `AwqQuantize.ScalesProportional` | crates/ssd-llm/src/inference/awq.rs:105-127 | Channel scales are to each other as the powers of the largest activations, a channel without activation counting as 1 |
| `AwqQuantize.MemberOf` | crates/ssd-llm/src/inference/awq.rs:314-318 | Every weight lies in the group its column belongs to |
| `AwqPacking.SetSlot` | crates/ssd-llm/src/inference/awq.rs:378-383 | OR-ing a value into a zero slot sets this slot and changes no other, also across byte borders |
| `AwqPacking.SlotLayout` | crates/ssd-llm/src/inference/awq.rs:203-241 | Slots of 2, 4 and 8 bits fill a byte from its low end up |
| `AwqPacking.SlotLayout3` | crates/ssd-llm/src/inference/awq.rs:221-233 | Slots of 3 bits fill three bytes, the first of them lowest, from the low end up |
| `AwqPacking.EncodedValue` | crates/ssd-llm/src/inference/awq.rs:370-398 | Up to four bits store the distance from the least value, eight bits the value modulo 256 |
| `AwqQuantize.MissingParameters` | crates/ssd-llm/src/inference/awq.rs:155-192 | Behind the end of a parameter list the step and the channel scale are one and the offset is zero |
| `AwqPacking.SetSlot3` | crates/ssd-llm/src/inference/awq.rs:429-441 | Same, for 3-bit values spread over three bytes |
| `AwqPacking.OrSlot3` | crates/ssd-llm/src/inference/awq.rs:429-441 | The three byte-wise ORs act on the 24-bit word as one OR of a 3-bit field |
| `AwqBounds.HalfStepBound` | crates/ssd-llm/src/inference/awq.rs:288-354 | Without clipping a dequantised weight differs from the original by at most half its group step divided by its channel scale |
| `AwqBounds.LevelBound` | crates/ssd-llm/src/inference/awq.rs:308-354 | In numbers: without clipping the error of a weight is at most (hi - lo) / (2 (2^bits - 1)) over its channel scale, for any bounds lo and hi of the scaled weights of its group |
| `AwqBounds.ExtremesStored` | crates/ssd-llm/src/inference/awq.rs:308-372 | In a group that is not constant, without clipping, the least weight is stored as -2^(bits - 1) and the greatest as 2^(bits - 1) - 1 |
| `AwqBounds.ConstantGroupZero` | crates/ssd-llm/src/inference/awq.rs:368-374 | Without clipping the weights of a constant group are stored as 0 |
| `AwqBounds.ConstantGroupExact` | crates/ssd-llm/src/inference/awq.rs:321-351 | The weights of a constant group come back exactly, with or without clipping |
| `AwqBounds.ClippingNeverHurts` | crates/ssd-llm/src/inference/awq.rs:333-353 | The squared error, in scaled space, of the integers stored with the clip search is never larger than of those stored without |
| `AwqBounds.MatVec` | crates/ssd-llm/src/inference/awq.rs:174-197 | The fused product is, row by row, the dot product with the dequantised matrix |
| `AwqBounds.Dequantize` | crates/ssd-llm/src/inference/awq.rs:154-172 | The loops write every dequantised weight to its place |
| `AwqError.FindOptimalClip` | crates/ssd-llm/src/inference/awq.rs:498-547 | The bounds found lie inside the group's own, are never worse than those, and no candidate of the search is better |
| `AwqError.FindMinMax` | crates/ssd-llm/src/inference/awq.rs:321-331 | The loop from the float extremes finds the least and greatest weight |
| `AwqError.SearchError` | crates/ssd-llm/src/inference/awq.rs:530-537 | The search's loop computes the squared error that the quantiser will make with the candidate's bounds |
| `AwqError.SearchErrorSame` | crates/ssd-llm/src/inference/awq.rs:530-537 | The search clamps and then rounds, the quantiser rounds with an offset and then clamps: both are equally far from the weight, ties included |
| `AwqError.ShiftRoundClamp` | crates/ssd-llm/src/inference/awq.rs:369-372 | Rounding with an offset, halves away from zero, and clamping gives a nearest integer of the range |
| `AwqError.Levels` | crates/ssd-llm/src/inference/awq.rs:308-312 | The least and the greatest integer and the range, as powers of two, for each supported width |
| `AwqError.CandidateWidth` | crates/ssd-llm/src/inference/awq.rs:517-523 | Candidates of the search keep the centre of the bounds and grow from half their width to the whole in equal steps |
| `AwqError.HalfStep` | crates/ssd-llm/src/inference/awq.rs:321-372 | A weight between the bounds is restored up to half a step, and exactly when the bounds are equal |
| `Q4kKernels.UnpackInverse` | crates/ssd-llm/src/cuda/mod.rs:90-147 | The twelve scale bytes are determined by the eight 6-bit pairs read from them |
| `Q4kKernels.PackInverse` | crates/ssd-llm/src/cuda/mod.rs:90-147 | Any eight 6-bit pairs can be stored: with the other direction, unpacking is a bijection |
| `Q4kKernels.UnpackElement` | crates/ssd-llm/src/cuda/mod.rs:90-147 | Element e of a block packed from header, eight pairs and 256 nibbles dequantises to d * scale * nibble - dmin * min, with the pair of e / 32 |
| `Q4kKernels.PackUnpacked` | crates/ssd-llm/src/cuda/mod.rs:90-147 | Every block of 144 bytes is a packed one: with the other direction, the block layout is a bijection |
| `Q4kKernels.RowOfPacked` | crates/ssd-llm/src/cuda/mod.rs:165-200 | Element 256 b + e of a row is element e of the block packed at byte 144 (row * blocks per row + b) |
| `Q4kKernels.DequantRowKernel` | crates/ssd-llm/src/cuda/mod.rs:165-200 | The lanes write every element of the row exactly as the block format defines it |
| `Q4kKernels.LanePartial` | crates/ssd-llm/src/cuda/mod.rs:90-147 | A lane's partial sum is the sum of its stride of the products of row and input |
| `Q4kKernels.WarpRow` | crates/ssd-llm/src/cuda/mod.rs:90-147 | 32 lanes and the shuffle tree compute the dot product of the input with the dequantised row |
| `Q4kKernels.Sgemv` | crates/ssd-llm/src/cuda/mod.rs:90-147 | All rows: the kernel computes the matrix-vector product with the dequantised matrix |
| `Q4kKernels.LoadShared` | crates/ssd-llm/src/cuda/mod.rs:103-108 | 1024 threads copy the whole input into shared memory |
| `Q4kKernels.RmsNorm` | crates/ssd-llm/src/cuda/mod.rs:39-52 | Strided sums and the halving tree give the normalised vector for any power-of-two thread count |
| `Q4kKernels.UnitPower` | crates/ssd-llm/src/cuda/mod.rs:36-52 | With an inverse square root and weights of one, a vector of mean square m comes out with mean square m / (m + eps) |
| `Q4kKernels.RmsNormSgemv` | crates/ssd-llm/src/cuda/mod.rs:226-293 | The fused kernel, reusing one shared array, computes the product with the normalised input from 1024 inputs on |
| `Q4kKernels.FusedAgrees` | crates/ssd-llm/src/cuda/mod.rs:226-293 | The fused kernel and norm followed by product give the same output |
| `ParallelSums.StridedIsSum` | crates/ssd-llm/src/cuda/mod.rs:45-46 | The strided sums of all threads add every element exactly once |
| `ParallelSums.HalvingStep` | crates/ssd-llm/src/cuda/mod.rs:47-49 | One reduction step between barriers gives the same result in any thread order |
| `ParallelSums.TreeReduce` | crates/ssd-llm/src/cuda/mod.rs:47-49 | The halving tree leaves the sum of all slots in slot 0 |
| `ParallelSums.WarpReduce` | crates/ssd-llm/src/cuda/mod.rs:136-145 | Five shuffles leave the sum of 32 lanes in lane 0 |
| `Attention.OnlineHead` | crates/ssd-llm/src/inference/flash_attention.rs:76-138 | The one-pass loop with running maximum, sum and rescaled accumulator yields the softmax-weighted mean of the values |
| `Attention.FlashAttention` | crates/ssd-llm/src/inference/flash_attention.rs:146-227 | Over any window of positions each head's output is the softmax-weighted mean over that window, zero when it is empty |
| `Attention.TwoPassHead` | crates/ssd-llm/src/inference/attention.rs:56-88 | Scores, softmax in place and weighted sum yield the same mean |
| `Attention.MultiHeadAttention` | crates/ssd-llm/src/inference/attention.rs:56-88 | The reference loop over all heads fills each head's slice with it |
| `Attention.GqaAttention` | crates/ssd-llm/src/inference/gqa.rs:58-93 | For any head counts: the grouped loops fill the slice of every head that has a key/value head with the mean over the visible positions, and leave zeros everywhere if there are fewer query heads than key/value heads |
| `Attention.AllAgree` | crates/ssd-llm/src/inference/flash_attention.rs:76-139 | On head counts that keep the loops inside the cache, online and two-pass loops give the same weighted means; the grouped loop gives them too if and only if the key/value heads divide the query heads or all outputs are zero |
| `Attention.GroupedSkipsHeads` | crates/ssd-llm/src/inference/gqa.rs:58-93 | With fewer query heads than key/value heads the other two loops do not give zeros: values that are all one have mean one |
| `Attention.HeadsFitIff` | crates/ssd-llm/src/inference/flash_attention.rs:71-77 | The head mapping stays inside the cache if and only if the key/value heads divide the query heads or outnumber them |
| `Attention.VisibleExactly` | crates/ssd-llm/src/inference/gqa.rs:131-137 | The visible positions are exactly the sinks and the window, in increasing order |
| `Attention.ShiftInvariant` | crates/ssd-llm/src/inference/flash_attention.rs:107-127 | The weighted mean does not depend on the maximum that is subtracted |
| `Attention.SoftmaxInPlace` | crates/ssd-llm/src/metal/compute.rs:653-669 | The in-place softmax yields the normalised weights |
| `Attention.UnrolledDot` | crates/ssd-llm/src/inference/flash_attention.rs:90-104 | The four-way unrolled loop is the dot product |
| `Attention.SimdDot` | crates/ssd-llm/src/inference/gqa.rs:181-205 | The four accumulators together are the dot product |
| `MmapCache.RunRefines` | crates/ssd-llm/src/inference/mmap_kv_cache.rs:108-201 | After any run of appends with automatic spills, clears, and rollbacks that stay above the cold part, every layer stands for its plain list and the RAM account holds |
| `MmapCache.RunReads` | crates/ssd-llm/src/inference/mmap_kv_cache.rs:243-294 | In such runs every key and value read, hot or cold, is the slice of the entry appended at that position |
| `MmapCache.StepRefines` | crates/ssd-llm/src/inference/mmap_kv_cache.rs:108-184 | An operation does to all layers what it does to the lists; for a rollback if and only if it reaches into no cold part |
| `MmapCache.StepKeepsRam` | crates/ssd-llm/src/inference/mmap_kv_cache.rs:108-201 | `ram_used` is the size of all hot entries and at most the budget or one entry, through every operation and with layers of uneven length |
| `MmapCache.HotBytesOfLayer` | crates/ssd-llm/src/inference/mmap_kv_cache.rs:174-184 | The bytes that the account counts for a layer are those its hot keys and values would take in the files |
| `MmapCache.SpillCount` | crates/ssd-llm/src/inference/mmap_kv_cache.rs:187-190 | A quarter of the hot entries of the first layer is spilled, rounded down, and one if there are fewer than four |
| `MmapModel.ReadsAreList` | crates/ssd-llm/src/inference/mmap_kv_cache.rs:243-294 | Reads of a layer are the slices of its list from head * head_dim on, and every cold byte range lies inside the mapped file, so the empty fallback is not taken |
| `MmapModel.HeadsJoin` | crates/ssd-llm/src/inference/mmap_kv_cache.rs:243-294 | The reads of all heads at a position, hot or cold, joined in order, are the whole key and the whole value |
| `MmapModel.SpillGood` | crates/ssd-llm/src/inference/mmap_kv_cache.rs:297-364 | Spilling any number of entries leaves the list as it is |
| `MmapModel.RollbackExact` | crates/ssd-llm/src/inference/mmap_kv_cache.rs:438-457 | A rollback cuts the list, with file and mapping still in step, if and only if it stays above the cold part, or cuts to nothing while no bytes are cold |
| `MmapModel.RollbackReadsStale` | crates/ssd-llm/src/inference/mmap_kv_cache.rs:443-450 | After a rollback to nothing over a cold part, the next spilled entry reads as the first old entry, whatever it is |
| `MmapKvCache.MmapLayerKv.SpillToCold` | crates/ssd-llm/src/inference/mmap_kv_cache.rs:297-364 | The file writes, drains and remapping are the modelled spill, and the bytes freed are those of the spilled entries |
| `MmapKvCache.MmapLayerKv.KeyAt` | crates/ssd-llm/src/inference/mmap_kv_cache.rs:243-269 | The lookup by byte offsets is the modelled read |
| `MmapKvCache.MmapLayerKv.ValueAt` | crates/ssd-llm/src/inference/mmap_kv_cache.rs:271-294 | Same, for values |
| `MmapKvCache.MmapLayerKv.CutTo` | crates/ssd-llm/src/inference/mmap_kv_cache.rs:438-457 | The three branches of a layer's rollback are the modelled one |
| `MmapKvCache.MmapLayerKv.Reset` | crates/ssd-llm/src/inference/mmap_kv_cache.rs:415-436 | Clearing drops entries, mappings and files |
| `MmapKvCache.MmapKvCache.Push` | crates/ssd-llm/src/inference/mmap_kv_cache.rs:108-119 | The class method takes the modelled append, spill included |
| `MmapKvCache.MmapKvCache.SpillOldestHot` | crates/ssd-llm/src/inference/mmap_kv_cache.rs:187-201 | A quarter of the first layer's hot entries, at least one, is spilled in every layer and the freed bytes are subtracted |
| `MmapKvCache.MmapKvCache.CutAll` | crates/ssd-llm/src/inference/mmap_kv_cache.rs:174-184 | Same, for rollback of all layers and the recount of RAM |
| `MmapKvCache.MmapKvCache.Empty` | crates/ssd-llm/src/inference/mmap_kv_cache.rs:165-171 | Same, for clear |
| `FloatBytes.DecodeSlice` | crates/ssd-llm/src/inference/mmap_kv_cache.rs:253-257 | Any run of whole floats in encoded bytes decodes to the floats that were written |
| `FloatBytes.LittleEndian` | crates/ssd-index/src/store/file.rs:355-387 | The first of the four bytes of a float counts least |
| `SchedulerModel.RunKeeps` | crates/ssd-llm/src/inference/batch_scheduler.rs:88-428 | In every run, for any sampled tokens, the scheduler's invariant holds: queue in submission order, active within the batch size and in order, results right, every id in one place |
| `SchedulerProgress.OnePlace` | crates/ssd-llm/src/inference/batch_scheduler.rs:102-142 | Queued, active, completed and taken ids partition the submitted ids; the batch size is never exceeded; the token counter is the number of tokens in all results |
| `SchedulerProgress.FirstComeFirstServed` | crates/ssd-llm/src/inference/batch_scheduler.rs:156-166 | When a request has left the queue, so has every earlier one |
| `SchedulerProgress.ResultsAreOutputs` | crates/ssd-llm/src/inference/batch_scheduler.rs:345-391 | Whatever else is in the batch, a result is all but the last of the tokens sampled for the request, none of them a stop token and no more than its limit; the last one is end-of-sequence or zero, or came at the limit |
| `SchedulerProgress.StepProgress` | crates/ssd-llm/src/inference/batch_scheduler.rs:149-403 | Each iteration lowers the sum of (limit - generated + 1) over unfinished requests by at least the number of active ones |
| `SchedulerProgress.AllWorkFinishes` | crates/ssd-llm/src/inference/batch_scheduler.rs:149-418 | After that many iterations nothing is left, if and only if the batch size is at least 1 or there was no work |
| `SchedulerProgress.AllHaveResults` | crates/ssd-llm/src/inference/batch_scheduler.rs:401-418 | When no work is left every submitted request has exactly one result |
| `SchedulerModel.PromotedIs` | crates/ssd-llm/src/inference/batch_scheduler.rs:156-166 | Promotion takes the oldest queued requests, as many as there is space for |
| `BatchScheduler.BatchScheduler.Iterate` | crates/ssd-llm/src/inference/batch_scheduler.rs:149-403 | The loops of an iteration (promote, prefill, decode, collect) take the modelled step and return the results it adds |
| `BatchScheduler.BatchScheduler.Submit` | crates/ssd-llm/src/inference/batch_scheduler.rs:102-142 | The next id is returned and the request queued last |
| `BatchScheduler.BatchScheduler.Promote` | crates/ssd-llm/src/inference/batch_scheduler.rs:156-166 | The loop moves requests to the active list until it is full or the queue empty |
| `BatchScheduler.BatchScheduler.DecodeAll` | crates/ssd-llm/src/inference/batch_scheduler.rs:222-366 | Each decoding request, and no other, gets its token or is marked done |
| `BatchScheduler.BatchScheduler.Collect` | crates/ssd-llm/src/inference/batch_scheduler.rs:370-401 | Finished requests become results in order, the rest stay, and their tokens are counted |
| `BatchScheduler.BatchScheduler.TakeResult` | crates/ssd-llm/src/inference/batch_scheduler.rs:421-427 | The first result of the id is handed out and removed; nothing is returned exactly if there is none |
| `BatchScheduler.TakenOnce` | crates/ssd-llm/src/inference/batch_scheduler.rs:421-427 | Taking a result a second time changes nothing |
| `StoreModel.CrashExact` | crates/ssd-index/src/store/file.rs:212-221 | A flush cut off between its writes leaves an error, the old store or the new one, if and only if it is not cut off after the first write, or the number of rows changes, or the vectors or the chunks do not change |
| `StoreModel.CrashMixes` | crates/ssd-index/src/store/file.rs:212-221 | A concrete upsert whose flush, cut off after the first write, opens as a mix of new vectors and old chunks |
| `StoreModel.FlushThenOpen` | crates/ssd-index/src/store/file.rs:74-133 | A completed flush followed by an open restores exactly the rows |
| `StoreModel.OpenRepresented` | crates/ssd-index/src/store/file.rs:108-132 | Files that hold rows open as the store with these rows, whatever lies in files that are not needed |
| `StoreModel.OpenMeaning` | crates/ssd-index/src/store/file.rs:74-133 | No manifest, a version other than 1, another dimension and another tag are refused, each exactly when it is the first of these that holds; a store that opens has the dimension and tag asked for, as many vectors as chunks, and distinct ids |
| `StoreModel.PutIsUpdate` | crates/ssd-index/src/store/file.rs:261-286 | A put is a map update that replaces in place or appends, and keeps ids distinct and the order of insertion |
| `StoreModel.PutAllTwice` | crates/ssd-index/src/store/file.rs:256-286 | Putting the same rows again leaves the rows as they were |
| `StoreModel.UnmatchedIs` | crates/ssd-index/src/store/file.rs:182-192 | Exactly the rows whose path does not start with the prefix, slashes normalised, stay |
| `StoreModel.RemovedIs` | crates/ssd-index/src/store/file.rs:165-205 | A row is removed exactly if the prefix is not empty and the row matches it |
| `StoreModel.MatchesMeaning` | crates/ssd-index/src/store/file.rs:171-187 | A row matches exactly if its path begins with the prefix character by character, where slash and backslash are the same |
| `StoreModel.UnmatchedOrder` | crates/ssd-index/src/store/file.rs:182-192 | Rows that stay are in the order they were in |
| `StoreModel.RemoveTwice` | crates/ssd-index/src/store/file.rs:165-201 | Removing a prefix a second time removes nothing |
| `StoreModel.BestMeaning` | crates/ssd-index/src/store/file.rs:302-314 | The hits are the best rows, as many as asked for or as there are, in falling score, ties in order of insertion; every row left out scores lower or ties and came later |
| `FileStore.FileStore.Put` | crates/ssd-index/src/store/file.rs:261-286 | Flat vectors, chunk list and index change together as the row list does; a wrong length is refused without a change |
| `FileStore.FileStore.Query` | crates/ssd-index/src/store/file.rs:288-322 | The sorted and truncated score list gives the hits of the best rows; a wrong length is refused |
| `FileStore.FileStore.RemoveByPathPrefix` | crates/ssd-index/src/store/file.rs:165-201 | The one-pass rebuild removes the matching rows from all three structures and returns their number; an empty prefix removes nothing |
| `FileStore.FileStore.Flush` | crates/ssd-index/src/store/file.rs:212-235 | The three files are written in order with vectors, chunks and count, and nothing when there is nothing to write |
| `FileStore.FileStore.DiscardPendingChanges` | crates/ssd-index/src/store/file.rs:207-209 | Only the dirty mark is cleared |
| `FileStore.FileStore.GetChunk` | crates/ssd-index/src/store/file.rs:324-329 | The index finds the chunk of an id exactly if a row has it |
| `FileStore.OpenStore` | crates/ssd-index/src/store/file.rs:74-133 | Open makes the checks in the source's order; an opened store is valid even for files that no flush wrote |
| `FileStore.CreateStore` | crates/ssd-index/src/store/file.rs:51-69 | A zero dimension is refused; otherwise an empty store of which only the manifest is written |
| `FileStore.ReadVectorsBin` | crates/ssd-index/src/store/file.rs:363-390 | A count of zero skips the file; otherwise size mismatches are errors and the bytes decode to floats |
| `ChunkFile.FileRoundTrip` | crates/ssd-index/src/store/file.rs:392-424 | The chunk file reads back as the chunks written |
| `ChunkFile.LineEnds` | crates/ssd-index/src/store/file.rs:407-415 | A line may end in a line feed, in a carriage return and a line feed, or at the end of the file |
| `ChunkFile.BlankSkipped` | crates/ssd-index/src/store/file.rs:417-419 | A line of white space, wherever it stands, does not change what is read |
| `ChunkFile.ParseMeaning` | crates/ssd-index/src/store/file.rs:416-423 | The file cannot be read exactly if some line that is not white space does not decode |
| `H2oModel.EvictSetMeaning` | crates/ssd-llm/src/inference/h2o_cache.rs:126-149 | Evicted are exactly as many entries as asked for, none of them a sink, each with a score at most that of every surviving non-sink, ties evicting the older |
| `H2oModel.KeepSelects` | crates/ssd-llm/src/inference/h2o_cache.rs:152-157 | What is kept is the subsequence at the indices that are not evicted, in order |
| `H2oCache.H2oLayerCache.EvictIfNeeded` | crates/ssd-llm/src/inference/h2o_cache.rs:116-123 | Afterwards the length is the smaller of old length and budget, sinks are untouched, and all four lists keep the same subsequence |
| `H2oCache.H2oLayerCache.EvictN` | crates/ssd-llm/src/inference/h2o_cache.rs:126-161 | Removing the indices largest first from the four lists removes exactly the eviction set |
| `H2oCache.H2oLayerCache.Append` | crates/ssd-llm/src/inference/h2o_cache.rs:85-90 | The four lists grow together by one entry; its position is one more than the last, or zero, so positions stay strictly increasing |
| `H2oCache.H2oLayerCache.RecordAttention` | crates/ssd-llm/src/inference/h2o_cache.rs:96-112 | Scores are decayed if the policy says so, then the weights of the cached positions are added |
| `H2oCache.ScoresAreSums` | crates/ssd-llm/src/inference/h2o_cache.rs:96-112 | After any number of steps a score is the sum of the weights received, the one of k steps ago counting decay to the power k |
| `H2oCache.H2oLayerCache.Rollback` | crates/ssd-llm/src/inference/h2o_cache.rs:189-193 | All four lists are truncated alike |
| `H2oCache.LayerKvCache.Rollback` | crates/ssd-llm/src/inference/kv_cache.rs:82-85 | Keys and values are truncated alike |
| `H2oCache.HeadsJoin` | crates/ssd-llm/src/inference/kv_cache.rs:41-53 | The reads of all heads at a position, joined in order, are the whole key and the whole value |
| `StableSort.SortedArranged` | crates/ssd-llm/src/inference/h2o_cache.rs:141 | The sort ranks the entries and keeps the order of equal ones |
| `TextChunker.ReassemblesContent` | crates/ssd-index/src/chunk/text.rs:68-108 | Dropping the first `stride` lines of every later chunk and concatenating gives back the content, byte for byte |
| `TextChunker.NeighboursShare` | crates/ssd-index/src/chunk/text.rs:83-106 | Neighbouring chunks share exactly `stride` lines |
| `TextChunker.ChunkInPlace` | crates/ssd-index/src/chunk/text.rs:88-101 | Every chunk is the non-empty byte range of the content that its offset and length name |
| `TextChunker.IdsDistinct` | crates/ssd-index/src/chunk/text.rs:111-118 | Offsets go up and no two ids of a file are equal, whatever the hashes |
| `TextChunker.IdsEqual` | crates/ssd-index/src/chunk/text.rs:111-118 | An id is the 16 characters of the path hash, the decimal offset and 8 characters of the content hash; two ids are equal exactly if these three parts are, so a change of content changes the id whenever it changes the hash |
| `TextChunker.ReindexUnchanged` | crates/ssd-index/src/chunk/text.rs:111-118 | Putting the chunks of an unchanged file again leaves the store's rows unchanged |
| `TextChunker.WindowsShape` | crates/ssd-index/src/chunk/text.rs:86-106 | The windows start at the first line, end at the last, and each begins one step after the one before |
| `TextChunker.ChunkText` | crates/ssd-index/src/chunk/text.rs:68-108 | The loop terminates inside the line table and produces the chunks of the windows |
| `TextChunker.LineTable` | crates/ssd-index/src/chunk/text.rs:73-80 | The table holds byte offset and length of every line |
| `TextChunker.New` | crates/ssd-index/src/chunk/text.rs:35-47 | A zero window and an overlap as long as the window are refused; otherwise window and overlap are those given |
| `TextChunker.SplitAreLines` | crates/ssd-index/src/chunk/text.rs:75-80 | Splitting yields lines, each ending at its only line break, that join to the content |
| `TextChunker.DecimalValue` | crates/ssd-index/src/chunk/text.rs:117 | Offsets in ids are written in decimal digits of that value |
| `TextChunker.DecimalInjective` | crates/ssd-index/src/chunk/text.rs:117 | Decimal offsets in ids tell offsets apart |

## Left out

- QuantizeAwq: assumes that no product of a weight and its channel scale exceeds the largest 32-bit float, because the search
  for extremes starts from that number and larger products are infinities in the source.
- MatVec: assumes that no channel scale is zero, as `ComputeScales` guarantees; in the source a zero gives infinities.
- Dequantize: the same assumption, for the same reason.
- RmsNormSgemv: assumes at least 1024 inputs; with 256, 512 or 768 the 1024 threads of the kernel write behind the end of
  its shared array, which has one float per input, and nothing can be said of the result.
- FusedAgrees: the same assumption, for the same reason.
- CrashExact: a crash falls between two of the three writes; a write cut off inside one file is not modelled.
- Query: normalisation and product may be any functions, so that the vectors are unit vectors is not stated.
- MmapCache.RunRefines: runs of the mapped cache start without backing files; `NewGood` states when files left over matter.
- HeadsFitIff: query heads are given by number and width only; how the weights produce them is not modelled.
- Floating point: rounding, overflow, NaN and infinities; scales, scores and attention are over the reals, and where only
  bytes matter a float is its bit pattern. A query with NaN scores is not modelled.
- Machine integers: lengths, ids and offsets do not wrap around.
- `SwapAwarePagedKvCache`: block swapping to disk and its swapper.
- `GrammarAcceptor` and `JsonValidator`: superseded by the recogniser modelled here.
- RoPE, QK norm, projections and feed-forward layers: attention starts from a fixed query and cache.
- The transformer inside a scheduler iteration, embeddings, prefetching, timing, and errors that abort an iteration.
- The collection of activation statistics: maxima per channel are an input of `ComputeScales`.
- Half-float decoding and CUDA driver calls, streams and graph capture; the other kernels of the same file.
- I/O errors.
- White space beyond ASCII in otherwise blank lines of the chunk file.
- The manifest's JSON and file paths: a directory is three optional files.
- String contents beyond bytes: a character stands for one byte of UTF-8.
- Locking, the HTTP server, the command line, configuration, metrics, directory walking and embedding clients.
