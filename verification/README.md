# Verified models of go-palletone's concurrent and codec cores

This project models the parts of a go-ethereum-derived node where correctness is hardest
to see by reading: the concurrent Merkle-tree hasher, the bloom-bits index with its
matcher pipeline, the event feed, the sparse-bitset codec, the peer-to-peer dialer,
server loop and multiplexing, RLPx framing, the transaction sync loop and 256-bit
arithmetic. Concurrent code is a state machine whose steps are the atomic actions of the
goroutines, and the theorems quantify over every interleaving. Code that works in place
is a class or an array method proved against the functions the theorems are about.

`dafny verify dfyconfig.toml` checks everything.

## The main results

* **Merkle tree hasher** (`Bmt*.dfy`). However the data is split into writes and however
  the segment goroutines interleave, exactly one value reaches the result channel, it is
  the recursive reference hash, no schedule gets stuck or runs forever, and the released
  tree is fit for the next chunk. The toggle counter is a 32-bit integer. On a clean tree
  every schedule gives the reference hash for every base hash exactly when no counter the
  chunk toggles is negative; on a new tree that is so for the first 2^30 chunks, and for
  the next one exactly unless all of them are longer than two segments. The wrap is
  reached: a base hash, 2^30 right hashes and then a wrong one are constructed. In every
  history of a pool of trees shared by any number of hashers, a tree has one owner at a
  time and gives reference hashes under the same exact condition.
* **Bloom-bits index** (`Bloom*.dfy`, `Words.dfy`, `BitUtil.dfy`,
  `Distributor.dfy`, `Scheduler.dfy`).
  The matcher lists in increasing order exactly the blocks a naive per-block test keeps,
  and so does the reader of the daisy chain's sink under every interleaving of the chain.
  Where 64-bit block numbers make the reader go wrong is an exact condition on the range.
  The bulk bit operations agree on every machine word. The distributor loses
  and duplicates nothing, and schedulers shared by any number of pipelines request each
  section once and answer each pipeline in its own order.
* **Event feed** (`Feed.dfy`). Every send delivers exactly once to every case it started
  with that was not removed first, under all interleavings with (un)subscription and with
  channels subscribed repeatedly; removals always find their case.
* **Sparse bitset codec** (`Compress.dfy`). Decoding undoes encoding on every input, and
  every accepted input is the one canonical encoding of its output.
* **Peer-to-peer** (`Protocols.dfy`, `Rlpx.dfy`, `Dialer.dfy`, `Server.dfy`). Two peers
  agree on message-code offsets that tile the code space; a stream of frames round-trips
  with cipher and MAC state in step; dial quotas, uniqueness, redial spacing and admission
  limits hold in every reachable state of the server loop.
* **Transaction sync** (`TxSync.dfy`) and **256-bit arithmetic** (`BigMath.dfy`,
  `BigBytes.dfy`).

## Where the code differs from its documentation or from what one expects

* `Node.toggle` tests `% 2 == 1` on a 32-bit counter. Once the counter is negative the
  first of two goroutines is told to go on instead of waiting, and a node can be hashed
  without its right half (`BmtWrap.WrappedTreeFails`, `BmtWrap.AlwaysExact`,
  `BmtReuse.ReuseExact`, `BmtReuse.WrapReached`).
* The comment on `Hasher` says that `Reset` gives back the tree. The code gives it back in
  `Sum`; a `Reset` before `Sum` keeps the tree and the data written so far
  (`BmtHasher.Hasher.Reset`).
* `Hasher.Write` stays within the capacity except for an odd segment count with an open
  double segment before the last one; then the last segment gets too long
  (`BmtHasher.Overrun` is the exact condition in `BmtHasher.Hasher.Write`).
* The comment on `Hasher.Sum` says that its argument is appended; the code ignores it.
  The model follows the code.
* The comment on `Exp` says that the base is not changed; the code squares it in place.
  It survives exactly when the exponent is zero or the base is 0 or 1
  (`BigMath.BaseSurvives`).
* The reader of the matcher's sink counts blocks in 64 bits. In a section that ends at 2^64
  skipping the last byte or passing the last block wraps the counter and the index leaves
  the vector; in one that crosses 2^64 no block is listed (`BloomReader.ReadExact`).
* A delivery with fewer vectors than sections loses the sections without one
  (`Distributor.DeliverExact`); a nil vector delivered twice would close a channel twice
  (`Scheduler.CloseExact`, `Scheduler.NilClosesTwice`).
* `Generator.Bitset` bounds the bit index by the section count and not by the bloom
  length; the model returns `IndexPanic` where the code would index out of range.
* `rlpxFrameRW.WriteMsg` computes the frame size in 32 bits, so a size that wraps is
  accepted although the reader cannot follow (`Rlpx.RoundTripExact`, `Rlpx.WrapExample`).

## Model

| member | source | states |
|---|---|---|
| BmtReference.NewRefHasher | common/bmt/bmt_r.go:39-55 | the doubling loop ends on the span that half the smallest covering power of two gives |
| BmtReference.Hash | common/bmt/bmt_r.go:67-85 | the halving loop and the recursion compute the reference hash of the data for any covering span |
| BmtReference.SpanIrrelevant | common/bmt/bmt_r.go:67-85 | any two spans that cover half of the data give the same reference hash, so the starting span does not matter |
| BmtReference.TreeValueIsReference | common/bmt/bmt_r.go:67-85 | the value of a complete tree over the data is the reference hash, except that a lone segment stays raw |
| BmtReference.ReferenceIsTreeValue | common/bmt/bmt_r.go:59-65 | for data within the capacity, Hash is the value of any covering tree |
| BmtInvariant.ToggleHalf | common/bmt/bmt.go:505-509 | on an even counter the first half to toggle waits and the second goes on |
| BmtClimb.UnbalancedFlag | common/bmt/bmt.go:528-545 | a goroutine finds a node marked unbalanced exactly when nothing will come from its right |
| BmtClimb.RootFlag | common/bmt/bmt.go:461-492 | a goroutine that combines a node finds the root flag exactly on the chunk's root |
| BmtClimb.CombineValue | common/bmt/bmt.go:461-492 | what a goroutine pushes upwards is the value of the node's data |
| BmtLeaves.GoroutineKeeps | common/bmt/bmt.go:440-492 | every step of a segment goroutine keeps the tree invariant |
| BmtRuns.CallerKeeps | common/bmt/bmt.go:292-318 | every step of the caller, launching segments and marking the zig-zag path, keeps the invariant |
| BmtRuns.StepKeeps | common/bmt/bmt.go:440-492 | every enabled step of any goroutine keeps the invariant |
| BmtTheorem.ComputeDepth | common/bmt/bmt.go:519-524 | the loop computes the tree depth for a segment count |
| BmtTheorem.ValueIsTreeValue | common/bmt/bmt.go:461-492 | the value of a node is the tree value of the slice of data below it |
| BmtTheorem.ResultIsReference | common/bmt/bmt.go:292-318 | the value of the root that finalise marks is the reference hash of the whole data |
| BmtTheorem.NeverStuck | common/bmt/bmt.go:461-492 | until the result is delivered some goroutine or the caller can take a step |
| BmtCompletion.RunBounded | common/bmt/bmt.go:461-492 | no interleaving is longer than a bound fixed by the chunk |
| BmtCompletion.CounterAfter | common/bmt/bmt.go:507-509 | a finished chunk leaves a counter bumped twice where both halves held data and unchanged everywhere else |
| BmtCompletion.EveryInterleaving | common/bmt/bmt.go:292-318 | on a clean tree without a negative counter where the chunk's goroutines meet, under every interleaving at most one value reaches the result channel, it is the reference hash, and until then the run can go on and is bounded |
| BmtCompletion.ReleasedClean | common/bmt/bmt.go:423-438 | after releaseTree no node is unbalanced, only the top is root, all counters are even, and each counted exactly the chunk's toggles |
| BmtCompletion.CanHash | common/bmt/bmt.go:292-318 | every chunk that fits has a run to its result on such a tree |
| BmtWrap.Climb | common/bmt/bmt.go:461-492 | a schedule, for any tree and any wrapped node, in which that node is combined with what its right half held before and everything else is as it should be |
| BmtWrap.WrappedTreeFails | common/bmt/bmt.go:505-509 | on every clean tree with a negative counter where the chunk's goroutines meet, some base hash and some run deliver something other than the reference hash |
| BmtWrap.AlwaysExact | common/bmt/bmt.go:461-509 | on a clean tree every base hash and every run give the reference hash exactly when no counter the chunk toggles is negative |
| BmtReuse.HashOnce | common/bmt/bmt.go:423-438 | on a tree that fewer than 2^30 chunks have worn, a finished chunk gives its reference hash and leaves counters that tell how many chunks met at each node |
| BmtReuse.TreeReusable | common/bmt/bmt.go:423-438 | any sequence of up to 2^30 chunks on a new tree, each under its own interleaving, gives the reference hashes, and the counters tell the chunks |
| BmtReuse.ReuseExact | common/bmt/bmt.go:423-509 | after them the next chunk is hashed rightly for every base hash and run, exactly unless there were 2^30 and all of them and the next are longer than two segments |
| BmtReuse.WrapReached | common/bmt/bmt.go:423-509 | with one base hash, 2^30 copies of any chunk longer than two segments hash rightly on a new tree and then the same chunk has a run with a wrong result |
| BmtPool.OwnedKeeps | common/bmt/bmt.go:153-185 | every event of a pool leaves each tree either free once or held by one hasher |
| BmtPool.EveryHistory | common/bmt/bmt.go:164-185 | in every history of resets, sums and drains by any number of hashers, a sum on a tree with fewer than 2^30 chunks behind it is the reference hash, no tree has two holders, and a reset waits only while all trees are held |
| BmtPool.TreeExact | common/bmt/bmt.go:164-185 | for every tree of every such state the exact condition on the next chunk holds |
| BmtHasher.Hasher.constructor | common/bmt/bmt.go:90-99 | a new hasher holds no tree and no data |
| BmtHasher.Hasher.Reset | common/bmt/bmt.go:406-409 | an idle hasher gets the pool's next tree, worn as the pool says, and is ready for data; one that holds a tree keeps it and its data |
| BmtHasher.Hasher.Write | common/bmt/bmt.go:333-372 | the contents become the old ones followed by the input cut off at the capacity, unless the input overruns it; then the last segment is too long |
| BmtHasher.Hasher.ResetWithLength | common/bmt/bmt.go:416-419 | as Reset, and the next sum is sealed with the length |
| BmtHasher.Hasher.Sum | common/bmt/bmt.go:292-318 | under any schedule the sum is the reference hash, sealed with the length if one is set, and the tree goes back to the pool worn by exactly this chunk |
| BmtHasher.HashWrites | common/bmt/bmt.go:333-372 | data that fits, however split into writes, sums to its reference hash under any schedule on whatever tree the pool hands out, and the pool's records grow by this chunk |
| BmtHasher.HashChunks | common/bmt/bmt.go:292-438 | any sequence of chunks through the pool gives the reference hashes as long as no tree is worn out |
| BmtHasher.RunChunk | common/bmt/bmt.go:461-492 | an arbitrary scheduler always reaches the result, which is the reference hash |
| BmtHasher.ReleaseTree | common/bmt/bmt.go:423-438 | the climbing loop clears exactly the flags of the last leaf's ancestors |
| BmtHasher.NewTree | common/bmt/bmt.go:253-275 | the level-by-level construction gives exactly the nodes of the tree, untouched and with every counter at zero |
| BmtHasher.TreePool.constructor | common/bmt/bmt.go:142-150 | a new pool has no trees and the given capacity |
| BmtHasher.TreePool.Reserve | common/bmt/bmt.go:164-178 | free plus reserved stays equal to the count, which stays within the capacity, and the tree handed out is clean and worn as recorded |
| BmtHasher.TreePool.Release | common/bmt/bmt.go:183-185 | giving a reserved tree back always finds room in the channel, and its record goes with it |
| BmtHasher.TreePool.Drain | common/bmt/bmt.go:153-160 | free trees are dropped down to the given number and the count follows |
| Compress.EncodeBytes | common/bitutil/compress.go:71-97 | the recursive encoder with its bit-setting loop computes the encoding |
| Compress.DecodePartialBytes | common/bitutil/compress.go:130-170 | the recursive decoder with its distributing loop computes the partial decoding, errors included |
| Compress.CompressBytes | common/bitutil/compress.go:60-67 | the output is never longer than the input |
| Compress.DistributeRebuilds | common/bitutil/compress.go:148-170 | spreading the non-zero bytes over the bitset of their positions rebuilds the data |
| Compress.PartialRoundTrip | common/bitutil/compress.go:130-170 | for data with a non-zero byte followed by anything, partial decoding returns the data and consumes exactly the encoding |
| Compress.RoundTrip | common/bitutil/compress.go:115-124 | decoding an encoding at the right length returns the data, for every input |
| Compress.CompressRoundTrip | common/bitutil/compress.go:102-110 | decompressing compressed data returns it, for every input |
| Compress.PartialCanonical | common/bitutil/compress.go:130-170 | whatever partial decoding accepts is the encoding of what it returns, up to where it stopped |
| Compress.DecodeCanonical | common/bitutil/compress.go:115-124 | an input decodes to an output exactly when it is that output's encoding |
| Compress.RecompressExact | common/bitutil/compress.go:102-110 | recompressing gives the input back exactly when it was compressed, or is stored plainly and cannot be compressed |
| Feed.Find | common/event/feed.go:221-228 | the first case of a channel, or -1 exactly when there is none |
| Feed.DeactivateMultiset | common/event/feed.go:235-240 | the swap moves exactly one case out of the unsent prefix and none is lost |
| Feed.DeliverStepKeeps | common/event/feed.go:164-190 | delivering to a case keeps the unsent prefix, the ledger and the exactly-once accounting |
| Feed.SelectRemoveKeeps | common/event/feed.go:180-185 | removing a case during a send keeps them too, whether or not it was in the prefix |
| Feed.RemoverFinds | common/event/feed.go:112-133 | a remover past the inbox check always finds its channel in sendCases |
| Feed.StepKeeps | common/event/feed.go:80-198 | every step of subscribing, unsubscribing and sending keeps the invariant |
| Feed.EveryInterleaving | common/event/feed.go:140-198 | under every interleaving no removal fails, occurrences balance live subscriptions and removers, and each finished send delivered exactly once to every case not removed first |
| Feed.SendProgress | common/event/feed.go:164-190 | the prefix and the list together shrink with every select, and scanning in between ends |
| Feed.SendList.FindCase | common/event/feed.go:221-228 | the loop over the buffer finds what Find says |
| Feed.SendList.DeleteCase | common/event/feed.go:230-233 | deleting shifts the later cases down in the shared buffer |
| Feed.SendList.DeactivateCase | common/event/feed.go:235-240 | the in-place swap on the aliased prefix is the deactivation of the list |
| Feed.SendList.AppendCases | common/event/feed.go:147-149 | the inbox follows the old cases |
| Feed.SendList.TryAll | common/event/feed.go:165-174 | the non-blocking pass keeps the unsent cases in the prefix and counts its deliveries |
| Feed.SendList.SelectOne | common/event/feed.go:178-189 | one select delivers to or removes exactly one case |
| Feed.SendList.Send | common/event/feed.go:140-198 | the loop ends, the count is the number of deliveries, and the final list is a permutation of the start minus removals |
| BitUtil.FastBytes | common/bitutil/bitutil.go:73-91 | with words of eight bytes in either order or of four, the first n bytes become the bytewise operation on the old operands and the rest is untouched, also when the destination is an operand |
| BitUtil.SafeBytes | common/bitutil/bitutil.go:95-104 | the byte-by-byte form has the same result |
| BitUtil.FastTest | common/bitutil/bitutil.go:160-177 | the word-wise test is true exactly when some byte is not zero |
| BitUtil.SafeTest | common/bitutil/bitutil.go:181-188 | the byte-wise test likewise |
| BitUtil.OpBytes | common/bitutil/bitutil.go:64-69 | every machine gets the same result |
| BitUtil.TestBytes | common/bitutil/bitutil.go:151-156 | every machine gets the same answer |
| Words.DigitsLift | common/bitutil/bitutil.go:82-84 | a word operation that commutes with reading the low byte and with shifting acts on each byte alone |
| BloomGenerator.NewGenerator | common/bloombits/generator.go:39-48 | a generator exists exactly for section counts divisible by eight, and starts with no blooms |
| BloomGenerator.Generator.constructor | common/bloombits/generator.go:43-47 | every bit of every column starts unset |
| BloomGenerator.Generator.AddBloom | common/bloombits/generator.go:52-75 | an accepted bloom becomes the next row of the transposed table, nothing else changes, and both refusals are exact |
| BloomGenerator.Generator.Bitset | common/bloombits/generator.go:79-87 | a complete generator returns the column of the bit over all blooms, and each refusal is exact |
| BloomGenerator.IndexSection | common/bloombits/generator.go:52-87 | indexing a section and reading a bit back gives that bit of every bloom |
| BloomGenerator.ColumnUnique | common/bloombits/generator.go:79-87 | the blooms determine the column |
| BloomMatcher.BitIndex | common/bloombits/matcher.go:41-44 | the index is the low eleven bits of the two digest bytes |
| BloomMatcher.BuildFilters | common/bloombits/matcher.go:102-122 | dropping empty rules and rules with a nil clause keeps the meaning of the filter for every bloom |
| BloomMatcher.AndColumns | common/bloombits/matcher.go:338-354 | the merged vector has a bit exactly where all three columns do |
| BloomMatcher.SubMatch | common/bloombits/matcher.go:336-374 | the outgoing vector has a bit exactly where the incoming one and some clause's three columns do, and passes exactly if any is set |
| BloomMatcher.MatchRule | common/bloombits/matcher.go:336-374 | on the generator's columns a sub-matcher keeps exactly the blocks whose bloom matches its rule |
| BloomMatcher.MatchSection | common/bloombits/matcher.go:225-254 | a section through all sub-matchers holds exactly its matching blocks, or has none and is dropped |
| BloomReader.ReadLoop | common/bloombits/matcher.go:193-211 | the loop with its 64-bit counter ends, with the numbers the specified scan lists or in an index out of range |
| BloomReader.ScanIsHits | common/bloombits/matcher.go:193-211 | where the counter cannot wrap, skipping zero bytes lists exactly the set bits between first and last, in order |
| BloomReader.ReadExact | common/bloombits/matcher.go:182-211 | for a section and a range, every vector is read rightly exactly when the section ends below 2^64, or at 2^64 with the range clear of the last byte as stated, or nothing is asked for |
| BloomMatcher.FilterBlocks | common/bloombits/matcher.go:147-216 | for every range that can be read, the listed blocks are strictly increasing and exactly those whose bloom satisfies every rule |
| BloomPipeline.StepKeeps | common/bloombits/matcher.go:273-377 | every step of any sub-matcher goroutine conserves the result and keeps requests aligned with the items in process |
| BloomPipeline.EveryInterleaving | common/bloombits/matcher.go:225-253 | the sink is always a prefix of what one-by-one processing gives, and all of it once nothing can move |
| BloomPipeline.RunBounded | common/bloombits/matcher.go:225-253 | every interleaving of the chain ends |
| BloomTheorem.ProcessItem | common/bloombits/matcher.go:331-374 | the sub-matcher code computes its pipeline stage |
| BloomTheorem.SectionThrough | common/bloombits/matcher.go:225-253 | a section through the remaining stages comes out with its matches, or not at all if it has none |
| BloomTheorem.DaisyChain | common/bloombits/matcher.go:225-253 | under every interleaving the sink receives, in order, exactly the sections with a match and their match vectors |
| BloomTheorem.DaisyChainEnds | common/bloombits/matcher.go:225-253 | within two moves per rule and one more for each section |
| BloomTheorem.EveryInterleavingLists | common/bloombits/matcher.go:168-253 | under every interleaving of the chain the blocks read from the sink are a prefix of the answer, and all of it once nothing can move |
| BloomTheorem.AnswerExact | common/bloombits/matcher.go:147-253 | the answer is, in increasing order, exactly the blocks of the range a naive test of each bloom keeps |
| BloomTheorem.ListMatches | common/bloombits/matcher.go:168-216 | the reader on the vectors of any run lists only matching blocks in increasing order, and once the chain is done all of them |
| Distributor.BinarySearch | common/bloombits/matcher.go:425-425 | the search finds the insertion place in a sorted queue |
| Distributor.InsertKeeps | common/bloombits/matcher.go:424-426 | inserting keeps the queue sorted and adds exactly the section |
| Distributor.ListeningPicks | common/bloombits/matcher.go:433-440 | while the distributor listens, what it picks is a waiting bit with the lowest first section |
| Distributor.HolderHasWork | common/bloombits/matcher.go:453-468 | a retriever that holds an undrained bit is the only one taking care of it and there is work for it |
| Distributor.StepKeeps | common/bloombits/matcher.go:397-501 | every event keeps conservation, sorted queues, tracking of pending bits and the counters |
| Distributor.EveryRun | common/bloombits/matcher.go:382-508 | in every run each requested section is queued, in flight or delivered, a bit has work exactly when it waits or is held by one retriever, listening means bits wait, and allocs counts the outstanding allocations |
| Distributor.DeliverExact | common/bloombits/matcher.go:470-501 | a delivery loses nothing exactly when every retrieved section has a vector |
| Distributor.SectionSmall | common/bloombits/matcher.go:234-238 | no section number reaches the value from which the search for the lowest one starts |
| Distributor.EventLoop.OnRequest | common/bloombits/matcher.go:422-431 | the handler does the request step |
| Distributor.EventLoop.OnArrive | common/bloombits/matcher.go:433-447 | the handler hands out a waiting bit with the lowest first section |
| Distributor.EventLoop.OnAllocate | common/bloombits/matcher.go:453-468 | the handler hands out a prefix of the queue and reassigns the rest |
| Distributor.EventLoop.OnDeliver | common/bloombits/matcher.go:470-501 | the handler passes on the non-empty vectors only, and queues the empty ones again |
| Scheduler.StepKeeps | common/bloombits/scheduler.go:87-181 | every step of any pipeline goroutine and every delivery keeps the invariant |
| Scheduler.EveryInterleaving | common/bloombits/scheduler.go:59-181 | in every session each section is requested at most once and only if its vector was not kept, each pipeline outputs the stored vectors of its input in order, and no channel is closed twice |
| Scheduler.Completes | common/bloombits/scheduler.go:134-168 | once everything requested was delivered and nothing moves, every pipeline has output all its vectors |
| Scheduler.DeliverStores | common/bloombits/scheduler.go:171-181 | a delivery stores the first vector given for a section that had none |
| Scheduler.CloseExact | common/bloombits/scheduler.go:171-181 | the close count stays right exactly unless a nil vector is delivered for a waiting section |
| Scheduler.NilClosesTwice | common/bloombits/scheduler.go:171-181 | a nil vector delivered twice closes the channel twice |
| Scheduler.SessionInv | common/bloombits/scheduler.go:70-82 | whatever an earlier session left, the reset table starts a session in which the invariant holds |
| Scheduler.Table.Enter | common/bloombits/scheduler.go:103-113 | a section is unique exactly when it was not registered, and is registered afterwards |
| Scheduler.Table.Accept | common/bloombits/scheduler.go:171-181 | the loop stores vectors as DeliverAll says |
| Scheduler.Table.Clear | common/bloombits/scheduler.go:73-82 | exactly the responses with a vector survive |
| Protocols.SortUnique | common/p2p/protocol.go:75-81 | the order on capabilities leaves only one sorted arrangement |
| Protocols.MatchProtocols | common/p2p/peer.go:310-332 | the loop computes the layout of the shared protocols in sorted order |
| Protocols.LayOutOk | common/p2p/peer.go:310-332 | for any sorted list of matches the layout runs each name in its highest version, tiles the code space and orders ranges by name |
| Protocols.MatchTiles | common/p2p/peer.go:310-332 | for all protocol and capability lists, repeated capabilities included, ranges fill the space from 16 on without gap or overlap |
| Protocols.Agreement | common/p2p/peer.go:310-332 | two peers that announce their own protocols compute identical layouts |
| Protocols.GetProto | common/p2p/peer.go:362-369 | in any order of search, a protocol is found exactly when one covers the code, and it covers it |
| Protocols.Handle | common/p2p/peer.go:267-295 | base codes never reach a sub-protocol and other codes reach the one that covers them or none |
| Protocols.Transfer | common/p2p/peer.go:381-408 | a code written by a sub-protocol on one side is read as the same code by the same sub-protocol on the other |
| Protocols.CodeInRange | common/p2p/peer.go:362-369 | a code belongs to a sub-protocol exactly when it lies between 16 and the total |
| Rlpx.Int24RoundTrip | common/p2p/rlpx.go:734-742 | reading a 24-bit size undoes putting it |
| Rlpx.CryptTwice | common/p2p/rlpx.go:622-622 | encrypting twice from the same position gives the data back |
| Rlpx.FrameAccepted | common/p2p/rlpx.go:653-690 | a frame of the announced size passes both MACs and leaves the reader in the writer's state |
| Rlpx.MessageRoundTrip | common/p2p/rlpx.go:600-720 | from equal states a message that fits is written, read back with its code and payload, and both states are equal again |
| Rlpx.StreamRoundTrip | common/p2p/rlpx.go:600-720 | any sequence of messages that fit comes back in order with both ends in step |
| Rlpx.RoundTripExact | common/p2p/rlpx.go:615-619 | of the messages the writer accepts, the reader follows exactly for those whose size did not wrap |
| Rlpx.WrapExample | common/p2p/rlpx.go:615-619 | a payload that brings the size to 2^32 is accepted and announced as empty |
| Rlpx.Connection | common/p2p/rlpx.go:240-271 | the two sides' states are swapped by the handshake, so either side reads every message stream the other writes |
| Rlpx.FrameRW.constructor | common/p2p/rlpx.go:578-598 | both directions start at position zero with the handshake's MAC states |
| Rlpx.FrameRW.TeeContent | common/p2p/rlpx.go:630-643 | encrypting and MACing the content in pieces is encrypting and MACing it whole |
| Rlpx.FrameRW.WriteMessage | common/p2p/rlpx.go:600-650 | the writer emits the specified frame and advances only its own direction |
| Rlpx.FrameRW.ReadMessage | common/p2p/rlpx.go:653-720 | the reader computes the specified result and ends in the state it reports |
| TxSync.PackIsGood | ptn/sync.go:77-83 | a pack is not empty, stays under the target without its last transaction, and reaches it unless it takes everything |
| TxSync.StepKeeps | ptn/sync.go:109-131 | every event keeps the records of all syncs and the loop active while work is pending |
| TxSync.PackStays | ptn/sync.go:111-115 | through any run of arrivals the pack being sent stays the same until its send is done |
| TxSync.EveryRun | ptn/sync.go:66-131 | in every run the packs of a sync are a prefix of its transactions without repeats, pending work means an active send, and a sync neither replaced nor dropped ends complete |
| TxSync.FateChanges | ptn/sync.go:111-126 | a sync is replaced only by an arrival for its peer and dropped only by a failed send to its peer |
| TxSync.Loop.SendPack | ptn/sync.go:75-93 | the filling loop takes the specified pack off the sync |
| TxSync.Loop.OnSync | ptn/sync.go:111-115 | the handler does the arrival step |
| TxSync.Loop.OnDone | ptn/sync.go:116-126 | the handler does the completion step for some pending choice |
| Dialer.ExpireKeeps | common/p2p/dial.go:415-419 | expiring keeps exactly the entries that are not past, each id at most once |
| Dialer.DialState.constructor | common/p2p/dial.go:130-146 | nothing is dialed and every configured static node is known |
| Dialer.DialState.RemoveStatic | common/p2p/dial.go:154-160 | the node's task and its history entry are gone and no other changes |
| Dialer.DialState.DialDone | common/p2p/dial.go:280-284 | the node moves from the dialing ones to the history for thirty seconds, which keeps it and no other node from being dialed |
| Dialer.DialState.ExpireHistory | common/p2p/dial.go:415-419 | popping the earliest entry while it is past leaves what expiring leaves |
| Dialer.DialState.AddDial | common/p2p/dial.go:168-176 | a good candidate joins the dialing ones once, a bad one changes nothing, and the quota follows |
| Dialer.DialState.DialStatics | common/p2p/dial.go:194-205 | every eligible static node is dialed and impossible ones are forgotten, whatever the order |
| Dialer.DialState.Schedule | common/p2p/dial.go:162-253 | a round launches only distinct eligible dials within the dynamic quota, starts a lookup exactly when the buffer falls short, and waits exactly when there is nothing else to do and the history is not empty |
| Server.AdmitKeeps | common/p2p/server.go:715-728 | an accepted connection keeps the inbound count, the peer limit, the inbound limit and us out of our peers |
| Server.QuotaKept | common/p2p/dial.go:178-238 | the dials of a round keep the union of dynamic dials and dynamic peers within the quota |
| Server.RoundKeeps | common/p2p/server.go:582-590 | a scheduling round keeps the invariant, and leaves tasks queued only with sixteen running |
| Server.NextKeeps | common/p2p/server.go:592-678 | every turn of the loop keeps the invariant |
| Server.EveryRun | common/p2p/server.go:545-678 | in every reachable state outstanding dials are the dialing nodes, lookups, quotas, limits and history are right, and tasks started once each in order, at most sixteen at a time |
| Server.NoEarlyRedial | common/p2p/dial.go:263-289 | a node is dialed again only more than thirty seconds after its last dial completed, unless removeStatic intervened |
| Server.NoIdling | common/p2p/dial.go:244-253 | with nothing running, a round schedules nothing only if the unexpired history is empty |
| Server.RunLoop.StartTasks | common/p2p/server.go:572-581 | tasks start in order until sixteen run, and the rest is returned |
| Server.RunLoop.ScheduleTasks | common/p2p/server.go:582-590 | the method performs a scheduling round |
| Server.RunLoop.DelTask | common/p2p/server.go:563-570 | one occurrence of a finished task leaves the running ones |
| Server.RunLoop.OnTaskDone | common/p2p/server.go:618-624 | the handler does the completion step for a running task |
| Server.RunLoop.OnAddPeer | common/p2p/server.go:638-661 | the handler admits by the checks and counts inbound peers |
| Server.RunLoop.OnDropPeer | common/p2p/server.go:670-677 | the handler drops the peer and counts it off |
| BigMath.U256 | common/math/big.go:174-177 | the AND with 256 ones on two's complement leaves the remainder modulo 2^256, also for negative numbers |
| BigMath.AndOnes | common/math/big.go:174-177 | however many bits are looked at, the AND with k ones is the remainder modulo 2^k for every integer |
| BigMath.SquareAndMultiply | common/math/big.go:202-209 | for any associative operation one bit of the exponent, multiplying if it is set and squaring, leaves the pending product the same |
| BigMath.Exp | common/math/big.go:194-212 | the result is base to the exponent modulo 2^256 for any word size, and the base object keeps its value exactly when the exponent is zero or the base is 0 or 1 |
| BigMath.SquaredIsPower | common/math/big.go:202-209 | repeated squaring under any associative operation is the power with a power of two |
| BigMath.BaseSurvives | common/math/big.go:194-212 | squaring any number of times modulo 2^256 brings a number back exactly when it is done zero times or the number is 0 or 1 |
| BigBytes.ByteAt | common/math/big.go:136-148 | for any word size the byte found is the byte of the number, zero beyond its words |
| BigBytes.ByteFromLeft | common/math/big.go:154-159 | byte n from the left of the padded number, zero past the padding |
| BigBytes.ReadBits | common/math/big.go:163-172 | the buffer's tail becomes the number's low bytes as far as there is room, and the rest is untouched |
| BigBytes.PaddedBigBytes | common/math/big.go:124-131 | the length is the larger of n and the byte length, and the bytes stand for the number |
| BigBytes.ByteAgrees | common/math/big.go:154-159 | single bytes agree with the padded bytes when the number fits |
| BigBytes.ByteLenBits | common/math/big.go:124-127 | the byte length is the bit length over eight, rounded up |

## Left out

- Cryptography, RLP and snappy: the base hash, keystream, block cipher, Keccak, code prefix and compressor are function parameters with their laws; their implementations are not part of this model.
- `Tree.Draw`, `Hasher.ReadFrom` and `EOC` in common/bmt/bmt.go: printing and input/output.
- Slices passed to `Hasher.Write` are values; callers that change a buffer after writing it are not modelled.
- Blocking in `TreePool.Reserve` when all trees are reserved: the model starts where the call goes on.
- BmtPool.EveryHistory: a chunk is one event of the history, from `Reset` to the release in `Sum`; chunks of different hashers use different trees, as the same lemma says.
- BmtHasher.HashChunks: stops at 2^30 chunks on a tree; what can happen after that is `BmtReuse.ReuseExact`.
- BloomMatcher.FilterBlocks: asks that the range can be read; `BloomReader.ReadExact` says exactly when that is and what goes wrong otherwise.
- BloomTheorem.ListMatches: the chain asks for vectors and gets the generator's columns; the distributor and the schedulers that fetch them are state machines of their own.
- BloomPipeline.StepKeeps: handing a section to all bit schedulers, and collecting one vector from each of them, are single steps; the channel capacities that bound the queues are left out.
- Session shutdown (`quit`, `kill`, `Close`), `Multiplex` and the light-client error path in common/bloombits/matcher.go: runs are those before shutdown.
- Distributor.EveryRun: retrievers ask for sections once per bit they hold and then deliver once, as `Multiplex` does; sections have a number of blocks divisible by eight.
- Panics on wrong element types in common/event/feed.go: one element type is fixed.
- `Feed.Subscribe` and `SubscriptionScope` error channels: they carry no values in this code.
- Protocols.MatchProtocols: offsets are unbounded integers, so sums of lengths near 2^64 do not wrap; the sorting algorithm is insertion, which gives the only possible sorted list.
- Message payloads, ping timers, disconnect reasons and sub-protocol goroutines in common/p2p/peer.go.
- The ECIES handshake packets of common/p2p/rlpx.go: the handshake starts at the agreed secret, nonces and packets.
- Partial reads after a rejected frame: the connection is closed, so the reader's state after an error is not specified.
- Dialer.DialState.ExpireHistory: the heap order of the dial history is left out; the earliest entry is found by search.
- Node resolution and backoff of dial tasks, and the contents of the discovery table in common/p2p/dial.go: results are inputs.
- Server.EveryRun: a dynamic connection arrives only while its node is being dialed dynamically, and a peer is dropped once; the listener, the handshakes and shutdown are not modelled.
- TxSync.PackIsGood: transaction sizes are natural numbers, where the source adds floating-point sizes.
- `BigMax`, `BigMin`, `FirstBitSet`, `S256`, hexadecimal parsing and other helpers of common/math/big.go.
- Slot scheduling, unit production and the UTXO view of the DAG packages: they lean on code that is not part of this model.
