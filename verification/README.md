# A verified model of KVTree

KVTree is a C library for a small tree of key/value pairs, used by MPI programs to exchange, gather and scatter
metadata. This project models its behaviour in Dafny and proves what the library is for: that the sparse exchange
delivers every item, however the ranks interleave; that gathering to files and scattering back returns every rank
its own tree; and that the tree, its packed form, its files and its locks behave as their documentation says.

`dafny verify dfyconfig.toml` checks everything.

## How the model is laid out

A kvtree has three views.

* `Lists.dfy` has the linked list itself as a heap class: elements with `le_next` and `le_prev`, changed in place by
  insertion at the head, removal through the back pointer, and the two sorts.
* `Hashes.dfy` has a kvtree as an ordered list of elements with unique keys (`Hash`). `Null` is the NULL pointer.
  Order matters in packing and sorting and is kept here.
* `Trees.dfy` has what a kvtree means (`Tree`): a finite map from key to tree, a NULL child the same as an empty one.
  `Abs` maps the second view to the third, and merge becomes the union of the two sets of paths.

On top of these:

| files | subject |
|---|---|
| `Text`, `Values` | C number formats, path and key/value setters and getters |
| `Packing`, `Files` | the packed form and the file format, big-endian and with a checksum parameter |
| `Bits`, `Routes` | binary digits of distances, and where every item is after every round of the exchange |
| `Sizes`, `Loads`, `LightLoads` | packed sizes as a property of trees, and sums of sizes that no message or file can exceed |
| `Exchange`, `TwoWay` | the exchange in lockstep over all ranks: one direction, and two directions with early cut-off |
| `Network`, `Refinement`, `Async` | the exchange as per-rank state machines over first-in-first-out channels |
| `Writers` | choosing writers: a pointer-doubling segmented scan and segment-boundary arithmetic |
| `FileTree`, `Gather`, `Scatter` | the tree of files of a gather, its recursion, and the way back down |
| `Partition`, `Reading` | writing and reading the same files from one process |
| `Sorting`, `Lists` | comparison functions, qsort, and the linked list |
| `Locking` | processes that read, write and update one locked file in small pieces |

Some conventions. A collective operation is a method over the sequence of all ranks. The outcome "the job aborts
because a message exceeds `INT_MAX` bytes" is `None` or `Aborted`. Contracts say exactly when it happens: the message
of each rank in each round is one definite tree (`Exchange.IsMessage`, unique by `Exchange.MessageIsUnique`), its size
is a property of the tree (`Sizes.PackSizeOfMap`), and the outcome is an abort if and only if one of those sizes
exceeds `INT_MAX`. `TwoWay.LightExchangeFits` and the last clauses of `Scatter.GatherThenScatter` and
`Reading.PartitionThenScatter` give sums a caller can check beforehand that rule it out. A file system is a map from
path to contents. CRC-32 is an arbitrary function of bytes. Destination keys are canonical decimals of ranks, as
`doc/rst/users/api.rst` asks of callers; keys hold no NUL.

In `Refinement` the network and the steps of the two-phase `kvtree_sendrecv` are generic over the program the ranks run
(`Program`); `Async` supplies the program of `kvtree_exchange`. A send may complete as late as the receipt of its
message or as early as MPI allows: safety is proved for the permissive rule, progress for the strict one.

## Where the code and its documentation differ

* `doc/rst/users/gatherscatter.rst:41-42` promises that no process reads more than 1MB in a step. The reader of a file
  reads the bytes of the writer that heads the group and of all ranks it writes for, and the code does not keep this
  within a segment. Three things break it: a rank larger than a segment; a rank that begins exactly on a segment
  boundary and joins the group before it; and a group whose head straddles a boundary and whose members fill the new
  segment further than the head left the old one. `Writers.LimitExact` proves that these are all: the limit holds if
  and only if every non-empty rank passes a test on its size, its offset and its writer's offset
  (`Writers.KeepsLimit`). For groups written by rank 0 it is `Writers.RankZeroExact`. For ranks of one size the limit
  fails for some number of ranks, whatever the size (`Writers.UniformLimitFails`); of ranks of 768KB, rank 2 writes
  for rank 3 and 1.5MB are read (`Writers.MoreThanOneSegment`), and any number of ranks of 512KB all go to one writer
  (`Writers.HalfMegabyteRanksShareOneWriter`). What does hold is `Writers.AtMostTwoSegments`, and `Writers.GroupSize`
  for what a writer takes on for others.
* `kvtree_read_scatter_single` (`src/kvtree.c:1821-1922`) adds up the sizes of all files in the directory that match
  `<prefix>.0.<number>`, whether or not the root names them. `Reading.CountWithStrays` proves what its success is
  worth: files of another set make up for exactly as many missing ranks, and without such files it succeeds if and
  only if no part is missing. `Reading.CountTellsTruth` is the exact condition under which success means that. `Reading.StalePartsMislead` gives the input on which it misleads: eight ranks written
  two to a file, then again four to a file. With the second part lost, the read succeeds without that data; with all
  parts there, it fails.
* `src/kvtree_mpi.c:260` says a positive `hops` stops the rounds early; the loop at line 287 also stops at once for 0,
  and `kvtree_exchange` relies on that when no item goes in a direction.
* `src/kvtree_mpi.c:371` leaves as a TODO the check that everything left is for this rank;
  `Routes.NothingLeftForOthers` proves it for full-length runs and `TwoWay.CutOffDelivers` covers the cut-off ones.
* `kvtree_sort_int` compares by subtraction. `Sorting.SubtractionComparesByValue` proves that this follows the numbers
  if and only if all differences fit in an int, and `Sorting.OverflowMakesCycles` gives three keys in a cycle.

## Model

| member | source | states |
|---|---|---|
| Text.AtoiPrintInt | src/kvtree.c:829-836 | An int printed as `%d` into a key is read back by atoi, the sign included. |
| Text.StrtoulPrint | src/kvtree_util.c:105-133 | Decimal and `%#x` text of any unsigned long is read back by base-0 strtoul, zero included. |
| Text.StrtollPrint | src/kvtree_util.c:178-191 | Decimal text of any 64-bit signed value, the minimum included, is read back by base-0 strtoll. |
| Text.PrintsNumeral | src/kvtree_util.c:50-58 | A number prints as its digits, most significant first and without a leading zero. |
| Text.PrintsHex | src/kvtree_util.c:28-36 | `%#x` prints 0x and the lower-case hexadecimal numeral; zero prints plain. |
| Text.ScanIsNumber | src/kvtree_util.c:105-133 | A run of digits reads as the number with these digits, in any base. |
| Text.ScanStops | src/kvtree_util.c:105-133 | Reading a number stops at the first character that is no digit of the base. |
| Text.PrefixTellsBase | src/kvtree_util.c:105-133 | With base 0, 0x selects sixteen, another leading 0 eight, otherwise it is ten. |
| Text.AtoiHeedsSign | src/kvtree.c:829-836 | atoi skips space and heeds a sign. |
| Text.StrtoHeedsSign | src/kvtree_util.c:178-191 | So do strtoll and strtoul, which negates modulo 2^64. |
| Trees.JoinIsUnionOfPaths | src/kvtree.c:253-292 | The paths of a merged tree are exactly the paths of either tree. |
| Trees.PathsDetermineTree | src/kvtree.c:253-292 | Two trees with the same paths are the same, so the path set is the whole meaning of a tree. |
| Trees.JoinCommutes | src/kvtree.c:253-292 | The order of merging two trees does not matter. |
| Trees.JoinAssociates | src/kvtree.c:253-292 | The grouping of merges does not matter. |
| Trees.JoinIdempotent | src/kvtree.c:253-292 | Merging a tree into itself changes nothing. |
| Hashes.Merge | src/kvtree.c:253-292 | Fails and changes nothing exactly when the first tree is NULL; otherwise keeps keys unique at every level and yields the union of both maps. |
| Hashes.MergeUnder | src/kvtree.c:701-718 | Merging into the subtree that kvtree_set_kv returns adds exactly that key, that value and the merged paths. |
| Hashes.SetUpdates | src/kvtree.c:173-200 | Setting a key keeps keys unique and is update of the map, whether or not the key was there. |
| Hashes.WithoutKeeps | src/kvtree.c:884-893 | Extracting a key keeps every other element, and only those, and uniqueness. |
| Hashes.WithoutRemoves | src/kvtree.c:221-232 | Unsetting a key removes it from the map and nothing else. |
| Hashes.GetIsKid | src/kvtree.c:162-169 | The first match found from the front is the value of the map. |
| Values.SetKvAdds | src/kvtree.c:701-718 | kvtree_set_kv adds the path key/value to the map and leaves everything else, including what was under it. |
| Values.UnsetKvRemoves | src/kvtree.c:765-778 | kvtree_unset_kv removes the value, and the key when that was its last value. |
| Values.SetKvThenUnset | src/kvtree.c:765-778 | Setting a pair under a new key and unsetting it restores the original map. |
| Values.SetPathUpdates | src/kvtree.c:297-411 | kvtree_setf replaces the subtree at the end of the path, creating missing ancestors, and keeps keys unique at every level. |
| Values.GetPathFollows | src/kvtree.c:414-511 | kvtree_getf on any path returns the subtree the map has there. |
| Values.GetAfterSet | src/kvtree.c:297-511 | kvtree_getf after kvtree_setf on the same non-empty path returns the very subtree stored. |
| Values.GraftKeepsOthers | src/kvtree.c:297-411 | A path that is neither a beginning nor a continuation of the set path exists afterwards exactly when it did before. |
| Values.GraftIsThere | src/kvtree.c:297-411 | Below the set path exactly the paths of the stored subtree exist. |
| Values.SetStrHolds | src/kvtree_util.c:61-69 | After kvtree_util_set_str the key holds exactly the one value, whatever it held before, and other keys are unchanged. |
| Values.SetTextHolds | src/kvtree_util.c:17-26 | The same for the setters that go through kvtree_setf with a NULL value. |
| Values.IntRoundTrip | src/kvtree_util.c:39-47 | An int set is the int got, and it is the only value of its key. |
| Values.GetIntReads | src/kvtree_util.c:135-146 | kvtree_util_get_int fails exactly when the key has no value, and otherwise reads the front one. |
| Values.GetValOfMap | src/kvtree.c:923-946 | kvtree_get_val returns a value exactly when it is the only one. |
| Values.ULongRoundTrip | src/kvtree_util.c:50-58 | An unsigned long set is the value got, and it is the only value of its key. |
| Values.Int64RoundTrip | src/kvtree_util.c:72-81 | A 64-bit signed value set is the value got, and it is the only value of its key. |
| Values.CrcRoundTrip | src/kvtree_util.c:28-36 | A 32-bit checksum set as `%#x`, 0x and its lower-case hexadecimal numeral, is the value got, and it is the only value of its key. |
| Packing.ReadBigEndian | src/kvtree_helpers.c:208-318 | Reading big-endian bytes gives back every value that fits the width. |
| Packing.BigEndianBytes | src/kvtree_helpers.c:159-162 | Byte i of w bytes written is the one worth 256 to the power w-1-i. |
| Packing.WordIsRead | src/kvtree_helpers.c:208-318 | The value read from w bytes is the one with these bytes, most significant first. |
| Packing.PackUint | src/kvtree_helpers.c:97-205 | Writes the value at the cursor, most significant byte first, and advances it, or fails without change when it does not fit; no other byte changes. |
| Packing.UnpackUint | src/kvtree_helpers.c:208-318 | Reads the one value with these bytes, most significant first, and advances the cursor, or fails without moving when too few are left. |
| Packing.PackFillsSize | src/kvtree.c:1020-1070 | Packing produces exactly kvtree_pack_size bytes. |
| Packing.ElemsInOrder | src/kvtree.c:1041-1070 | After the count the elements stand in order, each its key, a NUL and its packed child. |
| Packing.UnpackPack | src/kvtree.c:1073-1098 | Unpacking packed bytes, at any position and with anything following, consumes exactly the packed size and gives the tree with children reversed at every level. |
| Packing.UnpacksOnlyPacked | src/kvtree.c:1073-1098 | Whatever is unpacked from a buffer of bytes stands there as the packed form of a tree, of which the result is the reverse: nothing else is accepted. |
| Packing.RevMeansSame | src/kvtree.c:1073-1098 | Reversal at every level keeps keys unique and the map unchanged. |
| Packing.RevTwice | src/kvtree.c:1041-1098 | A second round trip restores the order. |
| Packing.PackRoundTrip | src/kvtree.c:1041-1098 | Pack then unpack returns the same map, for every tree with NUL-free keys and fewer than 2^31 children per node. |
| Packing.SmallMeansCountsOk | src/kvtree.c:1041-1070 | A tree whose packed size fits an int has child counts the format can hold. |
| Packing.PackInto | src/kvtree.c:1041-1070 | Packing into a buffer in place writes exactly the packed bytes at the position, the count of elements first and in network order, and leaves the rest of the buffer. |
| Packing.PackElemInto | src/kvtree.c:973-992 | One element is its NUL-terminated key followed by its packed child, written in place. |
| Packing.UnpackFrom | src/kvtree.c:1073-1098 | The unpacking loop computes the specified tree and end position. |
| Packing.UnpackElemFrom | src/kvtree.c:995-1017 | Unpacking one element computes its key, child and end position. |
| Files.PersistHasSize | src/kvtree.c:1108-1120 | The persisted form has exactly kvtree_persist_size bytes. |
| Files.PersistBytes | src/kvtree.c:1123-1175 | A persisted tree byte by byte: preamble, size, flags, the packed tree, and last the checksum of all bytes before it. |
| Files.WriteHeader | src/kvtree.c:1139-1155 | The cursor writes fill exactly the header: bytes 95 1f c3 f5 00 01 00 01, the size in eight bytes, most significant first, and 00 00 00 01. |
| Files.WritePersist | src/kvtree.c:1123-1175 | Fills a buffer of the computed size with header, packed tree and checksum, beginning with these bytes; fails exactly on a NULL tree. |
| Files.PersistRoundTrip | src/kvtree.c:1329-1458 | Reading a persisted tree returns its map, whatever stale bytes follow the stored size in the file, for any checksum function. |
| Files.ReadsOnlyIntact | src/kvtree.c:1329-1458 | kvtree_read_fd takes nothing from an empty file, refuses every other file whose bytes are not intact, and unpacks what follows the header of one that is. |
| Files.ReadsOnlyStored | src/kvtree.c:1329-1458 | What is read from a file of bytes stands in it, packed, after the header. |
| Bits.RoundsIsGuard | src/kvtree_mpi.c:287 | The loop guard `step < ranks` holds in exactly the first ceil(log2 ranks) rounds. |
| Bits.BitIsDigit | src/kvtree_mpi.c:325-344 | The bit tested in round k is the one worth 2^k, and the low bits are the remainder. |
| Routes.ItemMoves | src/kvtree_mpi.c:325-349 | After k rounds an item is at its destination exactly when its distance is used up, and moves on exactly when bit k of the distance is set. |
| Routes.DistIsAway | src/kvtree_mpi.c:325-344 | The distance is (s - d) mod n to the left and (d - s) mod n to the right. |
| Routes.PeerIsNext | src/kvtree_mpi.c:289-307 | The partner in a round is the rank one step below on the left, above on the right, modulo n. |
| Routes.RoundMoves | src/kvtree_mpi.c:313-357 | What a rank keeps joined with what its source sends is the closed form of the next round: each item in exactly one place. |
| Routes.RoundDelivers | src/kvtree_mpi.c:334-340 | What is delivered at the start of round k is exactly what has arrived by then. |
| Routes.FinishDelivers | src/kvtree_mpi.c:371-376 | The last merge delivers exactly the items with distance below 2^rounds. |
| Routes.RoundAdvances | src/kvtree_mpi.c:287-368 | One round of splitting and shifting moves the closed form of all ranks on by one round. |
| Routes.ForwardedPerSetBit | src/kvtree_mpi.c:406-413 | An item is forwarded exactly once per set bit of its distance. |
| Routes.LowBitsUsedUp | src/kvtree_mpi.c:325-349 | After k rounds the low k bits of the distance still to go are zero. |
| Routes.NothingLeftForOthers | src/kvtree_mpi.c:371 | After a full-length run every rank holds only items for itself, the claim the source leaves as a TODO. |
| Sizes.PackSizeOfMap | src/kvtree.c:1020-1038 | kvtree_pack_size depends only on the map, whatever the order of the elements. |
| Sizes.JoinIsSmaller | src/kvtree.c:253-292 | A merged tree packs to fewer bytes than the two trees apart. |
| Exchange.MessageIsUnique | src/kvtree_mpi.c:309-350 | What a rank sends in a round is one definite tree. |
| Loads.LightLoadFits | src/kvtree_mpi.c:86-104 | If all items together, each with its keys, fit in INT_MAX bytes, no message of any round in any direction is too large. |
| Exchange.LoadCurrent | src/kvtree_mpi.c:266-282 | The working tree holds the rank's own items, each under its destination and this source, and no other path. |
| Exchange.SplitElem | src/kvtree_mpi.c:318-349 | One element goes to the output, to the send tree or to the keep tree, by destination and distance bit, and nowhere else. |
| Exchange.SplitRound | src/kvtree_mpi.c:309-350 | The element loop sends exactly what has bit k set, keeps exactly the rest, delivers exactly what is for this rank, and the trees kept and sent have no other path. |
| Exchange.Deliver | src/kvtree_mpi.c:335-340 | The source keys' payloads are merged into the output. |
| Exchange.Transfer | src/kvtree_mpi.c:86-166 | The bytes of one kvtree_sendrecv: aborts exactly above INT_MAX, otherwise the received tree is the map sent. |
| Exchange.ShiftAll | src/kvtree_mpi.c:351-362 | Every rank merges what its source sent into what it kept; in a left run rank i sends to the rank one step below it, in a right run to the one above it. |
| Exchange.OneRound | src/kvtree_mpi.c:287-368 | One round on all ranks keeps the closed form; it aborts if and only if the message of some rank in this round is too large. |
| Exchange.ExchangeDirectionHops | src/kvtree_mpi.c:252-382 | After a run with any hop limit exactly the items within 2^rounds are in the outputs, besides what was there: (s - d) mod n below it in a left run, (d - s) mod n in a right run; it aborts if and only if a message of one of its rounds is too large. |
| Exchange.ExchangeDirection | src/kvtree_mpi.c:510-519 | After a full-length run rank d has under key s exactly what s sent to d, for every s and d; it aborts if and only if a message is too large. |
| TwoWay.CountHops | src/kvtree_mpi.c:440-466 | The counting loop yields the number of set bits and the position of the highest set bit of both distances. |
| TwoWay.ChosenByBits | src/kvtree_mpi.c:468-483 | An item goes left exactly when its distance to the left has fewer set bits than that to the right. |
| TwoWay.AssignOne | src/kvtree_mpi.c:430-482 | An item goes to the direction of fewer hops and to no other, and that direction's step count covers it. |
| TwoWay.Assign | src/kvtree_mpi.c:415-483 | The two trees share out the rank's items, each limit covers all of its items and is reached by one of them. |
| TwoWay.MaxReduce | src/kvtree_mpi.c:485-490 | The MAX reduction is an upper bound that is attained. |
| TwoWay.StepsSuffice | src/kvtree_mpi.c:452-462 | Stopping after the position of the highest set bit covers the whole distance. |
| TwoWay.CoverIsWithinRounds | src/kvtree_mpi.c:287 | The reduced limit never exceeds the full number of rounds, so every rank runs exactly that many. |
| TwoWay.CutOffDelivers | src/kvtree_mpi.c:485-498 | With a limit that covers all items, the cut-off run delivers what a full run delivers, self-sends at limit 0 included. |
| TwoWay.OneDirectionEach | src/kvtree_mpi.c:468-483 | Every item is in exactly one of the two shares, and together they are all items. |
| TwoWay.BothRunsDeliver | src/kvtree_mpi.c:492-498 | The left run followed by the right run delivers every item. |
| TwoWay.HopsAreMinimal | src/kvtree_mpi.c:406-413 | In kvtree_exchange an item is forwarded the minimum of the two directions' hop counts, at most the number of rounds. |
| TwoWay.ExchangeTrees | src/kvtree_mpi.c:399-508 | After kvtree_exchange rank d has under key s exactly what s sent to d, for every number of ranks; it aborts if and only if a message of one of the two runs is too large. |
| TwoWay.LightExchangeFits | src/kvtree_mpi.c:399-508 | The same sum rules out an abort of kvtree_exchange. |
| Network.SrcOfDst | src/kvtree_mpi.c:289-311 | In every phase, i sends to j exactly when j receives from i. |
| Network.DstIsNext | src/kvtree_mpi.c:289-311 | In round k of the left run rank i sends to (i - 2^k) mod n, in round k of the right run to (i + 2^k) mod n, size and data alike. |
| Network.PushKeeps | src/kvtree_mpi.c:105-130 | A send keeps every channel holding exactly the messages sent and not yet received, in phase order. |
| Network.PopKeeps | src/kvtree_mpi.c:105-155 | A receipt keeps it too, and nothing is received before it is sent. |
| Network.HeadIsMine | src/kvtree_mpi.c:105-155 | What a waiting rank finds at the head of the channel is the message of its own phase, although one channel is reused by several rounds and both directions. |
| Network.SomeoneCanAct | src/kvtree_mpi.c:128-155 | Among the ranks furthest behind, one has its message waiting or has nothing outstanding. |
| Refinement.PairsWithItsOwn | src/kvtree_mpi.c:105-160 | Whatever the interleaving, a size or data message received in a round is the one the source sent in the same round. |
| Refinement.DataUnpacks | src/kvtree_mpi.c:132-160 | A packed message fits the announced size and unpacks to the same map. |
| Refinement.StepKeeps | src/kvtree_mpi.c:86-166 | Every step of every rank keeps the invariant that ties local states, logs and channels to the lockstep meaning. |
| Refinement.RunsEnd | src/kvtree_mpi.c:287-368 | Every interleaving is finite, with a bound computed from ranks and rounds, and an abort comes only from a message that is too large. |
| Refinement.NeverStuck | src/kvtree_mpi.c:128-155 | No reachable state is a deadlock, even if sends complete only on receipt. |
| Refinement.EndsInLockstep | src/kvtree_mpi.c:287-368 | A run in which nobody can act any more has ended in the lockstep result on every rank, or aborted for size; one that has not aborted has sent every message of every round. |
| Async.StartsSound | src/kvtree_mpi.c:309-350 | The element loop takes a rank from its lockstep working tree to its lockstep keep, send and output trees, and aborts only if the lockstep message is too large. |
| Async.MergeIsIdeal | src/kvtree_mpi.c:355-362 | Merging what the source sent into what was kept gives the lockstep working tree of the next round. |
| Async.ReceivedSound | src/kvtree_mpi.c:351-362 | Whatever equal tree a rank receives in a round, the merge leads it to its lockstep state of the next round. |
| Async.EndsRunSound | src/kvtree_mpi.c:371-376 | The last merge of a run leads to the lockstep output of the run and, after the left run, to the start of the right one. |
| Async.ProgramIsSound | src/kvtree_mpi.c:399-508 | kvtree_exchange as a program of rounds satisfies what the refinement asks of it. |
| Async.ProgramIsLive | src/kvtree_mpi.c:399-508 | A rank of kvtree_exchange always has a next computation until it is done. |
| Async.EveryRunDelivers | src/kvtree_mpi.c:399-508 | Every interleaving of kvtree_exchange that can go no further has delivered every item, exactly as in lockstep, unless it has aborted, and it has aborted if and only if a lockstep message is too large. |
| Async.EveryRunEnds | src/kvtree_mpi.c:399-508 | Every interleaving of kvtree_exchange ends, within a bound on its number of steps. |
| Writers.FindStarts | src/kvtree_mpi_io.c:40-59 | A rank starts a segment exactly when it is rank 0 or non-empty with its last byte beyond the segment its offset is in. |
| Writers.WindowsJoin | src/kvtree_mpi_io.c:91-101 | Absorbing the left neighbour's triple is the triple of the joined window. |
| Writers.DoublingStep | src/kvtree_mpi_io.c:70-107 | A round of the scan turns the window of the last 2^k ranks into the window of the last 2^(k+1). |
| Writers.ScanRound | src/kvtree_mpi_io.c:73-104 | One round on all ranks does so for every rank at once. |
| Writers.Scan | src/kvtree_mpi_io.c:60-107 | In the end every rank holds the nearest start at or before it, the distance to it plus one, and the number of starts. |
| Writers.PickWriter | src/kvtree_mpi_io.c:26-122 | Every rank's writer is the greatest start not after it, and the broadcast flag is true exactly when every rank's writer is 0. |
| Writers.LastDecides | src/kvtree_mpi_io.c:115-119 | The last rank's count alone tells whether all ranks have writer 0. |
| Writers.WriterWritesForItself | src/kvtree_mpi_io.c:42-59 | A writer is its own writer, and rank 0 always is one. |
| Writers.WriterCount | src/kvtree_mpi_io.c:33-59 | With T > 0 bytes there are at most 1 + (T-1)/segsize writers. |
| Writers.WritersHalve | src/kvtree_mpi_io.c:151-162 | When every item is at most half a segment, n non-empty ranks have at most ceil(n/2) writers. |
| Writers.GroupSize | src/kvtree_mpi_io.c:33-59 | The bytes of a group beyond its head are bounded by one segment plus one for each member that begins on a boundary. |
| Writers.AlignedDecide | src/kvtree_mpi_io.c:33-59 | What a writer takes on for others is at most one segment when no non-empty member begins on a positive multiple of the segment, and more than one when two or more do. |
| Writers.OneAlignedEitherWay | src/kvtree_mpi_io.c:33-59 | With exactly one such member both happen. |
| Writers.UniformOthersExact | src/kvtree_mpi_io.c:33-59 | For ranks of equal size c > 0, what a writer takes on for others stays within a segment for every number of ranks if and only if c exceeds the segment size, so that no rank has another to write for. |
| Writers.LimitExact | doc/rst/users/gatherscatter.rst:41-42 | The exact condition for the documented limit, for any sizes: no group's file has more than a segment of data, the head's included, if and only if every non-empty rank has at most a segment and, unless it is its own writer, does not begin on a boundary and, unless rank 0 writes for it, ends less far into its segment than its writer begins into the one before. |
| Writers.GroupExact | doc/rst/users/gatherscatter.rst:41-42 | The same for one group, in terms of its head, its aligned members and its last byte. |
| Writers.RankZeroExact | doc/rst/users/gatherscatter.rst:41-42 | What is read for rank 0 stays within a segment if and only if rank 0 has at most a segment and no member begins on a boundary. |
| Writers.UniformLimitFails | doc/rst/users/gatherscatter.rst:41-42 | For every size c > 0 there is a number of equal ranks for which the documented limit fails. |
| Writers.AtMostTwoSegments | src/kvtree_mpi_io.c:33-59 | With a head of at most a segment and no member on a boundary, a group has at most two segments of data. |
| Writers.MoreThanOneSegment | doc/rst/users/gatherscatter.rst:41-42 | And it can have more than one: of four ranks of 768KB, ranks 2 and 3 share a file of 1.5MB. |
| Writers.HalfMegabyteRanksShareOneWriter | doc/rst/users/gatherscatter.rst:41-42 | Any number of ranks of 512KB each all have writer 0. |
| FileTree.NamesDiffer | src/kvtree_mpi_io.c:193-204 | No two writers, of any levels, use the same file name. |
| FileTree.NameIsFileName | src/kvtree_mpi_io.c:193-204 | A file name is a dot, the decimal level, a dot and the decimal rank of the writer, such as .0.2. |
| FileTree.DepthIsLogarithmic | src/kvtree_mpi_io.c:206-219 | The file tree is at most logarithmically deep in the number of ranks. |
| Gather.SendQ | src/kvtree_mpi.c:222-250 | A message for a rank is merged with what is already queued for it; other queues are unchanged. |
| Gather.GatherTo | src/kvtree_mpi_io.c:164-177 | Every writer receives exactly the items of the valid ranks it writes for, by rank; it aborts if and only if a message is too large. |
| Gather.BuildFile | src/kvtree_mpi_io.c:179-231 | A file's tree is the received items under RANK, with LEVEL and RANKS. |
| Gather.SaveTree | src/kvtree.c:1205-1238 | Afterwards reading the file gives the tree and no other file has appeared, gone or changed; it fails exactly when the size cannot be represented. |
| Gather.MakeEntry | src/kvtree_mpi_io.c:151-158 | The record of a file name holds FILE and OFFSET, and its packed size is the length of the name plus 35. |
| Gather.PickedIsNext | src/kvtree_mpi_io.c:160-162 | The writers picked for file names are a subset of the level below, contain rank 0, and are at most half as many, rounded up. |
| Gather.WriteLevel | src/kvtree_mpi_io.c:221-256 | All writers of a level have their files in place, at the prefix alone at the top and otherwise with a dot, the level, a dot and the writer added; nothing else has appeared, gone or changed; it gives up exactly when one of the files is too large. |
| Gather.WriteGatherMap | src/kvtree_mpi_io.c:124-262 | The recursion ends exactly when rank 0 is the only writer, with the map files of all levels in place and no other file touched; each table is the one pick_writer yields from the level below, and it gives up exactly when a message or a file of some level is too large. |
| Gather.WriteGather | src/kvtree_mpi_io.c:272-376 | Afterwards every file of the tree is in place, at the path its level and writer tell, and exactly those paths may have changed; it gives up if and only if a message or a file of some level is too large. |
| Gather.StoredHasNames | src/kvtree_mpi_io.c:193-204 | So every file of a complete set is at the path its level and writer tell. |
| Gather.LightGatherSucceeds | src/kvtree_mpi_io.c:272-376 | When the trees with 95 bytes for each rank sum to at most INT_MAX - 4 bytes, no message and no file of a gather is too large, at any level. |
| Scatter.ScatterUndoesGather | src/kvtree_mpi_io.c:480-512 | Sending collected items back by rank returns each to the rank it came from, and to no other. |
| Scatter.ReadRank | src/kvtree_mpi_io.c:398-421 | Reading a readable file at offset 0 succeeds with its tree, an empty file gives the empty tree, a missing file fails, and so does every file whose bytes are not intact: too few, another magic, type or version, a size below a header or beyond the end, or a checksum that disagrees. |
| Scatter.NextFile | src/kvtree_mpi_io.c:442-469 | A rank that is sent a record reads the file and offset it names; a rank that is sent nothing does not read; it fails exactly when the record it takes has not one file name and one offset. |
| Scatter.PassLevel | src/kvtree_mpi_io.c:429-440 | Every rank receives exactly what the files passed on hold for it, so that every item of a complete level returns to the rank that gave it; it aborts only, and on a complete set exactly, when a message is too large. |
| Scatter.StepDown | src/kvtree_mpi_io.c:378-500 | From the readers of a level to the ranks their files name and to where these are told to read; it fails only for a file that cannot be read, lacks its level or has a bad record, and on a complete set it aborts exactly when a message is too large. |
| Scatter.ReadScatterMap | src/kvtree_mpi_io.c:378-509 | The descent follows the files from stage to stage; its outcome tells what was found at the last one. From a complete set it reaches level 0, each reader with its own file, or aborts if and only if a message on the way is too large. |
| Scatter.ReadScatter | src/kvtree_mpi_io.c:512-630 | Whatever files there are: it fails if the root is missing or damaged, fails otherwise only for a file that cannot be read, lacks its level, has a bad record or, at level 0, the wrong number of ranks, and succeeds only if nothing of that is so anywhere on the way; then every rank has, besides what it passed in, exactly the paths the level 0 files hold for it. From a complete set every rank gets its own tree, or the job aborts if and only if a message is too large. |
| Scatter.WayReadsGoodFiles | src/kvtree_mpi_io.c:398-421 | After a success every file read on the way was there, empty or intact, and said its level. |
| Scatter.DataReadsGoodFiles | src/kvtree_mpi_io.c:545-599 | And every level 0 file was there, intact or empty, and said the right number of ranks. |
| Scatter.LightScatterSucceeds | src/kvtree_mpi_io.c:512-630 | Nor is any message of the scatter. |
| Scatter.GatherThenScatter | src/kvtree_mpi_io.c:512-630 | kvtree_write_gather then kvtree_read_scatter into empty trees returns every rank exactly its own tree, for any number of ranks, any trees and any number of levels; it cannot fail, aborts if and only if a message or file is too large, and always succeeds when the packed sizes of all trees with 95 bytes for each rank sum to at most INT_MAX - 4. |
| Partition.PartIsRun | src/kvtree.c:1742-1760 | A part is the run of ranks from its first, and the next part follows directly. |
| Partition.PartsAreLadder | src/kvtree.c:1721-1798 | The parts and the root form a two-level tree of writers like a gather's. |
| Partition.BuildPart | src/kvtree.c:1735-1760 | The inner loop takes the next entries up to the limit, and no others, into a part. |
| Partition.WritePart | src/kvtree.c:1734-1786 | The part's file is in place, its record is in the root, its id is its first rank, and only its file has changed. |
| Partition.SortedByRank | src/kvtree.c:1723-1724 | Sorted by number, data with exactly the keys 0 to ranks-1 is in rank order. |
| Partition.WriteToGather | src/kvtree.c:1706-1798 | Every rank's tree is in exactly one part, at the prefix with .0. and its first rank added, the root names every part, and exactly the root and the parts may have changed; it fails if and only if one of the files is too large. |
| Partition.PartsHaveNames | src/kvtree.c:1760-1786 | Every part is at the prefix with .0. and the decimal of its first rank added. |
| Reading.PartsAreStored | src/kvtree.c:1706-1798 | Files written from one process are ones a gather could have left. |
| Reading.PartitionThenScatter | src/kvtree_mpi_io.c:512-630 | kvtree_read_scatter on those files gives each rank its own entry; it aborts if and only if a file or message is too large, and never for data that is light. |
| Reading.ReadPart | src/kvtree.c:1880-1906 | A matching file that can be read and has LEVEL 0 adds what is under RANK to the tree and its size to the count; any other file adds nothing. |
| Reading.CountTellsAll | src/kvtree.c:1900-1921 | The parts in a listing cover as many ranks as RANKS says exactly when every part is listed. |
| Reading.ReadScatterSingle | src/kvtree.c:1821-1922 | On any directory of matching files: merges what they add, in whatever order they are listed, and succeeds if and only if their sizes add up to the RANKS of the root. |
| Reading.CountWithStrays | src/kvtree.c:1900-1921 | The count equals RANKS exactly when files of other sets add as many ranks as are missing; without such files exactly when no part is missing, and then the merged tree is the whole data. |
| Reading.CountTellsTruth | src/kvtree.c:1900-1921 | Success agrees with nothing missing if and only if there are no strays, or something is missing that the strays do not make up for; with nothing missing the read succeeds exactly when there are no strays. |
| Reading.PartitionThenRead | src/kvtree.c:1706-1922 | Written and read back in a directory that may hold other matching files, each name once: succeeds if and only if strays make up for the missing ranks; without strays, if and only if nothing is missing, and then the data is the original. |
| Reading.OnlyPartsNoStrays | src/kvtree.c:1861-1880 | When every matching name in the directory is one of this set's parts there are no strays. |
| Reading.StalePartsMislead | src/kvtree.c:1861-1921 | After a set has been rewritten with more entries per file, a read with one part lost succeeds without its data, and a read with all parts there fails. |
| Sorting.Qsort | src/kvtree.c:595 | A permutation always; in order when the comparison function is a total preorder on the elements. |
| Sorting.SubtractionComparesByValue | src/kvtree.c:548-565 | The subtracting comparison follows the numbers if and only if all pairwise differences fit in an int. |
| Sorting.OverflowMakesCycles | src/kvtree.c:548-555 | With overflow it need not be an order at all: three keys, each before the next, in a cycle. |
| Sorting.StrcmpFlips | src/kvtree.c:526-545 | strcmp is antisymmetric and zero only on equal strings. |
| Sorting.StrcmpIsText | src/kvtree.c:526-545 | strcmp is negative exactly when the strings agree up to a place where the first ends and the second does not, or the first has the lower character. |
| Sorting.StrcmpChains | src/kvtree.c:526-545 | strcmp is transitive. |
| Lists.List.constructor | src/queue.h:101-103 | An initialised list is well formed and empty. |
| Lists.List.InsertHead | src/queue.h:120-125 | LIST_INSERT_HEAD puts the element first and keeps every forward and back pointer right. |
| Lists.List.Remove | src/queue.h:127-132 | LIST_REMOVE, through the back pointer alone, cuts out exactly that element and keeps every pointer right. |
| Lists.List.Size | src/kvtree.c:148-158 | The number of elements. |
| Lists.List.ElemGet | src/kvtree.c:850-863 | The first element with the key, or NULL when there is none. |
| Lists.List.ElemExtract | src/kvtree.c:884-893 | Removes the first match and returns it with its child, or returns NULL and changes nothing. |
| Lists.List.Set | src/kvtree.c:173-200 | Removes any match and puts the key with the new child first. |
| Lists.List.Extract | src/kvtree.c:204-218 | Removes the key and returns its child. |
| Lists.List.Unset | src/kvtree.c:221-232 | Removes the key. |
| Lists.List.UnsetAll | src/kvtree.c:235-250 | Empties the list, noting each successor before its element is taken out. |
| Lists.List.Reinsert | src/kvtree.c:597-604 | Extracting by address and inserting at the head, backwards through a permutation of the elements, leaves them in its order, with the same children. |
| Lists.List.Sort | src/kvtree.c:568-609 | The same elements with the same children, strictly in the order of their text, or the reverse: each key agrees with a later one up to a place where it ends or has the lower character. |
| Lists.List.SortInt | src/kvtree.c:613-654 | The same elements with the same children always; in numeric order, ascending or descending, when all differences of keys fit in an int. |
| Lists.MovesOne | src/kvtree.c:642-649 | Each extraction and reinsertion extends the sorted front by one element and loses none. |
| Lists.History | src/kvtree.c:173-250 | After any sequence of set, extract, unset and unset_all the list is well formed with unique keys and means what the same updates and removals make of the finite map. |
| Locking.PrefixTells | src/kvtree.c:1329-1458 | The bytes kvtree_read_fd asks for decide what reading the whole file would show. |
| Locking.LockRule | src/kvtree_io.c:210-243 | Readers wait for no readers; a writer or updater waits for everyone. |
| Locking.TwoReadersAtOnce | src/kvtree_io.c:210-243 | A run in which two readers hold the lock at once. |
| Locking.WrittenShows | src/kvtree.c:1178-1202 | A completely written file shows the tree, stale bytes beyond it notwithstanding. |
| Locking.SawIt | src/kvtree.c:1538-1566 | A reader that has read enough saw what the completed operations so far leave in the file. |
| Locking.StepKeeps | src/kvtree_io.c:210-335 | Every lock, partial read, partial write, truncation and unlock keeps the invariant of the locked file. |
| Locking.RunsAreSerial | src/kvtree.c:1538-1699 | In every interleaving the completed reads, writes and read-modify-writes act as if run one after another in lock order: each saw exactly the last completed write, or nothing for an empty file. |
| Locking.SomeoneCanAct | src/kvtree_io.c:210-243 | Until all are done some process can act. |

## Left out

- MPI itself: Scan, Bcast, Allreduce and point-to-point delivery are specified operations or channel steps; kvtree_send, kvtree_recv and kvtree_bcast would only add easy members.
- CRC-32: a function parameter; only that writer and reader apply it to the same bytes matters.
- System calls, retries, directory scanning, the regular expression, umask and path building: the matching files of a directory are a given sequence of names.
- Failing locks, reads and writes: assumed to succeed; kvtree_open_with_lock returns 1 on a failed lock, which callers take for a descriptor.
- Nested lists on the heap: `Lists` changes one level in place and holds children as values; the aliasing of subtrees and malloc/free are not modelled.
- kvtree_merge, kvtree_setf, kvtree_set_kv and the exchange work on `Hash` values in place of pointers into a shared tree.
- Partial progress of a collective: `Gather`, `Scatter` and `Partition` run all ranks in lockstep; only `kvtree_exchange` is also modelled asynchronously.
- Keys that are not canonical decimals of ranks in range, NULL keys and NUL in keys, `entries_per_file` of zero or less.
- Overflow: `int` for rank counts above 2^30, `unsigned long` in offsets and sizes, atoi on numbers that do not fit; snprintf into 1024 bytes does not truncate here.
- Reading past the end of a buffer when a packed tree is corrupt is undefined in C; here it is a failure.
- Comparing by subtraction is undefined in C on overflow; here it wraps around.
- Scatter.ReadScatterMap: takes a bound on its depth, because a file that names itself makes the C code recurse for ever; for complete sets of files the bound ranks + 1 is proved enough.
- Scatter.ReadScatter: a file whose RANK keys are not ranks ends in the outcome Unmodelled, since the exchange is modelled only for rank keys.
- Writers.LimitExact: counts the bytes of the ranks' packed trees, as pick_writer does; the header and the keys a file puts around them come on top.
- Reading.Adds: a matching file whose packed tree repeats a key at some level, which nothing in the library writes, is not covered.
- Locking: an update's new tree is a function of the map that was read, not of the order of its elements.
- Async.EveryRunDelivers: starts after the assignment loop and the MAX reduction, which `TwoWay.Assign` and `TwoWay.MaxReduce` cover.
- Printing, logging, debugger display, doubles and pointers as values, host byte order, and the unused macros of `src/queue.h`.
