# A verified model of csync and scsync

Two versions of a UDP file synchronisation program are modelled.

**v1 (`csync`)** uploads one file. The server keeps a bitmap of received chunks beside the file,
tells the client by run-length encoded status updates what is missing, and removes the bitmap when
the client's FIN arrives. `Upload` is the whole upload as a step system: a client with its
missing-range cursor, a server that waits, writes and shuts down and that measures the time between
packets, a status sender that sends when an update is due or the timer runs, and a network that
loses, repeats and reorders at will (a datagram once sent, the Login included, may be delivered
never, once or often, at any later time). `UploadFiles` says what the file holds in every run,
`UploadHistory` what client and server have done so far, `UploadTheorems` what else holds, `UploadLogin`
what a repeated Login does, and `UploadProgress` which states can still be completed.
Below lie the byte-packed bitmap (`BitMaps`), the varints of the Protocol Buffers encoding guide,
section "Base 128 Varints" (`Varints`), run lengths and ranges (`Runs`, `Ranges`), status updates
(`StatusUpdates`), chunk geometry (`Geometry`), the Login (`Logins`) and the inter-packet-time
average (`Congestion`).

**v2 (`scsync`)** synchronises folders as Merkle trees of encrypted blocks. `Blocks`, `Visitors`,
`Folders` and `FolderOutput` are the block database, the tree traversals, and the ways from a
folder to a database and back. `TransferCodec` and `TransferOuts` are the wire formats and the
sending half of a connection: chunk-id allocation and the restartable sender loops around one
cursor. `Sync` is a sender and a receiver with the messages between them as a step system;
`PartialBlocks`, `Frontier`, `SyncInvariant` and `SyncSteps` prove what every step keeps, whatever
the network repeats or reorders; `SyncResponses` and `Ledger` what in-order responses add;
`SyncTheorems` and `SyncHistory` say what follows for every run, `SyncProgress` that no run is a dead
end, and `SyncWitnesses` gives runs that panic.

Objects that the program updates in place are classes (`BitMap`, `MissingRanges`, `Receiver`,
`StatusSender`, `UploadClient`, `CongestionInfo`, `BlockDb`, `TransferOut`, and the v2 `Receiver`);
each method's contract ties the object's new abstract state to the step function that the step
systems use, so the theorems about runs are theorems about these methods. A result `None`, or
`false` where a method says so, is a panic of the original.

The main results:

* v1: over every run, a repeated Login included: a FIN is in flight only when the bitmap is full, no
  update makes the client panic, each set bit's region of the file is the source's but for the one
  chunk the Login stands for, and for that one a stated condition says exactly when; a datagram makes
  the server panic if and only if a stated condition holds, which, a Login aside, chunks 20 ns apart
  never meet.
* v1: over every run in which no Login does harm, the server shuts down only with a full bitmap, and
  then the file is the source, if and only if a stated condition holds; and a reachable state can
  still be completed if and only if nothing is missing or the next chunk does not panic.
* v1: exactly what a repeated Login does, by the index that is read in it: nothing, the end of the
  upload, a panic, or its own bytes in the file.
* v1: a status update, cut anywhere, decodes to a prefix of the bitmap's maximal zero runs, and it
  decodes to nothing exactly when nothing is missing.
* v2: over every run, responses that come again or out of order included: a pending root always has
  a request or a partial block on its way; the root is swapped in the very step in which the tree
  becomes complete; the official root always denotes a complete tree; full blocks are exactly the
  sender's; every id in any status ever sent lies in exactly one allocation.
* v2: the receiver can say what it lacks if and only if its transfers are those of its partial blocks,
  in the order of their ids, which a response keeps if and only if it comes once and in order. From
  every reachable state in which it can, the synchronisation can still be completed, with statuses
  sent only when the program sends them.
* v2: a folder built into a database by the path-keyed loop, sent over a network that loses, repeats
  and reorders, and written out again is the same folder without its symlinks.

Where the code departs from its comments or evident intent, the model follows the code:

* The last chunk of a file whose length is a nonzero multiple of the chunk size carries no bytes
  (v1/csync/src/codec.rs:173). `TiledExactly` and `FinishedFile` say exactly when that matters,
  `LastChunkIsLost` gives a run for every such file, and `OneFullChunkIsLost` one for 1459 bytes.
* A Login that is delivered again reaches the connected socket (v1/csync/src/server/mod.rs:65-68) and
  is read as a chunk. `LoginOutcome` says what comes of it; `LoginEndsTenChunks` is an upload of ten
  chunks that a repeated Login ends before anything was received.
* The bounds check of the bitmap admits the index one past the end (v1/bitte-ein-bit/src/lib.rs:168).
  `BitMap.Set` says exactly when that panics or destroys the zero count; the receiver tests for the
  FIN first, so it never happens (`Receiver.OnDatagram`).
* The average's subtraction can underflow (v1/csync/src/server/congestion.rs:79), which panics in the
  middle of receiving a chunk. `UnderflowsIff` is the exact condition; `UnderflowWitness` and
  `SlowStartUnderflows` are runs of gaps that meet it, the second with no gap below 10 ns;
  `CanGetStuck` is a run of the whole upload that can then never be completed.
* A response that is repeated, or that comes after one with larger ids
  (v2/scsync/src/handler.rs:220-223), leaves the receiver unable to encode a status:
  `StatusAfterResponseIff`, with runs in `RepeatedResponse` and `LateResponse`.
* A payload that arrives after its block was promoted panics (v2/scsync/src/handler.rs:78);
  `PayloadPanicsIff` is the exact condition and `LatePayload` a run.
* The codec asserts that payloads fit the MTU (v2/scsync/src/codec.rs:85). A full chunk with an id of
  2^63 or more does not: `PayloadFitsMtuIff`.

## Model

| member | source | states |
|---|---|---|
| `Varints.EncodingForm` | v1/specification.md:111-122 | an encoding has the high bit on all bytes but the last, stands for the value to the base 128, least significant first, and is the shortest that does |
| `Varints.GuideExamples` | v1/specification.md:111-122 | the encodings of 1, 150 and 300 that the guide gives |
| `Varints.ReadEncoded` | v1/specification.md:111-122 | reading a varint gives back the value written, whatever follows it, and consumes exactly its bytes |
| `Varints.ReadOneIff` | v1/csync/src/codec.rs:217-223 | reading succeeds if and only if the input starts with a varint of a 64-bit number, and gives that number and its width |
| `Varints.ReadEofIff` | v1/csync/src/codec.rs:217-223 | the input ends too early if and only if every byte of it announces another |
| `Varints.ReadCut` | v1/csync/src/codec.rs:217-223 | a varint cut anywhere reads as end of input, never as another value |
| `Varints.ReadAllStream` | v1/csync/src/codec.rs:217-223 | the iterator yields the values and stops at the end of input, but panics when a number beyond 64 bits follows |
| `Varints.ReadAllOfCut` | v1/csync/src/codec.rs:206-224 | the iterator over a cut buffer yields exactly the values whose encoding survived whole |
| `Varints.FitIsLongest` | v1/csync/src/codec.rs:190-194 | the values counted as fitting a buffer do fit, and with one more they do not |
| `Varints.EncodeLength` | v1/specification.md:111-122 | a value takes at most k bytes if and only if it is below 128^k |
| `Varints.WriteVarint` | v1/csync/src/codec.rs:190-194 | a write into a fixed slice succeeds if and only if the whole varint fits, and then the slice holds it |
| `BitMaps.WithBitTests` | v1/bitte-ein-bit/src/lib.rs:60-77 | the masked byte update changes the addressed bit and no other |
| `BitMaps.TestIsBinaryDigit` | v1/bitte-ein-bit/src/lib.rs:46-51 | bit k of a byte is its binary digit of value 2 to the k |
| `BitMaps.BitsOfUpdate` | v1/bitte-ein-bit/src/lib.rs:60-77 | updating one byte of the buffer is updating one element of the plain boolean sequence |
| `BitMaps.BitMap.WithLength` | v1/bitte-ein-bit/src/lib.rs:27-39 | the cached zero count is the number of false bits, and the buffer is untouched |
| `BitMaps.BitMap.Get` | v1/bitte-ein-bit/src/lib.rs:46-51 | in range it is the element of the plain sequence; exactly when it panics, with the check that admits one index too many |
| `BitMaps.BitMap.Set` | v1/bitte-ein-bit/src/lib.rs:60-77 | in range it returns the old bit, updates the plain sequence and keeps the zero count; exactly when it panics, the zero count's underflow one past the end included; and there the count survives if and only if the padding bit already had the value |
| `BitMaps.BitMap.Reset` | v1/bitte-ein-bit/src/lib.rs:100-105 | all bits false, and the zero count right |
| `BitMaps.BitMap.All` | v1/bitte-ein-bit/src/lib.rs:141-143 | true if and only if every bit is set |
| `Runs.ZeroRunsAreMaximal` | v1/csync/src/codec.rs:226-242 | the zero runs are ordered, cover exactly the zero bits, and none can be extended |
| `Runs.RunLengthsExpand` | v1/csync/src/codec.rs:177-204 | the alternating run lengths stand for exactly the bitmap, and none but the first is empty |
| `Ranges.PrefixSumsAt` | v1/csync/src/codec.rs:238-238 | each running sum is that of the values up to there |
| `Ranges.PairsAt` | v1/csync/src/codec.rs:239-239 | range i is made of values 2i and 2i + 1 |
| `Ranges.DecodeWhole` | v1/csync/src/codec.rs:236-242 | an update of whole varints decodes to the pairs of their running sums, or panics when those leave 64 bits |
| `Ranges.DecodeTooLarge` | v1/csync/src/codec.rs:236-242 | an update with a number beyond 64 bits after any values panics |
| `Runs.RunLengthsDecode` | v1/csync/src/codec.rs:236-242 | prefix sums and pairs of the alternating run lengths are exactly the zero runs |
| `StatusUpdates.WriteRunlengthEncoded` | v1/csync/src/codec.rs:177-204 | for every bitmap and buffer size the bytes written are the complete varints of the alternating run lengths that fit, starting with ones |
| `StatusUpdates.StatusRoundTrip` | v1/csync/src/codec.rs:177-242 | decoding an update gives exactly the maximal zero runs whose run pair fitted, so truncation never reports a received chunk |
| `StatusUpdates.UncutStatusIsExact` | v1/csync/src/codec.rs:177-242 | an update that was not cut reports exactly the zero bits |
| `StatusUpdates.StatusEmptyIffComplete` | v1/csync/src/codec.rs:236-242 | with room for two varints (the MTU has it) the decoded update is empty if and only if no bit is zero |
| `StatusUpdates.ReportedIsMissing` | v1/csync/src/codec.rs:236-242 | every reported index is a zero bit of the bitmap encoded |
| `StatusUpdates.MissingRanges.ParseStatusUpdate` | v1/csync/src/codec.rs:236-242 | the view becomes the decoded ranges, the cursor goes back to 0, and true means nothing missing; panics exactly on an undecodable update |
| `StatusUpdates.MissingRanges.AdvanceCursor` | v1/csync/src/codec.rs:244-248 | the least missing index after the cursor |
| `StatusUpdates.MissingRanges.NextChunk` | v1/csync/src/codec.rs:250-256 | takes the first of the missing indices at or after the cursor and leaves exactly the rest |
| `StatusUpdates.NextChunkEnumerates` | v1/csync/src/codec.rs:236-256 | after an update of the encoder, repeated calls yield each reported index once, in ascending order |
| `Ranges.NextIsLeast` | v1/csync/src/codec.rs:250-256 | the next chunk is the least covered index at or after the cursor, and there is one unless nothing is left |
| `Ranges.NoneForever` | v1/csync/src/codec.rs:250-256 | once nothing is yielded, nothing ever is |
| `StatusUpdates.EmptyRangeIsYielded` | v1/csync/src/codec.rs:250-256 | an empty range would be yielded as missing, which is why zero runs must be nonempty |
| `Geometry.IndexFieldSize` | v1/csync/src/codec.rs:154-175 | for every 64-bit length the search stops, without overflowing the shift, at the least width, at most 7, that has ids for all chunks and the FIN |
| `Geometry.WidthExamples` | v1/csync/src/codec.rs:154-175 | the layout of an empty file, of the longest file with one index byte and of the next one |
| `Geometry.SevenSuffice` | v1/csync/src/codec.rs:158-167 | seven index bytes suffice for every 64-bit length |
| `Geometry.TiledExactly` | v1/csync/src/codec.rs:172-173 | chunks carry the whole file if and only if its length is not a nonzero multiple of the chunk size; otherwise they stop one chunk short |
| `Geometry.RegionsApart` | v1/csync/src/client.rs:166-173 | regions of different chunks do not overlap |
| `Geometry.RegionInFile` | v1/csync/src/client.rs:166-173 | every region lies in the tiled part of the file |
| `Geometry.RegionOf` | v1/csync/src/client.rs:166-173 | every byte of the tiled part lies in the region of some chunk |
| `Geometry.ChunkNew` | v1/csync/src/codec.rs:102-114 | the buffer is the index field followed by the data area, also when the data is shorter than the eight index bytes first written |
| `Geometry.LittleEndianAt` | v1/csync/src/codec.rs:106-106 | byte k of the index field is the digit of the index of value 256 to the k |
| `Geometry.ChunkRoundTrip` | v1/csync/src/codec.rs:102-126 | decoding recovers index and data if and only if the index fits the field |
| `Logins.LoginRoundTrip` | v1/csync/src/codec.rs:36-99 | the server decodes exactly the token, path and file length that the client encoded |
| `Logins.LoginExample` | v1/csync/src/codec.rs:43-99 | a whole Login of this client byte by byte |
| `Upload.OnStatusInv` | v1/csync/src/client.rs:103-123 | an update made from the current or an earlier bitmap does not panic, keeps the client's invariant, and finishes the client only if the bitmap is full |
| `Upload.ReceiveInv` | v1/csync/src/server/receiver.rs:156-262 | any datagram of the client but a harmful Login keeps the server's invariant, and panics if and only if it is not read as a FIN and the average underflows |
| `Upload.WriteSomeInv` | v1/csync/src/server/receiver.rs:171-172 | every partial progress of a write keeps the regions of all received chunks |
| `UploadFiles.WrittenFile` | v1/csync/src/server/receiver.rs:171-172 | a positioned write puts its bytes there, leaves all others, and fills a gap with zeroes |
| `Upload.TrafficStep` | v1/csync/src/server/receiver.rs:187-275 | every step, the delivery of a Login included, keeps what is on its way: packets are chunks of the source or a justified FIN, updates come from the current or an earlier bitmap, and one is due or on its way |
| `Upload.TrafficRun` | v1/csync/src/server/receiver.rs:187-275 | so it is in every run |
| `Upload.StepInv` | v1/csync/src/server/receiver.rs:187-275 | every step of client, server, status sender and network, but for a harmful Login, also keeps the server's file and phase right |
| `Upload.RunInv` | v1/csync/src/server/receiver.rs:187-275 | every state reachable without a harmful Login satisfies the invariant |
| `UploadFiles.ReceivedRegion` | v1/csync/src/server/receiver.rs:156-208 | in every run the region of a received chunk holds the data of the one packet accepted for it, over the old file, and that packet was a chunk of the source or the Login |
| `UploadFiles.ReceivedChunksAreCorrect` | v1/csync/src/server/receiver.rs:156-208 | in every run each set bit's region of the file equals the source's, but for the chunk the Login stands for, and for that one in every run without a harmful Login |
| `UploadFiles.LoginChunkIff` | v1/csync/src/server/receiver.rs:156-208 | in every run that one chunk, once received, is right if and only if the packet accepted for it was the source's or the Login's bytes over the old file agree with the source |
| `UploadTheorems.FinImpliesFull` | v1/csync/src/client.rs:96-130 | in every run, misread Logins included, a FIN in flight implies that the server's bitmap is full |
| `UploadTheorems.FinishedMeansFull` | v1/csync/src/client.rs:103-130 | in every run a client that has finished has done so with the server's bitmap full |
| `UploadTheorems.ShutdownMeansFull` | v1/csync/src/server/receiver.rs:247-260 | in every run without a harmful Login the server shuts down only with a full bitmap: the "bitmap is not full" branch is unreachable |
| `UploadTheorems.ClientNeverPanics` | v1/csync/src/client.rs:103-123 | in every run, misread Logins included, no update in flight makes the client panic |
| `UploadTheorems.ServerPanicsIff` | v1/csync/src/server/receiver.rs:156-261 | in every run a datagram in flight makes the server panic if and only if the upload is going on, it is not read as a FIN, and the average underflows or it is the Login with an index beyond the FIN's |
| `UploadTheorems.MeterHistory` | v1/csync/src/server/receiver.rs:158-158 | in every run the server's average is that of exactly the gaps before the chunks it counted, in their order |
| `UploadTheorems.StuckIff` | v1/csync/src/server/congestion.rs:79-79 | in every run the next chunk underflows if and only if those gaps meet the exact condition |
| `UploadTheorems.NoPanic` | v1/csync/src/server/receiver.rs:156-261 | in every run whose counted gaps are 20 ns or more, or between 10 ns and 100 ms, nothing but a Login beyond the FIN's index makes the server panic |
| `UploadTheorems.BitmapOnlyGrows` | v1/csync/src/server/receiver.rs:207-208 | in every run, misread Logins included, no bit is ever cleared |
| `UploadTheorems.FinishedFile` | v1/csync/src/server/receiver.rs:247-260 | when the FIN is accepted the bitmap file is gone, and the file is the source if and only if chunks tile it or its old tail was already right |
| `UploadTheorems.ZeroCountStep` | v1/csync/src/server/receiver.rs:207-213 | each step, whatever is delivered, keeps the zero count, or lowers it by one and consults the power-of-two rule |
| `UploadHistory.IsPowerOfTwoIff` | v1/csync/src/server/receiver.rs:210-210 | the test is true of exactly the powers of two |
| `UploadHistory.UpdatesDue` | v1/csync/src/server/receiver.rs:207-213 | in every run the updates sent because due and those still due are the first one and one for each finished chunk that left zero or a power of two of zeroes |
| `UploadHistory.RuleFiresExactly` | v1/csync/src/server/receiver.rs:207-213 | in every run, when all of n >= 2 chunks are marked received, besides the first update exactly floor(log2(n-1)) + 2 have been made due, whatever was repeated |
| `UploadHistory.TimerSends` | v1/csync/src/server/congestion.rs:116-144 | in every run the timer has sent nothing before a gap was counted, and nothing is sent after the shutdown but what is due |
| `UploadHistory.ChunksStarted` | v1/csync/src/client.rs:96-125 | in every run the client has started since its last update, in order, exactly the first of the indices which that reports, and all of them when it sleeps |
| `UploadHistory.StartedIsSent` | v1/csync/src/client.rs:172-184 | in every run each of those chunks has been sent, but for the one the client is at |
| `UploadHistory.NetworkKeeps` | v1/csync/src/client.rs:78-184 | in every run each datagram ever sent can still be delivered |
| `UploadLogin.LoginOutcome` | v1/csync/src/server/receiver.rs:244-262 | a Login delivered to a waiting server ends the upload if its index is the FIN's, panics if it lies beyond, is ignored if its chunk was received, and is written as that chunk otherwise, unless the average underflows |
| `UploadLogin.LoginKeepsInvIff` | v1/csync/src/server/receiver.rs:244-262 | it keeps the server's invariant if and only if it is harmless and the average does not underflow |
| `UploadLogin.WithoutLoginIsClean` | v1/csync/src/server/receiver.rs:244-262 | a run that never delivers the Login again meets the condition of the theorems about runs |
| `UploadLogin.LoginEndsUpload` | v1/csync/src/server/receiver.rs:247-259 | whenever its index is the FIN's, one repeated Login shuts down an upload that has received nothing |
| `UploadLogin.LoginCorrupts` | v1/csync/src/server/receiver.rs:156-180 | whenever its index is that of a chunk, the last one included, a run leaves the old file with the Login's bytes over it, longer than the source exactly if they reach beyond its end, marks that chunk received, and leaves it wrong exactly if those bytes do not agree with the source |
| `UploadLogin.LoginIndexOfOneByte` | v1/csync/src/client.rs:68-68 | with a one-byte index the Login of this client stands for chunk 10 |
| `UploadLogin.LoginEndsTenChunks` | v1/csync/src/client.rs:68-68 | a concrete file of ten chunks whose upload a repeated Login ends |
| `UploadProgress.ArriveAfter` | v1/csync/src/server/receiver.rs:156-180 | a chunk in flight can arrive after any gap unless the average underflows, and is written or ignored |
| `UploadProgress.Nudge` | v1/csync/src/server/receiver.rs:73-73 | with nothing due and no timer yet, an old update still brings the server a packet nearer its timer |
| `UploadProgress.CanFinish` | v1/csync/src/client.rs:96-130 | from every reachable state that is over, lacks nothing, or can take another chunk, some continuation completes the upload, with updates sent only when due or by the timer |
| `UploadProgress.CanFinishIff` | v1/csync/src/client.rs:96-130 | exactly those states can be completed |
| `UploadProgress.CanGetStuck` | v1/csync/src/server/congestion.rs:79-79 | every upload of two chunks or more has a run into a state that can never be completed |
| `UploadProgress.LastChunkIsLost` | v1/csync/src/codec.rs:173-173 | every file whose length is a nonzero multiple of the chunk size has a run that is accepted as complete with a wrong file, unless the old last chunk was right |
| `UploadProgress.OneFullChunkIsLost` | v1/csync/src/codec.rs:173-173 | the same for concrete files of 1459 bytes |
| `UploadNodes.Receiver.UploadRequest` | v1/csync/src/server/receiver.rs:65-144 | a fresh upload starts with the old file cut or extended with zeroes to the announced length, no bit set and a first update due, in the initial state of the step system |
| `UploadNodes.Receiver.OnDatagram` | v1/csync/src/server/receiver.rs:156-271 | any datagram at any time: ignored after the shutdown, a FIN by its index before the bitmap is asked, otherwise the time since the last chunk is counted and the data written or ignored by the bit; panics exactly where the step system does, and the bitmap's invariant survives every packet |
| `UploadNodes.Receiver.OnWriteProgress` | v1/csync/src/server/receiver.rs:171-178 | the next bytes of the payload are written behind those that were |
| `UploadNodes.Receiver.OnWriteDone` | v1/csync/src/server/receiver.rs:204-227 | the finished chunk's bit is set in the packed bitmap, and an update made due exactly if that leaves zero or a power of two of zeroes |
| `UploadNodes.StatusSender.StartSend` | v1/csync/src/server/sender.rs:57-63 | the datagram is the status update of the shared bitmap for the MTU |
| `UploadNodes.UploadClient.StartChunk` | v1/csync/src/client.rs:161-164 | the first of the indices that are left is started and exactly the rest is left; the client sleeps only when none is |
| `UploadNodes.UploadClient.OnSent` | v1/csync/src/client.rs:154-185 | the packet is the chunk's index and exactly its region of the source, and the first of the indices that are left is started |
| `UploadNodes.UploadClient.OnUpdate` | v1/csync/src/client.rs:103-130 | the view becomes the decoded ranges; a chunk in progress goes on, a sleeping client starts the first reported one; the FIN is sent exactly when nothing is missing |
| `Congestion.CongestionInfo.IptPacket` | v1/csync/src/server/congestion.rs:69-84 | the time since the last packet becomes the newest of at most ten gaps, and the average is the value-level one, including when the subtraction panics |
| `Congestion.PacketsAt` | v1/csync/src/server/congestion.rs:69-84 | for packets at any times, the average is that of the differences between consecutive times, and they panic exactly when that does |
| `Congestion.QuotientLoss` | v1/csync/src/server/congestion.rs:79-84 | a duration divided by n, seconds and nanoseconds apart, falls short of the true quotient by less than one unit below a second, and by the remainder of the seconds at most otherwise |
| `Congestion.FillingLoss` | v1/csync/src/server/congestion.rs:80-84 | while the window fills, the average falls short of the true mean by no more than the roundings: at ten gaps by 9 ns, or 13 ns when they last a second or more |
| `Congestion.OffsetIsConstant` | v1/csync/src/server/congestion.rs:78-84 | once ten gaps are held, the average minus the sum of rounded-down tenths never changes again and lies in [-9, 9], or [-13, 9] when the first ten last a second or more |
| `Congestion.DriftIsBounded` | v1/csync/src/server/congestion.rs:78-84 | in every run without underflow the average stays within 18 ns of the true ten-gap mean, or 22 ns when the first ten gaps last a second or more |
| `Congestion.UnderflowsIff` | v1/csync/src/server/congestion.rs:79-79 | the next packet panics if and only if the tenths of the nine younger gaps cannot make up for the offset of the first ten |
| `Congestion.NoUnderflow` | v1/csync/src/server/congestion.rs:79-79 | gaps of at least 10 ns never panic, or of at least 20 ns when the first ten last a second or more |
| `Congestion.LongGapIsSafe` | v1/csync/src/server/congestion.rs:79-79 | after a gap of 130 ns the next packet does not panic, whatever came before |
| `Congestion.UnderflowWitness` | v1/csync/src/server/congestion.rs:79-79 | a run of eleven gaps that panics |
| `Congestion.SlowStartUnderflows` | v1/csync/src/server/congestion.rs:79-84 | a run of twenty gaps, none below 10 ns, that panics because the division loses more on gaps of seconds |
| `Blocks.BlockRoundTrip` | v2/scsync/src/frontend/mod.rs:226-260 | decoding an encoded directory or leaf with its key and type gives it back |
| `Blocks.OpensIff` | v2/scsync/src/frontend/mod.rs:226-260 | a block opens exactly with its own key and as the type it was made as, but for empty content, which could be either |
| `Blocks.BlockDb.ApplyPending` | v2/scsync/src/blockdb.rs:38-40 | the pending root becomes the root, nothing is pending, the old root is returned, blocks unchanged |
| `Blocks.BlockDb.Add` | v2/scsync/src/blockdb.rs:54-56 | a block that is already stored stays as it is |
| `Blocks.BlockDb.Promote` | v2/scsync/src/blockdb.rs:58-71 | a block becomes full, with its data, exactly when every chunk is available, and nothing else changes; panics exactly on a missing or full block |
| `Visitors.AllFullUnfold` | v2/scsync/src/frontend/visitor.rs:25-77 | a tree is complete if and only if its top block is full and every child's tree is complete |
| `Visitors.VerifyIff` | v2/scsync/src/frontend/visitor.rs:119-141 | with a full root, `verify` is true if and only if no block reachable through directory entries is missing or partial |
| `Visitors.ResolveIff` | v2/scsync/src/frontend/visitor.rs:81-117 | `resolve` finds a block if and only if full directories lead to it and it is full, and returns that block's content |
| `Folders.BuildNode` | v2/scsync/src/frontend/mod.rs:43-92 | the loop over the walk of any subtree, from any builder state, adds that subtree's blocks and one child entry under its parent and nothing else |
| `Folders.RootComesLast` | v2/scsync/src/frontend/mod.rs:43-44 | before every iteration no root has been found: the assertion never fails |
| `Folders.WholeWalk` | v2/scsync/src/frontend/mod.rs:38-93 | the loop over the whole walk gives the root and blocks of plain recursion |
| `Folders.BlockDbFromFolder` | v2/scsync/src/frontend/mod.rs:35-94 | the mutable loop with its path-keyed map gives the root and blocks of plain recursion, its assertion included |
| `Folders.OwnKeys` | v2/scsync/src/frontend/mod.rs:51-86 | every file and folder gets an entry with its name and type, and a block under the key drawn for it |
| `FolderOutput.WriteToDirRec` | v2/scsync/src/frontend/mod.rs:106-131 | the recursive loop writes what the recursive function says |
| `FolderOutput.WriteToDirIff` | v2/scsync/src/frontend/mod.rs:96-131 | writing a tree out panics if and only if some block of it is missing or partial, and otherwise writes the folder its ids denote |
| `FolderOutput.FolderDbIsComplete` | v2/scsync/src/frontend/mod.rs:35-94 | a database built from a folder is complete, its root well formed and stored |
| `FolderOutput.StripKeepsFiles` | v2/scsync/src/frontend/mod.rs:46-49 | dropping symlinks keeps the same files and folders under the same paths in the same order, and nothing else, and leaves a tree without symlinks as it is |
| `FolderOutput.FolderRoundTrip` | v2/scsync/src/frontend/mod.rs:35-131 | writing out the database of a folder reproduces the folder without symlinks |
| `TransferCodec.EncodeStatus` | v2/scsync/src/codec.rs:90-98 | panics if and only if the ranges do not ascend, and otherwise gives the delta-coded message cut to the MTU |
| `TransferCodec.DeltasDecode` | v2/scsync/src/codec.rs:41-94 | pairing the prefix sums of the deltas gives the ranges back |
| `TransferCodec.StatusWire` | v2/scsync/src/codec.rs:40-98 | a message cut anywhere, even inside a varint or a pair, decodes to a prefix of its ranges, and to all of them when nothing was cut |
| `TransferCodec.StatusExample` | v2/scsync/src/codec.rs:90-98 | a whole status message byte by byte |
| `TransferCodec.GroupRanges` | v2/scsync/src/handler.rs:272-279 | the groups pushed are the maximal runs of unavailable chunks |
| `TransferCodec.PayloadWire` | v2/scsync/src/codec.rs:30-89 | an encoded payload decodes to its id and data |
| `TransferCodec.PayloadExample` | v2/scsync/src/codec.rs:82-89 | a whole payload message byte by byte |
| `TransferCodec.FullChunkFitsIff` | v2/scsync/src/codec.rs:83-85 | a full chunk fits the MTU if and only if its id is below 2^63 |
| `TransferOuts.ChunkBytes` | v2/scsync/src/handler.rs:416-418 | a block has just enough chunks, and chunk k is its bytes from 1450k on, at most 1450 |
| `TransferOuts.AllocationUnique` | v2/scsync/src/handler.rs:191-200 | every chunk id lies in at most one allocation |
| `TransferOuts.AllocateOk` | v2/scsync/src/handler.rs:191-208 | allocation keeps ranges disjoint and one per block, never changes earlier ones, and asking again gives the same range |
| `TransferOuts.OnLoopOk` | v2/scsync/src/handler.rs:401-436 | an iteration of any live loop keeps: the ids sent since the last status, followed by what lies ahead of the cursor, are exactly the missing ids |
| `TransferOuts.SenderLoops` | v2/scsync/src/handler.rs:380-440 | for every interleaving of statuses and any number of loops, a cursor that is not idle lies in a todo range and has a live loop, and the ids sent since the last status are an ascending, duplicate-free prefix of exactly the missing ids |
| `TransferOuts.LoopsCounted` | v2/scsync/src/handler.rs:388-396 | for every interleaving, loops are launched exactly by nonempty statuses at an idle transfer and end exactly when they find it idle |
| `TransferOuts.TransferOut.BlockRequest` | v2/scsync/src/handler.rs:185-210 | finds or allocates the block's range and answers with it and the stored length; panics exactly when the block is not stored or 64-bit ids run out |
| `TransferOuts.TransferOut.TransferStatus` | v2/scsync/src/handler.rs:380-394 | replaces todo and cursor and launches a loop exactly when the transfer was idle and the status is not empty |
| `TransferOuts.TransferOut.LoopIteration` | v2/scsync/src/handler.rs:401-436 | sends exactly the chunk of the stored block under the cursor and moves to the next todo id, or stops; panics if and only if the cursor is not allocated or the block there is missing or not full |
| `SyncHistory.StoreChunkIff` | v2/scsync/src/handler.rs:318-326 | exactly when a chunk of any bytes can be stored without a panic, and that it then changes its own bytes and its own availability |
| `SyncHistory.FindsFirst` | v2/scsync/src/handler.rs:76-80 | the first transfer whose ids contain the chunk is found |
| `SyncHistory.RemovesFirst` | v2/scsync/src/handler.rs:335-337 | removing a transfer takes out its first occurrence and keeps the rest in order |
| `SyncHistory.RemovesNone` | v2/scsync/src/handler.rs:335-337 | removing a transfer that is not live changes nothing |
| `PartialBlocks.StoreKeepsPartial` | v2/scsync/src/handler.rs:318-326 | storing a chunk of the sender's block, in any order and any number of times, keeps all available chunks right |
| `PartialBlocks.WholeBlock` | v2/scsync/src/blockdb.rs:58-71 | a partial block with every chunk available is exactly the sender's block |
| `Frontier.CompleteIff` | v2/scsync/src/handler.rs:356-359 | the pending tree is complete if and only if nothing is requested and no block is partial |
| `Frontier.FrontierPromote` | v2/scsync/src/handler.rs:340-354 | requesting the missing entries of a block that became full keeps every entry of every full directory stored or requested |
| `SyncInvariant.PromotedOutcome` | v2/scsync/src/handler.rs:340-377 | a promotion does not panic, requests exactly what is missing below the block, and swaps the root if and only if nothing is outstanding |
| `SyncInvariant.PayloadKeepsPeer` | v2/scsync/src/handler.rs:309-378 | any payload of the sender panics if and only if its transfer is not live, and otherwise keeps the receiver's invariant |
| `SyncSteps.StatusRangesExact` | v2/scsync/src/handler.rs:267-281 | the status ranges cover exactly the chunks of live transfers that have not arrived |
| `SyncSteps.StatusRangesOk` | v2/scsync/src/handler.rs:267-281 | the receiver can always state its ranges, ascending and inside its allocations |
| `SyncSteps.LoopStep` | v2/scsync/src/handler.rs:408-430 | a live loop always finds what its cursor points at: the "unallocated transfer blocks" panic is unreachable |
| `SyncSteps.StepInv` | v2/scsync/src/handler.rs:128-440 | every step of sender, receiver and network keeps the invariant, repeated and reordered responses included |
| `SyncSteps.RunInv` | v2/scsync/src/handler.rs:128-440 | every reachable state satisfies the invariant, by which each request ever made is pending or its block stored |
| `Ledger.SentAims` | v2/scsync/src/handler.rs:267-286 | while a transfer is live and the status can be made, it starts, as the sender reads it, at a chunk of that transfer |
| `Ledger.TidyRun` | v2/scsync/src/handler.rs:212-286 | in every run whose responses come once and in order, live transfers are those of the partial blocks in order, and the next status can be made |
| `Ledger.DueRun` | v2/scsync/src/handler.rs:212-316 | in every run, while a transfer is live a status is due or one is on its way that makes the sender send |
| `SyncHistory.StatusesDue` | v2/scsync/src/handler.rs:230-315 | in every run the statuses sent and those still due are one for each payload on the open connection and one for each response that found no transfer live |
| `SyncHistory.NetworkKeeps` | v2/scsync/src/handler.rs:230-315 | in every run each message ever sent can still be delivered |
| `SyncResponses.CanTellIff` | v2/scsync/src/handler.rs:267-286 | in every run the next status can be made if and only if live transfers are those of the partial blocks, one to one, in the order of their ids |
| `SyncResponses.StatusAfterResponseIff` | v2/scsync/src/handler.rs:212-286 | in every run, on an open connection, the next status can be made after a response if and only if it could before and the response came while pending and not after a live transfer with larger ids |
| `SyncTheorems.FetchNeverStalls` | v2/scsync/src/handler.rs:309-354 | in every run, repeated and reordered responses included, while a root is pending, each entry of each full directory is stored or requested, and a request or a partial block is on its way |
| `SyncTheorems.SwappedExactlyWhenComplete` | v2/scsync/src/handler.rs:356-376 | after any step the connection is over, with the sender's root official, if and only if the sender's tree is complete: the swap happens in the step of the last block |
| `SyncTheorems.OfficialRootIsComplete` | v2/scsync/src/handler.rs:356-362 | in every run the official root denotes a tree of full blocks and writing it out does not panic; the folder is untouched until the swap and the sender's from then on |
| `SyncTheorems.SyncedFolder` | v2/scsync/src/handler.rs:356-362 | the folder of a receiver that switched to the root of a folder's database is that folder without symlinks |
| `SyncTheorems.TransfersArePartials` | v2/scsync/src/handler.rs:219-228 | in every run each partial block has a live transfer and what arrived of it is the sender's data; with responses in order, live transfers, in ascending id order, and partial blocks correspond one to one |
| `SyncTheorems.FullBlocksAreExact` | v2/scsync/src/handler.rs:318-329 | in every run a full block is exactly the block its id stands for |
| `SyncTheorems.StatusIdsAreAllocated` | v2/scsync/src/handler.rs:271-279 | every id in any status ever sent lies in exactly one allocation |
| `SyncTheorems.StatusPipeline` | v2/scsync/src/handler.rs:267-286 | in every run, whenever the status can be made, its ranges cover exactly what is missing, and the sender decodes a prefix of them, all when nothing is cut |
| `SyncTheorems.AllocationsOnlyGrow` | v2/scsync/src/handler.rs:191-200 | no allocation is ever changed or withdrawn |
| `SyncTheorems.NoPanic` | v2/scsync/src/handler.rs:380-440 | in every reachable state each requested block is held by the sender, and no response or status in flight and no live sender loop panics; nor, with responses in order, does the making of a status |
| `SyncTheorems.PayloadPanicsIff` | v2/scsync/src/handler.rs:76-80 | in every run a payload in flight panics the receiver if and only if the connection is open and the chunk is not one of a live transfer of a still partial block |
| `SyncTheorems.PayloadFitsMtuIff` | v2/scsync/src/codec.rs:82-85 | a payload in flight fits the MTU if and only if its id is below 2^63 or its chunk is short |
| `SyncProgress.SmallBlocksSuffice` | v2/scsync/src/handler.rs:48-48 | chunk ids below 2^63 suffice for all blocks when the start plus the number of blocks times the longest block is below 2^63 |
| `SyncProgress.PayloadsFit` | v2/scsync/src/codec.rs:82-85 | then every payload ever sent fits the MTU |
| `SyncProgress.NextIsTotal` | v2/scsync/src/handler.rs:195-198 | in every run the next free id is the start plus the bytes of the blocks allocated |
| `SyncProgress.OpenTransfer` | v2/scsync/src/handler.rs:185-228 | with no transfer live, some request can be answered and opens one, losing nothing |
| `SyncProgress.FetchChunk` | v2/scsync/src/handler.rs:309-440 | with a transfer live and a status due, a missing chunk can be reported, sent and stored, which brings the fetch strictly nearer its end |
| `SyncProgress.Revive` | v2/scsync/src/handler.rs:315-315 | with a transfer live and no status due, an old status can make the sender send, which makes a status due and loses nothing |
| `SyncProgress.ReadyIff` | v2/scsync/src/handler.rs:267-286 | the states from which the fetch is shown to go on are those in which the next status can be made, among them all that in-order responses lead to |
| `SyncProgress.CanSync` | v2/scsync/src/handler.rs:128-440 | from every such state some continuation, with responses in order and statuses sent only after a payload or a first transfer, makes the sender's root the receiver's |
| `SyncProgress.FolderConfigIsValid` | v2/scsync/src/frontend/mod.rs:35-94 | two folders, one root unknown to the other side, meet the assumptions of all theorems about runs |
| `SyncProgress.FolderCanBeSynced` | v2/scsync/src/handler.rs:128-440 | from every such state one folder can be written out on the other side, symlinks dropped |
| `SyncWitnesses.StatusPanicsIff` | v2/scsync/src/handler.rs:267-286 | with a status due, the panic that the witness runs end in is that of the step that makes it |
| `SyncWitnesses.RepeatedResponse` | v2/scsync/src/handler.rs:220-223 | in every configuration a run in which a response arrives twice, and the status then due panics |
| `SyncWitnesses.LateResponse` | v2/scsync/src/handler.rs:220-223 | whenever the root has two entries the receiver lacks, a run in which two responses arrive once each in the wrong order, and the status then due panics |
| `SyncWitnesses.LatePayload` | v2/scsync/src/handler.rs:76-80 | whenever the root has an entry the receiver lacks, a run with all responses in order in which a payload of the promoted root arrives again and panics |
| `SyncWitnesses.TwoFilesRepeatedResponse` | v2/scsync/src/handler.rs:220-223 | the repeated response on two concrete files |
| `SyncWitnesses.TwoFilesLateResponse` | v2/scsync/src/handler.rs:220-223 | the late response on two concrete files |
| `SyncWitnesses.TwoFilesLatePayload` | v2/scsync/src/handler.rs:76-80 | the late payload on two concrete files |
| `SyncNode.Receiver.UnconnectedRootUpdate` | v2/scsync/src/handler.rs:128-158 | ignored on an open connection, for the current root and while one is pending; otherwise the connection is opened, the root pending and its block requested |
| `SyncNode.Receiver.BlockRequestResponse` | v2/scsync/src/handler.rs:212-228 | the request is over, the transfer added last, an all-zero block without chunks stored unless there is one, and a status due exactly for the first live transfer |
| `SyncNode.Receiver.LookupTransfer` | v2/scsync/src/handler.rs:76-80 | finds the first transfer whose ids contain the chunk, if any |
| `SyncNode.Receiver.RequestMissing` | v2/scsync/src/handler.rs:342-347 | requests exactly the children that are not stored, besides what is pending |
| `SyncNode.Receiver.TransferPayload` | v2/scsync/src/handler.rs:309-378 | the whole handler refines the step system's payload step for payloads of any bytes and length, panics included, provided that a block it completes has the data its id stands for |
| `SyncNode.SenderCompletesRightly` | v2/scsync/src/handler.rs:318-329 | in every run the sender's payloads complete blocks with that data |
| `SyncNode.Receiver.Promoted` | v2/scsync/src/handler.rs:340-376 | resolve, request, verify and swap, as the step system says, panics included |
| `SyncNode.Receiver.MakeStatus` | v2/scsync/src/handler.rs:267-286 | the message is the delta-coded status of what is missing now; panics exactly when a transfer's block is not partial or the ranges do not ascend |

## Left out

- Sockets, tokio futures, channels, timers and the request retry loop: each handler call or critical section is one atomic step.
- Whether messages do arrive: that an upload or a synchronisation is completed is shown possible, not inevitable; under loss the v2 program can fall silent, and its initial root update is never sent again.
- v1 timer: from the first gap until the FIN it may fire at any moment; the waiting times and the ten-second limit on idle connections are not modelled.
- v1 Login repeated before the server has connected its socket: the listener then starts a second upload, which is a resume.
- v1 resume of an upload: the data file is then opened in append mode, where positioned writes depend on the operating system.
- v1 `num_packets`, `update_delay` and round-trip times: floating-point logarithms and wall-clock time.
- v1 `flip_bit`: it has no caller.
- v1 paths, the check that a path is valid UTF-8, and command-line options: plumbing.
- v1 empty files: mapping a bitmap file of length 0 into memory is taken to succeed.
- AES, Keccak and CBOR: a block id is an injective constructor around the block's content and encryption is a tag that only the same key opens; block data is a sequence of atoms (a byte, a directory entry, the cipher's initial value), and chunk lengths are counted in atoms.
- FileMeta blocks and hints: the builder never makes them, and the traversals do not look inside them.
- Mutex order between `clients` and `blockdb`: nothing is claimed about deadlock.
- More than one peer at a time, and root update responses, both to a known client and after a swap.
- Duplicate names in one folder, and names that are not valid Unicode.
- Integer overflow is modelled as a panic, as with overflow checks on.
- BitMaps.BitMap.WithLength: a buffer too small for the bits is excluded by the precondition, which is the documented panic.
- Congestion.QuotientLoss: the division is that of the standard library of the program's time; a later one divides exactly, and then the smaller bounds hold throughout, which is not stated.
- TransferCodec.EncodeStatus: the write buffer is taken to hold the whole message before it is cut; a status far beyond the MTU can exhaust the buffer's capacity (8 KiB at first), and then the program reports an error instead of cutting.
- SyncNode.Receiver.TransferPayload: a payload that completes a block is assumed to complete it with the data its id stands for, because the program does not check the hash and a tree with wrong data may have no end; SenderCompletesRightly shows it of the sender's payloads.
- v2 peers: the sender is honest, and the receiver does not already store the new root.
- SyncProgress.CanSync: once a repeated or late response has made the status panic, nothing is claimed about completion; and it needs the sender's blocks, at one chunk id per byte, to fit below 2^63 after the random start; SmallBlocksSuffice gives a bound to test that by.
