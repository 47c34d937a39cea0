# JWT revocation node: a verified model

The repository is a node of a JWT revocation service. A row of Bloom filters, rotated over
time, answers "is this token revoked?"; a log of the last 24 hours rebuilds the row; a
dispatcher applies the master's messages; a bounded queue carries revocations to the log.
This project models those parts in Dafny and proves what they keep.

| files | what they hold |
|---|---|
| `Sha256Spec`, `Sha256`, `Sha256Facts`, `Sha256Numbers`, `Sha256KnownAnswer` | SHA-256 as FIPS 180-4 defines it, the in-place streaming context proved equal to it, what its steps lose and keep, where its constants come from, and the digest of "abc" worked out |
| `Decimal`, `LogLine`, `SocketMsgFrame` | decimal text, log lines and log files, frames on a socket, each with its inverse |
| `BloomFilter` | one filter, as a class and as a value |
| `EngineSpec`, `Engine` | the engine's operations on values, and the class proved against them |
| `EngineHistory`, `EngineAnswers`, `Rebuild` | the closed form of the row after any history, the answers it gives, the rebuild from the log |
| `ThreadSafeQueue`, `QueueThresholds` | the blocking queue step by step, and for how many producers it works |
| `Scheduler`, `Node`, `NodeInvariant`, `NodeRuns`, `NodeTheorems`, `NodeCounts`, `NodeAnswers`, `NodeExamples` | the dispatcher, the whole node as a transition system, its invariant, the end-to-end results, and runs that show their limits |
| `Arithmetic`, `FiniteSets`, `Wrappers` | small helpers |

Main results, each for every input or every run:

- init, any updates, final write exactly the SHA-256 digest of the concatenation; rounds and
  schedule run backwards; the padding can be undone; the constants are the first 32 bits of the
  fractions of the cube and square roots of the first primes, and the digest of "abc" is the
  published one.
- A filter finds a key exactly when each of its hashes falls on a bit that some hash of some
  key added falls on; the node's answer is stated in the same terms, at any time.
- The bits and the count of filter j are those of the writes whose window minus the rotations
  since exceeds j. Hence nested filters, a scan that is one lookup, forgetting after a full
  turn, and the exact answer, over exact sets and over the Bloom filters.
- In every run, a revocation that was in range when it was taken, or when an adjust read it
  from the log, is in every filter that a query scans but possibly the last, as long as it is
  unexpired and the row is not rebuilt. Over exact sets nothing is answered revoked by a
  non-empty window but what was taken from the master or what the log made of it.
- A rebuild does not depend on the order of files and lines, reads each line as often as it was
  left in the files of the last 24 hours, and answers every retained record. After an adjust
  each filter counts exactly the lines that reach it.
- In every run of the queue, what was pushed is what was popped followed by what is inside.
  With P producers, one consumer and M places, a wake-up can be lost if and only if
  0 < M < P, and all threads can end up asleep if and only if P >= 2M (for P >= 1).
- In every interleaving, with any tokens, crashes and restarts, each revocation ever taken
  from the master has reached a file, is on its way to one, or is lost, those that reached one
  and those on their way in order of arrival. Only a restart loses any, exactly those on their
  way at that moment.
- After each adjust that goes through, every revocation that is in a file of the last 24
  hours, unexpired, in range and without comma or newline in its token is answered revoked.
  Being in such a file follows for every revocation that reached a file and has a life of at
  most 82801 seconds.

What the code does where a reader might expect something else:

- `std::ceil` is applied to an integer quotient, so it rounds down. A query whose window is
  empty scans no filter and answers true.
- "Never a false negative" does not hold. `EngineAnswers.RevokedTokenCanBeMissed` gives an
  input for every hash and `NodeExamples.RotationHidesARevocation` a run of the node;
  `EngineAnswers.ExactAnswer` and `NodeTheorems.AnswerAtAnyTime` give the condition.
- A restart loses revocations that have not reached a file: a run is in
  `NodeExamples.RestartLosesARevocation`, the exact loss in `NodeTheorems.OnlyRestartsLose`.
- An adjust forgets revocations that have not reached a file yet. A run is in
  `NodeExamples.AdjustForgetsQueuedRevocations`, the condition in `NodeTheorems.AnswerAfterAdjust`.
- 24 files are not enough for lives above 82801 seconds: `NodeExamples.FileIsDeletedTooEarly`
  is a run in which an adjust deletes the file of an unexpired revocation and stops answering it.
- A token with a comma or a newline does not come back from the log as it was. The token is
  cut at its newlines; each piece but the last is a line of its own, and the last one is a line
  with the expiry (`LogLine.LinesOfRecord`). A line whose piece has a comma comes back as
  another token if a 64-bit number can be read after the first comma, and otherwise makes the
  rebuild throw (`LogLine.ParseOfLine`), unless it is not the last and ends with that comma.
  `LogLine.RecordThrowsExactly` is the condition for any token (`IsUnreadable`), and inputs are
  in `LogLine.CommasInTokens`, `LogLine.NewlineThatSaves` and `LogLine.NewlineThatThrows`. One
  such record in the last 24 hours is exactly what makes the log unreadable
  (`NodeTheorems.LogIsReadableExactly`); no adjust and no start then succeeds until its file is
  deleted (`NodeTheorems.UnreadableRecordStopsTheNode`).
- A rotation can end the process, an interval after an adjust that was acknowledged. It does
  exactly when the interval is above the maximum life (no filter was made, and the rotation
  erases from an empty vector) or the size does not fit in 32 bits (the filters made by the
  adjust had the size cut to 32 bits, the rotation passes it whole and the constructor
  throws): `NodeTheorems.RotationDiesExactly`, with runs for both, the second with size
  2^32 + 8, in `NodeExamples.RotationEndsTheNode`.
- adjustFiltersParam, unlike init, does not refuse a zero rotation interval (division by
  zero). `NodeTheorems.WhatEndsTheNode` says for every step exactly when the node model ends
  (`dead`).
- The rotation worker can time out, lose the mutex to a rebuild, and then rotate the filters
  just rebuilt. The model allows it, and the one-filter bound holds nevertheless.

Assumptions: the hash of a derived key is any fixed function of the key. The code returns the
address of a local buffer where its name and comment promise a digest, and an address is not a
function of the key. There is one clock, in seconds, that does not run backwards; engine
operations are atomic and read it once. Integers have the widths of a 64-bit Unix system;
hours are multiples of 3600 seconds. The queues of the program have one consumer and at most
four producers, far below their 4096 places.

## Model

| member | source | states |
|---|---|---|
| Sha256.Digest | src/detail/Engine/SHA256/SHA256.cpp:68-133 | init, one update for each chunk and final give the FIPS 180-4 digest of the concatenation, however the message is cut |
| Sha256.Sha256Ctx.Init | src/detail/Engine/SHA256/SHA256.cpp:68-79 | the context stands for the empty message |
| Sha256.Sha256Ctx.Update | src/detail/Engine/SHA256/SHA256.cpp:81-91 | the context stands for the old message followed by the bytes; the chaining value is that of all complete blocks, the buffer holds the rest, the bit count is 512 a block |
| Sha256.Sha256Ctx.Absorb | src/detail/Engine/SHA256/SHA256.cpp:83-89 | one byte more, with the compression when the block is complete |
| Sha256.Sha256Ctx.Transform | src/detail/Engine/SHA256/SHA256.cpp:28-66 | the chaining value becomes the compression of section 6.2.2 of it with the buffer |
| Sha256.Sha256Ctx.FillSchedule | src/detail/Engine/SHA256/SHA256.cpp:31-34 | the array m is the message schedule of section 6.2.2 |
| Sha256.Sha256Ctx.Permute | src/detail/Engine/SHA256/SHA256.cpp:36-56 | the working variables after the loop are the 64 rounds of the chaining value |
| Sha256.Sha256Ctx.PadBuffer | src/detail/Engine/SHA256/SHA256.cpp:94-107 | both padding branches: buffer and chaining value are those of the message with 0x80 and the least number of zeros |
| Sha256.Sha256Ctx.Finish | src/detail/Engine/SHA256/SHA256.cpp:93-119 | the chaining value is that of the whole padded message of section 5.1.1 |
| Sha256.Sha256Ctx.Final | src/detail/Engine/SHA256/SHA256.cpp:93-133 | the 32 bytes written are the digest of everything absorbed, and no byte beyond them changes |
| Sha256.Sha256Ctx.WriteDigest | src/detail/Engine/SHA256/SHA256.cpp:121-132 | the state words are written most significant byte first |
| Sha256Spec.ZeroBytes | src/detail/Engine/SHA256/SHA256.cpp:97-107 | the number of zero bytes is the least that leaves eight bytes in the last block |
| Sha256Facts.RoundIsPermutation | src/detail/Engine/SHA256/SHA256.cpp:46-55 | a round has a two-sided inverse |
| Sha256Facts.RoundsArePermutation | src/detail/Engine/SHA256/SHA256.cpp:45-56 | for any schedule the loop of rounds is a permutation of the working state |
| Sha256Facts.AnySixteenWordsFixTheSchedule | src/detail/Engine/SHA256/SHA256.cpp:33-34 | sixteen consecutive words determine all 64, earlier and later |
| Sha256Facts.AnySixteenWordsFixTheBlock | src/detail/Engine/SHA256/SHA256.cpp:31-34 | and they determine the block |
| Sha256Facts.BigEndian64RoundTrip | src/detail/Engine/SHA256/SHA256.cpp:110-118 | the eight length bytes give back the 64-bit length |
| Sha256Facts.MessageIsInItsPadding | src/detail/Engine/SHA256/SHA256.cpp:93-119 | the message is recovered from its padding below 2^61 bytes |
| Sha256Facts.PadIsInjective | src/detail/Engine/SHA256/SHA256.cpp:93-119 | no two such messages have the same padding |
| Sha256Facts.PadLength | src/detail/Engine/SHA256/SHA256.cpp:93-119 | the padding ends on a block boundary and never wastes a block |
| Sha256Numbers.RoundConstantsComeFromCubeRoots | src/detail/Engine/SHA256/SHA256.cpp:18-26 | constant t is the first 32 bits of the fractional part of the cube root of the prime with t primes below it |
| Sha256Numbers.InitialWordsComeFromSquareRoots | src/detail/Engine/SHA256/SHA256.cpp:71-78 | initial word i is the same of the square root of that prime |
| Sha256KnownAnswer.DigestOfAbc | src/detail/Engine/SHA256/SHA256.cpp:28-133 | the digest of the three bytes of "abc", byte for byte |
| Decimal.StollOfToString | src/detail/Utils/StringParser.hpp:41-50 | a printed integer is read back as itself exactly when it is a 64-bit integer, the minimum included, and as 0 otherwise |
| Decimal.StringToUIntOfToString | src/detail/Utils/StringParser.hpp:19-39 | stringToSizeT undoes printing below 2^64, stringToUInt exactly below 2^32 |
| Decimal.DigitOfNatToString | src/detail/Engine/BaseBloomFilter.hpp:50-50 | the printed digit with k others behind it is the quotient by the k-th power of ten, modulo ten |
| Decimal.LengthOfNatToString | src/detail/Engine/BaseBloomFilter.hpp:50-50 | as many digits as the number needs, none of them a zero in front |
| Decimal.ReadAmongOthers | src/detail/Utils/StringParser.hpp:30-50 | what the readers make of a number with blanks and a sign before it and other text behind it: signed, the value if it fits in 64 bits; unsigned, the value modulo 2^64 if its digits do |
| SocketMsgFrame.Socket.SendMsgToSocket | src/detail/Utils/SocketMsgFrame.hpp:28-37 | appends one frame, nothing for an empty message |
| SocketMsgFrame.Socket.RecvMsgFromSocket | src/detail/Utils/SocketMsgFrame.hpp:12-26 | takes one frame off the wire and leaves the rest, or finds the stream ended inside it, with nothing left |
| SocketMsgFrame.HeaderWeights | src/detail/Utils/SocketMsgFrame.hpp:28-37 | the four bytes of the header are the only ones that, most significant first, give the length cut to 32 bits |
| SocketMsgFrame.FrameRoundTrip | src/detail/Utils/SocketMsgFrame.hpp:28-37 | a non-empty message comes back exactly when it is shorter than 2^32 bytes |
| SocketMsgFrame.StreamRoundTrip | src/detail/Utils/SocketMsgFrame.hpp:12-37 | receiving until the end gives the non-empty messages in order and consumes every byte |
| SocketMsgFrame.StreamsAreUnambiguous | src/detail/Utils/SocketMsgFrame.hpp:12-37 | equal byte streams carry equal non-empty messages |
| SocketMsgFrame.ReceivedStreamIsTheStreamSent | src/detail/Utils/SocketMsgFrame.hpp:12-26 | sending what was received reproduces the bytes exactly when no frame was empty |
| LogLine.LineRoundTrip | src/detail/Engine/Engine.hpp:172-174 | a logged line parses back to token and expiry exactly when the token has no comma |
| LogLine.ParseOfLine | src/detail/Engine/Engine.hpp:269-276 | what a token without newlines, or the last piece of one, comes back as with its expiry: itself without a comma; with one, the record of another token or the exception, decided by the field after the first comma |
| LogLine.LinesOfRecord | src/detail/Engine/Engine.hpp:222-224 | the lines that a record leaves in a file, for any token: the pieces between its newlines, the last one with the expiry |
| LogLine.PiecesMakeTheToken | src/detail/Engine/Engine.hpp:268-269 | the pieces hold no newline and, written one a line, are the token |
| LogLine.RecordThrowsExactly | src/detail/Engine/Engine.hpp:269-276 | for any token: reading its lines throws exactly when some piece has a comma, no 64-bit number can be read after it, and it is the last piece or something follows the comma |
| LogLine.CommasInTokens | src/detail/Engine/Engine.hpp:269-276 | a token that throws and a token that comes back as another |
| LogLine.NewlineThatSaves | src/detail/Engine/Engine.hpp:269-276 | a token with a comma and a newline that throws nothing and comes back as another token |
| LogLine.NewlineThatThrows | src/detail/Engine/Engine.hpp:269-276 | a token that throws although a number follows its first comma |
| LogLine.LogFileRoundTrip | src/detail/Engine/Engine.hpp:222-224 | a file is read back line by line as written exactly when no line has a newline |
| LogLine.TextRoundTrip | src/detail/Engine/Engine.hpp:222-224 | a text with complete lines is what writing its lines gives |
| LogLine.InFileText | src/detail/Engine/Engine.hpp:222-224 | a file gives back exactly the lines that each string written to it would give alone |
| BloomFilter.AcceptsExactlyThePowersOfTwo | src/detail/Engine/BaseBloomFilter.hpp:13-14 | the constructor's bit trick accepts the powers of two and nothing else |
| BloomFilter.AcceptedWholeAndCut | src/detail/Engine/Engine.hpp:18-25 | a size accepted both at rotation (64 bits) and at creation (32 bits) fits in 32 bits, so all filters of a row agree |
| BloomFilter.BaseBloomFilter.Insert | src/detail/Engine/BaseBloomFilter.hpp:26-30 | sets exactly the bits that a hash of key, underscore and number falls on, leaves the others, and adds one to the count |
| BloomFilter.BaseBloomFilter.Lookup | src/detail/Engine/BaseBloomFilter.hpp:32-36 | true if and only if every bit that a hash of key, underscore and number falls on is set |
| BloomFilter.MembershipLaw | src/detail/Engine/BaseBloomFilter.hpp:26-36 | a filter to which some keys were added finds a key exactly when each of its hashes falls where some hash of some of them fell |
| BloomFilter.BaseBloomFilter.CalcHashIndices | src/detail/Engine/BaseBloomFilter.hpp:47-54 | index i is the hash of key, underscore, i |
| BloomFilter.DerivedKeysDiffer | src/detail/Engine/BaseBloomFilter.hpp:50-50 | no two (key, i) pairs are hashed from the same string |
| BloomFilter.AddedIsContained | src/detail/Engine/BaseBloomFilter.hpp:26-36 | an added key is contained, and additions lose no key and no bit |
| BloomFilter.FillIsBounded | src/detail/Engine/BaseBloomFilter.hpp:26-38 | after any additions at most min(size, hashFunctionNum * msgNum) bits are set |
| EngineSpec.GuardsNeverFire | src/detail/Engine/Engine.hpp:127-169 | the guards num > filtersNum never decide: a revocation is a write to a prefix, a query a scan of a prefix |
| EngineSpec.RecoverAppend | src/detail/Engine/Engine.hpp:262-303 | reading two runs of lines is reading one after the other |
| Engine.GetNewFilters | src/detail/Engine/Engine.hpp:18-25 | a row of distinct empty filters, or refusal exactly when a constructor would throw |
| Engine.AddToFilters | src/detail/Engine/Engine.hpp:143-143 | exactly the first num filters receive the token |
| Engine.Engine.RevokeJwt | src/detail/Engine/Engine.hpp:127-144 | the row becomes the specified one, with all four early returns |
| Engine.Engine.IsJwtRevoked | src/detail/Engine/Engine.hpp:147-169 | true if and only if the token is in range and every filter of its window contains it |
| Engine.Engine.RotateBloomFilters | src/detail/Engine/Engine.hpp:322-323 | the front filter goes, an empty one is appended |
| Engine.Engine.GetBloomFilterFillingRate | src/detail/Engine/Engine.hpp:182-187 | the counts of the filters in order |
| Engine.Engine.WriteLog | src/detail/Engine/Engine.hpp:205-226 | read line by line, the file of the current hour gains exactly the message, if the message is one line and the file ended with one; every other file is unchanged |
| Engine.Engine.FindFiles | src/detail/Engine/Engine.hpp:229-250 | exactly the existing files of the last 24 hours, each once, newest first |
| EngineSpec.EachFileIsReadOnce | src/detail/Engine/Engine.hpp:242-268 | the lines a rebuild reads are those of the files of the last 24 hours, each as often as it stands there |
| Engine.Engine.RecoverLines | src/detail/Engine/Engine.hpp:269-301 | the lines are applied in order; an exception exactly when one does not parse |
| Engine.Engine.RecoverFromLog | src/detail/Engine/Engine.hpp:229-305 | files out of retention are deleted and all retained lines are applied |
| Engine.Engine.AdjustFiltersParam | src/detail/Engine/Engine.hpp:99-124 | parameters, row and directory after the call, including the calls that end the process |
| Engine.Engine.Init | src/detail/Engine/Engine.hpp:58-96 | refuses zero parameters, otherwise as adjustFiltersParam |
| EngineHistory.ClosedForm | src/detail/Engine/Engine.hpp:127-144 | after any history since a rebuild filter j holds exactly the writes whose window minus later rotations exceeds j: their bits and their number |
| EngineHistory.RowIsFilled | src/detail/Engine/BaseBloomFilter.hpp:26-38 | after any history no filter has more bits set than it has, or than hashFunctionNum * msgNum |
| EngineHistory.NestedChain | src/detail/Engine/Engine.hpp:163-168 | bits and counts decrease along the row |
| EngineHistory.ScanIsOneLookup | src/detail/Engine/Engine.hpp:163-168 | the scan answers as one lookup in its last filter |
| EngineHistory.FullTurnForgets | src/detail/Engine/Engine.hpp:320-324 | after filtersNum rotations nothing older is left, whatever the row was |
| EngineAnswers.IdealClosedForm | src/detail/Engine/Engine.hpp:127-144 | the same engine over exact sets holds in filter j exactly the tokens of live writes |
| EngineAnswers.BloomRefinesIdeal | src/detail/Engine/BaseBloomFilter.hpp:26-36 | over any history, what the exact engine calls revoked the Bloom engine calls revoked |
| EngineAnswers.BloomAnswer | src/detail/Engine/Engine.hpp:147-169 | when exactly the Bloom engine says revoked, false positives included: in range, and in every filter of the window each hash of the token falls on a bit that a hash of some live write falls on |
| EngineAnswers.AnswerOverExactSets | src/detail/Engine/Engine.hpp:147-169 | for any history: revoked if and only if in range and the window is empty or some live write is in its last filter |
| EngineAnswers.ExactAnswer | src/detail/Engine/Engine.hpp:127-169 | a token revoked once is reported revoked k rotations later if and only if n(t) = 0 or n(t) + k <= n(t0) |
| EngineAnswers.RevokedTokenCanBeMissed | src/detail/Engine/Engine.hpp:147-169 | a false negative of the Bloom engine, for every hash |
| EngineAnswers.OneFilterBound | src/detail/Engine/Engine.hpp:311-333 | rotations an interval apart give n(t) + k <= n(t0) + 1 |
| EngineAnswers.AllButTheLastFilter | src/detail/Engine/Engine.hpp:311-333 | so all filters queried but possibly the last contain the token |
| EngineAnswers.BitsOnlyGrowBetweenRotations | src/detail/Engine/Engine.hpp:143-143 | without rotations bits and counts only grow |
| Rebuild.OrderDoesNotMatter | src/detail/Engine/Engine.hpp:260-303 | any order of files and lines gives the same filters |
| Rebuild.RebuildIsReplay | src/detail/Engine/Engine.hpp:229-305 | a rebuild is fresh filters with every record revoked at that instant, and throws exactly when a line does not parse |
| Rebuild.RebuiltRecordsAreRevoked | src/detail/Engine/Engine.hpp:276-291 | right afterwards every unexpired in-range record is answered revoked |
| Rebuild.AnswerAfterRebuild | src/detail/Engine/Engine.hpp:229-305 | over exact sets, the exact condition for the answer after a rebuild |
| ThreadSafeQueue.ThreadSafeQueue.EnqueuePass | src/detail/Utils/ThreadSafeQueue.hpp:17-22 | one pass of a producer under the mutex: the value goes to the end of the queue and one waiter is woken, any one; or, when full, the producer sleeps and the queue stays |
| ThreadSafeQueue.ThreadSafeQueue.DequeuePass | src/detail/Utils/ThreadSafeQueue.hpp:25-32 | one pass of the consumer under the mutex |
| ThreadSafeQueue.ThreadSafeQueue.NotifyOne | src/detail/Utils/ThreadSafeQueue.hpp:21-21 | takes one waiter out of the wait set if there is one |
| ThreadSafeQueue.FirstInFirstOut | src/detail/Utils/ThreadSafeQueue.hpp:17-32 | in every run the values of the enqueue passes that found room, in their order, are those the dequeue passes took from the front followed by the queue, which never exceeds maxSize |
| ThreadSafeQueue.CoveredIsKept | src/detail/Utils/ThreadSafeQueue.hpp:17-32 | the invariant of sleepers, values and excess producers, for every choice of notify_one and spurious wake-ups |
| ThreadSafeQueue.EveryRunIsCovered | src/detail/Utils/ThreadSafeQueue.hpp:17-32 | in every run with fewer than 2 * maxSize producers, sleeping producers are covered by the values in the queue up to the excess of producers over places |
| ThreadSafeQueue.NoLostWakeUp | src/detail/Utils/ThreadSafeQueue.hpp:17-32 | with at most maxSize producers: sleeping producers never outnumber the values, and a sleeping consumer means an empty queue and no sleeping producer |
| ThreadSafeQueue.DrainingWakesEveryone | src/detail/Utils/ThreadSafeQueue.hpp:25-32 | a consumer that empties the queue leaves no producer asleep |
| QueueThresholds.LostWakeUpThreshold | src/detail/Utils/ThreadSafeQueue.hpp:17-32 | a run that loses a wake-up exists if and only if 0 < maxSize < producers |
| QueueThresholds.DeadlockThreshold | src/detail/Utils/ThreadSafeQueue.hpp:17-32 | a run that puts every thread to sleep exists if and only if 2 * maxSize <= producers |
| Scheduler.Scheduler.ProcessMessage | src/detail/Scheduler/Scheduler.hpp:98-192 | role, engine and outcome of one message, with missing fields, unknown roles and the call that never returns; an adjust takes the role it names if it is one of the three; a revocation changes no role, parameter or log, only an adjust rebuilds, hangs or dies, other messages change nothing |
| NodeInvariant.AdjustOutcome | src/detail/Engine/Engine.hpp:99-124 | an adjust goes through exactly for usable parameters and a retained log without unreadable line, and what it leaves behind in each case |
| NodeInvariant.RetainedText | src/detail/Engine/Engine.hpp:242-258 | a rebuild reads exactly the lines of the text written in the last 24 hours, whatever the tokens |
| NodeInvariant.RetainedExactly | src/detail/Engine/Engine.hpp:242-258 | for any tokens, a rebuild reads exactly the lines that some string written in the last 24 hours leaves in its file |
| NodeRuns.StepKeeps | src/detail/Scheduler/Scheduler.hpp:98-169 | every step of dispatcher, log worker, rotation worker, clock and restart keeps the node's invariant |
| NodeRuns.EveryRunKeepsInv | src/detail/Scheduler/Scheduler.hpp:98-169 | the invariant holds in every run from installation on, for any tokens |
| NodeTheorems.RevocationsAreConserved | src/detail/Scheduler/Scheduler.hpp:105-119 | each revocation ever taken is filed, in flight or lost; the filed ones are the lines written, the in-flight ones those with log worker, queue and dispatcher, both in order; retained files hold the text written |
| NodeTheorems.OnlyRestartsLose | src/detail/Scheduler/Scheduler.hpp:105-119 | no step untakes a revocation or changes its fate; only a restart loses any, exactly those outstanding |
| NodeTheorems.NothingIsLostWithoutRestart | src/detail/Scheduler/Scheduler.hpp:105-119 | no run without a restart adds to the lost |
| NodeTheorems.FirstStartLosesNothing | src/detail/Scheduler/Scheduler.hpp:105-119 | a node started once has lost nothing |
| NodeExamples.RestartLosesARevocation | src/detail/Engine/Engine.hpp:172-174 | a run in which a restart loses a revocation that was answered revoked |
| NodeTheorems.RetentionThreshold | src/detail/Engine/Engine.hpp:242-258 | the clean-up can delete the file current when something unexpired was taken if and only if lives exceed 82801 seconds |
| NodeExamples.FileIsDeletedTooEarly | src/detail/Engine/Engine.hpp:242-258 | a run in which an adjust deletes the file of an unexpired in-range revocation of life 82802 and answers it active |
| NodeTheorems.UnexpiredRecordsAreRetained | src/detail/Engine/Engine.hpp:242-258 | within that bound clean-up deletes only files whose records have all expired |
| NodeTheorems.AdjustMessageRoundTrip | src/detail/Scheduler/Scheduler.hpp:129-132 | the engine gets the parameters the master printed, all below 2^64, exactly when the maximum life, the interval and the number of hash functions fit in 32 bits |
| NodeTheorems.AdjustsExactly | src/detail/Scheduler/Scheduler.hpp:122-169 | when an adjust message goes through |
| NodeTheorems.RoleFollows | src/detail/Scheduler/Scheduler.hpp:127-178 | the role of a node is single_node after a start, and after an adjust the one it names, if it is one of the three; nothing else changes it |
| NodeTheorems.AdjustSetsTheRole | src/detail/Scheduler/Scheduler.hpp:122-169 | an adjust that goes through names single_node or proxy_node, and that is the role after it |
| NodeCounts.CountsAfterAdjust | src/detail/Engine/Engine.hpp:229-305 | after it, the count of filter j is the number of lines left by the entries of the last 24 hours, entry by entry, that are records in range with more than j intervals to live |
| NodeTheorems.LogIsReadableExactly | src/detail/Engine/Engine.hpp:269-276 | the retained log can be read exactly when no revocation written in the last 24 hours has an unreadable token |
| NodeTheorems.UnreadableRecordStopsTheNode | src/detail/Engine/Engine.hpp:269-276 | a logged record that throws, whatever its token, ends every adjust and every start while its file is retained |
| NodeTheorems.RotationDiesExactly | src/detail/Engine/Engine.hpp:320-324 | a due rotation ends the process exactly when the interval is above the maximum life or the size does not fit in 32 bits |
| NodeTheorems.WhatEndsTheNode | src/detail/Scheduler/Scheduler.hpp:98-169 | for every step of a reachable node, exactly when it ends the process or fails to start it |
| NodeExamples.FirstRotation | src/detail/Engine/Engine.hpp:320-324 | for any parameters with which an adjust goes through on an empty log: the node lives until its first rotation, which ends it exactly in those two cases |
| NodeExamples.RotationEndsTheNode | src/detail/Engine/Engine.hpp:320-324 | runs from installation that end so, one for each case |
| NodeTheorems.AdjustAnswersRetainedRecords | src/detail/Scheduler/Scheduler.hpp:122-169 | after each adjust that goes through every retained, unexpired, in-range revocation with a clean token is answered revoked |
| NodeTheorems.AdjustKeepsLoggedRevocations | src/detail/Scheduler/Scheduler.hpp:122-169 | and so is every one that reached a file and has a life of at most 82801 seconds, over any restarts |
| NodeTheorems.AnswerAfterAdjust | src/detail/Scheduler/Scheduler.hpp:122-169 | over exact sets, the exact condition for the answer after an adjust: a line of the text of the last 24 hours |
| NodeTheorems.AnswerAfterAdjustByRecords | src/detail/Scheduler/Scheduler.hpp:122-169 | the same in terms of the entries written in the last 24 hours and what each leaves in its file, for any tokens |
| NodeExamples.AdjustForgetsQueuedRevocations | src/detail/Scheduler/Scheduler.hpp:111-116 | a run in which an adjust turns a revoked token active because its line was still queued |
| NodeTheorems.ReachableRow | src/detail/Engine/Engine.hpp:127-144 | in every run the row has the closed form of its history and rotations keep their distance |
| NodeTheorems.AnswerAtAnyTime | src/detail/Engine/Engine.hpp:147-169 | in every run, at any time: the exact condition over exact sets, and that it suffices for the node's own answer |
| NodeAnswers.BloomAnswerAtAnyTime | src/detail/Engine/Engine.hpp:147-169 | in every run, at any time: exactly when the node answers revoked, false positives included, in terms of the hashes of the tokens written |
| NodeAnswers.AnswerRightAfterRevocation | src/detail/Scheduler/Scheduler.hpp:105-119 | right after a revocation message the token is answered revoked exactly when 0 < exp - now <= maxLife; otherwise no filter changes; a filter that changes is one whose intervals the remaining life covers |
| NodeAnswers.RowLengthAtAnyTime | src/detail/Engine/Engine.hpp:107-107 | in every run the number of filters is the number of whole intervals in the maximum life |
| NodeAnswers.FillAtAnyTime | src/detail/Engine/BaseBloomFilter.hpp:26-38 | in every run every filter has the size cut to 32 bits, and at most min(size, hashFunctionNum * msgNum) bits set |
| NodeAnswers.OnlyTakenTokensAreRevoked | src/detail/Engine/Engine.hpp:147-169 | in every run, over exact sets: with a non-empty window, only a token that was taken from the master, or that the log made of one, is answered revoked |
| NodeAnswers.OnlyTakenCleanTokensAreRevoked | src/detail/Engine/Engine.hpp:147-169 | and when no token taken had a comma or newline, the token itself was taken |
| NodeAnswers.EveryRunKeepsWritesTaken | src/detail/Engine/Engine.hpp:127-144 | every write in the history of the row is of a revocation taken, or of what the log made of one |
| NodeExamples.RotationHidesARevocation | src/detail/Engine/Engine.hpp:311-333 | a run in which a rotation a second after the revocation hides it, for every hash |
| NodeTheorems.RevocationIsMissedByAtMostOneFilter | src/detail/Engine/Engine.hpp:311-333 | in every run an unexpired write of the history since the last rebuild, in range when it was made, is in all filters scanned but possibly the last |
| NodeAnswers.TakenIsMissedByAtMostOneFilter | src/detail/Scheduler/Scheduler.hpp:105-119 | after a revocation message in range and any events but a start or an adjust, a live node holds the unexpired token in all filters scanned but possibly the last |
| NodeAnswers.RetainedIsMissedByAtMostOneFilter | src/detail/Scheduler/Scheduler.hpp:122-169 | the same after an adjust and any such events, for every record read from the log and in range at the adjust |

## Left out

- Sha256.Sha256Ctx.Update: requires fewer than 2^32 bytes a call, because the source's 32-bit counter would never reach a longer length.
- BloomFilter.BaseBloomFilter.Insert: the count is unbounded; wrap-around of msgNum is not modelled.
- Engine.Engine.RotateBloomFilters: requires a non-empty row and an accepted size; what the source does otherwise is undefined or an exception, and the node model ends there.
- NodeTheorems.AdjustAnswersRetainedRecords: only for tokens without commas and newlines; what the log makes of the others is in LogLine.LinesOfRecord and LogLine.ParseOfLine, and their exact answer in NodeTheorems.AnswerAfterAdjustByRecords.
- The hash function itself: the code returns an address; collisions and false-positive rates are not modelled.
- Revocations that other nodes send to a proxy node (`Server.hpp`): they reach the filters but not the log.
- The slave role after its message: `NodeMessageSender::connect` has no way out of its loop, so nothing follows it.
- Data races: revokeJwt and isRevoked do not take the mutex that adjust and rotation take; here each is one step.
- Sockets, reconnection, thread start and join, coroutines, JSON, configuration and output.
- Failures to open or write a log file; local time, daylight saving and file names other than hours.
- vectorToString and stringToUShort: they would only add easy members.
- More than one consumer on a queue: the program has none.
