# RUFShare transfer protocol: model and proofs

RUFShare sends a file from `push_file` to `pull_file`. SEND, FLOW and RECV packets travel over a TCP control
connection, the bytes of the file over UDP datagrams that may be lost, repeated, reordered or damaged. What makes the
transfer reliable is a CRC32 per chunk, an ACK or NACK per attempt, a bounded number of attempts, and a CRC16 of the
whole file at the end. This project models both ends and proves what they guarantee together.

## How the model is built

| file | what it holds |
|---|---|
| `Types.dfy`, `Io.dfy` | integer widths, status codes, and the kernel: a script of call outcomes and a log of what was sent |
| `Calc.dfy` | chunk count, file size, segment size and chunk offsets, with their 16, 32 and 64 bit widths |
| `Wire.dfy` | the four packets, host and network byte order, the memory image of the structures |
| `Text.dfy`, `InfoStr.dfy` | C strings, `sstrncpy`, the printer and scanner of the info string |
| `Cntl.dfy`, `Handshake.dfy` | control messages on a byte stream, and the SEND message of the handshake from one end to the other |
| `MFile.dfy`, `Data.dfy` | the mapped file with its cursor, and the two segment loops of a chunk |
| `PusherMachine.dfy`, `PullerMachine.dfy`, `Runs.dfy` | each end as a state machine with one program counter per kernel call, and whole runs of such a machine |
| `Pusher.dfy`, `Puller.dfy` | the nested loops of the source, proved to compute exactly the run of the machine |
| `Joint.dfy` | both machines, a FIFO of packets in each direction, and the datagram network; an action is one call of one end |
| `Lockstep.dfy` | the invariant over both program counters, both counters, the packets in flight and the puller's file |
| `Safety.dfy`, `Endings.dfy` | what holds in every reachable state, and every way a run without failures can end |
| `Recovery.dfy`, `Exhaustion.dfy`, `Answers.dfy` | what the retries achieve, what different try counts lead to, and how many NACKs a chunk gets |
| `Bounds.dfy` | a bound on the length of every run and on the number of datagrams |
| `Faithful.dfy` | runs over a lossless network |
| `Mismatch.dfy` | exactly which files each end can report SUCCESS for |
| `Conduct.dfy`, `PullerConduct.dfy` | what each end says and concludes against any peer at all, for every script of call outcomes |
| `Local.dfy`, `EndToEnd.dfy` | from joint runs back to the loops of each end, their logs, and the bytes of the control connection |

A joint run is any sequence of actions: either end makes its next call, a call of either end fails (timeouts included),
or the puller receives a datagram. In `PullerGets` the datagram is an arbitrary byte string, which covers loss,
duplication, reordering, corruption and stale data; in `PullerTakes` it is the oldest one in flight. The two checksums
are arbitrary functions that belong to the configuration, and the theorems hold for whatever they compute; only
`Mismatch.TwinExample` and `Exhaustion.DiffersExample` choose them, to show that a condition can be met.

`Valid` of a configuration asks for what the source checks (a nonzero chunk size, a positive try count, an open
nonempty file) and for a `chcount` and `pchsize` that cut the file with `(chcount - 1) * chsize < 2^32`, which keeps the
32-bit chunk offset from wrapping. `PusherMachine.ConfigureIsValid` shows that `calc_chunk_count` computes such numbers
for every file that satisfies the bound, and `Calc.SmallUnevenFits` that every file below 2^32 bytes whose size is not a
multiple of the chunk size does.

## What was found

- A CRC16 mismatch is never reported by the puller. `pull_verification` stores FAILCRC in `_stat`
  (source/puller.c:148), and the CHECK_STAT around the next push assigns the result of that push to the same variable
  (source/puller.c:151, include/types.h:46-47), so it returns SUCCESS, although `FAILCRC` is documented as the status for
  a file whose checksum does not match (include/error.h:18). The model follows the code. What SUCCESS is worth is then
  settled exactly. Call a file a twin of the pusher's if it has the same size and every chunk has the same CRC32. The
  puller can report SUCCESS for the twins and for nothing else (`Mismatch.PullerSuccessExactly`); the pusher for those
  twins that also have the same CRC16 (`Mismatch.PusherSuccessExactly`). So the puller's SUCCESS vouches for the CRC16
  exactly when no twin has another one (`Mismatch.PullerVouchesExactly`), and each twin that has gives a run in which
  only the pusher learns of it (`Mismatch.MismatchUnreported`). Every SUCCESS of the puller does vouch for the size and
  for every chunk's CRC32 (`Safety.PullerSuccess`).
- A file whose size is a multiple of the chunk size cannot be sent. Its last chunk is empty and starts at the end of the
  file, where `mfseek` refuses to go, so neither end can report SUCCESS (`Safety.SuccessNeedsRemainder`), and without
  failures both stop with EMFSEEK there.
- A puller that cannot create its file sends ack 0 and goes on to wait for a FLOW packet, while the pusher leaves with
  ZEROACK. Every configuration can end so (`Endings.AbandonedIsReached`), and a run without failures does exactly when
  there is no file (`Endings.AbandonedExactly`).
- With different try counts the two ends need not run out of tries together. In each configuration they always do exactly
  when the counts are equal or the CRC32 cannot tell any chunk from other bytes of its length
  (`Exhaustion.TogetherExactly`). Otherwise a pusher with more tries can be left waiting for an answer that never comes,
  and one with fewer can give up although the puller then receives the chunk and waits for what comes next.
- The protocol description gives RECV packets and the handshake's SEND packet a CRC16 of their own; the code always
  sends 0 there and checks nothing. The model follows the code.

## Model

| member | source | states |
|---|---|---|
| Lockstep.InvKept | source/puller.c:67-155 | Any action of either end, with any datagram and any failing call, keeps the joint invariant: the two program counters, chunk numbers and try counters fit together, the queues have the one shape this allows, and every accepted chunk has the right CRC32 |
| Lockstep.InvReachable | source/pusher.c:33-104 | The joint invariant holds in every state any run can reach |
| Lockstep.WriteKeepsAccepted | source/data.c:79-97 | Bytes that `pull_chunk_data` writes for the current chunk leave the checksum of every accepted chunk as it was |
| Safety.AcceptedPrefix | source/puller.c:76-124 | In every reachable state each chunk below the puller's `seq` has the pusher's CRC32, and its first (seq-1)*chsize bytes (at most the file) are the pusher's exactly when none of those chunks is a CRC32 collision |
| Safety.AcceptedIsFinal | source/puller.c:89-114 | No later attempt, datagram or abort changes a byte of an accepted chunk, and `seq` never goes back |
| Safety.AcceptedStays | source/puller.c:76-124 | The same between any two points of any run from the start |
| Safety.AnswersInFlight | source/pusher.c:50-75 | While the pusher is on a chunk the RECV queue is the unread FLOW answer, then NACKs, then the final ACK if the puller has moved on, all with the pusher's `seq`; the puller is on the same chunk or the next |
| Safety.EveryAnswerIsOurs | source/pusher.c:53-70 | Every RECV packet the pusher reads carries its own `seq`, although the code never compares them |
| Safety.EveryFlowMatches | source/puller.c:13-24 | Every packet the puller reads has the type it waits for, and every FLOW packet passes `match_flow` |
| Safety.Outcomes | source/puller.c:115-123 | BADFLOW, BADTYPE and FAILCRC at either end and EXPTRY0 at the pusher are never returned; the possible statuses are listed |
| Safety.Agreement | source/pusher.c:81-104 | When the pusher ends with SUCCESS, the puller has ended with SUCCESS, has accepted all chunks, has a file of the same size, and the CRC16 of the two files agree |
| Safety.PullerSuccess | source/puller.c:129-155 | When the puller ends with SUCCESS, in any run, it has accepted all chunks, its file has the right size, and every chunk has the right CRC32 |
| Safety.SuccessMeansSameFile | source/puller.c:76-124 | When either end reports SUCCESS the files are equal exactly when no chunk is a CRC32 collision |
| Safety.SuccessNeedsRemainder | source/mfile.c:54-59 | SUCCESS at either end requires a size that is not a multiple of the chunk size |
| Safety.HandshakeSettles | source/puller.c:39-62 | From the first FLOW packet on both ends hold the same chsize, pchsize, chcount and segment size, the files have the same size, and the chunk numbers agree |
| Safety.AccessesInRange | source/data.c:39-58 | Neither end ever checksums, reads or writes outside its file, so `mfread` and `mfwrite` never clip |
| Endings.RetryBudget | source/pusher.c:61-73 | Until a chunk is accepted, tries used by the pusher, NACKs in flight and tries left to the puller add up to the puller's try count; with equal counts the pusher's tries are the puller's plus the NACKs in flight |
| Endings.QuiescentStates | source/puller.c:129-155 | Without failing calls every run that cannot go on has been verified, abandoned, stopped at an empty last chunk, or run out of tries, with exactly the given statuses, chunk numbers and queue |
| Endings.EqualTries | source/puller.c:89-112 | With equal try counts and no failing calls the pusher ends with EXPTRY1 exactly when the puller ends with EXPTRY0, on the same chunk and with no answer left unread; `Answers.ExhaustionTakesAllTries` counts the NACKs |
| Endings.AbandonedExactly | source/puller.c:55-64 | A run without failing calls that cannot go on has the pusher gone with ZEROACK and the puller waiting for chunk 1 exactly when the puller has no file |
| Endings.AbandonedIsReached | source/puller.c:57-64 | Every configuration has such a run |
| Answers.TriesCountNacks | source/puller.c:101-109 | In every run, the tries the puller has used on its chunk are the NACKs it has sent for that chunk, and those the pusher has used on its own are the NACKs it has read for it |
| Answers.ExhaustionTakesAllTries | source/pusher.c:61-72 | A puller that ends with EXPTRY0 has sent exactly its try count of NACKs for the chunk and a pusher that ends with EXPTRY1 has read exactly its own; without failing calls and with equal counts both have ended so on the same chunk and every NACK is read |
| Recovery.VerifiedExactly | source/puller.c:89-112 | Without failing calls and with a file that could be made, a run that cannot go on, of a file with a remainder, ends in the verification exactly when each chunk is accepted by its attempt number min(tries) at the latest, whatever the other attempts delivered |
| Recovery.TransferRecovers | source/puller.c:89-112 | Then both ends report SUCCESS and the files are equal, unless an accepted chunk is a CRC32 collision |
| Exhaustion.ReachesOffer | source/pusher.c:42-51 | Over a lossless network every chunk is reached, with nothing lost before it |
| Exhaustion.PullerGivesUpFirst | source/puller.c:89-112 | In every configuration with more tries at the pusher, and for every chunk and bytes with another CRC32, some transfer without failing calls ends with EXPTRY0 at the puller while the pusher waits for an answer about that chunk |
| Exhaustion.PusherGivesUpFirst | source/pusher.c:61-73 | In every configuration with fewer, and for every such chunk and bytes, some transfer ends with EXPTRY1 at the pusher while the puller has received the chunk and waits for what comes next |
| Exhaustion.TogetherExactly | source/pusher.c:61-73 | In every configuration: in all ends without failing calls the pusher has EXPTRY1 exactly when the puller has EXPTRY0, if and only if the try counts are equal or no chunk has bytes with another CRC32 |
| Exhaustion.CountsDecide | source/pusher.c:61-73 | Two try counts make this so in all configurations exactly when they are equal |
| Mismatch.PullerSuccessExactly | source/puller.c:142-154 | Some run ends with SUCCESS at the puller and file g exactly when the size leaves a remainder, g has the pusher's size and every chunk of g has the pusher's CRC32 |
| Mismatch.PusherSuccessExactly | source/pusher.c:98-103 | Some run ends with SUCCESS at the pusher and file g at the puller exactly when in addition the CRC16 of g is the pusher's |
| Mismatch.PullerVouchesExactly | source/puller.c:142-154 | Every SUCCESS of the puller comes with the right CRC16 if and only if every file with the right size and chunk CRC32s has it, or the size leaves no remainder |
| Mismatch.MismatchUnreported | source/puller.c:142-154 | For every configuration with a remainder and every such file with another CRC16, a run without failing calls leaves that file, gives the pusher ZEROACK and returns SUCCESS at the puller |
| Bounds.EveryActionCounts | source/pusher.c:42-76 | Every action lowers a number computed from chunks left, phase, tries left and segments left |
| Bounds.EveryRunEnds | source/puller.c:76-124 | Every run from the start, failures and arbitrary datagrams included, is at most as long as the calls both ends can make for all chunks and tries |
| Bounds.DatagramsBounded | source/data.c:39-58 | The pusher sends at most tf_trycount times the sum over all chunks of ceil(len/segsize) datagrams |
| Faithful.LosslessKept | source/data.c:79-97 | Over a lossless network the datagrams in flight are always exactly the segments between the two cursors, no attempt fails, and the puller's file agrees with the pusher's up to its cursor |
| Faithful.StuckIsDone | source/pusher.c:33-104 | Such runs have no deadlock: while an end is not finished, some call can succeed |
| Faithful.FaithfulRunsDeliver | source/puller.c:67-155 | Every interleaving is finite, and one that cannot go on has both ends at SUCCESS with equal files if the size is not a multiple of the chunk size, and both at EMFSEEK if it is, for any checksums |
| Faithful.DeliveryIsReached | source/pusher.c:106-122 | From every point of such a run some continuation ends that way |
| Local.PusherAlone | source/pusher.c:106-122 | The pusher's machine, run against the outcomes a joint run gave it, sends what the pusher sends there and ends as it ends there; the packets it pulls are in order the first ones the puller has sent, and the rest is in flight |
| Local.PullerAlone | source/puller.c:157-176 | The same for the puller, with its file |
| Local.QueuesAreFifo | source/net_stream.c:97-119 | Over any run each packet queue and the datagrams in flight are what was sent less what was taken, in order, and the datagrams are counted |
| EndToEnd.StreamsCarryRun | source/cntl.c:67-253 | In every run the packets the loops of one end pull are the first in the log of the other's, and reading the bytes of that log by type gives exactly them and leaves the bytes of the packets in flight |
| EndToEnd.LoopsAgree | source/pusher.c:81-104 | When the loops of the pusher return SUCCESS, those of the puller have returned it, and their file has the right size, CRC16 and chunk CRC32s |
| EndToEnd.LoopsDeliver | source/puller.c:157-176 | Over a lossless network without failing calls the loops of both ends return SUCCESS with equal files if the size leaves a remainder, and EMFSEEK if not |
| EndToEnd.EveryUnevenFileArrives | source/rufshare.c:35-55 | For every file below 2^32 bytes with size % chsize != 0 and all positive try counts, every complete interleaving of the loops over a lossless network gives SUCCESS twice and an equal file |
| Conduct.PusherStatuses | source/pusher.c:50-75 | Against any peer, what each status means: SUCCESS takes an answer to the handshake and to the verification that is not 0 and exactly two answers 1 per chunk between; ZEROACK follows a last answer 0 to one of the two; EXPTRY0 and EXPTRY1 follow exactly tf_trycount answers in a row that are not 1, to a FLOW packet or to data; EMFSEEK needs an empty last chunk |
| Conduct.PusherPackets | source/pusher.c:13-22 | Against any peer, every SEND packet carries chsize, chcount and pchsize, the first of the run with crc 0 and the last with the CRC16 of the file; every other packet offers a chunk with its number, length and CRC32 |
| PullerConduct.PullerStatuses | source/puller.c:83-123 | Against any peer, what each status means: SUCCESS answers the last SEND packet 1 or 0 as the CRC16 agree, after two ACKs per chunk; EXPTRY0 follows exactly tf_trycount NACKs; BADFLOW a FLOW packet with another number or length; the first answer says whether there is a file, and every later one has check 0 and the number of its chunk (for chcount below 2^32-1) |
| PullerConduct.MisfitIsRefused | source/puller.c:115-122 | A FLOW packet for another chunk or of another length ends the puller with BADFLOW, even if the answer to it cannot be sent |
| Safety.FailureIsReported | include/types.h:46-47 | When a call of an end fails, that end has the status of the call for good and the other end is not touched; a datagram that is too short ends the puller with LOWSIZE and changes no byte |
| EndToEnd.PacketsOfPusher | source/pusher.c:88 | In every joint run the pusher's SEND packets carry its sizes, crc 0 first and the CRC16 of the file at the end, and its other packets offer chunks |
| Pusher.LastCall | include/types.h:46-47 | A run that has stopped has made a call; if the last one failed the status is its status, if it succeeded the status is the protocol's own, and BADTYPE means that another packet was pulled |
| Puller.LastCall | source/puller.c:115-122 | The same, except that nobody looks at the result of the BADFLOW answer: that status follows a FLOW packet that does not match, and its answer is a NACK with the chunk's number; LOWSIZE after a successful call means a datagram that is too short |
| Pusher.PushEnd.StartPusher | source/pusher.c:106-122 | The loops of the pusher return the status and send the packets and datagrams of its machine's run, for every script of call outcomes; the status of a failing call is returned as it is; `seq`, once the handshake is answered, is the machine's chunk number in every end, and `chcount` and `pchsize` are those of the file |
| Pusher.PushEnd.PushTransfer | source/pusher.c:33-79 | The chunk loop with its two retry loops follows the machine from chunk 1 to past the last chunk or to the returned status, with `seq` its chunk number |
| Pusher.PushEnd.PushHandshake | source/pusher.c:3-31 | Follows the machine; `seq` is 1 after SUCCESS and after ZEROACK, and otherwise unchanged |
| Pusher.PushEnd.PushVerification | source/pusher.c:81-104 | Follows the machine to its final status; `Conduct.PusherPackets` says what it sends |
| Puller.PullEnd.StartPuller | source/puller.c:157-176 | The loops of the puller return the status, send the packets and leave the file of its machine's run, for every script of call outcomes; the status of a failing call is returned as it is, except that of the BADFLOW answer; `seq` and the three sizes are the machine's |
| Puller.PullEnd.PullTransfer | source/puller.c:67-127 | The chunk loop follows the machine to past the last chunk or to the returned status, with `seq` its chunk number |
| Puller.PullEnd.OneChunk | source/puller.c:80-111 | One turn of the chunk loop follows the machine: BADFLOW for a FLOW packet that does not match, otherwise an ACK and the attempts |
| Puller.PullEnd.ReceiveLoop | source/puller.c:89-112 | The attempts at one chunk follow the machine to the next chunk, to EXPTRY0, or to the status of a failing call |
| Puller.PullEnd.PullHandshake | source/puller.c:26-65 | Adopts the three sizes, makes the file, answers, and is at chunk 1 afterwards even when ack is 0; `seq` is unchanged when a call fails |
| Puller.PullEnd.PullVerification | source/puller.c:129-155 | Returns the status of the last push, not FAILCRC |
| Data.PushChunkData | source/data.c:28-63 | The loop sends what the specification of a chunk transmission says, or EMFSEEK with nothing sent |
| Data.PullChunkData | source/data.c:65-103 | The loop leaves the file, status and call count that the specification of an attempt says |
| Data.ReceiveOverwritesPrefix | source/data.c:79-97 | Whatever arrives, an attempt overwrites a prefix of its range with the bytes taken and succeeds exactly when that is the whole range |
| Data.PullChunkFrame | source/data.c:65-103 | The whole call changes nothing outside the chunk's range, and on SUCCESS the range is the concatenation of the received segments |
| Data.SendAllEmitsSegments | source/data.c:39-58 | When all calls succeed the datagrams sent are the segments of the chunk in order |
| Data.SendAllExactly | source/data.c:39-58 | In any case the successful calls send the first segments of the chunk in order; the status is SUCCESS when that is all of them and otherwise that of the call that failed |
| Data.PullChunkExactly | source/data.c:65-103 | An attempt succeeds exactly when the seek is accepted, the low-water mark can be set if the chunk starts at 0, every segment arrives whole and `mfsync` succeeds, with one call for each; otherwise the last call made says why it failed |
| Data.SegmentsRebuildChunk | source/data.c:79-97 | Fed those segments the receiving loop rebuilds the chunk, for every length and positive segment size |
| Data.SegmentCount | source/data.c:39-58 | A chunk takes ceil(len/segsize) datagrams |
| MFiles.MFile.MFRead | source/mfile.c:26-38 | Reads the bytes at the cursor, clipped at the end, and advances by what was read |
| MFiles.MFile.MFWrite | source/mfile.c:40-52 | Overwrites the bytes at the cursor, clipped at the end, leaves all others, and advances by what was written |
| MFiles.MFile.MFSeek | source/mfile.c:54-59 | Moves exactly to positions inside the file; the answer equals the wanted position exactly for those and for 0 |
| MFiles.MFile.MFTell | source/mfile.c:61-64 | The cursor of an open stream, 0 of a closed one |
| MFiles.WriteAtFrame | source/mfile.c:40-52 | A write inside the file replaces exactly its range |
| PusherMachine.ConfigureIsValid | source/pusher.c:9 | What `calc_chunk_count` computes cuts the file into whole chunks and one shorter last chunk, whenever neither the count nor the last offset wraps |
| PusherMachine.Conf.Derived | include/utils/calc.h:14-19 | The numbers of such a cut are the ones `calc_chunk_count` computes, and no others |
| PusherMachine.Conf.Geometry | source/pusher.c:44-45 | Chunks follow one another up to the end of the file; only an empty last chunk starts where the file ends and cannot be sought; no other chunk number wraps |
| Calc.FileSizeInverse | include/utils/calc.h:14-24 | `calc_file_size` undoes `calc_chunk_count` exactly when the count does not wrap, or wraps to 0 together with the 64-bit size |
| Calc.PartialExact | include/utils/calc.h:14-19 | The cast to 16 bits never loses the remainder, which is below the chunk size, even when the count wraps |
| Calc.SegmentSize | include/utils/calc.h:26-38 | Sizes up to 1024 stay whole; larger ones get 1024, 2048, 4096 or 8192, less than the size and at least half of it or 8192 |
| Calc.OffsetsExact | source/puller.c:78-79 | The 32-bit product is the true offset of every chunk exactly when the last offset is below 2^32 |
| Calc.ChunksAreConsecutive | source/pusher.c:44-45 | The ranges of chunks 1 to chcount start at 0, follow one another and end at the end of the file |
| Calc.EveryByteInOneChunk | include/utils/calc.h:14-19 | A position lies in a chunk exactly when it lies in the file, and then in only one |
| Calc.SmallUnevenFits | include/utils/calc.h:14-19 | Files below 2^32 bytes that are not a multiple of the chunk size never make the count or an offset wrap |
| Calc.NextChunkDoesNotWrap | source/pusher.c:75 | `seq++` does not wrap after a chunk that starts inside the file |
| Wire.EncodeIsBigEndian | include/protocol/protocol.h:52-96 | The bytes sent are the big-endian fields in declaration order, whatever the host's byte order |
| Wire.WireLayout | include/protocol/protocol.h:7-50 | Position by position: the type byte 0x11, 0x22, 0x33 or 0x44, the ack or 0, and every field as a big-endian number, in 4, 12, 12 and 8 bytes |
| Wire.PacketRoundTrip | include/protocol/protocol.h:52-142 | A packet packed and laid out on one host is converted back to the same fields on a host of any byte order |
| Text.SStrNCpy | include/utils/sstr.h:7-14 | The destination holds the source string cut to dsize-1 bytes, terminated within dsize, with nothing beyond touched |
| InfoStr.PackIntoInfostring | include/utils/infostr.h:9-13 | The buffer holds the formatted text, its terminator, and otherwise what it held |
| InfoStr.UnpackFromInfostring | include/utils/infostr.h:15-19 | Filename, name, remote address and port are what the scan format stores, and fields it does not reach keep their values |
| InfoStr.PackTextFits | include/utils/infostr.h:9-13 | The text and its terminator fit 320 bytes for all strings and ports |
| InfoStr.PackTextSpelled | include/utils/infostr.h:11 | The text is the strings cut to 255, 31 and 15 bytes, ':', '@', ':' and the port in decimal, and is shorter than 320 bytes |
| InfoStr.ScanFilenameOnly | include/utils/infostr.h:17 | A text without a colon sets the filename, cut to 255 bytes, and nothing else |
| InfoStr.ScanNameOnly | include/utils/infostr.h:17 | After the filename, a text without an at sign sets the name, cut to 31 bytes, and nothing else |
| InfoStr.ScanAddressOnly | include/utils/infostr.h:17 | After the name, a text without a colon sets the address, cut to 15 bytes, and leaves the port |
| InfoStr.ScannedNumber | include/utils/infostr.h:17 | The port is the number at the front, cut to 16 bits, with 2^64-1 for larger numbers |
| InfoStr.ScannedSign | include/utils/infostr.h:17 | A plus sign changes nothing and a minus sign negates the number |
| InfoStr.UnpackText | include/utils/infostr.h:15-19 | Every field is either left alone or set to a nonempty string within its width and without its delimiter |
| InfoStr.RoundTrip | include/utils/infostr.h:7-19 | Unpacking the packed text gives back transportable fields, the local address as the remote one |
| InfoStr.RoundTripExactly | include/utils/infostr.h:7-19 | It does so for every earlier content of the destination exactly when the fields are transportable |
| Cntl.PushInfoHeader | source/cntl.c:92-118 | Appends the packet and the padded 320-byte text; returns the status of `poll` or ERRSEND with nothing sent, or LOWSIZE with exactly the bytes that were accepted |
| Cntl.PushHeader | source/cntl.c:67-143 | The same for the packet of a FLOW or RECV message |
| Cntl.PullOutcomes | source/net_stream.c:109-119 | For every stream: BADTYPE exactly when its first byte is another type, and nothing is taken; LOWSIZE exactly when it is empty or starts with the type and is shorter than the message, and nothing is left; otherwise exactly one message is taken |
| Cntl.PullInfoHeader | source/cntl.c:200-227 | Takes the head message of its type and unpacks it, or fails as `Cntl.PullOutcomes` says, with the fields as they were |
| Cntl.PullHeader | source/cntl.c:174-253 | The same for FLOW and RECV messages |
| Cntl.PullsWhatWasPushed | source/cntl.c:145-253 | Pulling by the right type takes exactly the first message, whatever follows it |
| Cntl.WrongTypeLeavesStream | source/net_stream.c:109-119 | Pulling by another type gives BADTYPE and leaves the whole stream, since the type is only peeked |
| Cntl.StreamPrefix | source/cntl.c:39-253 | Pulling by the types of the first messages on a stream gives exactly those and leaves the bytes of the others |
| Cntl.StreamRoundTrip | source/cntl.c:39-253 | Any messages written back to back are read back as the same messages with nothing left over |
| Cntl.StreamIsFifo | source/cntl.c:39-253 | The byte stream behaves as the FIFO of messages that the joint model uses |
| Handshake.PushHello | source/pusher.c:9-22 | Puts the sizes and the four copied address fields on the stream as one SEND message; returns the status of `poll` or ERRSEND with nothing sent, or LOWSIZE with the bytes that were accepted |
| Handshake.PullHello | source/puller.c:31-55 | Sets sizes, file size, names and remote address from the SEND message, and leaves the configuration alone when the pull fails |
| Handshake.EndsAgreeExactly | source/puller.c:39-55 | The puller ends up with the pusher's sizes, file size, names and address, whatever its header record held before, exactly when the strings are transportable and the file size survives the chunk count; the packet's crc is 0 |

## Left out

- Sockets, `poll`, accept, connect, close and their options: a call either does its whole work or fails with a status, and which one is part of the run.
- `end_file_stream`, `end_cntl` and `end_data` after verification: a failure there can still turn SUCCESS into another status.
- A control send that leaves part of a packet on the stream: modelled in `Cntl`, while in `Joint` a send that fails leaves nothing.
- Which time limit each `poll` gets (`hst_send`, `tft_data` and so on), and clocks: a timeout is one of the ways a call can fail.
- A `recv` on the control connection that returns -1: a failing call of either machine may have that status, ERRRECV, while `Cntl` models only what arrives on the stream.
- `malloc`, `calloc` and thread failures: they end a function early like a failing call, and are not separate outcomes.
- The CRC16 thread of the puller: the checksum is computed where the thread starts, on a file that no longer changes.
- `mmap`, `fopen`, `ftruncate`, `statvfs`: the file is an array of the negotiated size, zero-filled, or could not be made.
- Durability: `mfsync` succeeds or fails and changes no bytes; it flushes from the page of the cursor on, so nothing is claimed about the disk.
- The algorithms of CRC32 and CRC16: arbitrary functions here.
- Char arrays of `CntlAddrs`: each field is the string it holds; bytes after the terminator are not modelled.
- Reads through a null mapping (a peer that sends data after ack 0): `Slice` gives an empty result; `Safety.AccessesInRange` shows that two ends running this code never get there.
- Files on which the 32-bit offset wraps: outside `Valid`; `Calc.OffsetsExact` says which they are.
- Hostile peers: both ends run this code, only the datagrams are arbitrary.
- Discovery: the broadcast thread, its retry loop and the collection of pairs (source/broadcast.c, source/scanpair.c).
- Configuration checks of `push_file` and `pull_file` beyond a nonzero chunk size and a positive try count: addresses, ports, names and timeouts are taken as given.
- Logging, error printing and program exit.
