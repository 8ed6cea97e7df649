# A verified model of the protocol, scheduling and reporting core of a Couchbase test framework

The framework talks to clusters with its own memcached and DCP clients, shares SDK clients among
test threads, loads documents from many workers, dispatches test jobs to a shared server manager, and
merges the reports of the runs. This project models those parts in Dafny and proves what they promise,
for every input, every run, every interleaving and every behaviour of the other side.

`dafny verify dfyconfig.toml` checks everything.

| module | models |
|---|---|
| `Bytes`, `Framing` | `struct` packing; `_sendMsg` and `_recvMsg` over an arbitrarily fragmented byte stream |
| `Leb128` | the collection-id codec (unsigned LEB128, section 7.6 of DWARF Version 5) |
| `Crc32` | the table-driven hash against the bit-serial CRC-32 of section 8 of RFC 1952, and the vBucket of a key |
| `MultiOps` | pipelined `getMulti` / `setMulti` against any in-order server |
| `DcpMessages`, `DcpDemux`, `DcpStream`, `DcpDecode`, `DcpPipeline` | the DCP demultiplexer, the stream state machine, the message decoder, and the three together |
| `ClientPool` | the SDK client pool under every interleaving of its users |
| `LoadSplit`, `UpsertRetry` | division of documents and deletes among workers and batches; the retry loop |
| `Dispatcher`, `DispatcherRuns` | the launch loop against an arbitrary script of server-manager answers |
| `Filtering`, `MergeReports`, `Xunit`, `TestNames` | test-name filtering, report merging, result collection, de-duplication, parameter parsing |
| `Wrappers`, `Lists`, `Strings`, `Sorting`, `DcpOpcodes` | optional values, shared facts about lists, text and sorting, and opcodes |

How the models are built:

- What the source updates in place is a class or a loop, and each such method is proved equal to a
  function of the old state; the theorems are about those functions.
- The network, the clock and other threads are parameters: a list of events, a script of answers, a
  server that is an arbitrary function, a list of interleaved steps. Theorems quantify over them.
- Loops that wait on the other side for ever are cut off when the given events, answers or calls are
  used up. Since the theorems hold for every such list, they hold at every moment of an endless wait.
- `/` on integers in the loader is division rounding down, as in the Python 2 that its code is written for;
  the DCP parser's comparisons of single characters are read in the same way.
- Times are real numbers; the rounding of floating-point sums is not modelled.

Where the code does not do what its comments or callers expect, the model follows the code, and a theorem gives the
exact condition under which the expectation is met:

- Line 568 of thanosied.py gives the last deleting worker `w - r` deletes instead of `r`. The documents deleted
  are the right ones exactly when `num_delete` is below a worker's share `w`, or a multiple of it, or
  `r` is half of it (`LoadSplit.DeletesCover`, `LoadSplit.DeletesSum`); the comment's own example is of the
  last kind. A negative count can make the last worker load documents (`LoadSplit.UpsertsCover`), and never deletes any.
- The document number is read back out of a key exactly when the prefix has one underscore and nothing
  behind it that `int` would not skip (`UpsertRetry.RecoversIff`); otherwise a retry can fail or store a
  document under another number (`UpsertRetry.UnrecoveredGoesWrong`).
- The pool's table is keyed by scope and collection joined without a separator, next to three bookkeeping keys:
  it is sound exactly when the names in use can be told apart (`ClientPool.SoundIffDistinguishable`).
- A change with a collection id of 128 or more and an empty key does not decode, nor does a snapshot marker with an
  unknown flag; everything else does (`Leb128.DecodeEncode`, `DcpDecode.DecodeEncode`).
- The filter of test names that carry a logs folder loses the comma behind every word that equals the last word
  (`Filtering.LogsFormExact`, `TestNames.FusedLine`).
- De-duplication by rearranged characters loses no test exactly when no two different tests among the lines are
  rearrangements of each other (`TestNames.LosesNothingIff`, `TestNames.TransformLosesNothingIff`).
- A launch whose answer is lost is sent again: every test is launched exactly once if and only if every launch
  request is answered (`DispatcherRuns.DoneLaunchesAll`, `DispatcherRuns.AnsweredLaunchesOnce`).
- The extra pool's machines are not counted: a launch has them all exactly when the second answer to its acquisition
  lists them (`DispatcherRuns.LaunchExtrasIff`), and the search asks only for some extra machines, which is the same as
  asking for enough exactly when the deciding answer reports enough (`Dispatcher.SearchStrictIff`).
- A packet is read back exactly when it has one of the two ordinary magic bytes. The alternative framing unpacks ten
  fields into nine names, raises, and leaves the body to be read as a packet (`Framing.ReadWire`).
- The name `CMD_DCP_NOOP` is not defined, so a NOOP from the server ends a wait with nothing; a wait succeeds exactly
  when the first event that it cannot pass is an acceptable message for it (`DcpDemux.WaitStopsAt`,
  `DcpDemux.NoopEndsWait`).
- An operation never gets a response exactly when its formatter rejects every message with its opaque
  (`DcpDemux.NothingGivenIff`). `AddStream.formated_response` lacks a parameter and always raises
  (`DcpDemux.RejectingNeverGiven`).

`recv_op` unpacks nine fields of a message although `_recvMsg` returns eight, so the demultiplexer is modelled over an
abstract source of nine-field messages.

## Model

| member | source | states |
|---|---|---|
| `Bytes.UnpackPack` | lib/memcacheConstants.py:319-344 | for every big-endian format and all values that fit it, unpacking what was packed gives the values back |
| `Bytes.PackUnpack` | lib/memcacheConstants.py:319-344 | packing undoes unpacking: different byte strings of a format never read the same |
| `Bytes.BigEndian` | lib/memcacheConstants.py:319-344 | numbers stand with their most significant byte first: what precedes the last n bytes counts 256 to the n times |
| `Leb128.EncodeCollectionId` | lib/mc_bin_client.py:1108-1120 | the loop over the output array yields the LEB128 bytes of the id followed by the key, although it masks with 0xFF |
| `Leb128.DecodeCollectionId` | lib/mc_bin_client.py:35-52 | the shift-and-or loop computes the number spelled by the seven-bit groups up to the stop byte, with the two error exits |
| `Leb128.DecodeEncode` | lib/mc_bin_client.py:35-52 | decoding undoes encoding if and only if the id is below 128 or the key is not empty |
| `Leb128.KnownEncoding` | lib/mc_bin_client.py:1108-1120 | 624485 is spelled 0xe5 0x8e 0x26 |
| `Leb128.PrefixFree` | lib/mc_bin_client.py:1108-1120 | no encoding is a proper prefix of another |
| `Leb128.Minimal` | lib/mc_bin_client.py:1108-1120 | every terminated spelling of a number is at least as long as its encoding |
| `Framing.SendMsg` | lib/mc_bin_client.py:127-162 | a struct error unless every header field fits its width, otherwise exactly header, extras, key, value and metadata in order |
| `Framing.Socket.RecvExactly` | lib/mc_bin_client.py:165-170 | the receive loop gets exactly the next n bytes however they arrive, or reports the end of the stream |
| `Framing.Socket.RecvMsg` | lib/mc_bin_client.py:164-202 | the outcome and the bytes left depend on the byte stream alone, not on its fragmentation |
| `Framing.Socket.RecvMany` | lib/mc_bin_client.py:164-202 | n calls in a row read the first n packets of the stream, for every fragmentation |
| `Framing.ReadWire` | lib/mc_bin_client.py:164-202 | a packet is read back field by field, consuming exactly 24 bytes plus its body, if and only if its magic is an ordinary one; the alternative magics give a ValueError and others an AssertionError, with the body left unread |
| `Framing.ReadWireAll` | lib/mc_bin_client.py:164-202 | a stream of any packets is read back as exactly those packets, in order, leaving what follows |
| `Framing.WireLaid` | lib/mc_bin_client.py:138-162 | where each header field stands in a packet, by its byte offsets, and extras, key, value and metadata behind the 24 bytes |
| `Framing.SendableIff` | lib/mc_bin_client.py:138-140 | a header can be packed if and only if each number fits the bytes it has |
| `Framing.PacketLaid` | lib/mc_bin_client.py:164-202 | what the receiver makes of any byte string, told by byte offsets: the end, the two exceptions by magic byte, or each field and exactly the announced body |
| `Crc32.TableEntry` | lib/crc32.py:8-72 | each of the 256 table entries is what eight shifts of the CRC register leave of its index |
| `Crc32.ByteStep` | lib/crc32.py:77-78 | one table step equals feeding the eight bits of a byte to the bit-serial register, from any register |
| `Crc32.Crc32Hash` | lib/crc32.py:75-79 | for every byte string the hash is bits 16 to 30 of the bit-serial CRC-32 of RFC 1952 |
| `Crc32.HashBitsPlaced` | lib/crc32.py:79-79 | the hash is the fifteen bits of the CRC under the mask 0x7fff0000 |
| `Crc32.KnownCrcs` | lib/crc32.py:75-79 | the CRCs of the empty text and of "a" |
| `Crc32.VBucketFromHash` | lib/mc_bin_client.py:926-930 | masking the table-driven hash gives the vBucket the client computes for a key without an explicit one |
| `Crc32.KeyVBucketInRange` | lib/mc_bin_client.py:926-930 | the vBucket is always below the (non-zero) count and below 0x8000, and with 1024 vBuckets it is the hash modulo 1024 |
| `Crc32.ExplicitVBucket` | lib/mc_bin_client.py:926-930 | a positive explicit vBucket is used as it is; zero and negative ones leave it to the key |
| `MultiOps.GetMultiIsGetEach` | lib/mc_bin_client.py:707-738 | for every server without error replies, the pipelined get returns exactly the map of the individual gets and consumes every reply, for any number of vBuckets |
| `MultiOps.CollectRefused` | lib/mc_bin_client.py:727-736 | the first refused get ends the call with its status and leaves exactly the replies behind it unread |
| `MultiOps.CollectRead` | lib/mc_bin_client.py:727-738 | for any replies waiting: the last value given for each key, read up to as many NOOPs as were sent; or waiting for ever; or the error of the first reply that is not taken, with those behind it left |
| `MultiOps.SetMultiIsSetEach` | lib/mc_bin_client.py:740-778 | the pipelined set returns one error per item that fails when set one by one, in send order, and consumes every reply |
| `MultiOps.ErrorsRead` | lib/mc_bin_client.py:767-778 | for any replies waiting: every error up to as many NOOPs as were sent, the rest left unread; or waiting for ever |
| `MultiOps.McClient.constructor` | lib/mc_bin_client.py:926-930 | requests are addressed by the CRC-based vBucket of the key, or the explicit one |
| `MultiOps.McClient.SendGetQ` | lib/mc_bin_client.py:720-720 | a quiet get is answered on a hit or an error and not on a miss |
| `MultiOps.McClient.SendSetQ` | lib/mc_bin_client.py:760-760 | a quiet set changes the server and is answered only on an error |
| `MultiOps.McClient.SendGets` | lib/mc_bin_client.py:716-720 | the vBuckets touched, and the server's answers to all keys in order |
| `MultiOps.McClient.SendSets` | lib/mc_bin_client.py:756-760 | the vBuckets touched, the server's state after all sets, and its error answers in order |
| `MultiOps.McClient.SendNoops` | lib/mc_bin_client.py:722-724 | one NOOP answer per vBucket touched, whatever the order of the set |
| `MultiOps.McClient.CollectReplies` | lib/mc_bin_client.py:727-738 | the nested loops read replies up to the last NOOP's, with every error exit |
| `MultiOps.McClient.CollectErrors` | lib/mc_bin_client.py:767-778 | the nested loops collect errors up to the last NOOP's reply |
| `MultiOps.McClient.GetMulti` | lib/mc_bin_client.py:707-738 | the call for any replies left over from before; from a clean connection it is the map of individual gets |
| `MultiOps.McClient.SetMulti` | lib/mc_bin_client.py:740-778 | the server ends as after individual sets; from a clean connection the errors are theirs, in order, and nothing is left unread |
| `DcpDemux.DcpClient.constructor` | lib/dcp_bin_client.py:16-40 | no operation registered, no timeout |
| `DcpDemux.DcpClient.ReceiveOp` | lib/dcp_bin_client.py:204-254 | the receive loop: hand over, park, acknowledge, skip, or end, with every exception and the sticky timeout (`RunFlags`, `RunSilent`) |
| `DcpDemux.DcpClient.HandleOp` | lib/dcp_bin_client.py:175-191 | registration with an empty queue and the bounded retry loop |
| `DcpDemux.DcpClient.Resume` | lib/dcp_bin_client.py:155-164 | a generator drains its queue before the socket and stops after the end of the stream |
| `DcpDemux.RecvOpKeeps` | lib/dcp_bin_client.py:204-254 | a wait for one operation gives it the first thing it is owed and parks everything else where it belongs |
| `DcpDemux.RetryKeeps` | lib/dcp_bin_client.py:175-191 | so do repeated waits |
| `DcpDemux.NextKeeps` | lib/dcp_bin_client.py:155-164 | a generator step keeps the order: queue first, then the socket |
| `DcpDemux.StepKeeps` | lib/dcp_bin_client.py:150-254 | so does every action of any operation, for every registered operation |
| `DcpDemux.RunKeeps` | lib/dcp_bin_client.py:150-254 | over every run: deliveries followed by the queue are the old queue followed by the responses owed for the messages read, in arrival order |
| `DcpDemux.RoutedFromRegistration` | lib/dcp_bin_client.py:150-254 | from its registration on, an operation's deliveries and queue are exactly the responses to the messages with its opaque: none lost, duplicated, reordered or misrouted |
| `DcpDemux.LostOnlyIfMalformed` | lib/dcp_bin_client.py:217-232 | every message yields a response if and only if the operation's formatter accepts every message with its opaque |
| `DcpDemux.WaitStopsAt` | lib/dcp_bin_client.py:204-254 | a wait stops at the first event it cannot pass, and succeeds exactly when that is an acceptable message for it |
| `DcpDemux.WaitAcks` | lib/dcp_bin_client.py:234-240 | a wait acknowledges, in order, exactly the stream requests of no registered operation among the events it passes |
| `DcpDemux.RunFlags` | lib/dcp_bin_client.py:204-254 | over every run the timeout flag holds at the end if and only if it held before or a timeout is among the events read |
| `DcpDemux.RunSilent` | lib/dcp_bin_client.py:204-254 | once it holds, no event is read any more along any run, and every action gives nothing, or what waits on its own queue, or a stopped generator |
| `DcpDemux.RetryGives` | lib/dcp_bin_client.py:175-191 | a new operation gets the first response among the first `retries` events that end a wait for it, unless a timeout comes before |
| `DcpDemux.RunCloses` | lib/dcp_bin_client.py:150-164 | along every run a generator is stopped if and only if it has handed out the end of its stream |
| `DcpDemux.NoopEndsWait` | lib/dcp_bin_client.py:242-254 | a NOOP from the server ends a wait with nothing, even with the awaited response behind it |
| `DcpDemux.NothingGivenIff` | lib/dcp_bin_client.py:150-254 | over any run an operation gets no response and has none waiting if and only if its formatter rejects every message with its opaque |
| `DcpDemux.RejectingNeverGiven` | lib/dcp_bin_client.py:432-448 | an add-stream request, whose formatter always raises, never gets a response |
| `DcpDemux.RunAlive` | lib/dcp_bin_client.py:245-254 | the stand-in response with status 0xff appears only when the peer has died |
| `DcpStream.DcpStream.constructor` | lib/dcp_bin_client.py:284-299 | a new stream has accepted nothing and has not ended |
| `DcpStream.DcpStream.PullResponse` | lib/dcp_bin_client.py:301-324 | the checks on vBucket and sequence number, the counters, the end flag |
| `DcpStream.DcpStream.RunStream` | lib/dcp_bin_client.py:329-358 | the run loop with its retry budget, early exits and StopIteration, as `RunIs` characterises it |
| `DcpStream.RunAccepts` | lib/dcp_bin_client.py:329-358 | a call that fails no assertion returns exactly what the generator yielded, and passed fewer empty receives than its retries |
| `DcpStream.RunAllAccepts` | lib/dcp_bin_client.py:281-358 | the same across any sequence of calls |
| `DcpStream.StreamRuns` | lib/dcp_bin_client.py:281-358 | accepted sequence numbers rise strictly across calls, last_by_seqno is the last and mutation_count their number and never above it, nothing follows the end of the stream |
| `DcpStream.RunIs` | lib/dcp_bin_client.py:301-358 | the stopping rule, from the feed alone: a call draws up to and including the first response that is the end, or of a dead peer, or reaches to_seqno, or the whole feed; it fails exactly if an assertion fails in that part, and otherwise returns the responses in it; the stream is ended afterwards exactly after the end or a drained feed |
| `DcpStream.EndedRuns` | lib/dcp_bin_client.py:329-358 | an ended stream returns nothing and stays as it is |
| `DcpStream.Tolerates` | lib/dcp_bin_client.py:338-343 | k empty receives before the end are tolerated if and only if k is 0 or below the retries |
| `DcpDecode.ParseExtendedAttributes` | lib/dcp_bin_client.py:513-533 | the loop over NUL-terminated pairs, up to the announced length or an error |
| `DcpDecode.ParseOne` | lib/dcp_bin_client.py:517-532 | one pair, or an error when the value ends first |
| `DcpDecode.CollectToNul` | lib/dcp_bin_client.py:522-524 | the bytes up to the next NUL |
| `DcpDecode.XattrsBack` | lib/dcp_bin_client.py:513-533 | parsing any block of NUL-free pairs gives back the pairs, whatever follows the block |
| `DcpDecode.SplitValueBack` | lib/dcp_bin_client.py:673-677 | attributes and document are separated exactly |
| `DcpDecode.SplitKeyBack` | lib/dcp_bin_client.py:681-688 | collection id and key are separated if and only if collections are off, the message is no document change, the id is below 128, or the key is not empty |
| `DcpDecode.FieldsBack` | lib/dcp_bin_client.py:561-631 | the extras of every opcode and configuration are read back field by field, a snapshot marker's if and only if its flag is 1, 2, 5 or 6 |
| `DcpDecode.DecodeEncode` | lib/dcp_bin_client.py:633-693 | for every streamed message a producer can send, decoding recovers fields, stream id, collection id, key, attributes and value if and only if a snapshot's flag is known and a change's id is below 128 or its key not empty (or collections are off); otherwise it raises |
| `DcpDecode.MutationAt` | lib/dcp_bin_client.py:567-577 | in every mutation that decodes: by_seqno, rev_seqno, flags, expiration, lock time, metadata length and nru at offsets 0, 8, 16, 20, 24, 28 and 30 behind the frame |
| `DcpDecode.DeletionAt` | lib/dcp_bin_client.py:579-597 | likewise both forms of a deletion, at 0, 8, 16 and 20 or at 0, 8 and 16 |
| `DcpDecode.ExpirationOrSnapshotAt` | lib/dcp_bin_client.py:599-622 | an expiration, which needs delete times, and a snapshot marker with its known flags, at 0, 8 and 16 |
| `DcpDecode.SystemEventAt` | lib/dcp_bin_client.py:624-631 | a system event at 0, 8 and 12 |
| `DcpDecode.StreamEndAt` | lib/dcp_bin_client.py:561-565 | the four bytes of flags of the end of a stream |
| `DcpDecode.FrameAt` | lib/dcp_bin_client.py:664-667 | the frame in front: tag 0x22 and two bytes of stream id, or no frame |
| `DcpDecode.KeyAt` | lib/dcp_bin_client.py:669-690 | the key behind frame and extras, with the collection id split off where there is one |
| `DcpDecode.ValueAt` | lib/dcp_bin_client.py:671-677 | the value behind the key, with its attributes preceded by four bytes of length |
| `DcpPipeline.FeedDelivered` | lib/dcp_bin_client.py:150-168 | what a generator yields to its stream is what the demultiplexer delivers to its operation |
| `DcpPipeline.XattrBit` | lib/dcp_bin_client.py:674-677 | attributes are read exactly when bit 4 of the datatype is set |
| `DcpPipeline.NumberedResponse` | lib/dcp_bin_client.py:567-631 | a response that has a sequence number takes it from the eight bytes behind the frame, and its vBucket from the status field |
| `DcpPipeline.CallsReturnOwed` | lib/dcp_bin_client.py:150-358 | for any run and any calls: the request's answer, what run returned, and what generator and queue still hold are exactly the responses to the messages with the stream's opaque, in arrival order |
| `DcpPipeline.ProducerToCalls` | lib/dcp_bin_client.py:150-693 | for any messages a producer sends on the stream, interleaved with any others: what run returns is a beginning of exactly their contents, field by field and in order, and the rest is still waiting |
| `ClientPool.SDKClientPool.CreateClients` | lib/sdk_client3.py:108-118 | clients are added to the bucket's idle list, the bucket being made if needed |
| `ClientPool.SDKClientPool.GetClientOnce` | lib/sdk_client3.py:132-151 | one turn of the get loop: an exception on a bookkeeping key, the entry's client, a client off the idle list, or busy exactly when there is neither |
| `ClientPool.SDKClientPool.ReleaseClient` | lib/sdk_client3.py:159-170 | the locked part of a release with the key read before; a failure leaves the bucket as far changed as the source does |
| `ClientPool.CreateKeeps` | lib/sdk_client3.py:114-118 | a new client keeps the pool invariant |
| `ClientPool.ReadKeeps` | lib/sdk_client3.py:162-162 | reading the key without the lock keeps the pool invariant, and the key is the holder's own |
| `ClientPool.ShareKeeps` | lib/sdk_client3.py:138-141 | joining a busy client keeps the pool invariant |
| `ClientPool.TakeKeeps` | lib/sdk_client3.py:142-149 | taking an idle client keeps the pool invariant |
| `ClientPool.FreeKeeps` | lib/sdk_client3.py:164-167 | the last release of a client keeps the pool invariant |
| `ClientPool.GiveBackKeeps` | lib/sdk_client3.py:163-170 | a release with the key read earlier finds its own live entry and keeps the pool invariant |
| `ClientPool.RunKeeps` | lib/sdk_client3.py:108-170 | every interleaving of creations, gets, key reads and releases keeps: idle and busy partition the clients, busy clients match the entries one to one, counters count holders, clients stay on their holders' collection |
| `ClientPool.PoolConserves` | lib/sdk_client3.py:108-170 | holders of one client asked for one collection, entries count holders, and all clients are idle again when nobody holds any |
| `ClientPool.GetAnswers` | lib/sdk_client3.py:132-151 | for every bucket and name: an exception exactly on a bookkeeping key, otherwise a client if and only if the key has an entry or a client is idle; the entry's client, or the one popped off the idle list, selected on the name |
| `ClientPool.ReleaseAnswers` | lib/sdk_client3.py:159-170 | for every bucket, client and key: when a release fails, and what it changes otherwise |
| `ClientPool.PoolServes` | lib/sdk_client3.py:132-170 | in every reachable state a get is put off exactly when every client is held and none for that collection; it gives the holders' client, or one that nobody holds |
| `ClientPool.RunCreates` | lib/sdk_client3.py:114-118 | a run has exactly the clients it created |
| `ClientPool.CreateManyAdds` | lib/sdk_client3.py:114-118 | a request for n clients adds n idle ones on the default collection |
| `ClientPool.SoundIffDistinguishable` | lib/sdk_client3.py:133-170 | every interleaving is served soundly if and only if joined names are injective on those in use and avoid the bookkeeping keys |
| `ClientPool.CollisionMisdirects` | lib/sdk_client3.py:133-141 | two names with one joined key: the second thread gets the first one's client, which is selected on the first name |
| `ClientPool.ReservedJams` | lib/sdk_client3.py:133-141 | a name that spells a bookkeeping key leaves the lock taken, and it stays taken with no client handed out however the run goes on |
| `ClientPool.StuckStays` | lib/sdk_client3.py:137-170 | once an exception has left the lock taken, no later step frees it or changes who holds a client |
| `ClientPool.CollisionExists` | lib/sdk_client3.py:133-133 | names of both kinds |
| `LoadSplit.DocumentGenerator.CreateUpsertBatches` | couchbase_utils/bucket_utils/thanosied.py:197-210 | the batch loop, for any count and step |
| `LoadSplit.DocumentGenerator.CreateDeleteBatches` | couchbase_utils/bucket_utils/thanosied.py:212-227 | the same after capping the deletes at the worker's documents |
| `LoadSplit.BatchesCover` | couchbase_utils/bucket_utils/thanosied.py:203-210 | batches of positive size hold each document of the interval once and no other |
| `LoadSplit.BatchesFull` | couchbase_utils/bucket_utils/thanosied.py:203-210 | all batches are full but the last, which is not empty |
| `LoadSplit.BatchAt` | couchbase_utils/bucket_utils/thanosied.py:203-210 | the beginning and end of the k-th batch and how many there are, for a size of either sign |
| `LoadSplit.DocumentGenerator.constructor` | couchbase_utils/bucket_utils/thanosied.py:138-171 | the worker's arguments taken over, no batches yet |
| `LoadSplit.SplitLoad` | couchbase_utils/bucket_utils/thanosied.py:545-554 | the share of every worker |
| `LoadSplit.UpsertsCover` | couchbase_utils/bucket_utils/thanosied.py:545-554 | over all workers and batches every document asked for is upserted exactly once and no other ever, if and only if the count is not negative or its quotient plus remainder is not positive |
| `LoadSplit.SharesAre` | couchbase_utils/bucket_utils/thanosied.py:545-554 | the beginning and size of each worker's share: equal ones, the remainder with the last |
| `LoadSplit.SplitDeletes` | couchbase_utils/bucket_utils/thanosied.py:560-574 | the delete loops with their three errors |
| `LoadSplit.PlanDeletes` | couchbase_utils/bucket_utils/thanosied.py:545-574 | shares and deletes together |
| `LoadSplit.DivideEnds` | couchbase_utils/bucket_utils/thanosied.py:560-574 | for counts and delete numbers of either sign: ValueError exactly when a share is empty, IndexError exactly when the loop would need another worker |
| `LoadSplit.DivideAt` | couchbase_utils/bucket_utils/thanosied.py:560-574 | which workers delete and how many documents each, for either sign |
| `LoadSplit.DeletesCover` | couchbase_utils/bucket_utils/thanosied.py:555-574 | the documents deleted are exactly the first num_delete, once each, if and only if num_delete is below a share, a multiple of it, or half a share above one; with a negative count, if and only if none are asked for |
| `LoadSplit.DeletesSum` | couchbase_utils/bucket_utils/thanosied.py:555-574 | the deletes assigned sum to num_delete under the same condition and num_delete not negative; with a negative count only for none or exactly a share |
| `LoadSplit.CommentExample` | couchbase_utils/bucket_utils/thanosied.py:556-559 | 2500 deletes come out as the comment says, 2600 come out as 2400 |
| `UpsertRetry.RecoversIff` | couchbase_utils/bucket_utils/thanosied.py:238-251 | every non-negative document number is read back from its key if and only if the prefix has one underscore followed only by white space, a plus and zeros |
| `UpsertRetry.RecoversAllIff` | couchbase_utils/bucket_utils/thanosied.py:238-251 | negative numbers too if and only if only white space follows the underscore |
| `UpsertRetry.PassConserves` | couchbase_utils/bucket_utils/thanosied.py:416-439 | for every server, interleaving and naming, at every head of the retry loop: stored and pending keys are together the keys asked for, and completed plus pending is the number of items |
| `UpsertRetry.PassStoresAll` | couchbase_utils/bucket_utils/thanosied.py:416-439 | when numbers can be read back no retry raises, and at the end every key was stored exactly once under its own number |
| `UpsertRetry.ClearStoresAll` | couchbase_utils/bucket_utils/thanosied.py:416-439 | so with a clear prefix, for every range of documents |
| `UpsertRetry.UpsertIs` | couchbase_utils/bucket_utils/thanosied.py:298-318 | a bulk upsert is repeated until it is not refused, and then stores, counts and notes failed keys as that answer says |
| `UpsertRetry.UpsertStuckIff` | couchbase_utils/bucket_utils/thanosied.py:298-318 | it is still going if and only if all calls so far were refused |
| `UpsertRetry.FirstPassPlain` | couchbase_utils/bucket_utils/thanosied.py:423-432 | the first round makes one call for each batch, with its documents, in order |
| `UpsertRetry.RetryStands` | couchbase_utils/bucket_utils/thanosied.py:435-439 | the retry loop is over exactly when nothing is left, has raised exactly when a key cannot be read, and is pending only with all calls used up |
| `UpsertRetry.PassEnds` | couchbase_utils/bucket_utils/thanosied.py:416-439 | once the server stores everything, a pass ends with every document stored, after at most one more call for each batch and one |
| `UpsertRetry.UnrecoveredGoesWrong` | couchbase_utils/bucket_utils/thanosied.py:244-255 | for every document number that is not read back there is a run that raises or stores it under another number |
| `UpsertRetry.RetryDistinct` | couchbase_utils/bucket_utils/thanosied.py:249-254 | keys to retry are distinct, so gathering them in a dictionary loses none |
| `UpsertRetry.DocsOfBatches` | couchbase_utils/bucket_utils/thanosied.py:341-344 | the items of all batches are the items of the interval, in order |
| `UpsertRetry.Loader.constructor` | couchbase_utils/bucket_utils/thanosied.py:138-171 | a pass begins with nothing stored, counted or to retry |
| `UpsertRetry.Loader.CreateUpsertBatches` | couchbase_utils/bucket_utils/thanosied.py:422-423 | the pass makes its own batches |
| `UpsertRetry.Loader.GetUpsertItems` | couchbase_utils/bucket_utils/thanosied.py:229-242 | the items of a batch |
| `UpsertRetry.Loader.GetRetryUpsertItems` | couchbase_utils/bucket_utils/thanosied.py:244-255 | the items of a retry, or an error if a key cannot be read |
| `UpsertRetry.Loader.UpsertItems` | couchbase_utils/bucket_utils/thanosied.py:298-318 | stored, failed and counted items of one bulk upsert, repeated on an ArgumentError, which sets replicate_to to 0 |
| `UpsertRetry.Loader.UpsertThread` | couchbase_utils/bucket_utils/thanosied.py:341-344 | a thread upserts the items of its batch |
| `UpsertRetry.Loader.FirstRound` | couchbase_utils/bucket_utils/thanosied.py:423-432 | the round over all batches |
| `UpsertRetry.Loader.Retry` | couchbase_utils/bucket_utils/thanosied.py:435-439 | the retry loop |
| `UpsertRetry.Loader.SingleUpsertPass` | couchbase_utils/bucket_utils/thanosied.py:416-439 | the whole pass from the making of its batches on, for any interleaving of the threads' appends |
| `Dispatcher.SearchFirst` | scripts/testDispatcher.py:351-391 | by the answers received every test passed over did not fit and the one picked did |
| `Dispatcher.SearchIs` | scripts/testDispatcher.py:351-391 | how a search ends, counted: one report of an empty extra pool for each small test passed over, and what the deciding answer says |
| `Dispatcher.SettledIs` | scripts/testDispatcher.py:351-391 | and answers settle a search in one way only |
| `Dispatcher.TurnPicksFirst` | scripts/testDispatcher.py:324-576 | a popped test is the first that fitted the observed availability, it was granted its machines by answers without status 499, and its launch names them, as many as it needs |
| `Dispatcher.AcquireIff` | scripts/testDispatcher.py:411-576 | with a test picked, a turn is idle, sends, pops or is cut short for exactly the listed reasons, status 499 and the lost race among them, in Docker and outside |
| `Dispatcher.TurnIff` | scripts/testDispatcher.py:324-576 | so for the whole turn, from the count of machines on |
| `Dispatcher.GrantedLaunches` | scripts/testDispatcher.py:411-576 | a test that fits and is granted its machines is popped or its launch sent |
| `DispatcherRuns.TurnKeeps` | scripts/testDispatcher.py:324-576 | a turn keeps the loop invariant |
| `DispatcherRuns.RunKeeps` | scripts/testDispatcher.py:324-576 | for every script, at every loop head: pending and summary conserve the tests, pending keeps its order, every launch follows from a grant, and the launches sent are those of the summary and those never answered |
| `DispatcherRuns.RunEnds` | scripts/testDispatcher.py:324-576 | the loop stops only when nothing is pending or answers run out; summary and launches only grow at their ends |
| `DispatcherRuns.GrantsUsedOnce` | scripts/testDispatcher.py:324-576 | over every run, each launch follows from a grant of its own, neither of whose answers has status 499 |
| `DispatcherRuns.DoneLaunchesAll` | scripts/testDispatcher.py:324-576 | at the end every test is in the summary once and was launched, exactly once if and only if none of the answers read for launch requests is an exception |
| `DispatcherRuns.AnsweredLaunchesOnce` | scripts/testDispatcher.py:324-576 | a manager and executor that always answer make every test launch exactly once |
| `DispatcherRuns.LostIff` | scripts/testDispatcher.py:552-576 | over any run, a launch is lost exactly when an answer read for a launch request is an exception, and there is one such answer per launch |
| `DispatcherRuns.LaunchExtrasIff` | scripts/testDispatcher.py:447-538 | over every run, Docker included, each launch follows from answers that are not exceptions and do not have status 499; outside Docker it has exactly one acquisition's machines, and all its extra machines if and only if the answer for the extra pool lists them |
| `Dispatcher.SearchStrictIff` | scripts/testDispatcher.py:353-391 | the search does what a search for enough extra machines would do if and only if the answer that decided it reports at least as many as the picked test needs |
| `Dispatcher.UnansweredLaunchesTwice` | scripts/testDispatcher.py:552-576 | a script on which one test is launched twice |
| `Dispatcher.ExtraPoolUnchecked` | scripts/testDispatcher.py:450-482 | a script on which a test is launched without its extra machines |
| `Dispatcher.TestDispatcher.constructor` | scripts/testDispatcher.py:323-324 | all tests pending, the summary empty |
| `Dispatcher.TestDispatcher.Find` | scripts/testDispatcher.py:351-391 | the inner search loop |
| `Dispatcher.TestDispatcher.LaunchTest` | scripts/testDispatcher.py:411-486 | acquisition with the race and 499 branches, as `AcquireIff` characterises them |
| `Dispatcher.TestDispatcher.SendLaunch` | scripts/testDispatcher.py:540-560 | launch or release, then pop and summary |
| `Dispatcher.TestDispatcher.TakeTurn` | scripts/testDispatcher.py:324-576 | the body of the loop |
| `Dispatcher.TestDispatcher.LaunchAll` | scripts/testDispatcher.py:324-576 | the loop |
| `Filtering.FilterFields` | testrunner.py:434-461 | the loops of both forms of the filter |
| `Filtering.FilterLogs` | testrunner.py:436-449 | the loop of the logs form, with its test against the last word |
| `Filtering.IsDropped` | scripts/merge_reports.py:29-32 | whether a word begins with a non-empty filter |
| `Filtering.FilteredTwice` | testrunner.py:451-461 | filtering a plain name twice changes nothing more |
| `Filtering.PlainForm` | testrunner.py:451-461 | a name without a logs folder becomes the list of exactly its words that are not dropped, in order |
| `Filtering.KeptExactly` | testrunner.py:451-461 | kept words are in order, each as often as before |
| `Filtering.LogsFormExact` | scripts/merge_reports.py:20-37 | the logs form gives the joined kept words, up to trailing commas, if and only if no kept word equal to the last word has a non-empty kept word behind it |
| `Filtering.FusedFilter` | scripts/merge_reports.py:34-37 | for all words, a name whose last parameter also stands before the logs folder comes out with the two run together |
| `MergeReports.FilterName` | scripts/merge_reports.py:19-53 | the filter with the run's own parameters |
| `MergeReports.CompareWithSort` | scripts/merge_reports.py:56-66 | the search finds the first entry equal up to parameter order, or none |
| `MergeReports.CanonIff` | scripts/merge_reports.py:56-66 | the compared texts are equal if and only if the first words are equal and the parameters are equal up to order, a lone empty parameter counting as none |
| `MergeReports.MergedGroups` | scripts/merge_reports.py:108-130 | for every sequence of cases: one entry per class, under the first filtered name, with the name, time and error of the last case |
| `MergeReports.MergeCase` | scripts/merge_reports.py:116-131 | a case replaces the contents of the entry of its class or begins a new entry |
| `MergeReports.MergeCases` | scripts/merge_reports.py:108-130 | the loop over the cases of a suite element |
| `MergeReports.MergeReport` | scripts/merge_reports.py:86-132 | one suite element is merged into the suites collected so far |
| `MergeReports.MergeWith` | scripts/merge_reports.py:86-132 | each suite holds the merge of its cases from all reports, in order, for any filter |
| `MergeReports.Merge` | scripts/merge_reports.py:69-132 | the same with the source's filter |
| `MergeReports.WrittenTest` | scripts/merge_reports.py:155-177 | a written test has its entry's full name and time, and an error exactly when the entry has one |
| `MergeReports.WrittenConserves` | scripts/merge_reports.py:146-177 | the written suites hold exactly one test per entry, and errors and failures are each the number of failing entries |
| `MergeReports.MergedContents` | scripts/merge_reports.py:109-131 | merging leaves exactly the contents of the last case of each class |
| `MergeReports.ReportConserves` | scripts/merge_reports.py:109-177 | from cases to written report: exactly one test per class of cases, that of its last case, and errors and failures each the number of classes whose last case has an error |
| `MergeReports.Write` | scripts/merge_reports.py:154-177 | the writing loop |
| `MergeReports.WriteAll` | scripts/merge_reports.py:146-177 | every suite is written |
| `MergeReports.MergeAndWrite` | scripts/merge_reports.py:69-177 | all reports in, every suite named in them written with one test for the last case of each class among all its cases |
| `Xunit.XUnitTestSuite.constructor` | lib/xunit.py:122-128 | an empty suite |
| `Xunit.XUnitTestSuite.AddTest` | lib/xunit.py:131-150 | the test appended, and the counters and time updated |
| `Xunit.XUnitTestResult.AddTest` | lib/xunit.py:47-64 | the first suite of the class gets the test, or a new suite is appended; other suites unchanged |
| `Xunit.ClassNames` | lib/xunit.py:48-52 | the class is what stands before the last dot, the whole name if it has parameters, and all but the last character without a dot |
| `Xunit.AddIs` | lib/xunit.py:47-64 | the first suite of that class gets the test, or a new suite at the end; no other suite changes |
| `Xunit.SuiteRecords` | lib/xunit.py:122-150 | a suite records name, time, parameters and error of exactly the calls of its class, in order, with their counts and time |
| `Xunit.AddAllSorts` | lib/xunit.py:47-64 | however calls come, there is one suite per class, holding its tests in order with their totals |
| `Xunit.AddAllSum` | lib/xunit.py:131-150 | the suites together hold exactly the tests asked for and their errors, failures, skips and times |
| `Xunit.AddSum` | lib/xunit.py:47-64 | one call adds exactly its own test, error, failure, skip and time to the totals |
| `Xunit.AskedCounts` | lib/xunit.py:144-149 | errors and failures are each the number of failing calls, and tests the number of calls |
| `TestNames.CheckIfExists` | testrunner.py:464-470 | true exactly when some kept line is a rearrangement of the characters |
| `TestNames.FilterLine` | testrunner.py:421-422 | the filtered line without trailing commas |
| `TestNames.Deduplicate` | testrunner.py:418-425 | no two kept lines are rearrangements of each other, every input is represented, and each kept line is the first of its class, in their order |
| `TestNames.Transform` | testrunner.py:418-425 | the same with the source's filter |
| `TestNames.SameTestIsAnagram` | testrunner.py:464-470 | on lines without trailing commas, names that the report merger identifies are identified here |
| `TestNames.KeptDiffer` | testrunner.py:418-425 | so kept lines are different tests for the report merger too |
| `TestNames.AnagramsDiffer` | testrunner.py:464-470 | the converse fails for every two parameters that differ by exchanging their first two characters |
| `TestNames.LosesNothingIff` | testrunner.py:418-425 | every line has a kept line that is the same test for the merger if and only if lines that are rearrangements of each other are the same test |
| `TestNames.TransformLosesNothingIff` | testrunner.py:418-431 | so for the lines of any tests given |
| `TestNames.FusedLine` | testrunner.py:446-448 | for all words, a name whose last parameter also stands before the logs folder gives a line with the two run together |
| `TestNames.FusedExample` | testrunner.py:446-448 | such a name, through the source's own filter |
| `TestNames.PrintParams` | testrunner.py:676-680 | the printing loop, which leaves out empty names and values |
| `TestNames.ParsePrinted` | testrunner.py:566-568 | parsing a test name followed by printed parameters gives back exactly those printed, values with commas included |
| `TestNames.DictPrinted` | testrunner.py:566-568 | with distinct non-empty names and non-empty values the dictionary comes back exactly |

## Left out

- Leb128.EncodeCollectionId: models the bytes that the loop builds; turning them into text (`tobytes().decode()`), which raises for most ids of 128 or more, is not modelled.
- ClientPool.SDKClientPool.CreateClients: a new bucket appears in one step, although the source fills its dictionary key by key without a lock; a get in between is not modelled.
- TLS, authentication, `select`, real timeouts and wall-clock time; they appear as events, answers and calls of the models.
- Other memcached commands, statistics, sync, meta and sub-document wrappers: one branch of packing each.
- Name-to-id lookup of collections and the "not enabled" error in `_encodeCollectionId`.
- The contents of the answer to a stream request (failover log, rollback), which is an arbitrary function in `DcpPipeline`, and the unused extended-metadata parser.
- Objects and strings in place of a list in the server manager's JSON answers; building of URLs and descriptors, whose errors would also end a turn.
- Machines that stay reserved after a lost race are not tracked.
- Pool shutdown, which replaces the table without the lock, and tests that call `select_collection` on a client they share.
- The wait for a free client is one turn at a time; that a waiting thread is ever served is not claimed.
- The counter `key_exists_error`, which nothing in the load reads.
- Random document contents, rate limiting, validation passes, and the retry of deletes, which resends keys without reading them.
- Digits and white space outside ASCII in `int` and `strip`.
- XML reading and writing, file names and glob order; attributes of suite elements that are stored and never read.
- The logged pass and fail counts of the merger, and the file that the de-duplicated lines are written to.
- REST, command-line, SSH, backup, install and log-collection code, and the test cases themselves.
