# EdgeCookie in Dafny

EdgeCookie is a SYN proxy built on eBPF and AF_XDP.  A gateway answers SYNs with
cookies; programs at the server splice the client's handshake with the gateway
onto a real handshake with the server.  This project models four parts of it and
proves what they promise:

1. **The AF_XDP frame engine** (`Fifo`, `Rings`, `Partition`, `Frames`, `Steps`,
   `Engine`, `OneInterface`, `Standstill`).  Rings are classes over arrays with u32 indices
   that wrap; each operation is proved to be the one on a bounded queue.  A worker is a
   class whose methods follow the loops of the source, with the kernel free to
   perform any number of its own steps before each ring operation.
2. **The cookie and handover protocol** (`HtsCookie`, `Ledgers`, `Protocol`,
   `Handovers`, `Admissions`, `Rotations`, `SynBudget`, `HtsAgents`, `SmartCookie`,
   `SmartRuns`, `SmartAdmissions`, `SmartAgents`).  The agents are specified by functions
   of their state.  What each does to a packet is stated branch by branch, on the packet's
   own fields and the keyed hashes.  A ledger beside the server's connection table records
   how each connection opened, every SYN-ACK answered for it and every seed in force;
   classes with the state in place carry it as a ghost field and promise what happens to
   each packet in its terms.  Runs are arbitrary sequences of events, and the link from
   server to gateway carries packets.  Keyed hashes are parameters.
3. **Checksum arithmetic** (`Checksum`, `Packets`, `Rewrites`, `Recompute`).  Packets
   are records with every field as the little-endian machine loads it, and the bytes
   they stand for; incremental updates are compared with a recomputation over bytes.
4. **Indexes and parsers** (`BitVectors`, `BloomFilters`, `NullsLists`, `HashMaps`,
   `Jenkins`, `Timestamps`), with bitwise operators and wrap-around from `Words`.

Premises that the sources leave to their users: aligned UMEM chunks, a power-of-two
frame size, received packets and their rewrites that fit in one frame, batches of at
most 255 packets, a packet processor that returns -1 or the index of an interface, and
Bloom filters whose size is a multiple of 32.  The protocol results take server packets
without ECE, the mark of a seed change.  Byte positions are stated for connections with
one answered SYN-ACK; each further one moves the offset, and the ledger says by how much.
The kernel, clocks and random numbers are parameters or free choices.

Where a promise fails, the project keeps the code's behaviour, shows the failure and
states exactly when the promise holds:

- the retry loop of `process_batch` completes transmissions of the receiving
  interface only, so it can wait forever (`RetryUntilRoom`, `RetryNever`), and a run of
  two sockets gets there (`StandstillReached`); `FinishBatch` says when a batch is done;
- the gateway takes every server packet with ECE for a seed change (`EceSynAckMisread`,
  `SeedsKeptIff`, `InStepIff`);
- a refreshed cookie can equal the timestamp that marks handshakes, and is then refused
  (`EchoPasses`, `StartIsCookie`, `FourthCookieRefused`);
- a client that sets ECE itself opens or resets connections at the smartcookie server
  (`OpensThrough`, `ClientTagOpens`);
- the batch counters are exact up to 255 packets; comments beside them say 511
  (`CountExact`);
- incremental checksum updates are right at even timestamp offsets, and at odd ones
  only by accident (`SynAckChecksum`, `HandoverChecksum` and others);
- the answer to the server's SYN-ACK is summed over 36 bytes whatever its length
  (`PrefixCheckIff`, `AnswerCompletesHandshake`);
- with the A/B option the smartcookie gateway recomputes the checksum after tagging,
  so the SYN that the server makes of it is never valid (`TagCountedByRecompute`);
- a connection whose seed is 0 never gets a hybrid cookie (`InitialisedIff`,
  `ZeroSeedRefused`);
- the server's option parser gives up after 10 options, the gateway's after 40
  (`ParsersAgree`, `ServerMisses`), and mask tests can be misled (`GatewayIsPlain`, `MaskMisleads`);
- bit vectors are in bounds, and bucket counts fit 32 bits, only under conditions
  (`InBoundsIff`, `BucketsFit`).

`dafny verify dfyconfig.toml` checks the whole project.

## Model

| member | source | states |
|---|---|---|
| `Rings.MaskedSlot` | xdp-tools/headers/xdp/xsk.h:49-79 | masking a wrapped u32 index gives the slot of the unbounded index, for rings of up to 2^31 entries |
| `Rings.SlotsApart` | xdp-tools/headers/xdp/xsk.h:49-79 | indices fewer than `size` apart use different slots, so no unconsumed slot is overwritten |
| `Rings.WrappedDifference` | xdp-tools/headers/xdp/xsk.h:86-116 | the u32 difference of two wrapped counters is the true difference while that fits in 32 bits |
| `Rings.XskRingProd.constructor` | xdp-tools/headers/xdp/xsk.h:86-104 | a new producer ring is the empty queue of its size |
| `Rings.XskRingProd.NbFree` | xdp-tools/headers/xdp/xsk.h:86-104 | free slots as known locally, looked up again and then exact when fewer than asked for |
| `Rings.XskRingProd.Reserve` | xdp-tools/headers/xdp/xsk.h:118-127 | gives nb slots exactly when nb are free, else none, despite a stale `cached_cons` and index wrap-around |
| `Rings.XskRingProd.Store` | xdp-tools/headers/xdp/xsk.h:49-55 | writing the j-th reserved slot changes that slot only; the queue keeps its contents |
| `Rings.XskRingProd.Submit` | xdp-tools/headers/xdp/xsk.h:129-135 | the oldest reserved slots join the queue in order, with the values written into them |
| `Rings.XskRingProd.KernelTake` | xdp-tools/headers/xdp/xsk.h:129-135 | the other side gets the oldest submitted value |
| `Rings.XskRingCons.NbAvail` | xdp-tools/headers/xdp/xsk.h:106-116 | entries available, looked up again only when none are known |
| `Rings.XskRingCons.Peek` | xdp-tools/headers/xdp/xsk.h:137-147 | hands out the oldest unread entries, at most nb, at least one if any, never an unsubmitted one |
| `Rings.XskRingCons.Load` | xdp-tools/headers/xdp/xsk.h:56-79 | reading the j-th peeked slot gives the j-th oldest entry |
| `Rings.XskRingCons.Cancel` | xdp-tools/headers/xdp/xsk.h:149-152 | the newest peeked entries become unread again |
| `Rings.XskRingCons.Release` | xdp-tools/headers/xdp/xsk.h:154-160 | the oldest peeked entries leave the queue |
| `Fifo.PeekTakesOldest` | xdp-tools/headers/xdp/xsk.h:137-147 | what was unread is what a peek hands out followed by what is unread after it |
| `Fifo.TakenArePrefix` | xdp-tools/headers/xdp/xsk.h:86-135 | in every run the values consumed are a prefix of the values submitted, and the queue is what lies between |
| `Fifo.ReadsArePrefix` | xdp-tools/headers/xdp/xsk.h:106-160 | in every run of peek, cancel, release and production, released then peeked values are a prefix of those produced |
| `Engine.OwnerByShift` | src/xsknf.c:27-35 | `addr >> owner_shift` is the socket that owns the frame containing addr |
| `Engine.PopulateFill` | src/xsknf.c:162-170 | the fill ring of a new socket holds exactly its own 4096 frame addresses, in order |
| `Steps.InitialInv` | src/xsknf.c:902-937 | the initial state satisfies the invariant: every frame is in its owner's fill ring |
| `Frames.KernelKeepsInv` | src/xsknf.c:412-585 | every kernel step (fill to rx, tx to completion, in any order) keeps the invariant on places, owners, contents, order and accounts |
| `Frames.ExactlyOnePlace` | src/xsknf.c:445-470 | under the invariant each UMEM frame is at exactly one position of exactly one place |
| `Frames.ReceiveSideOwned` | src/xsknf.c:27-35 | frames in the fill and rx rings of a socket, or held by the kernel between them, are its own |
| `Frames.FillNeverShort` | src/xsknf.c:456-462 | completed or dropped frames always fit in their owner's fill ring, so the exit branches are dead |
| `Frames.WriteKeepsContent` | src/xsknf.c:563-571 | writing to a frame that is not live, or to its twin in another UMEM, disturbs no live packet |
| `Frames.KernelLeavesWorker` | src/xsknf.c:502-584 | kernel steps change nothing local to the worker, nor the bytes of packets it is working on |
| `Steps.PeekCompKeepsInv` | src/xsknf.c:442 | peeking completions moves the frames to the worker and keeps the invariant |
| `Steps.SortOneKeepsInv` | src/xsknf.c:445-449 | sorting a completed frame by owner stays inside the arrays and keeps the invariant |
| `Steps.ReleaseCompKeepsInv` | src/xsknf.c:451 | releasing completions keeps the invariant, with `outstanding_tx` owing the difference |
| `Steps.SubmitFillKeepsInv` | src/xsknf.c:464-469 | returning frames to their owner's fill ring keeps the invariant |
| `Steps.PeekRxKeepsInv` | src/xsknf.c:492 | received descriptors move to the batch, still holding the packets that arrived |
| `Steps.NextArrival` | src/xsknf.c:502-512 | the bytes at the next descriptor are those of the next arrival on the socket |
| `Steps.ProcessOneKeepsInv` | src/xsknf.c:512-521 | rewriting a packet and queueing it keeps the invariant, including arrival order per pair of sockets |
| `Steps.ReleaseRxKeepsInv` | src/xsknf.c:524 | releasing the rx entries keeps the invariant |
| `Steps.SubmitDropKeepsInv` | src/xsknf.c:538-542 | frames of dropped packets go to the receiving socket's fill ring |
| `Steps.CopyOneKeepsInv` | src/xsknf.c:563-566 | a copy into another UMEM never overwrites a live frame |
| `Steps.CopyOneReads` | src/xsknf.c:563-571 | after the copies the target buffer holds the same bytes, packet by packet |
| `Steps.SubmitTxKeepsInv` | src/xsknf.c:567-581 | submitted descriptors stand for the forwarded packets, in order |
| `Steps.FillNeverShortOne` | src/xsknf.c:614-618 | with one interface, completed frames fit in its fill ring |
| `Engine.CountExact` | src/xsknf.c:419-420 | a uint8_t counter of n packets is n mod 256: exact if and only if n is at most 255 |
| `Engine.OutstandingCounts` | src/xsknf.c:438-473 | between operations `outstanding_tx` is the number of frames in the tx ring, held for sending, or in the completion ring |
| `Engine.UnreadIff` | src/xsknf.c:492 | packets wait in the rx ring exactly when some arrived and were not processed |
| `Engine.VerdictObeyed` | src/xsknf.c:512-521 | the packet as the processor rewrote it joins the end of the queue its verdict names, -1 counts as one drop, and no other queue changes |
| `Engine.NoneLost` | src/xsknf.c:502-522 | every packet given to the processor is queued once or dropped once |
| `Engine.Worker.constructor` | src/xsknf.c:899-937 | a new worker satisfies the invariant with balanced books |
| `Engine.Worker.KernelSteps` | src/xsknf.c:412-585 | any number of kernel steps keeps the invariant and leaves the worker alone |
| `Engine.Worker.SortAll` | src/xsknf.c:444-449 | the counters nfill[] are the lengths of the arrays to_fill[] |
| `Engine.Worker.ReturnAll` | src/xsknf.c:455-471 | every sorted frame is back in its owner's fill ring; no exit is taken |
| `Engine.Worker.CompleteTx` | src/xsknf.c:412-475 | invariant and books kept, other sockets' accounts untouched; at least a batch of the completions in sight, or all of them, are counted as sent and their frames returned |
| `Engine.Worker.CompleteTxOne` | src/xsknf.c:587-628 | the same for the single-interface form |
| `Engine.Worker.ProcessNext` | src/xsknf.c:502-521 | exactly one more packet is handled: the processor gets the next arrival and its verdict decides the queue |
| `Engine.Worker.ProcessAll` | src/xsknf.c:502-522 | the whole batch is handled as by folding the processor over it, and the uint8_t counters are right |
| `Engine.Worker.Transmit` | src/xsknf.c:563-582 | copied if needed, submitted and counted; books balanced again |
| `Engine.Worker.ProcessBatch` | src/xsknf.c:477-585 | completions are collected first; the next packets, at least one if any arrived, are given to the processor in order and go where it says; no exit is taken; received = dropped + queued + outstanding + sent; it stops short only with packets that do not fit in a tx ring, and never under a kernel that keeps sending with room beside what is outstanding |
| `Engine.Worker.Retry` | src/xsknf.c:550-560 | a turn of the retry loop collects completions of the receiving socket and reserves all or nothing; under a kernel that keeps sending, less is left to send after it |
| `Engine.Worker.RetryUntilRoom` | src/xsknf.c:548-561 | the tx retry loop ends under a kernel that keeps sending, if the target is the receiving socket or its outstanding packets leave room |
| `Engine.Worker.FinishBatch` | src/xsknf.c:477-715 | process_batch under a kernel that keeps sending ends with the whole batch done, if the other sockets have at most 4096 packets outstanding less a batch; always with one interface |
| `Engine.Worker.RetryNever` | src/xsknf.c:548-561 | otherwise, from every such state, no number of retries succeeds |
| `Engine.Worker.Round` | src/xsknf.c:735-741 | one round serves every socket once, in order, unless it ends waiting for room; a socket with packets waiting gets at least one processed; with one interface and a kernel that keeps sending it never waits |
| `Standstill.StandstillReached` | src/xsknf.c:477-585 | for every memory and packet, worker and kernel steps lead from the initial state of two sockets to a state with the invariant, no operation half done, and one packet that RetryNever says is never sent |
| `Standstill.RunKeepsInv` | src/xsknf.c:412-585 | every list of such steps keeps the invariant on places, owners, contents, order and accounts |
| `Engine.Worker.WorkerLoop` | src/xsknf.c:717-743 | memory, forwarded packets and drops after any number of rounds are those of processing the sockets' packets in order 0..n-1, round after round; unless it waits, every socket advances by the number of rounds or by all it had waiting; invariant and balanced books kept |
| `Engine.WorkedMore` | src/xsknf.c:723-741 | rounds chain: what was handled before is not changed by packets that arrive later |
| `OneInterface.OneRefinesMany` | src/xsknf.c:587-628 | every end state of complete_tx_1if, under any interleaving of kernel steps, is one of complete_tx on one socket |
| `OneInterface.RunAhead` | src/xsknf.c:610-626 | releasing completions early commutes with every sequence of kernel steps |
| `Checksum.CalSum` | examples/common/csum.c:3-16 | the 32-bit accumulator holds the exact sum of big-endian pairs of any IP packet |
| `Checksum.Fold` | examples/common/csum.c:49-54 | two folds keep the sum modulo 65535 and give 0 only for 0 |
| `Checksum.CsumAdd` | examples/common/csum.c:61-65 | end-around carry: the sum, or the sum less 2^32-1, and 0 only for 0 and 0 |
| `Checksum.IncrementalModulo` | examples/htscookie/switch_agent_user.c:389-405 | an incremental update moves the field by the change modulo 65535 and never yields 0xffff |
| `Checksum.Fold64` | examples/htscookie/server.h:99-110 | four folds bring every 64-bit accumulator to 16 bits, keeping it modulo 65535 |
| `Checksum.FoldHelper64` | examples/htscookie/server.h:99-110 | the loop with its conditional folds computes the complement of that |
| `Packets.TotalModulo` | examples/common/csum.c:18-46 | the checksum over bytes is linear in the raw fields, with swapped weight after an odd number of bytes |
| `Packets.FullCheckValid` | examples/common/csum.c:35-46 | the recomputed field makes the segment valid and is never 0xffff |
| `Packets.CheckUnique` | examples/common/csum.c:35-46 | the valid field other than 0xffff is unique |
| `Packets.AccountedIsFull` | examples/htscookie/switch_agent_user.c:389-405 | an update that accounts for every changed field is the recomputed one if and only if the timestamp offset is even or its change is a multiple of 257 |
| `Recompute.CksumTcp` | examples/common/csum.c:35-46 | the two sums, two folds and byte swap give the recomputed field |
| `Recompute.LoadedSum` | examples/htscookie/server.h:120-131 | sums of byte pairs and of little-endian words agree modulo 65535 up to a factor 256 |
| `Recompute.PrefixCheckIff` | examples/htscookie/server.h:120-131 | a checksum over a fixed prefix is right if and only if the bytes beyond it and their number sum to 0 modulo 65535 |
| `Rewrites.SynAckChecksum` | examples/htscookie/switch_agent_user.c:327-405 | SYN to SYN-ACK: it acknowledges the number after the SYN's; the updated field equals the recomputed one if and only if the offset is even or TS_START - TSecr is a multiple of 257 |
| `Rewrites.RstChecksum` | examples/htscookie/switch_agent_user.c:452-478 | ACK to RST: the updated field always equals the recomputed one |
| `Rewrites.IpResizeChecksum` | examples/htscookie/switch_agent_user.c:335-354 | the IP length moves by the change, nothing else does, and the checksum equals the recomputed one |
| `Rewrites.AckToSynChecksum` | examples/htscookie/server_in_kern.c:262-288 | ACK to SYN: each changed field is accounted for once, window and flags included |
| `Rewrites.HandoverChecksum` | examples/htscookie/server_in_kern.c:417-428 | ingress handover: right if and only if the offset is even or the change of TSecr is a multiple of 257 |
| `Rewrites.SynAckBackChecksum` | examples/htscookie/server_in_kern.c:435-450 | clearing SYN on a redirected SYN-ACK keeps the field right |
| `Ledgers.FirstLayout` | examples/htscookie/server_in_kern.c:75-104 | a first hybrid cookie has counter 1, 14 bits of the folded SYN cookie and the map cookie |
| `Ledgers.NextLayout` | examples/htscookie/server_in_kern.c:402-412 | a refresh advances the counter modulo 4, keeps the 14 bits and takes the new map cookie |
| `Ledgers.RefreshKeepsFlow` | examples/htscookie/server_in_kern.c:385-414 | bringing a cookie up to date keeps the connection's record straight |
| `Ledgers.IngressKeeps` | examples/htscookie/server_in_kern.c:196-450 | every packet from a client keeps the table in step with the ledger: cookie, seed number, refreshes, offset and last timestamp of each connection |
| `Ledgers.EgressKeeps` | examples/htscookie/server_en_kern.c:59-194 | so does every packet of the server, however many SYN-ACKs it sends |
| `Ledgers.DataDelivered` | examples/htscookie/server_in_kern.c:417-420 | data of a known connection is delivered: nothing but acknowledgement, echo and check field changes, by the offset that the SYN-ACKs fixed |
| `Ledgers.EgressSent` | examples/htscookie/server_en_kern.c:161-191 | a packet of the server leaves with the offset added and the hybrid cookie as TSval; RST without it |
| `Protocol.LinkSend` | examples/htscookie/server_en_kern.c:185-191 | a cookie sent behind the seed changes on the FIFO link never overtakes its seed |
| `Protocol.LinkNotify` | examples/htscookie/server_in_kern.c:325-365 | a seed change joins the link behind all earlier ones |
| `Protocol.ChangeRoundTrip` | examples/htscookie/server_in_kern.c:325-365 | the packet of a rotation reads back at the gateway as the old map cookie, new cookie, key, seed and duration it was made of |
| `Protocol.StepKeeps` | examples/htscookie/server_in_kern.c:196-450 | every ingress, egress and gateway step keeps the protocol invariant: table and ledger agree, and gateway, link and server hold the same seeds in the same order |
| `Protocol.RunsKeepInv` | examples/htscookie/switch_agent_user.c:549-570 | every state of every run satisfies it |
| `Protocol.SeedsKeptIff` | examples/htscookie/switch_agent_user.c:560-570 | a packet from the server side leaves the gateway's seeds alone if and only if it has no ECE or repeats a known seed, and passes if and only if it has no ECE |
| `Protocol.InStepIff` | examples/htscookie/switch_agent_user.c:560-570 | with an empty link gateway and server agree on all seeds, and still do after a server packet went through if and only if it has no ECE or repeats the seed |
| `Protocol.EceSynAckMisread` | examples/htscookie/switch_agent_user.c:560-570 | a SYN-ACK with ECE is lost and its sequence number becomes a seed that the server does not have |
| `Protocol.EchoPasses` | examples/htscookie/switch_agent_user.c:431-547 | a cookie that left through the gateway has a seed no newer than the gateway's; while the seed is current, or in the grace window, the handler passes its echo if and only if it is not TS_START or acknowledges the SYN cookie |
| `Protocol.StartIsCookie` | examples/htscookie/switch_agent_user.c:433 | a hybrid cookie is TS_START if and only if its counter is 0, its hash part 0x101 and its map cookie 0 |
| `Protocol.FourthCookieRefused` | examples/htscookie/switch_agent_user.c:433-547 | such a cookie is right and passes the cookie check, and its echo is dropped |
| `Protocol.CookieLayout` | examples/htscookie/server_in_kern.c:385-414 | in every run, for every initialised cookie: low 16 bits are the map cookie of the recorded seed, bits 16-29 the folded SYN cookie, top two bits the number of refreshes since it was initialised modulo 4 |
| `Handovers.CookieRoundTrip` | examples/htscookie/switch_agent_user.c:359-441 | a client that acknowledges the SYN-ACK and echoes its timestamp passes the check, for every SYN and later gateway state; the SYN-ACK acknowledges the number after the SYN's |
| `Handovers.ForwardedAckHasCookie` | examples/htscookie/switch_agent_user.c:433-451 | an opening ACK reaches the server only with the SYN cookie of its addresses |
| `Handovers.EgressTranslates` | examples/htscookie/server_en_kern.c:161-191 | in every run, for every connection: sequence numbers of the server move by the recorded offset; with one SYN-ACK its byte j is the client's byte j after the acknowledged cookie, with the hybrid cookie as TSval |
| `Handovers.IngressTranslates` | examples/htscookie/server_in_kern.c:417-420 | in every run, for every connection: acknowledgements move back by the same offset and TSecr is the last TSval the server sent; with one SYN-ACK the client's acknowledgement of byte j is one of the server's byte j |
| `Handovers.TranslationInverse` | examples/htscookie/server_in_kern.c:417 | ingress and egress translation undo each other modulo 2^32 |
| `Handovers.SynOpenedUntouched` | examples/htscookie/server_en_kern.c:94-101 | connections opened by a SYN keep sequence and acknowledgement numbers, in both directions |
| `Handovers.IngressPromised` | examples/htscookie/server_in_kern.c:196-450 | every packet from a client, branch by branch: opened with a SYN that counts from one before it, opened by a SYN with its cookie under the current seed, delivered, or passed; data of an unknown connection is never passed but counted, and at the threshold a rotation stores and announces a new seed; nothing else at the server changes |
| `Handovers.EgressPromised` | examples/htscookie/server_en_kern.c:59-194 | every packet of the server, branch by branch: translated and restamped, answered if it is the SYN-ACK of a connection opened by an ACK, or dropped if the connection is unknown; the recorded duration is the longest time between two packets since a cookie changed |
| `Handovers.AnswerCompletesHandshake` | examples/htscookie/server_en_kern.c:103-150 | the answered SYN-ACK has the right ends, numbers and timestamps; its check field is right if and only if the bytes beyond 36 sum to zero |
| `Handovers.StampedChecksum` | examples/htscookie/switch_agent_user.c:573-596 | an outbound SYN with its timestamp replaced has a right check field if and only if the offset is even or the change a multiple of 257 |
| `Handovers.InitialisedIff` | examples/htscookie/server_in_kern.c:385-414 | data leaves a connection's cookie initialised if and only if the current seed is nonzero |
| `Handovers.ZeroSeedRefused` | examples/htscookie/server_in_kern.c:385-414 | with seed 0 the cookie stays 0 and passes outside the grace window only if the map cookie is 0 |
| `Handovers.TemplatesParse` | examples/htscookie/switch_agent_user.c:78-102 | both parsers find the timestamp in packets with the gateway's option templates |
| `Admissions.InboundPromised` | examples/htscookie/switch_agent_user.c:290-547 | every packet from a client at the gateway, branch by branch: answered, sent back as RST, passed or dropped, with the filter and the cache after it |
| `Admissions.KeptAnswers` | examples/htscookie/switch_agent_user.c:319-410 | the answer that keeps the client's options: ends reversed, SYN and ACK set and no other flag changed, the cookie as number, the SYN's number plus one acknowledged, window 502, payload untouched |
| `Admissions.FreshAnswers` | examples/htscookie/switch_agent_user.c:334-410 | likewise with the gateway's options: a 36-byte header, a payload of the same length whose bytes did not move, a right check field |
| `Admissions.DataAdmitted` | examples/htscookie/switch_agent_user.c:509-547 | a data ACK passes, untouched, if and only if its low half is the folded hash of its address under the seed in force, or the grace window is open and 14 bits are those of its flow's cookie; the gateway does not change |
| `Admissions.OldCookieIff` | examples/htscookie/switch_agent_user.c:509-547 | in every run, the echo of a cookie that was let out passes if and only if its map part is also that of the gateway's present seed, or the grace window is open and its 14 bits fit: with the window closed, a rotated cookie passes by collision only |
| `Admissions.HandshakeSpliced` | examples/htscookie/server_in_kern.c:240-288 | the ACK of a client that got a cookie SYN-ACK makes the server see a SYN with the number of the client's own, and record the cookie |
| `Admissions.AckResets` | examples/htscookie/switch_agent_user.c:452-478 | a validated ACK of a new address goes back as RST with its acknowledgement as number and a right check field |
| `Admissions.LengthsAgree` | examples/htscookie/switch_agent_user.c:335-354 | the length in the adjusted IP header is that of the new segment |
| `Admissions.OutboundPromised` | examples/htscookie/switch_agent_user.c:549-600 | every packet from the server side: a seed change with ECE, a SYN restamped with the hybrid cookie of its destination, anything else untouched |
| `Rotations.StraysCounted` | examples/htscookie/server_in_kern.c:312-368 | in every run the packets of unknown connections are 5,000,000 for every rotation and the present count besides, which is less; the duration on record is the longest one or the search for it is new |
| `Rotations.RotationsSpaced` | examples/htscookie/server_in_kern.c:312-368 | from one rotation to the next exactly 5,000,000 such packets arrive |
| `SynBudget.SynOpensThrough` | examples/htscookie/server_in_kern.c:203-224 | a SYN of a known address opens a connection, through gateway and server, if and only if a cookie was cached for it and its header has 32 bytes; the server records that cookie |
| `SynBudget.AckOpensThrough` | examples/htscookie/switch_agent_user.c:433-506 | an ACK does if and only if it echoes TS_START, acknowledges this worker's SYN cookie, comes from a known address and carries no data or FIN; the server records that cookie |
| `SynBudget.ValidatesIff` | examples/htscookie/switch_agent_user.c:446-451 | an ACK counts as validated if and only if its address enters the filter; its cookie is then in the cache, and otherwise nothing changed |
| `SynBudget.StepInBudget` | examples/htscookie/switch_agent_user.c:317-325 | opened connections, cookies in flight and cached cookies together never exceed the validated ACKs |
| `SynBudget.OpenedWithinBudget` | examples/htscookie/switch_agent_user.c:446-451 | in every run forwarded SYNs open at most as many connections as there were validated ACKs from new addresses |
| `SynBudget.SynArrivesUnchanged` | examples/htscookie/server_in_kern.c:203-224 | a SYN with TSecr 0 reaches the server as the client sent it, or is dropped if no cookie was cached |
| `HtsAgents.ServerAgent.constructor` | examples/htscookie/server_in_kern.c:107-120 | empty connection table and ledger, each seed its own index |
| `HtsAgents.ServerAgent.Ingress` | examples/htscookie/server_in_kern.c:196-450 | the in-place program keeps its table in step with the ledger and does to every packet what IngressPromised says; it is the ingress function, step by step |
| `HtsAgents.ServerAgent.Egress` | examples/htscookie/server_en_kern.c:59-194 | likewise for egress and EgressPromised, round-trip statistics included |
| `HtsAgents.GatewayAgent.constructor` | examples/htscookie/switch_agent_user.c:260-265 | seeds are their own index, filter and cache empty |
| `HtsAgents.GatewayAgent.Inbound` | examples/htscookie/switch_agent_user.c:290-547 | the in-place processor, with a real Bloom filter and cache, does to every packet what InboundPromised says; it is the inbound function, step by step |
| `HtsAgents.GatewayAgent.CheckCookie` | examples/htscookie/switch_agent_user.c:433-506 | likewise for cookie ACKs |
| `HtsAgents.GatewayAgent.Outbound` | examples/htscookie/switch_agent_user.c:549-600 | likewise for OutboundPromised; a packet passes if and only if it has no ECE, and the seeds in place stay if and only if it has none or repeats a known seed |
| `SmartRuns.CookieRoundTrip` | examples/smartcookie/switch_agent_user.c:289-341 | an ACK of the gateway's SYN-ACK passes the gateway, known or not, and the server's own check, tagged or not |
| `SmartRuns.OpensThrough` | examples/smartcookie/server_in_kern.c:175-211 | an ACK opens a connection, through gateway and server, if and only if its cookie is right and the flow is new to the filter or the server, or it has ECE and the flow is in the filter |
| `SmartRuns.ClientTagOpens` | examples/smartcookie/server_in_kern.c:175-211 | an ACK with the client's own ECE and a wrong cookie, on a flow in the filter, resets the connection's splice point |
| `SmartRuns.KeptChecksum` | examples/smartcookie/switch_agent_user.c:306-325 | SYN to SYN-ACK: right if and only if the offset is even or 1 - TSecr is a multiple of 257 |
| `SmartRuns.RestampChecksum` | examples/smartcookie/switch_agent_user.c:391-401 | outbound timestamp replacement: right if and only if the offset is even or the change is a multiple of 257 |
| `SmartRuns.AckHandoverChecksum` | examples/smartcookie/server_in_kern.c:148-172 | without a timestamp to replace, the check field always stays right |
| `SmartRuns.OpenChecksum` | examples/smartcookie/server_in_kern.c:213-241 | an ACK opened at the server, tagged or not, is a valid SYN if and only if the client did not set ECE, and the echo stays, is at an even offset, or is a multiple of 257 |
| `SmartRuns.TagCancels` | examples/smartcookie/server_in_kern.c:213-241 | a tagged valid ACK becomes a valid SYN if and only if the client did not set ECE, and the offset is even or TSecr a multiple of 257 |
| `SmartRuns.TagCountedByRecompute` | examples/smartcookie/switch_agent_user.c:350-372 | with the A/B option the tag is counted at the gateway and not at the server: the SYN is never valid |
| `SmartRuns.ReplyCompletesHandshake` | examples/smartcookie/server_en_kern.c:93-157 | the answered SYN-ACK has the right ends and numbers; its check field is right if and only if the bytes beyond 36, or 24 without a timestamp, and their number sum to 0 modulo 65535 |
| `SmartRuns.TaggedAtMostOnce` | examples/smartcookie/switch_agent_user.c:336-349 | in every run the gateway tags each flow at most once |
| `SmartRuns.IngressKeeps` | examples/smartcookie/server_in_kern.c:116-260 | every packet from a client keeps the recorded opening, SYN-ACKs and last timestamp of every connection in step with its splice point |
| `SmartRuns.EgressKeeps` | examples/smartcookie/server_en_kern.c:58-187 | so does every packet of the server, however many SYN-ACKs it sends |
| `SmartRuns.RunsKeepTable` | examples/smartcookie/server_en_kern.c:93-187 | so does every run |
| `SmartRuns.EgressTranslates` | examples/smartcookie/server_en_kern.c:184 | in every run: sequence numbers of the server move by the recorded offset; with one SYN-ACK byte j of the server is byte j after the acknowledged cookie |
| `SmartRuns.IngressTranslates` | examples/smartcookie/server_in_kern.c:148-172 | in every run: acknowledgements move back by it; with one SYN-ACK an acknowledgement of byte j is one of the server's byte j |
| `SmartRuns.IngressPromised` | examples/smartcookie/server_in_kern.c:116-260 | every packet from a client, branch by branch: opened as a SYN that counts from one before it, delivered, dropped or passed, with the table after it and the exact condition on its check field |
| `SmartRuns.EgressPromised` | examples/smartcookie/server_en_kern.c:58-187 | every packet of the server, branch by branch: translated, answered if it is a SYN-ACK, or dropped if its connection is unknown, with the table after it |
| `SmartAdmissions.FromClientPromised` | examples/smartcookie/switch_agent_user.c:230-375 | every packet from a client at the gateway, branch by branch, with the filter after it; the SYN-ACK acknowledges the SYN's number plus one |
| `SmartAdmissions.RefusedIff` | examples/smartcookie/switch_agent_user.c:332-374 | an ACK is dropped if and only if its flow is not in the filter and its cookie is wrong; the filter gains its positions exactly when it is new and right; without the A/B option it passes as it is, or with only ECE set |
| `SmartAdmissions.DataGetsThrough` | examples/smartcookie/switch_agent_user.c:336-374 | data of a connection known to gateway and server reaches the server as bytes of its own |
| `SmartAdmissions.HandshakeSpliced` | examples/smartcookie/server_in_kern.c:213-241 | the ACK of a client that got a cookie SYN-ACK makes the server see a SYN with the number of the client's own |
| `SmartAdmissions.TagsIff` | examples/smartcookie/switch_agent_user.c:336-349 | a packet counts as tagged if and only if it passes although its flow was not in the filter, and it leaves with ECE |
| `SmartAdmissions.FromServerPromised` | examples/smartcookie/switch_agent_user.c:379-404 | every packet from the server side: put in the filter and dropped with ECE, restamped with ACK, else untouched |
| `SmartAgents.FlowBytesTell` | examples/smartcookie/switch_agent_user.c:233-236 | different flows have different 12-byte records |
| `SmartAgents.ServerAgent.Ingress` | examples/smartcookie/server_in_kern.c:116-260 | the in-place program keeps its table in step with the recorded splices and does to every packet what IngressPromised says; it is the ingress function, step by step |
| `SmartAgents.ServerAgent.Egress` | examples/smartcookie/server_en_kern.c:58-187 | likewise for egress and EgressPromised |
| `SmartAgents.GatewayAgent.FromClient` | examples/smartcookie/switch_agent_user.c:230-375 | the in-place processor, with a real Bloom filter, does to every packet what FromClientPromised says; it is the function, step by step |
| `SmartAgents.GatewayAgent.FromServer` | examples/smartcookie/switch_agent_user.c:379-404 | likewise for FromServerPromised |
| `BitVectors.InBoundsIff` | examples/common/bitutil.c:17-34 | all bits lie in the allocated words if and only if their number is a multiple of 32 |
| `BitVectors.BitVector.constructor` | examples/common/bitutil.c:17-34 | a new vector has no bit set |
| `BitVectors.BitVector.Get` | examples/common/bitutil.c:52-62 | shift and mask tell whether the bit is set |
| `BitVectors.BitVector.Set` | examples/common/bitutil.c:70-86 | exactly one bit is set or cleared, in place |
| `BloomFilters.PutIsFound` | examples/common/bloom.c:75-108 | no false negatives: the positions of a key that was put are covered |
| `BloomFilters.MarksAre` | examples/common/bloom.c:75-108 | a key's positions are one bit for each hash function and no others |
| `BloomFilters.BloomFilter.Put` | examples/common/bloom.c:75-81 | the key's positions are added to the bits, and to nothing else |
| `BloomFilters.BloomFilter.Test` | examples/common/bloom.c:100-108 | true if and only if the key's positions lie in the union of those of all keys put |
| `NullsLists.AddHeadLinked` | headers/linux/list_nulls.h:112-122 | adding at the head puts an unlinked element in front, with right back-links |
| `NullsLists.DelLinked` | headers/linux/list_nulls.h:124-138 | deleting through the back-link takes out exactly that element and mends both directions |
| `HashMaps.RoundupPow2` | examples/common/khashmap.c:17-26 | the least power of two that is not smaller |
| `HashMaps.BucketsFit` | examples/common/khashmap.c:28-37 | stored in 32 bits it survives if and only if max_entries is at most 2^31, and is 0 beyond |
| `HashMaps.ReplaceOk` | examples/common/khashmap.c:153-168 | replacing a value keeps a well-formed table for the updated map |
| `HashMaps.InsertOk` | examples/common/khashmap.c:153-168 | inserting in the next free element does, for the extended map |
| `HashMaps.DeleteOk` | examples/common/khashmap.c:214-221 | deleting does, for the smaller map |
| `HashMaps.KHashMap.constructor` | examples/common/khashmap.c:28-67 | a new table is the empty map |
| `HashMaps.KHashMap.SelectBucket` | examples/common/khashmap.c:81-91 | masking selects the bucket hash mod n_buckets |
| `HashMaps.KHashMap.Walk` | examples/common/khashmap.c:94-128 | the walk ends, at the key's element if the key is in the map, else at the bucket's own marker |
| `HashMaps.KHashMap.Lookup` | examples/common/khashmap.c:112-193 | the value in the map, if any; the retry jump is never taken |
| `HashMaps.KHashMap.Update` | examples/common/khashmap.c:130-172 | the map with the key set; one element used for a new key; count is the map's size |
| `HashMaps.KHashMap.Delete` | examples/common/khashmap.c:195-228 | the map without the key; 2 if it was absent |
| `Jenkins.MixBijection` | headers/linux/jhash.h:57-66 | mixing has a two-sided inverse on triples of words |
| `Jenkins.FinalBijection` | headers/linux/jhash.h:68-78 | so has the final mix, before two of its words are dropped |
| `Jenkins.RolRotates` | headers/linux/jhash.h:57-66 | the shifts and `or` are a rotation of the 32 bits |
| `Jenkins.Jhash` | headers/linux/jhash.h:93-131 | the loop and the fall-through tail compute the hash of a byte sequence |
| `Jenkins.Jhash2` | headers/linux/jhash.h:140-169 | the loop and the tail compute the hash of a word sequence |
| `Jenkins.FixedWords` | headers/linux/jhash.h:173-197 | the fixed forms for three, two and one words are the hash of that many words |
| `Jenkins.JhashIsJhash2` | headers/linux/jhash.h:93-169 | the bytes of any word sequence hash like the words |
| `Jenkins.EmptyHash` | headers/linux/jhash.h:93-131 | the hash of nothing is 0xdeadbeef plus the initial value |
| `Timestamps.MaskByBytes` | examples/common/timestamp.c:4-15 | a mask test on a loaded word is a test of each byte |
| `Timestamps.ParseAtGateway` | examples/common/timestamp.c:18-126 | early returns and loop compute the gateway's parser for any number of option bytes |
| `Timestamps.ParseAtServer` | examples/htscookie/server.h:240-418 | likewise for the server's parser |
| `Timestamps.ParsersAgree` | examples/htscookie/server.h:240-418 | what the server finds the gateway finds at the same offset; conversely if and only if a mask or 10 turns reach it and it lies in the packet |
| `Timestamps.ServerMisses` | examples/htscookie/server.h:358-403 | ten NOPs before the option: found by the gateway, missed by the server |
| `Timestamps.SlowIff` | examples/common/timestamp.c:91-125 | on any bytes, well-formed or not, 40 turns find the option exactly where a chain of steps leads to its kind byte |
| `Timestamps.PlainIff` | examples/common/timestamp.c:91-125 | a plain walk finds the timestamp at k if and only if an option starts there and its kind is 8 |
| `Timestamps.GatewayIsPlain` | examples/common/timestamp.c:18-125 | 40 turns suffice for every well-formed list (section 3.1 of RFC 9293); the parser is right if and only if no mask matches or the bytes in front, given mask by mask, put an option start at the promised offset |
| `Timestamps.MaskMisleads` | examples/common/timestamp.c:56-60 | every ACK that starts with window scale 9 and a NOP is misread |
| `Timestamps.MssSack` | examples/common/timestamp.c:31-35 | MSS, SackOK, timestamp: parsed as by a plain walk, in every kind of packet |
| `Timestamps.MssScaleNops` | examples/common/timestamp.c:44-48 | MSS, NOP, WScale, NOP, NOP, timestamp: likewise |
| `Timestamps.MssScaleSack` | examples/common/timestamp.c:49-53 | MSS, NOP, WScale, SackOK, timestamp: likewise |
| `Timestamps.NoMask` | examples/common/timestamp.c:5-9 | the masks for window scale never match it, so those layouts take the slow path |
| `Timestamps.MssNops` | examples/common/timestamp.c:77-81 | MSS, NOP, NOP, timestamp: likewise |
| `Timestamps.TwoNops` | examples/common/timestamp.c:56-60 | NOP, NOP, timestamp: likewise |

## Left out

- Netlink and TC set-up, eBPF loading, socket creation, wake-ups, polling and statistics other than packet counters: plumbing without state to reason about.
- Ethernet headers and the choice of the outgoing interface by address (`forward`): only easy members.
- The internals of haraka and hsiphash, and the hash functions of the Bloom filter: parameters.
- The HSIPHASH variant of the htscookie SYN cookie: it hashes swapped addresses on the SYN side, so its round trip is a different claim.
- The timestamp-off, pressure, drop and forward options of the gateways, the DROPTEST code and SKB mode at egress: configuration.
- `map_cookies`, which is written and not read on the modelled paths.
- Bytes past the end of a segment that gets longer options: the gateway sends what the frame held before, the model 0.
- Segments whose data offset points past their end, at the gateways.
- Packets without a timestamp option at the smartcookie gateway, and the smartcookie SYN-ACK without options.
- A failing lookup of `rtt_map` or read of a connection entry: both succeed in the model.
- `khashmap_clear`, locks, and allocation beyond `max_entries`.
- Unaligned UMEM chunks and batches of more than 255 packets.
- Engine.Worker.ProcessBatch: waits for room in a tx ring for a number of retries given by the caller, because the source's loop need not end; RetryUntilRoom, FinishBatch and RetryNever say when it does.
- Engine.Worker.RetryUntilRoom: assumes a kernel that takes a packet only with a completion slot to spare and makes progress on the target socket in every turn.
- HashMaps.KHashMap.Update: requires a free element for a new key, as the source does without checking.
- Timestamps.ParseAtServer: is stated for headers of at least 32 bytes inside the packet, the only ones it is called on.
- Protocol.StepKeeps: takes server packets without ECE, because the gateway reads any other as a seed change; SeedsKeptIff and InStepIff say exactly when that matters.
- Protocol.RunsKeepInv: likewise for whole runs.
- OneInterface.OneRefinesMany: covers complete_tx_1if; the rest of process_batch_1if performs the operations of process_batch in the same order, and FinishBatch covers both.
