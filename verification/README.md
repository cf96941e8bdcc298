# Verified model of libconntrack-cm

libconntrack-cm watches RDMA communication management (CM) packets between a local
host and the network, and answers one question: which local queue pair talks to
queue pair `d` at address `ip`? It also builds congestion notification packets
(CNPs) for RoCE v2. This project models both in Dafny and proves what the answers
mean, for arbitrary packets and whole runs.

## The tracker

`TrackerModel` is the tracker as a state machine on values. Flow objects live in a
sequence in order of creation, so that an index is an object's identity and
aliasing between the two id maps is explicit. `Decide` holds the twelve handlers'
switch statements, `Step` is one packet, `Run` a sequence of packets. A failed
`assert` ends the run with the assert that failed, and the theorems range over runs
that have not ended.

`ConnectionTracker` is the tracker as the source has it: classes whose methods
update shared flow objects and maps in place. Every method is proved to do what the
model does, down to object identity and the failing assert. The second half of each
handler, its switch, is a method of its own (suffix `On`).

The properties build on each other:

- `TrackerInvariant`: the invariant of every reachable state. The query table is an
  exact index of the marked flows although `erase_flow` deletes the second key by the
  id in the packet.
- `Handlers`: each of the twelve handlers by the fields of its packet and the phases it
  acts in, and the four ways a packet finds its flow.
- `ExactIndex`: the query answers as a scan over all flows would.
- `EstablishedIndex`: exactly which packets keep every established flow in the query
  table.
- `Asserts`: exactly which packets fail which assert; three asserts and three early
  returns are dead code.
- `Lifecycle`, `Locality`, `Agreement`, `Retransmission`: how a flow may change, what a
  packet leaves alone, when the two id maps agree, what a repeated packet does.
- `Provenance`: every answer is traced back to a handshake in the packets seen that
  nothing since has torn down.
- `Session`: one connection among arbitrary other traffic, from REQ to DREP or REJ.
- `TwoEnds`: two trackers joined by a network that delays, drops, reorders and
  duplicates; their answers mirror each other.

## The wire formats

`Words`, `BitFields` and `ByteOrder` model unsigned words as natural numbers and prove
the bitwise operators bit by bit, for all widths; a C type's width is an explicit
reduction. `IbaFields` and `CmMessages` give the standard's byte and bit positions
their meaning and connect datagram bytes to the packets the tracker sees. `Bth`,
`Cnp` and `CnpTemplate` cover the CNP, with the CRC as an arbitrary function.
`EndToEnd` ties the two halves together.

Protocol and formats are those of the InfiniBand Architecture Specification,
Volume 1: section 12.6 and Tables 106 to 113 for the messages, section 12.9 for the
state machines, section 7.8.1 for the ICRC, Annex A17 for RoCE v2.

Four properties one might expect do not hold of the code. `Counterexamples` has runs
against each, and the exact conditions are proved, read off the maps before the packet
is processed:

- The two id maps can disagree after an erasing packet that omits or mixes ids
  (`Agreement.StepAgrees`).
- A repeated DREP is not a no-op (`Retransmission.RepeatedDrepExactly`).
- An established flow need not be in the query table. It may never get an entry, because
  a QPN is zero or the key is taken at the RTU; or it may lose its entry and stay
  established, because a received REJ names it by only one of the ids it is entered
  under. `EstablishedIndex.StepKeepsIndexed` proves that there is no other way.
- A REJ before the RTU need not make the tracker forget the connection: the peer's REJ of
  its own request is ignored (`Session.RefusedExactly`).

Lemmas for which Dafny would otherwise supply an induction hypothesis of its own carry
`{:induction false}`, so that a proof rests on what its body says.

## Model

| member | source | states |
|---|---|---|
| `ConnectionTracker.ConnectionTracker.GetSourceQpn` | src/cm_connection_tracker.h:104-111 | the answer from the query table is the one a scan over all flow objects gives |
| `ConnectionTracker.ConnectionTracker.AddNewFlow` | src/cm_connection_tracker.cpp:89-133 | on shared, mutable flow objects: same outcome, same failing assert, same three maps and same object identities as the value model; the null-state assert (line 118) cannot fail |
| `ConnectionTracker.ConnectionTracker.GetFlow` | src/cm_connection_tracker.cpp:42-64 | the returned object and the state left are those of the value model, or the same assert fails |
| `ConnectionTracker.ConnectionTracker.EraseFlow` | src/cm_connection_tracker.cpp:66-87 | the second key goes by the id in the packet, not by the id in the flow; outcome and state are those of the value model |
| `ConnectionTracker.ConnectionTracker.OnEstablished` | src/cm_connection_tracker.cpp:467-487 | inserts only with nonzero QPNs and a free key, and marks the flow exactly then |
| `ConnectionTracker.ConnectionTracker.OnDisconnected` | src/cm_connection_tracker.cpp:489-508 | removes the flow's own key and clears its mark, with both early exits |
| `ConnectionTracker.ConnectionTracker.ReqSent` | src/cm_connection_tracker.cpp:147-163 | in-place handler: outcome, failing assert, all three maps and every flow's fields are those of one model step |
| `ConnectionTracker.ConnectionTracker.ReqReceived` | src/cm_connection_tracker.cpp:165-183 | in-place handler: outcome, failing assert, all three maps and every flow's fields are those of one model step |
| `ConnectionTracker.ConnectionTracker.RejSent` | src/cm_connection_tracker.cpp:185-219 | in-place handler: outcome, failing assert, all three maps and every flow's fields are those of one model step |
| `ConnectionTracker.ConnectionTracker.RejReceived` | src/cm_connection_tracker.cpp:221-258 | in-place handler: outcome, failing assert, all three maps and every flow's fields are those of one model step |
| `ConnectionTracker.ConnectionTracker.RepSent` | src/cm_connection_tracker.cpp:260-284 | in-place handler: outcome, failing assert, all three maps and every flow's fields are those of one model step |
| `ConnectionTracker.ConnectionTracker.RepReceived` | src/cm_connection_tracker.cpp:286-306 | in-place handler: outcome, failing assert, all three maps and every flow's fields are those of one model step |
| `ConnectionTracker.ConnectionTracker.RtuSent` | src/cm_connection_tracker.cpp:308-325 | in-place handler: outcome, failing assert, all three maps and every flow's fields are those of one model step |
| `ConnectionTracker.ConnectionTracker.RtuReceived` | src/cm_connection_tracker.cpp:327-344 | in-place handler: outcome, failing assert, all three maps and every flow's fields are those of one model step |
| `ConnectionTracker.ConnectionTracker.DreqSent` | src/cm_connection_tracker.cpp:346-367 | in-place handler: outcome, failing assert, all three maps and every flow's fields are those of one model step |
| `ConnectionTracker.ConnectionTracker.DreqReceived` | src/cm_connection_tracker.cpp:369-389 | in-place handler: outcome, failing assert, all three maps and every flow's fields are those of one model step |
| `ConnectionTracker.ConnectionTracker.DrepSent` | src/cm_connection_tracker.cpp:391-410 | in-place handler: outcome, failing assert, all three maps and every flow's fields are those of one model step |
| `ConnectionTracker.ConnectionTracker.DrepReceived` | src/cm_connection_tracker.cpp:412-431 | in-place handler: outcome, failing assert, all three maps and every flow's fields are those of one model step |
| `ConnectionTracker.ConnectionTracker.Process` | src/cm_connection_tracker.cpp:433-465 | any packet in either direction is one model step, and the invariant of the whole state survives it |
| `CmTypes.HandlersReadNames` | src/cm_connection_tracker.cpp:147-431 | if and only if: the ids the handlers look flows up by and erase under are the ones the packet's fields carry for its direction |
| `Handlers.UnknownLocalId` | src/cm_connection_tracker.cpp:42-64 | an RTU, DREQ, DREP, sent REQ or received REP with an unknown local id acts as on a new idle flow known by that id only |
| `Handlers.UnknownPeerKey` | src/cm_connection_tracker.cpp:165-168 | a received REQ with an unknown peer key acts as on a new idle flow known by that key only |
| `Handlers.UnknownIds` | src/cm_connection_tracker.cpp:89-133 | a REJ or sent REP with two unknown ids acts as on a new idle flow known by both |
| `Handlers.UnknownLocalIdOfPeer` | src/cm_connection_tracker.cpp:107-131 | a REJ or sent REP whose peer key alone is known first gives that flow its local id, or fails the local-id assert if the flow has another |
| `Handlers.SentReq` | src/cm_connection_tracker.cpp:147-163 | packet by its fields, known flow: exactly in IDLE and REQ_SENT the flow becomes REQ_SENT with the packet's QPN; nothing else changes |
| `Handlers.ReceivedReq` | src/cm_connection_tracker.cpp:165-183 | likewise: exactly in IDLE and REQ_RCVD it becomes REQ_RCVD with the packet's QPN; a repeated REQ with another QPN fails the assert |
| `Handlers.SentRep` | src/cm_connection_tracker.cpp:260-284 | likewise: exactly in REQ_RCVD it becomes REP_SENT with the packet's QPN, and no map changes |
| `Handlers.ReceivedRep` | src/cm_connection_tracker.cpp:286-306 | likewise: exactly in REQ_SENT it becomes REP_RCVD with the packet's QPN and is entered under the sender's address and id |
| `Handlers.SentRtu` | src/cm_connection_tracker.cpp:308-325 | likewise: exactly in REP_RCVD it becomes ESTABLISHED, with a query table entry if QPNs and key allow one |
| `Handlers.ReceivedRtu` | src/cm_connection_tracker.cpp:327-344 | likewise, exactly in REP_SENT |
| `Handlers.SentDreq` | src/cm_connection_tracker.cpp:346-367 | likewise: exactly in IDLE, ESTABLISHED, DREQ_SENT and DREQ_RCVD it becomes DREQ_SENT |
| `Handlers.ReceivedDreq` | src/cm_connection_tracker.cpp:369-389 | likewise: exactly in REP_SENT, ESTABLISHED, DREQ_SENT and DREQ_RCVD it becomes DREQ_RCVD; the flow is found by the packet's second id |
| `Handlers.SentRej` | src/cm_connection_tracker.cpp:185-219 | likewise: exactly in IDLE, REQ_SENT, REQ_RCVD, REP_SENT and REP_RCVD both ids and the query table entry go; else nothing changes |
| `Handlers.ReceivedRej` | src/cm_connection_tracker.cpp:221-258 | likewise, exactly in IDLE, REQ_SENT, REP_SENT, REP_RCVD, ESTABLISHED and DREQ_SENT |
| `Handlers.SentDrep` | src/cm_connection_tracker.cpp:391-410 | likewise, exactly in DREQ_SENT and DREQ_RCVD |
| `Handlers.ReceivedDrep` | src/cm_connection_tracker.cpp:412-431 | likewise, exactly in DREQ_SENT and DREQ_RCVD; the flow is found by the packet's second id |
| `Handlers.RejTakesDownExactly` | src/cm_connection_tracker.cpp:185-258 | if and only if, for any REJ whose ids lead to a flow, by either map: both ids and the flow's table entry go exactly in the phases of its direction; otherwise at most the flow gets its local id |
| `TrackerInvariant.StepKeepsInv` | src/cm_connection_tracker.cpp:42-133 | every packet keeps: map keys are nonzero and are the ids their flows record; marked flows are connected with nonzero QPNs; the query table is a bijection with the marked flows, each entered under its own local id |
| `TrackerInvariant.RunKeepsInv` | src/cm_connection_tracker.cpp:147-431 | the same over every run of arbitrary packets, as long as no assert has failed |
| `TrackerInvariant.OnDisconnectedKeepsInv` | src/cm_connection_tracker.cpp:489-508 | for a marked flow the bad-QPN and not-in-table exits are dead, and the invariant is kept |
| `ExactIndex.QueryIsScan` | src/cm_connection_tracker.h:83-90 | the hash lookup equals a linear scan over flows |
| `ExactIndex.QueryNamesItsOwner` | src/cm_connection_tracker.cpp:467-482 | a nonzero answer has exactly one owner, which sits in local_map under its own id and whose local QPN it is; zero means no owner |
| `ExactIndex.TableCountsFlows` | src/cm_connection_tracker.cpp:475-504 | the table's keys are the keys of the marked flows, one each, so its size is their number |
| `ExactIndex.ReachableTableIsExact` | src/cm_connection_tracker.h:104-111 | all three facts in every state reachable by any packets |
| `ExactIndex.EntryExactlyWhen` | src/cm_connection_tracker.cpp:467-482 | if and only if: an RTU gives its flow a table entry exactly when both QPNs are nonzero and the key is free; the flow is established either way. What later packets do to the entry is in the next two rows |
| `EstablishedIndex.StepKeepsIndexed` | src/cm_connection_tracker.cpp:66-87 | if and only if: with every established flow in the table, a packet keeps it so exactly when an RTU's flow has nonzero QPNs and a free key, and a received REJ names an established flow by every id it is entered under |
| `EstablishedIndex.RunKeepsIndexed` | src/cm_connection_tracker.cpp:221-344 | if and only if: every state of a run has its established flows in the table exactly when each packet satisfied that condition when its turn came |
| `Counterexamples.EstablishedWithoutEntry` | src/cm_connection_tracker.cpp:469-473 | a reachable established flow that the query table lacks |
| `Counterexamples.EstablishedLosesEntry` | src/cm_connection_tracker.cpp:221-258 | a full handshake and a REJ with local id 0 after which the flow is established and not in the table |
| `Counterexamples.RejStrips` | src/cm_connection_tracker.cpp:70-86 | in every state with an open connection such a REJ removes its table entry and leaves it established under its local id, with nonzero QPNs and a free key |
| `Counterexamples.MapsCanDisagree` | src/cm_connection_tracker.cpp:78-79 | a REJ after which a flow is in one id map and not in the other |
| `Counterexamples.DrepIsNotIdempotent` | src/cm_connection_tracker.cpp:391-410 | a run whose second DREP changes the state again |
| `Counterexamples.RejOfOwnRequest` | src/cm_connection_tracker.cpp:221-258 | a REQ and the peer's REJ of it after which the tracker still knows the request |
| `Asserts.AbortsExactlyAsPredicted` | src/cm_connection_tracker.cpp:46-131 | if and only if: which assert a packet fails, read off the maps beforehand; the asserts at lines 68, 101 and 105 never fail |
| `Asserts.RunAbortsOnLiveAsserts` | src/cm_connection_tracker.cpp:89-133 | in every run only five asserts can end it |
| `Asserts.LookupWithoutIdIsLive` | src/cm_connection_tracker.cpp:46-46 | a run that fails the lookup's assert |
| `Asserts.ReqQpnChangedIsLive` | src/cm_connection_tracker.cpp:172-173 | a run that fails the repeated-REQ assert |
| `Asserts.LocalIdTakenIsLive` | src/cm_connection_tracker.cpp:120-121 | a run that fails the local-id assert |
| `Asserts.RemoteIdTakenIsLive` | src/cm_connection_tracker.cpp:126-127 | a run that fails the remote-id assert |
| `Asserts.MapsDisagreeIsLive` | src/cm_connection_tracker.cpp:98-99 | a run in which the two maps lead to different flows |
| `Asserts.EraseMeetsItsFlow` | src/cm_connection_tracker.cpp:70-86 | erase_flow always finds the flow the handler looked up; the unknown-id exit is dead |
| `Asserts.SentRepLinksNothingMore` | src/cm_connection_tracker.cpp:260-276 | rep_sent's second add_new_flow aborts or changes nothing |
| `Lifecycle.StepEvolves` | src/cm_connection_tracker.cpp:147-431 | one packet never lowers a flow's phase rank, never rewrites an id, never changes QPNs from the REP phase on, never re-indexes a flow that left the table |
| `Lifecycle.RunEvolves` | src/cm_connection_tracker.cpp:89-133 | the same over whole runs |
| `Lifecycle.ReachableFlows` | src/cm_connection_tracker.h:28-41 | MRA and TIMEWAIT phases are unreachable; marks imply a connected phase; neither map holds a flow under two keys |
| `Locality.UnnamedFlowIsUntouched` | src/cm_connection_tracker.cpp:42-133 | non-interference across all twelve handlers: fields, both id entries and the table entry of a flow the packet does not name |
| `Locality.UnnamedThroughRun` | src/cm_connection_tracker.cpp:147-431 | non-interference over whole runs |
| `Locality.EntrySurvivesOtherFlows` | src/cm_connection_tracker.cpp:75-79 | tearing down a flow that lost a key collision leaves the winner's entry |
| `Locality.StepEffect` | src/cm_connection_tracker.cpp:475-504 | a packet changes at most one table key, its own flow's; only RTU inserts, only REJ and DREP remove |
| `Locality.TableIsConserved` | src/cm_connection_tracker.cpp:467-508 | table size is insertions minus removals over the run |
| `Agreement.StepAgrees` | src/cm_connection_tracker.cpp:66-133 | if and only if, read off the maps beforehand: the id maps stay in agreement exactly when an erasing packet omits no recorded id and names no key of another flow that has a local id |
| `Agreement.RunAgrees` | src/cm_connection_tracker.cpp:185-258 | agreement over runs whose erasing packets all do so |
| `Retransmission.RepeatedMessageIsIgnored` | src/cm_connection_tracker.cpp:147-183 | a REQ, REP, RTU or DREQ seen twice leaves the very same state, and the second copy never aborts |
| `Retransmission.RepeatedRejLeavesGarbage` | src/cm_connection_tracker.cpp:185-258 | a REJ seen twice leaves the same maps and flows, up to an unreachable flow |
| `Retransmission.RepeatedDrepAddsIdleFlow` | src/cm_connection_tracker.cpp:391-431 | a second DREP leaves the table alone and adds at most one idle flow under its local id |
| `Retransmission.RepeatedDrepExactly` | src/cm_connection_tracker.cpp:391-431 | if and only if: the second DREP is a no-op exactly when the first found no disconnecting flow |
| `Provenance.AnswerHasHandshake` | src/cm_connection_tracker.cpp:260-344 | for arbitrary packets: every answer's flow has its REQ, REP and RTU in the history, in that order, and since then no DREQ followed by a DREP, and no REJ except one the peer's DREQ makes void |
| `Provenance.AnswerHasProvenance` | src/cm_connection_tracker.cpp:147-183 | with nonzero ids and addresses: an answer q for (ip, d) comes from a full active or passive handshake between q here and d at ip, which no packet naming its local id has torn down since its RTU |
| `Session.ForeignKeepsStage` | src/cm_connection_tracker.cpp:42-133 | packets naming neither of a session's ids leave it at its stage |
| `Session.OwnPacketAdvances` | src/cm_connection_tracker.cpp:260-431 | a session's own packet, given by its fields, first copy or retransmission, never aborts, moves it to the next stage and disturbs nothing else; REJs by either end included |
| `Session.RtuOpensExactlyWhenFree` | src/cm_connection_tracker.cpp:475-482 | if and only if: the RTU gives the session its table entry exactly when the key is free |
| `Session.DrepClears` | src/cm_connection_tracker.cpp:391-431 | the DREP removes both ids and the table entry |
| `Session.RefusedExactly` | src/cm_connection_tracker.cpp:185-258 | if and only if: before the RTU a REJ by either end makes the tracker forget both ids and nothing else, except the peer's REJ of its own request, which only links the local id |
| `Session.RejAdvances` | src/cm_connection_tracker.cpp:185-258 | at every stage: whether a REJ by host or peer ends the session, and that nothing else is disturbed |
| `Session.StageIsFollowed` | src/cm_connection_tracker.cpp:147-431 | the tracker follows the session's protocol stage through every interleaving |
| `Session.SessionTheorem` | src/cm_connection_tracker.cpp:147-431 | under any interleaving the query returns the session's QPN from RTU until the DREP or REJ that ends it, right after which it finds nothing and neither id is known |
| `Session.UndisturbedSessionRestores` | src/cm_connection_tracker.cpp:147-431 | without interleaving a session that came and went, by teardown or refusal, never aborts and all three maps return to their initial values |
| `Session.PlainSession` | src/cm_connection_tracker.cpp:147-431 | the five-message handshake and teardown is such a session, active or passive |
| `TwoEnds.EventKeepsInv` | src/cm_connection_tracker.cpp:147-183 | two trackers over a lossy, reordering, duplicating network: no event aborts, and each end is exactly where its own sends and receipts put it |
| `TwoEnds.HandshakesNeverAbort` | src/cm_connection_tracker.cpp:260-344 | no handshake traffic, however mangled, fails an assert at either end: every play goes on with every enabled event |
| `TwoEnds.AnswersMirror` | src/cm_connection_tracker.h:54-60 | if one end answers q for d, the other answers d for q as soon as it answers at all, and exactly when it was the asker or the RTU has arrived |
| `TwoEnds.PlainHandshake` | src/cm_connection_tracker.cpp:260-344 | in every network the three messages of a connection make such a play: the asker answers once the RTU is sent, both ends once it has arrived |
| `BitFields.GenMaskIsContiguous` | src/linux-compat.h:59-65 | GENMASK(h, l) is 2^(h+1) - 2^l for all bounds |
| `BitFields.FieldArithmetic` | src/bitfield.h:79-97 | FIELD_GET is division and remainder, FIELD_PREP remainder and product, for every contiguous mask |
| `BitFields.ChecksAcceptContiguous` | src/bitfield.h:103-108 | field_multiplier's check and the power-of-two check of lines 54-55 accept the same masks, and exactly the contiguous ones |
| `BitFields.FamiliesAgree` | src/bitfield.h:113-133 | the multiplicative accessors equal the shifting ones for every contiguous mask and base width |
| `ByteOrder.LoadStore` | src/linux-compat.h:26-40 | storing then loading keeps the low bits, in either byte order |
| `ByteOrder.StoreLoad` | src/linux-compat.h:26-40 | loading then storing keeps every byte, in either byte order |
| `ByteOrder.ReplaceThenGet` | src/bitfield.h:120-133 | get_bits after replace_bits gives the value modulo 2^width, for big- and little-endian storage of any width |
| `ByteOrder.ReplaceKeepsOthers` | src/bitfield.h:120-124 | fields on disjoint bits read as before |
| `ByteOrder.ReplaceBitsInPlace` | src/bitfield.h:125-129 | the pointer form leaves in memory what the value form computes, so a contiguous field reads back and fields on disjoint bits read as before |
| `IbaFields.WordOffset` | src/iba.h:126-136 | the 0xFFFE and 0xFFFC masks round an offset down to its word if and only if it is below 65536 |
| `IbaFields.BlocDescribes` | src/iba.h:119-124 | the descriptor covers exactly the bits its byte and bit offsets name |
| `IbaFields.Field16Describes` | src/iba.h:126-130 | likewise for 16-bit words, at even and odd offsets |
| `IbaFields.Field32Describes` | src/iba.h:132-136 | likewise for 32-bit words, at any offset in the word |
| `IbaFields.Field64Describes` | src/iba.h:138-139 | likewise for 64-bit words |
| `IbaFields.GetReadsBits` | src/iba.h:85-92 | IBA_GET is the number written big-endian in the described bits, for every buffer |
| `IbaFields.SetWritesBits` | src/iba.h:18-63 | IBA_SET changes exactly the described bits of the whole message, to the low bits of the value |
| `IbaFields.SetThenGet` | src/iba.h:57-63 | reading back gives the value modulo 2^width |
| `IbaFields.SetKeepsOtherFields` | src/iba.h:18-55 | every field on other bits, in words of any size, reads as before |
| `IbaFields.IbaSetInPlace` | src/iba.h:57-63 | the in-place write of the word leaves the buffer the value form describes, so the field reads back and every field on other bits reads as before |
| `CmMessages.ReadId` | src/ibta_vol1_c12.h:25-27 | an id field is the four bytes at its table offset, big-endian |
| `CmMessages.ReadQpn` | src/ibta_vol1_c12.h:45-45 | a QPN field is the three bytes at its table offset, so below 2^24 |
| `CmMessages.DecodeFollowsTables` | src/ibta_vol1_c12.h:40-154 | which bytes of a datagram each of the six messages takes its ids and QPN from, by attribute id |
| `CmMessages.DatagramNames` | src/ibta_vol1_c12.h:40-154 | from datagram bytes and addresses to the two ids a handler uses, in either direction |
| `EndToEnd.AnswersAreNarrow` | src/ibta_vol1_c12.h:122-122 | for datagrams with arbitrary bytes: every answer is below 2^24, and nonzero only for 1 <= dqpn < 2^24 |
| `EndToEnd.AnswerReachesCnp` | src/cnp.cpp:66-66 | a QPN the tracker answered, put into a CNP, reads back unchanged, with FECN, BECN and reserved bits kept |
| `Bth.SetQpnBytes` | src/rxe_hdr.h:205-212 | setting the QPN keeps the first byte of the word and writes the other three |
| `Bth.SetThenGetQpn` | src/rxe_hdr.h:198-212 | the QPN reads back modulo 2^24 |
| `Bth.TestReadsBit` | src/rxe_hdr.h:214-219 | the flag tests on the stored word read bit 31 and bit 30 of its value |
| `Bth.SetMaskBit` | src/rxe_hdr.h:221-246 | setting or clearing a flag changes that bit and no other |
| `Bth.FieldsAreIndependent` | src/rxe_hdr.h:198-246 | QPN and flags never disturb each other |
| `Bth.SetQpnInPlace` | src/rxe_hdr.h:205-212 | the header in the packet buffer is changed in those bytes only |
| `Cnp.GenerateCnp` | src/cnp.cpp:57-82 | the packet buffer afterwards, for any header lengths, CRC function and host byte order, when the asserts on packet type and header lengths hold |
| `Cnp.ComputeIcrc` | src/cnp.cpp:68-78 | the CRC is taken over the pseudo packet built from the buffer |
| `Cnp.PseudoByte` | src/cnp.cpp:49-77 | the pseudo packet byte by byte: ones for the prefix and the variant fields, the packet's own bytes elsewhere |
| `Cnp.CompletedBytes` | src/cnp.cpp:66-81 | the completed packet byte by byte |
| `Cnp.CompletionFrame` | src/cnp.cpp:57-82 | only the low 24 QPN bits and the ICRC are written |
| `Cnp.TemplateIsReusable` | src/cnp.cpp:57-82 | generate(generate(t, a), b) = generate(t, b), for any CRC function |
| `Cnp.IcrcIgnoresVariant` | src/cnp.cpp:70-78 | the ICRC does not depend on TOS, TTL, checksums, FECN, BECN, reserved bits, old QPN or old ICRC, nor on QPN bits above 23 |
| `Cnp.CompletedQpn` | src/cnp.cpp:66-66 | the QPN reads back modulo 2^24 and the first byte of its word is kept |
| `Cnp.CompletedIcrcHolds` | src/cnp.cpp:68-81 | the ICRC stored in a completed packet is the CRC over that very packet, masked as its receiver masks it |
| `CnpTemplate.FillTemplate` | src/cnp.cpp:16-47 | packet type and header lengths are set; the 60 template bytes are appended, or -1 is returned and no byte changes |
| `CnpTemplate.TemplateHeaders` | src/cnp.cpp:28-45 | the template's bytes as header fields: IPv4 version, TOS, length, DF, TTL and protocol; UDP ports and length; BTH opcode, partition key, BECN and FECN; zero elsewhere |
| `CnpTemplate.CompletedTemplate` | src/cnp.cpp:41-44 | a completed template is a CNP header field by header field, with the requested QPN and a right ICRC, and zero in the fields left to the user |
| `CnpTemplate.MakeCnp` | src/cnp.cpp:16-82 | the two calls on one buffer: it then holds such a CNP behind the bytes it held, or there was no room and no byte changed |

## Left out

- DPDK mbufs beyond buffer, packet type and header lengths, dynamic fields, pointer casts, the
  handler tables, logging, state names and hashing: plumbing. A packet is a record of
  direction, addresses and message, or of direction, addresses and datagram bytes.
- `src/parser.cpp`: a short straight-line chain. Datagrams are taken to have their 256
  bytes; the parser itself only checks that the 24-byte header fits.
- `src/main.cpp`: wrappers that only forward.
- The CRC algorithm, which is library code; every theorem holds for any CRC function.
- Freeing of flow objects: a flow in neither map stays in the model as garbage that no
  packet can reach.
- MRA, SIDR, LAP and APR messages and the timewait TODOs: there are no handlers for
  them. The MRA and TIMEWAIT phases are kept only to be proved unreachable.
- `FIELD_FIT`, the compile-time constant checks and the overflow check on constant
  values: they decide whether the program compiles, not what it computes.
- `IBA_SET_MEM`, `IBA_GET_MEM` and `IBA_FIELD_MLOC`: byte copies.
- The other BTH accessors (flags, partition key, PSN, acknowledge, `__bth_set_resv6a`)
  and the opcode-indexed accessors: nothing here calls them except to store constants
  in the template.
- `TwoEnds.AnswersMirror`: covers REQ, REP and RTU traffic without REJ or teardown, and hosts that
  answer only messages that reached them.
- `Cnp.GenerateCnp`: takes the buffer to be long enough for the bytes it touches, which the source
  does not check.
- `Cnp.IsIpv4`: the packet type is modelled by the two bits the library sets and tests; their
  values are DPDK's.
