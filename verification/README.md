# A verified model of the MRP daemon

The daemon `mrpd` is an endpoint implementation of the Multiple Registration
Protocol (section 10 of IEEE 802.1Q-2011).  For every attribute (a VLAN ID in
MVRP, a stream or domain in MSRP, a MAC address in MMRP) an Applicant machine
makes a local declaration known to the peers and a Registrar machine remembers
what the peers declare; one LeaveAll machine per application makes everybody
declare again.  This project models that daemon in Dafny, from the state tables to
the linked lists and the frames on the wire, together with a few smaller pieces of
the same repository.

## Layers

- `Mrp`, `MrpRuns`: the machines of `mrp.c` as transition functions, and what they
  guarantee over whole event sequences.  The table is proved equal to a second,
  independently written reading.
- `MrpPdu`, `VidCodec`, `VidRoundTrip`, `VidBudget`: MVRP frames.  Encoder and parser
  are functions on bytes; decoding undoes encoding, and a sum over the runs of
  consecutive VIDs decides what a frame carries.
- `MvrpSpec`, `MvrpInvariants`, `MvrpTimers`: the MVRP participant as a value.  Every
  run refines a map from VIDs to (declared, registrar state).
- `MvrpPair`, `MvrpLoss`: two participants on a link.  A quiet declaration is
  registered at the peer as long as frames carry it when they must and the peer's
  LeaveAlls are sent, and three transmit opportunities make it so; two runs show what
  happens otherwise.
- `AttribList`, `MrpPacking`, `MvrpEncoder`, `MvrpDatabase`, `MvrpReceiver`: the C code's
  own form.  A doubly linked list is updated in place by sorted insertion and by walks
  that unlink the node under them; the encoder clears flags while it fills the frame,
  and its stores come before its bounds tests as they do in the source.  Each method is
  proved against the functions of the layer above.
- `ListenerCodec`, `ListenerRoundTrip`, `ListenerBudget`, `ListenerEncoder`,
  `ListenerReceiver`: the MSRP Listener message, whose vectors carry events three to a
  byte and substates four to a byte, again as functions and as loops over the list and
  the frame.
- `RxBounds`: how much zeroed room behind a frame keeps both parsers inside their
  buffer.
- `MsrpSpec`, `MsrpInvariants`, `MsrpTimers`, `MsrpDatabase`: the MSRP participant.
  Merging rewrites attributes in place, and the list is still a map with unique keys.
- `MsrpLink`, `MsrpReceiver`, `MsrpPair`: a Listener message from one MSRP participant to
  another, through both of the above, down to the receiver's linked list, and what two
  participants that exchange such messages agree on in every run.
- `Mmrp`: the MMRP list with its two sorted blocks.
- `Queue`: the semaphore-guarded ring between threads, step by step in every
  interleaving.
- `Eui64Set`: the sorted array of interesting stream IDs as a set.
- `CommandText`: the client's text command and the daemon's parser.
- `Nvm`: the checksums of the network adapter's NVM.

## Where the code and its documentation disagree

- `daemons/mrpd/mrp.h:75-79` says that after a Leave or LeaveAll at least two New or
  Join messages are sent, counting JoinIns of peers.  The table counts more:
  `MrpRuns.OneJoinIsEnough` is a run with one, and
  `MrpRuns.DocumentedCountFailsExactly` names all the steps where the counts differ.
- The LeaveAll timer stops the join timer and does not start it again;
  `MvrpTimers.LvaTimerLosesJoin` says when that leaves an applicant without a transmit
  opportunity.
- `mvrp_event` ignores whether `mvrp_txpdu` sent everything;
  `MvrpPair.RegisteredIffCarried` says what that means for the peer, and
  `MvrpLoss.LostInARun` is a run in which a declaration goes quiet unheard.  If what is
  not sent is a LeaveAll, registrations are taken back that the peer believes in:
  `MvrpPair.UnsentLeaveAll`, `MvrpLoss.LeaveAllLostInARun`.
- Both parsers can look past the bytes received.  The zeroed receive buffer of 2000 bytes
  makes that harmless for MVRP frames of at most 1996 bytes and for Listener messages in
  frames of at most 1989, and no longer ones (`RxBounds.VidInsideIff`,
  `RxBounds.ListenerInsideIff`).
- `msrp_emit_listenvectors` asks for 13 bytes of room but an empty LeaveAll takes 16;
  `ListenerRoundTrip.FitsRoom` and `ListenerEncoder.EmitListeners` say exactly when it is
  stored past the frame.
- Clients are told that a VID has left although nobody had registered it, when a peer's
  In mentions an unknown VID (`MvrpTimers.LeaveOfAnUnknownVid`).

## Modelling choices

- Sends are outputs of a step and notifications are a sequence; timers are flags
  that say whether they run, and their expiry is an event that may come at any time.
  Allocation and timer starts succeed.
- Between events an attribute is its value and its two machine states.  The encoder's
  flags and the pending notification are part of the MVRP class, where they are proved
  to be settled before an event returns.
- Where a parser would read past its buffer, the model stops with the status Overrun
  before the read.  `RxBounds` says exactly when that cannot happen.
- `qsort`, `bsearch`, `sprintf` and `sscanf` are taken at their C contracts.
- Words and bytes are integers with explicit ranges; wrap-around is written out.

## Model

| member | source | states |
|---|---|---|
| `MrpRuns.TableIsTransition` | daemons/mrpd/mrp.c:551-904 | The applicant table agrees, on every state and event and in both p2pmac modes, with a second reading that moves an anxiety and a role separately |
| `MrpRuns.DeclaredIffRequested` | daemons/mrpd/mrp.c:561-904 | After any event sequence the applicant is in VP, VN, AN, AA, QA, AP or QP exactly when the last New, Join or Lv since Begin was a New or Join |
| `MrpRuns.ReclaimSparesRequested` | daemons/mrpd/mvrp.c:1304-1307 | Whatever the event sequence, an attribute that the reclaim guard lets go is not requested by a client |
| `MrpRuns.UnearnedCalm` | daemons/mrpd/mrp.c:551-904 | One step lowers anxiety by more than the messages it accounts for exactly when a client re-joins in LA |
| `MrpRuns.TwoMessages` | daemons/mrpd/mrp.h:75-79 | From VP or VN and without a local Lv, on every event sequence the level (V=0, A=1, Q=2) never exceeds the number of required transmissions, JoinIns received and point-to-point Ins received |
| `MrpRuns.TwoMessagesAfterLeaveAll` | daemons/mrpd/mrp.h:75-79 | After rLv or rLA a declared applicant is not quiet again before two such messages |
| `MrpRuns.DocumentedCountFailsExactly` | daemons/mrpd/mrp.h:75-79 | Against the narrower count that the header comment gives (New and Join sent, JoinIn received) a step is unearned exactly for Join in LA, an own LeaveAll in VP, and a point-to-point In in AA |
| `MrpRuns.OneJoinIsEnough` | daemons/mrpd/mrp.h:75-79 | A concrete run after a peer's LeaveAll that is quiet after a single Join, against the header comment |
| `MrpRuns.TwoDocumentedMessages` | daemons/mrpd/mrp.h:75-79 | On every run from VP or VN without a local Lv, the level never exceeds the header comment's count plus the number of those steps that the run takes |
| `MrpRuns.TxLowersRank` | daemons/mrpd/mrp.c:719-791 | A Tx lowers the number of transmit opportunities an applicant still needs, and that number is zero exactly in VO, QA, AO, QO and QP |
| `MrpRuns.RequestByRole` | daemons/mrpd/mrp.c:627-791 | What each transmit opportunity sends, and whether it may be left out, in every state, by anxiety and role |
| `MrpPdu.UnpackPack` | daemons/mrpd/mrp.h:177 | The receiver's divisions undo the 3-pack macro for every triple of events |
| `MrpPdu.UnpackPacked` | daemons/mrpd/mrp.h:177 | Each event of a run of any length is found again in its packed byte |
| `MrpPacking.StoreCode` | daemons/mrpd/mvrp.c:796-812 | Adding one event, with a store into the frame at every third, keeps the bytes stored and the open triple equal to the packing of all events so far |
| `MrpPacking.StoreTrailer` | daemons/mrpd/mvrp.c:822-830 | The trailer completes the packing of a run whose length is no multiple of three |
| `VidRoundTrip.HeaderRoundTrip` | daemons/mrpd/mrp.h:181-188 | An encoded vector header, read back, gives count, LeaveAll flag and first VID, and is never an end mark |
| `VidRoundTrip.ValuesOfPacked` | daemons/mrpd/mvrp.c:532-603 | Decoding the packed bytes of a vector reports each of its (VID, event) pairs in order |
| `VidRoundTrip.ParseEncoded` | daemons/mrpd/mvrp.c:498-611 | The vector loop, on encoded vectors and an end mark, reports exactly their values, one LeaveAll at most, and stops at the end mark |
| `VidRoundTrip.EmitSound` | daemons/mrpd/mvrp.c:677-855 | What the encoder writes stays inside the frame, has counts that fit 13 bits, flags only the first vector, and stands for exactly the attributes it picked |
| `VidRoundTrip.RoundTrip` | daemons/mrpd/mvrp.c:646-889 | mvrp_recv_msg on any frame of mvrp_txpdu reports the LeaveAll if one was asked for and then each picked attribute's event, in ascending order, whatever follows in the buffer |
| `VidRoundTrip.PickedExactly` | daemons/mrpd/mvrp.c:677-855 | Up to where the encoder got, every attribute that had to be sent is sent exactly once and nothing without tx is sent |
| `VidRoundTrip.NotSentBehindStop` | daemons/mrpd/mvrp.c:677-690 | An attribute the encoder did not get to is not in the frame |
| `VidRoundTrip.EmptyLeaveAllParses` | daemons/mrpd/mvrp.c:857-869 | The LeaveAll sent for an empty database is seen, although the parser then gives up the frame |
| `VidBudget.EmitSpends` | daemons/mrpd/mvrp.c:677-855 | The encoder fails exactly when the vectors it begins overrun the message, and otherwise writes exactly that many bytes |
| `VidBudget.CarriedIff` | daemons/mrpd/mvrp.c:677-690 | An attribute that must be sent is in a frame that is sent exactly when the vectors begun take at most 1978 bytes and those before its own fewer than 1975 |
| `VidBudget.CostDecides` | daemons/mrpd/mvrp.c:677-855 | All vectors together take at most 1978 bytes exactly when a frame is sent and nothing that must be sent is left out of it |
| `VidBudget.CostFalls` | daemons/mrpd/mvrp.c:677-690 | If attributes become optional, the vectors take no more bytes, although runs may then start elsewhere |
| `VidBudget.AlwaysFit` | daemons/mrpd/mvrp.c:677 | 395 attributes always fit one frame |
| `VidBudget.OneTooMany` | daemons/mrpd/mvrp.c:677 | Of more than 395 VIDs without neighbours, those from the 396th on are left out of a frame that is sent |
| `MvrpInvariants.RunInv` | daemons/mrpd/mvrp.c:155-360 | In every run of events and reclaims the list is strictly ascending by VID, a leaving registrar implies a running leave timer, and no LeaveAll is pending while its timer runs |
| `MvrpInvariants.OnLvTimerInv` | daemons/mrpd/mvrp.c:236-250 | After the leave timer no registrar is left in LV although the walk deletes nodes |
| `MvrpInvariants.AddSorted` | daemons/mrpd/mvrp.c:87-139 | Inserting an absent VID keeps the list strictly ascending |
| `MvrpInvariants.Refines` | daemons/mrpd/mvrp.c:155-360 | Every event and reclaim is, at every VID, a step or a stutter of a map from VIDs to (declared, registrar state) |
| `MvrpInvariants.RunRefines` | daemons/mrpd/mvrp.c:155-360 | So is every run, from the empty map |
| `MvrpInvariants.NoneLost` | daemons/mrpd/mvrp.c:1300-1342 | No run loses the attribute of a VID that is declared or registered |
| `MvrpInvariants.UpdateServes` | daemons/mrpd/mvrp.c:278-333 | The two machines and the conditional reclaim together serve an attribute event as the map says |
| `MvrpTimers.JoinTimedAfter` | daemons/mrpd/mvrp.c:191-335 | After Tx, a received LeaveAll, a periodic event or any attribute event, an applicant in VP, VN, AN, AA or LA implies a running join timer |
| `MvrpTimers.JoinTimedKept` | daemons/mrpd/mvrp.c:236-250 | The leave timer and reclaim preserve that |
| `MvrpTimers.LvaTimerLosesJoin` | daemons/mrpd/mvrp.c:166-190 | The LeaveAll timer, which stops the join timer, leaves the property true exactly when no applicant was in VP or VN |
| `MvrpTimers.LvaTimerLosesJoinExample` | daemons/mrpd/mvrp.c:166-190 | A two-event run that ends with an anxious applicant and no join timer |
| `MvrpTimers.RunTimed` | daemons/mrpd/mvrp.c:155-360 | It holds in every run in which the LeaveAll timer finds no applicant in VP or VN |
| `MvrpTimers.QuiescentAfterThree` | daemons/mrpd/mvrp.c:211-235 | From any state three Tx events leave every applicant in VO, QA, AO, QO or QP and the join timer stopped |
| `MvrpTimers.TwoAreNotEnough` | daemons/mrpd/mrp.c:719-791 | Two Tx events do not suffice for a New that no peer registers |
| `MvrpTimers.LeaveAllOnlyFromItsTimer` | daemons/mrpd/mvrp.c:836-869 | A frame of the join timer never carries a LeaveAll; a frame of the LeaveAll timer carries exactly one, first |
| `MvrpTimers.LvaTimerSends` | daemons/mrpd/mvrp.c:891-1009 | The LeaveAll timer sends a frame exactly when the vectors the encoder begins take at most 1978 bytes |
| `MvrpTimers.LeaveReportedOnce` | daemons/mrpd/mvrp.c:236-250 | On the leave timer each VID leaving LV is reported to clients exactly once, whether its attribute survives or is reclaimed, and nothing else is reported but attributes found dead |
| `MvrpTimers.AttributeReported` | daemons/mrpd/mvrp.c:275-357 | Of an attribute event clients are told a New or a Leave once, a Join exactly when the registrar was not IN, and for an In or Mt a Leave exactly when it leaves an attribute that nobody declares or registers, an In for an unknown VID included |
| `MvrpTimers.LeaveOfAnUnknownVid` | daemons/mrpd/mvrp.c:283-322 | A received In for a VID not on record makes clients hear that it has left |
| `MvrpPair.HandleRxAt` | daemons/mrpd/mvrp.c:155-360 | What one received event does to the attribute of one VID and to no other |
| `MvrpPair.Transmit` | daemons/mrpd/mvrp.c:891-1009 | A transmission, whether everything fits or not: without a frame the peer is unchanged; with one it takes the LeaveAll, if any, and then the event of a VID exactly if the encoder picked it |
| `MvrpPair.DueIsMentioned` | daemons/mrpd/mvrp.c:677-690 | A VID that must be sent is in a frame that is sent exactly when the bytes of the vectors begun, and of those before its own, allow it |
| `MvrpPair.AgreedAfterA` | daemons/mrpd/mrp.c:551-1054 | A transmission of A that mentions the VID, or need not, keeps the agreement between A's applicant and B's registrar, with a frame or without |
| `MvrpPair.AgreedAfterB` | daemons/mrpd/mrp.c:551-1054 | So does a transmission of B, on a Tx even if no frame goes out |
| `MvrpPair.TakeKeeps` | daemons/mrpd/mvrp.c:155-360 | Every step at either end keeps the pair invariant, if A's frames carry the one VID whenever it must be sent and B's LeaveAll frames are sent |
| `MvrpPair.QuietIsRegistered` | daemons/mrpd/mrp.c:551-1054 | Two endpoints, any interleaving of requests, timers, LeaveAlls from either side and reclaims, both p2pmac modes: whenever A's applicant for a VID is QA, B's registrar for it is IN, if A's frames carried that VID whenever they had to and B's LeaveAll frames were sent, whatever else was left out |
| `MvrpPair.DeclarationGetsThrough` | daemons/mrpd/mvrp.c:211-235 | After any such run three transmit opportunities at A register a VID it declares at B, if A was quiet about it or one of those that must send it carries it |
| `MvrpPair.FittingGetsThrough` | daemons/mrpd/mvrp.c:211-235 | In particular if all that A must send at first takes at most 1978 bytes |
| `MvrpPair.TxCostsNoMore` | daemons/mrpd/mvrp.c:211-235 | A Tx never makes the next one need more bytes |
| `MvrpPair.RegisteredIffCarried` | daemons/mrpd/mvrp.c:224-234 | Without the assumption that declarations fit: a VID that must be declared and that the peer has not registered is registered there, on a Tx and on a LeaveAll, exactly when the frame carries it by the count of bytes, while A's applicant moves on in either case |
| `MvrpPair.UnsentLeaveAll` | daemons/mrpd/mvrp.c:166-190 | B's LeaveAll timer takes B's registrations back; A, if quiet, learns of it exactly when the LeaveAll frame is sent, and the agreement survives exactly then |
| `MrpRuns.QuietMustDeclare` | daemons/mrpd/mrp.c:719-791 | An applicant that goes to QA on a Tx must declare, so that covers every one that does |
| `MvrpLoss.LostInARun` | daemons/mrpd/mvrp.c:677 | From the start, 396 Joins for VIDs without neighbours and two transmissions leave the last VID quiet at A and not registered at B |
| `MvrpLoss.LeaveAllLostInARun` | daemons/mrpd/mvrp.c:166-190 | From the start, a run in which A is quiet about a VID, B's LeaveAll does not fit its frame, and B's leave timer then drops the VID while A stays quiet |
| `MvrpPair.NeverHeardAboveFFF` | daemons/mrpd/mvrp.c:552-553 | In every run, whether its frames fit or not, no peer registers a VID above 0xFFF unless its own clients ask for it |
| `MvrpPair.PeerRequest` | daemons/mrpd/mvrp.c:301-321 | A client request at B drops the registration there exactly when it is a New or a Lv |
| `AttribList.List.InsertBefore` | daemons/mrpd/mvrp.c:108-118 | Head insertion keeps the list linked both ways, with the node at that place |
| `AttribList.List.InsertAfter` | daemons/mrpd/mvrp.c:97-106 | Tail insertion likewise |
| `AttribList.List.Unlink` | daemons/mrpd/mvrp.c:1308-1316 | Unlinking keeps the rest linked both ways and returns the next node |
| `AttribList.List.Add` | daemons/mrpd/msrp.c:192-302 | The walk inserts at the place that the type and value order determine |
| `AttribList.List.Walk` | daemons/mrpd/msrp.c:3787-3802 | A walk that unlinks nodes under itself visits every node once and leaves exactly those that stay, in order |
| `MvrpEncoder.EmitRest` | daemons/mrpd/mvrp.c:748-830 | The inner loop stores exactly the packed run of consecutive VIDs inside the frame, before its bounds tests, clears exactly their tx flags, and fails exactly when the run cannot be sent; nothing before the vector changes in either case |
| `MvrpEncoder.EmitVector` | daemons/mrpd/mvrp.c:748-850 | One vector is stored at its offset; whether it succeeds or fails, nothing before it changes and no store leaves the frame |
| `MvrpEncoder.EmitAll` | daemons/mrpd/mvrp.c:677-855 | The walk over the list with its in-place tx flags writes what the encoder function says, and clears tx exactly up to where it got |
| `MvrpEncoder.EmitVidVectors` | daemons/mrpd/mvrp.c:646-889 | The whole encoder: return code, bytes used and frame contents |
| `MvrpDatabase.Database.constructor` | daemons/mrpd/mvrp.c:1243-1298 | The database starts in the initial state of the specification |
| `MvrpDatabase.Database.SweepApplicants` | daemons/mrpd/mvrp.c:215-223 | The walk steps every applicant and counts whether another transmit opportunity is needed |
| `MvrpDatabase.Database.SweepBothMachines` | daemons/mrpd/mvrp.c:172-183 | The walk steps both machines of every attribute and starts the leave timer when one leaves |
| `MvrpDatabase.Database.SendNotifications` | daemons/mrpd/mvrp.c:347-357 | All pending notifications go out in list order and none stays pending |
| `MvrpDatabase.Database.ConditionalReclaim` | daemons/mrpd/mvrp.c:1300-1328 | Deletes exactly the attributes the guard names, reports each, and returns the next node |
| `MvrpDatabase.Database.ReclaimWalk` | daemons/mrpd/mvrp.c:1330-1342 | The whole walk, also with expiring leaves, leaves exactly the attributes that stay |
| `MvrpDatabase.Database.TxPdu` | daemons/mrpd/mvrp.c:891-1009 | Takes the LeaveAll flag, sends the specified frame or none, and changes nothing but tx flags |
| `MvrpDatabase.Database.Lookup` | daemons/mrpd/mvrp.c:74-85 | Finds the first node with the VID |
| `MvrpDatabase.Database.Add` | daemons/mrpd/mvrp.c:87-139 | Inserts at the ascending place |
| `MvrpDatabase.Database.Event` | daemons/mrpd/mvrp.c:155-360 | mvrp_event: the list, the timers, the frames sent and the notifications are those of the specification, for every event and argument |
| `MvrpDatabase.Database.Reclaim` | daemons/mrpd/mvrp.c:1330-1342 | mvrp_reclaim likewise |
| `MvrpReceiver.RecvValues` | daemons/mrpd/mvrp.c:532-603 | The value loop hands the decoded events of a vector to mvrp_event in order |
| `MvrpReceiver.RecvVectors` | daemons/mrpd/mvrp.c:498-611 | The vector loop likewise |
| `MvrpReceiver.RecvMsg` | daemons/mrpd/mvrp.c:389-644 | mvrp_recv_msg on any buffer leaves the database as if the parsed events had been delivered one by one, and reads only inside the buffer if four zeroed bytes follow the frame |
| `RxBounds.VidInsideIff` | daemons/mrpd/mvrp.c:498-611 | No frame of a given length, from 20 bytes on, makes the parser read past its zeroed buffer exactly when the buffer has four bytes more |
| `ListenerRoundTrip.IncCounts` | daemons/mrpd/msrp.c:692-707 | The stream ID increment counts modulo 2^56 and never touches byte 0 |
| `ListenerRoundTrip.IncrementStreamId` | daemons/mrpd/msrp.c:692-707 | In place, byte by byte |
| `ListenerRoundTrip.UnpackPackFour` | daemons/mrpd/mrp.h:178 | The receiver's shifts undo the 4-pack macro |
| `ListenerRoundTrip.SubstatesOfPacked` | daemons/mrpd/msrp.c:1172-1221 | The substates of a run of any length are read back |
| `ListenerRoundTrip.ValuesOfPacked` | daemons/mrpd/msrp.c:1236-1339 | Stream IDs, events and substates of a run of any length are read back together |
| `ListenerRoundTrip.ParseEncoded` | daemons/mrpd/msrp.c:1089-1356 | The vector loop reports exactly the values of encoded vectors and stops at their end mark |
| `ListenerRoundTrip.EmitSound` | daemons/mrpd/msrp.c:2602-2870 | What the encoder writes fits the room, flags only the first vector, and stands for exactly the listeners it picked |
| `ListenerRoundTrip.WrappedListIsOk` | daemons/mrpd/msrp.c:709-765 | The list-length and end-mark test passes on every message of the encoder |
| `ListenerRoundTrip.RoundTrip` | daemons/mrpd/msrp.c:2551-2916 | The receiver, on any emitted Listener message anywhere in a frame, reports the LeaveAll if asked for and then the stream ID, event and substate of each picked listener, across the wrap of the stream ID |
| `ListenerRoundTrip.Triples` | daemons/mrpd/msrp.c:1261-1338 | With substates 1 to 3 that is one triple for each listener sent |
| `ListenerRoundTrip.PickedExactly` | daemons/mrpd/msrp.c:2602-2620 | Up to where the encoder got, every listener that had to be sent is sent once, in list order |
| `ListenerRoundTrip.FitsRoom` | daemons/mrpd/msrp.c:2576-2578 | The message keeps to its room exactly unless an empty LeaveAll goes into fewer than 16 bytes |
| `ListenerEncoder.ScanRun` | daemons/mrpd/msrp.c:2690-2795 | The inner loop over the linked list stores exactly the packed run of consecutive stream IDs in the frame and clears exactly its flags; a failure means that the run does not fit |
| `ListenerEncoder.PackSubstates` | daemons/mrpd/msrp.c:2797-2852 | The 4-packing stores inside the frame between its bounds tests and succeeds exactly when the vector leaves the room it must |
| `ListenerEncoder.EmitAll` | daemons/mrpd/msrp.c:2602-2870 | The walk over the linked list with its in-place tx flags writes into the frame what the encoder function says |
| `ListenerEncoder.EmitListeners` | daemons/mrpd/msrp.c:2551-2916 | The whole encoder on list and frame: return code, bytes and flags; every store is inside the frame exactly unless an empty LeaveAll goes into 13 to 15 bytes |
| `ListenerReceiver.ReadSubstates` | daemons/mrpd/msrp.c:1172-1221 | The 4-pack loop collects the substates |
| `ListenerReceiver.ReadValues` | daemons/mrpd/msrp.c:1236-1339 | The 3-pack loop reports the values, and the byte it reads too many changes nothing |
| `ListenerReceiver.RecvVectors` | daemons/mrpd/msrp.c:1089-1356 | The vector loop on any buffer |
| `ListenerReceiver.RecvListener` | daemons/mrpd/msrp.c:1056-1356 | The Listener case of msrp_recv_msg on any buffer: the events it hands on, in order; it reads only inside the buffer if eleven zeroed bytes follow the frame |
| `RxBounds.ListenerInsideIff` | daemons/mrpd/msrp.c:1089-1356 | No Listener message in a frame of a given length makes the parser read past its zeroed buffer exactly when the buffer has eleven bytes more |
| `ListenerBudget.EmitFills` | daemons/mrpd/msrp.c:2602-2870 | The encoder fails exactly when a vector it begins does not fit |
| `ListenerBudget.CarriedIff` | daemons/mrpd/msrp.c:2602-2620 | A listener that must be sent is in the message exactly when every vector begun fits and those before its own leave the room to begin it |
| `MsrpInvariants.MergeKeeps` | daemons/mrpd/msrp.c:304-411 | Merging rewrites types and fields but neither the key nor the applicant |
| `MsrpInvariants.OnAttributeServes` | daemons/mrpd/msrp.c:541-641 | An attribute event serves the attribute with its key and leaves every other key alone |
| `MsrpInvariants.WithoutTalkerGet` | daemons/mrpd/msrp.c:3787-3802 | The deletion loops remove the talker of a stream, whichever of the two types it has, and no other key |
| `MsrpInvariants.LvTimerRefines` | daemons/mrpd/msrp.c:521-535 | After the leave timer no registrar is left in LV |
| `MsrpInvariants.Refines` | daemons/mrpd/msrp.c:416-664 | Every event and command keeps unique keys, the leave timer and LeaveAll at rest, and does to every key what a map from keys to attributes does |
| `MsrpInvariants.RunRefines` | daemons/mrpd/msrp.c:416-664 | So does every run of events, S-L, I+S, I-S, I-A and reclaim, with and without pruning |
| `MsrpInvariants.RegistrationKept` | daemons/mrpd/msrp.c:345-406 | An attribute that a peer goes on announcing keeps its registration exactly unless an In or Mt changes it |
| `MsrpInvariants.RegistrationDropped` | daemons/mrpd/msrp.c:351-385 | A concrete listener that is deleted that way |
| `MsrpDatabase.Database.Sweep` | daemons/mrpd/msrp.c:439-451 | The walks of msrp_event step every attribute of the types concerned |
| `MsrpDatabase.Database.Lookup` | daemons/mrpd/msrp.c:145-173 | Finds the first node with the key, Talker Advertise and Failed counting as one class |
| `MsrpDatabase.Database.Add` | daemons/mrpd/msrp.c:192-302 | Inserts at the place the order of its type determines |
| `MsrpDatabase.Database.MergeInto` | daemons/mrpd/msrp.c:304-411 | Merges in place |
| `MsrpDatabase.Database.AttributeCase` | daemons/mrpd/msrp.c:541-641 | The attribute cases with pruning, lookup, insertion or merge, machines and reclaim |
| `MsrpDatabase.Database.DropTalkers` | daemons/mrpd/msrp.c:3650-3665 | The deletion loops leave a well-formed list without the stream's talkers |
| `MsrpDatabase.Database.Event` | daemons/mrpd/msrp.c:416-664 | msrp_event on the linked list is the specification's step, for every event and argument |
| `MsrpDatabase.Database.Withdraw` | daemons/mrpd/msrp.c:3630-3666 | The S-L command |
| `MsrpDatabase.Database.Interest` | daemons/mrpd/msrp.c:3752-3766 | The I+S command, with its duplicate and capacity errors |
| `MsrpDatabase.Database.Uninterest` | daemons/mrpd/msrp.c:3767-3803 | The I-S command |
| `MsrpDatabase.Database.Reclaim` | daemons/mrpd/msrp.c:3958-3970 | msrp_reclaim |
| `MsrpLink.DeclarationRegisters` | daemons/mrpd/msrp.c:541-641 | A peer's New or Join registers its listener whatever was on record, pruning or not |
| `MsrpLink.RequestsAreProper` | daemons/mrpd/msrp.c:145-173 | Since keys are unique, a participant asks the encoder for one listener a stream at most, and only for messages that can be encoded |
| `MsrpLink.Transmit` | daemons/mrpd/msrp.c:416-520 | A Listener message, anywhere in a frame, gives the peer's attribute of a stream the LeaveAll, if any, and then the event of its listener exactly if the encoder picked it and its substate is not 0 |
| `MsrpLink.DueIsMentioned` | daemons/mrpd/msrp.c:2602-2620 | A listener that must be sent is told to the peer exactly when the bytes allow it and its substate is not 0 |
| `MsrpLink.LeaveAllOnlyFromItsTimer` | daemons/mrpd/msrp.c:433-463 | A Listener message of the join timer never carries a LeaveAll; one of the LeaveAll timer carries exactly one, first |
| `MsrpLink.RegisteredIffCarried` | daemons/mrpd/msrp.c:433-520 | A Listener message, sent by one participant on a Tx or a LeaveAll and decoded by another: a listener that must be declared and was not registered there is registered afterwards exactly when the message carries it by the count of bytes and its substate is not 0, which receivers ignore |
| `MsrpLink.RunOnWire` | daemons/mrpd/msrp.c:541-641 | In every run in which no request or announcement names a substate above 3, no listener on record has one |
| `MsrpReceiver.Receive` | daemons/mrpd/msrp.c:1056-1356 | Receiving a Listener message, on any buffer, leaves the linked list as if the parsed events had been delivered one by one; the same bound keeps it inside the buffer |
| `MsrpPair.TakeKeeps` | daemons/mrpd/msrp.c:416-664 | Two MSRP endpoints: every step at either end, lost frames included, keeps the agreement on a listener, if A's message tells B about it whenever it must and B's LeaveAlls go out |
| `MsrpPair.QuietIsRegistered` | daemons/mrpd/msrp.c:416-664 | In every such run, with merges that force registrars to MT, pruning, talkers, domains and commands in between: whenever A's applicant for a listener is QA, B's registrar for it is IN |
| `MsrpPair.UnsentLeaveAll` | daemons/mrpd/msrp.c:433-463 | With A quiet the agreement survives B's LeaveAll timer exactly when the LeaveAll goes out |
| `MsrpPair.IgnoredGoesQuiet` | daemons/mrpd/msrp.c:1261-1338 | A listener declared with substate 0 goes quiet after two transmissions without being registered |
| `MsrpTimers.JoinTimedAfter` | daemons/mrpd/msrp.c:416-664 | After Tx, a received LeaveAll or an attribute event, an applicant in VP, VN, AN, AA or LA implies a running join timer; an event about a pruned talker preserves that and no more |
| `MsrpTimers.LvaTimerLosesJoin` | daemons/mrpd/msrp.c:433-463 | The LeaveAll timer leaves it true exactly when no applicant was in VP or VN |
| `MsrpTimers.RunTimed` | daemons/mrpd/msrp.c:416-664 | It holds in every run of events and commands in which the LeaveAll timer finds no applicant in VP or VN |
| `MsrpTimers.QuiescentAfterThree` | daemons/mrpd/msrp.c:489-520 | From any state three Tx events leave every applicant with nothing to say and the join timer stopped |
| `Mmrp.InsertIndexIsPlace` | daemons/mrpd/mmrp.c:85-185 | The insertion walk finds the place that keeps the block of a type together and sorted |
| `Mmrp.RunKeepsBlocks` | daemons/mrpd/mmrp.c:85-185 | In every run of insertions, machine moves and reclaims the list is at most two blocks, one of each type, each strictly sorted |
| `Mmrp.BlocksMeans` | daemons/mrpd/mmrp.c:58-83 | So values are unique and there is one border between the types |
| `Mmrp.CollectKeepsBlocks` | daemons/mrpd/mmrp.c:1773-1800 | Reclaim keeps the blocks |
| `Mmrp.Database.Touch` | daemons/mrpd/mmrp.c:326-340 | Lookup and insertion on the linked list; a received Empty for an unknown value adds nothing |
| `Mmrp.Database.Reclaim` | daemons/mrpd/mmrp.c:1773-1800 | Reclaim on the linked list |
| `Queue.StepInv` | daemons/mrpd/que.c:69-92 | Every atomic step of every thread keeps permits and items balanced, the critical section exclusive, and the unread items in place |
| `Queue.QueueIsFifo` | daemons/mrpd/que.c:69-92 | Under every interleaving of any number of threads: items come out in push order, no unread slot is overwritten, the positions are the counts modulo the size, and no semaphore exceeds its maximum |
| `Queue.QuietQueue` | daemons/mrpd/que.c:69-92 | When no call is under way every permit is back |
| `Queue.SomebodyMoves` | daemons/mrpd/que.c:69-92 | A thread waits only for a permit or for the thread inside, and that one never waits |
| `Queue.FillKeepsUnread` | daemons/mrpd/que.c:73 | Copying into the ring overwrites no unread item |
| `Queue.Ring.Put` | daemons/mrpd/que.c:73-74 | The body of que_push on the ring array |
| `Queue.Ring.Take` | daemons/mrpd/que.c:82-83 | The body of que_pop_nowait returns the oldest unread item |
| `Eui64Set.EuiRoundTrip` | daemons/common/eui64set.c:36-62 | Eight bytes in network order and 64-bit keys correspond one to one |
| `Eui64Set.SortedInsert` | daemons/common/eui64set.c:139-155 | Sorting with one new key at the end gives the set with that key |
| `Eui64Set.SentinelRemoves` | daemons/common/eui64set.c:170-192 | Replacing a key by ~0, sorting and dropping the last entry removes that key and no other, ~0 itself included |
| `Eui64Set.Set.Bsearch` | daemons/common/eui64set.c:157-168 | Finds a key exactly when it is a member |
| `Eui64Set.Set.Find` | daemons/common/eui64set.c:157-168 | Succeeds exactly on members |
| `Eui64Set.Set.Add` | daemons/mrpd/msrp.c:3763-3766 | With the caller's duplicate check, inserts exactly absent keys while there is room |
| `Eui64Set.Set.Remove` | daemons/common/eui64set.c:170-192 | Removes exactly the key, and reports whether it was there |
| `Eui64Set.Set.Clear` | daemons/common/eui64set.c:107-110 | Empties the set |
| `CommandText.ParseJoined` | daemons/common/parse.c:82-198 | A list of parameters in the order of the specifications, without commas inside, parses to their fields |
| `CommandText.CommandRoundTrip` | tools/mrp_client.c:509-542 | What mrp_advertise_stream prints parses back to stream ID, address, VID, frame size, interval, priority*32+16 and latency, for all of them |
| `CommandText.CommandIsAdvertise` | daemons/mrpd/msrp.c:3730-3740 | The printed command is classified as Talker Advertise |
| `CommandText.BufferRoundTrip` | daemons/mrpd/msrp.c:3352-3373 | The same from the zeroed message buffer, as the daemon hands it to parse |
| `CommandText.Parse` | daemons/common/parse.c:57-200 | parse on a buffer, in place: return code, error index and fields; the buffer is restored unless a text does not convert, and then the comma behind that text, if there is one, is lost |
| `CommandText.ParseParam` | daemons/common/parse.c:90-194 | Converting one parameter with the buffer cut behind it |
| `Nvm.ChecksumMakesOk` | kernel-module/igb/e1000_82575.c:2615-2639 | Writing the checksum makes its region sum to 0xBABA modulo 2^16 |
| `Nvm.ChecksumKeepsOthers` | kernel-module/igb/e1000_82575.c:2715-2720 | One region's checksum leaves the other regions' sums alone |
| `Nvm.UpdateThenValid` | kernel-module/igb/e1000_82575.c:2690-2724 | For every content, after the update the matching validation succeeds, for the 82580 with its compatibility bit and for the i350 |
| `Nvm.UpdateTouchesOnly` | kernel-module/igb/e1000_82575.c:2690-2724 | The loop changes nothing but the four checksum words |
| `Nvm.Hw.ValidateWithOffset` | kernel-module/igb/e1000_82575.c:2578-2603 | Validates one region, with the error of a failed read |
| `Nvm.Hw.UpdateWithOffset` | kernel-module/igb/e1000_82575.c:2615-2639 | Updates one region, or changes nothing when an access fails |
| `Nvm.Hw.UpdateRegions` | kernel-module/igb/e1000_82575.c:2762-2779 | e1000_update_nvm_checksum_i350, with any pattern of failing accesses |
| `Nvm.Hw.ValidateRegions` | kernel-module/igb/e1000_82575.c:2734-2752 | e1000_validate_nvm_checksum_i350 |
| `Nvm.Hw.Update82580` | kernel-module/igb/e1000_82575.c:2690-2724 | e1000_update_nvm_checksum_82580 |
| `Nvm.Hw.Validate82580` | kernel-module/igb/e1000_82575.c:2649-2680 | e1000_validate_nvm_checksum_82580 |

## Left out

- Sockets, the select loop, timer durations, client lists and process set-up: I/O around the event handlers.
- Logging, notification texts, table dumps and the diagnostic MAC address of the last registration.
- MSRP notifications; in the MSRP database, the encoder's flags, which ListenerEncoder keeps in a list of its own.
- The Talker and Domain messages of MSRP and the frame around its messages: the same vectors with longer field copies.
- The MMRP messages and timers: only the list is modelled; mmrp_increment_macaddr is the stream ID increment on six bytes.
- The fields of an interesting-stream entry other than its key: every caller stores a null pointer there.
- Signs, 0x prefixes and out-of-range numbers in sscanf: the printers never produce them.
- Listener substates above 3 on the wire, which a client could ask for by command: it has room for two bits; MsrpLink.RunOnWire shows that no other step makes one.
- I+S and I-S search the sorted array of Eui64Set; MsrpSpec and MsrpDatabase keep the same stream IDs as a mathematical set.
- The registrar and applicant administrative controls, which the daemon reads nowhere, and the periodic timer machine.
- The Windows and Linux variants of the queue other than the order of waits, copies and releases.
- The rest of the e1000 driver, the ALSA module, the MAAP client and the other tools.
- MrpRuns.TwoMessages: holds from VP and VN without a local Lv; MrpRuns.UnearnedCalm shows the one step, Join in LA, that a Lv makes possible and that breaks it.
- MvrpPair.QuietIsRegistered: assumes that A's frame carries the VID whenever it must be sent and that B's LeaveAll frame is sent, both by the count of bytes before the step; MvrpPair.UnsentLeaveAll shows that the second is exactly what it takes, and MvrpPair.RegisteredIffCarried that the first is while B has not registered the VID.
- MvrpPair.DeclarationGetsThrough: assumes of the three transmissions only that one of those that must send the VID carries it.
- MsrpPair.QuietIsRegistered: assumes the same of Listener messages and that the substate sent is not 0; the Talker and Domain messages of the same frames are arbitrary events at either end, and any other frame may be lost.
- MvrpPair.NeverHeardAboveFFF: needs that no client at B asks for the VID itself.
- ListenerReceiver.RecvListener: returns the events in order; MsrpReceiver.Receive runs them on the linked list.
- ListenerEncoder.EmitListeners: with 13 to 15 bytes of room and an empty LeaveAll to send, where the source writes past the frame, the model stops.
- MsrpLink.RegisteredIffCarried: is about the Listener message; whether the frame around it is sent also depends on the Talker and Domain messages, and MsrpPair leaves that open.
- MsrpDatabase.Database.Event: produces neither the frame, whose Listener part is ListenerEncoder.EmitListeners, nor the notifications.
