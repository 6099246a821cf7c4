/** A Listener message from one MSRP participant to another: which of the sender's
    listeners the receiver has registered afterwards. */
module MsrpLink {
  import opened Mrp
  import opened MrpRuns
  import opened MrpPdu
  import opened ListenerCodec
  import opened ListenerRoundTrip
  import opened ListenerBudget
  import opened MsrpSpec
  import opened MsrpInvariants

  // ---------------------------------------------------------------------
  // Delivery
  // ---------------------------------------------------------------------

  /** The attribute msrp_recv_msg makes for a decoded listener. */
  function Announced(id: StreamId, sub: Substate): Request { Request(Listener(id, sub), Register) }

  function HandleRx(m: Mad, r: Rx, p2p: bool): Mad {
    match r
    case RxLeaveAll => Handle(m, RLA, Some(Announced(NO_STREAM, IGNORE)), p2p)
    case RxListener(id, e, sub) => Handle(m, e, Some(Announced(id, sub)), p2p)
  }

  function Deliver(m: Mad, rx: seq<Rx>, p2p: bool): Mad {
    if rx == [] then m else HandleRx(Deliver(m, rx[..|rx| - 1], p2p), rx[|rx| - 1], p2p)
  }

  lemma {:induction false} DeliverConcat(m: Mad, a: seq<Rx>, b: seq<Rx>, p2p: bool)
    ensures Deliver(m, a + b, p2p) == Deliver(Deliver(m, a, p2p), b, p2p)
  {
    if b == [] {
      assert a + b == a;
    } else {
      assert (a + b)[..|a + b| - 1] == a + b[..|b| - 1];
      DeliverConcat(m, a, b[..|b| - 1], p2p);
    }
  }

  /** Events about other streams' listeners. */
  ghost predicate Silent(rx: seq<Rx>, id: StreamId) {
    forall i :: 0 <= i < |rx| ==> rx[i].RxListener? && rx[i].id != id && AttributeEvent(rx[i].e)
  }

  lemma HandleRxServes(m: Mad, r: Rx, p2p: bool, key: Key)
    requires Inv(m) && r.RxListener? && AttributeEvent(r.e)
    ensures Inv(HandleRx(m, r, p2p))
    ensures Get(HandleRx(m, r, p2p).items, key)
         == if key != ListenerKey(r.id) then Get(m.items, key)
            else Serve(Get(m.items, key), r.e, Announced(r.id, r.sub), TalkerFor(m.items, Announced(r.id, r.sub)), p2p)
  {
    hide Get, Serve, OnAttribute, Inv;
    OnAttributeServes(m, r.e, Announced(r.id, r.sub), p2p, key);
  }

  lemma {:induction false} DeliverSilent(m: Mad, rx: seq<Rx>, p2p: bool, id: StreamId)
    requires Inv(m) && Silent(rx, id)
    ensures Inv(Deliver(m, rx, p2p)) && Get(Deliver(m, rx, p2p).items, ListenerKey(id)) == Get(m.items, ListenerKey(id))
  {
    hide Get, Serve, HandleRx, Inv;
    if rx == [] {
    } else {
      DeliverSilent(m, rx[..|rx| - 1], p2p, id);
      HandleRxServes(Deliver(m, rx[..|rx| - 1], p2p), rx[|rx| - 1], p2p, ListenerKey(id));
    }
  }

  ghost predicate Registered(m: Mad, id: StreamId) {
    var o := Get(m.items, ListenerKey(id));
    o.Some? && o.value.reg == IN
  }

  /** Any declaration of a peer registers the listener, whatever was there before. */
  lemma DeclarationRegisters(m: Mad, id: StreamId, e: Event, sub: Substate, p2p: bool)
    requires Inv(m) && e in {RNew, RJoinIn, RJoinMt}
    ensures Inv(HandleRx(m, RxListener(id, e, sub), p2p)) && Registered(HandleRx(m, RxListener(id, e, sub), p2p), id)
  {
    hide Get, OnAttribute, Inv, AppNext, HandleRx;
    HandleRxServes(m, RxListener(id, e, sub), p2p, ListenerKey(id));
  }

  lemma DeliverOne(m: Mad, r: Rx, p2p: bool)
    ensures Deliver(m, [r], p2p) == HandleRx(m, r, p2p)
  {
    assert [r][..0] == [];
    assert Deliver(m, [], p2p) == m;
  }

  // ---------------------------------------------------------------------
  // One message
  // ---------------------------------------------------------------------

  /** The sender's list holds one listener for each stream. */
  ghost predicate OnePerStream(xs: seq<TxListener>) {
    forall i, j :: 0 <= i < j < |xs| && xs[i].listener && xs[j].listener ==> xs[i].id != xs[j].id
  }

  ghost predicate Others(xs: seq<TxListener>, ks: seq<nat>, id: StreamId) {
    forall i :: 0 <= i < |ks| ==> ks[i] < |xs| && xs[ks[i]].id != id
  }

  lemma {:induction false} OthersAreSilent(xs: seq<TxListener>, ks: seq<nat>, id: StreamId)
    requires Others(xs, ks, id)
    ensures Within(ks, |xs|) && Silent(RxItems(xs, ks), id)
  {
    if ks == [] {
    } else {
      OthersAreSilent(xs, ks[1..], id);
      OneItem(xs[ks[0]]);
    }
  }

  lemma OneItem(t: TxListener)
    ensures forall i :: 0 <= i < |RxItem(t)| ==>
              RxItem(t)[i].RxListener? && RxItem(t)[i].id == t.id && AttributeEvent(RxItem(t)[i].e)
    ensures t.sub != IGNORE ==> RxItem(t) == [RxListener(t.id, CodeEvent(CodeOf(t)).value, t.sub)]
  {
  }

  /** Everything picked but the listener at position k is about other streams. */
  lemma OthersDiffer(xs: seq<TxListener>, stop: nat, ks: seq<nat>, k: nat, j: nat)
    requires OnePerStream(xs) && stop <= |xs| && SendsExactly(xs, 0, stop, ks) && k < |xs| && xs[k].listener
    requires j <= |ks| && (j < |ks| ==> ks[j] == k) && (j == |ks| ==> k !in ks)
    ensures j < |ks| ==> Others(xs, ks[..j], xs[k].id) && Others(xs, ks[j + 1..], xs[k].id)
    ensures j == |ks| ==> Others(xs, ks, xs[k].id)
  {
    forall i | 0 <= i < |ks| && i != j ensures ks[i] < |xs| && xs[ks[i]].id != xs[k].id {
      assert ks[i] in ks;
    }
  }

  /** What the event of a listener makes of the attribute of its stream.  Whether a talker
      is on record matters only to the merge. */
  ghost predicate Heard(o: Option<Item>, o': Option<Item>, t: TxListener, p2p: bool)
    requires o.Some? ==> KeyOf(o.value.subject) == ListenerKey(t.id)
  {
    exists talker :: o' == Serve(o, CodeEvent(CodeOf(t)).value, Announced(t.id, t.sub), talker, p2p)
  }

  /** One of the picked listeners, not to be ignored. */
  lemma DeliverMention(m: Mad, xs: seq<TxListener>, stop: nat, ks: seq<nat>, j: nat, p2p: bool)
    requires Inv(m) && OnePerStream(xs) && stop <= |xs| && SendsExactly(xs, 0, stop, ks) && j < |ks| && Within(ks, |xs|)
    requires xs[ks[j]].listener && xs[ks[j]].sub != IGNORE
    ensures var t := xs[ks[j]];
            var m' := Deliver(m, RxItems(xs, ks), p2p);
            && Inv(m')
            && Heard(Get(m.items, ListenerKey(t.id)), Get(m'.items, ListenerKey(t.id)), t, p2p)
  {
    hide Inv, Deliver, RxItems, RxItem, HandleRx, CodeOf, SendsExactly, FindFrom, Serve, OnePerStream;
    var t, a, b := xs[ks[j]], ks[..j], ks[j + 1..];
    OthersDiffer(xs, stop, ks, ks[j], j);
    OthersAreSilent(xs, a, t.id);
    OthersAreSilent(xs, b, t.id);
    SplitItems(xs, ks, j);
    OneItem(t);
    var r := RxListener(t.id, CodeEvent(CodeOf(t)).value, t.sub);
    DeliverConcat(m, RxItems(xs, a) + [r], RxItems(xs, b), p2p);
    DeliverConcat(m, RxItems(xs, a), [r], p2p);
    var m1 := Deliver(m, RxItems(xs, a), p2p);
    DeliverSilent(m, RxItems(xs, a), p2p, t.id);
    DeliverOne(m1, r, p2p);
    HandleRxServes(m1, r, p2p, ListenerKey(t.id));
    DeliverSilent(HandleRx(m1, r, p2p), RxItems(xs, b), p2p, t.id);
  }

  /** The picked listener is to be ignored. */
  lemma DeliverIgnored(m: Mad, xs: seq<TxListener>, stop: nat, ks: seq<nat>, j: nat, p2p: bool)
    requires Inv(m) && OnePerStream(xs) && stop <= |xs| && SendsExactly(xs, 0, stop, ks) && j < |ks| && Within(ks, |xs|)
    requires xs[ks[j]].listener && xs[ks[j]].sub == IGNORE
    ensures var m', key := Deliver(m, RxItems(xs, ks), p2p), ListenerKey(xs[ks[j]].id);
            Inv(m') && Get(m'.items, key) == Get(m.items, key)
  {
    hide Inv, Deliver, RxItems, CodeOf, SendsExactly, FindFrom, OnePerStream;
    var t, a, b := xs[ks[j]], ks[..j], ks[j + 1..];
    OthersDiffer(xs, stop, ks, ks[j], j);
    OthersAreSilent(xs, a, t.id);
    OthersAreSilent(xs, b, t.id);
    SplitItems(xs, ks, j);
    assert RxItem(t) == [] && RxItems(xs, ks) == RxItems(xs, a) + RxItems(xs, b);
    DeliverConcat(m, RxItems(xs, a), RxItems(xs, b), p2p);
    DeliverSilent(m, RxItems(xs, a), p2p, t.id);
    DeliverSilent(Deliver(m, RxItems(xs, a), p2p), RxItems(xs, b), p2p, t.id);
  }
  lemma SplitItems(xs: seq<TxListener>, ks: seq<nat>, j: nat)
    requires Within(ks, |xs|) && j < |ks|
    ensures Within(ks[..j], |xs|) && Within(ks[j + 1..], |xs|)
    ensures RxItems(xs, ks) == RxItems(xs, ks[..j]) + RxItem(xs[ks[j]]) + RxItems(xs, ks[j + 1..])
  {
    hide RxItems;
    assert ks == ks[..j] + [ks[j]] + ks[j + 1..];
    RxItemsConcat(xs, ks[..j] + [ks[j]], ks[j + 1..]);
    RxItemsConcat(xs, ks[..j], [ks[j]]);
    Single(xs, ks[j]);
  }

  lemma Single(xs: seq<TxListener>, k: nat)
    requires k < |xs|
    ensures RxItems(xs, [k]) == RxItem(xs[k])
  {
    hide RxItem;
    assert RxItems(xs, [k]) == RxItem(xs[k]) + RxItems(xs, []);
  }

  function AfterRLA(o: Option<Item>, p2p: bool): (r: Option<Item>)
    ensures r.Some? ==> o.Some? && r.value.subject == o.value.subject
  {
    match o
    case None => None
    case Some(it) => Some(StepBoth(it, RLA, p2p))
  }

  /** A leading LeaveAll, if any. */
  lemma DeliverFlag(m: Mad, lva: bool, id: StreamId, p2p: bool)
    requires Inv(m)
    ensures var m' := Deliver(m, if lva then [RxLeaveAll] else [], p2p);
            var o := Get(m.items, ListenerKey(id));
            Inv(m') && Get(m'.items, ListenerKey(id)) == if lva then AfterRLA(o, p2p) else o
  {
    hide Inv, FindFrom, OnRLA, AppNext;
    if lva {
      DeliverOne(m, RxLeaveAll, p2p);
      SweepRefines(m, RLA, Some(Announced(NO_STREAM, IGNORE)), p2p, ListenerKey(id), Beside(None, false, false, false));
    }
  }

  /** The message holds the k-th attribute, and the receiver does not ignore it. */
  ghost predicate Mentions(xs: seq<TxListener>, room: nat, k: nat) {
    k < |xs| && k in Picked(xs, 0, 0, room) && xs[k].sub != IGNORE
  }

  /** k is the listener of the stream, or there is none. */
  ghost predicate Stands(xs: seq<TxListener>, k: nat, id: StreamId) {
    if k < |xs| then xs[k].listener && xs[k].id == id
    else forall i :: 0 <= i < |xs| && xs[i].listener ==> xs[i].id != id
  }

  /** An emitted message in a frame, decoded, changes the attribute of a stream by the
      LeaveAll, if there is one, and then by the event of its listener, if there is one. */
  lemma MessageAt(m: Mad, xs: seq<TxListener>, k: nat, id: StreamId, lva: bool, room: nat, p2p: bool)
    requires Inv(m) && OnePerStream(xs) && Stands(xs, k, id) && Emit(xs, 0, 0, lva, room).Emitted?
    ensures var m' := Deliver(m, (if lva then [RxLeaveAll] else []) + RxItems(xs, Picked(xs, 0, 0, room)), p2p);
            var o, o' := Get(m.items, ListenerKey(id)), Get(m'.items, ListenerKey(id));
            var o1 := if lva then AfterRLA(o, p2p) else o;
            Inv(m') && if Mentions(xs, room, k) then Heard(o1, o', xs[k], p2p) else o' == o1
  {
    hide Inv, Deliver, RxItems, Emit, Picked, FindFrom, CodeOf, OnePerStream, Heard, AfterRLA;
    var ks, flag := Picked(xs, 0, 0, room), if lva then [RxLeaveAll] else [];
    var stop := Emit(xs, 0, 0, lva, room).stop;
    PickedExactly(xs, 0, 0, lva, room);
    DeliverConcat(m, flag, RxItems(xs, ks), p2p);
    DeliverFlag(m, lva, id, p2p);
    var m1 := Deliver(m, flag, p2p);
    if j :| 0 <= j < |ks| && ks[j] == k {
      PickedAt(m1, xs, stop, ks, j, p2p);
    } else {
      assert k !in ks;
      OthersThan(xs, stop, ks, k, id);
      OthersAreSilent(xs, ks, id);
      DeliverSilent(m1, RxItems(xs, ks), p2p, id);
    }
  }

  lemma PickedAt(m: Mad, xs: seq<TxListener>, stop: nat, ks: seq<nat>, j: nat, p2p: bool)
    requires Inv(m) && OnePerStream(xs) && stop <= |xs| && SendsExactly(xs, 0, stop, ks) && j < |ks| && Within(ks, |xs|)
    ensures var t := xs[ks[j]];
            var m' := Deliver(m, RxItems(xs, ks), p2p);
            var o, o' := Get(m.items, ListenerKey(t.id)), Get(m'.items, ListenerKey(t.id));
            Inv(m') && if t.sub != IGNORE then Heard(o, o', t, p2p) else o' == o
  {
    hide Inv, Deliver, RxItems, CodeOf, OnePerStream, Heard, FindFrom;
    assert ks[j] in ks;
    if xs[ks[j]].sub != IGNORE {
      DeliverMention(m, xs, stop, ks, j, p2p);
    } else {
      DeliverIgnored(m, xs, stop, ks, j, p2p);
    }
  }

  lemma OthersThan(xs: seq<TxListener>, stop: nat, ks: seq<nat>, k: nat, id: StreamId)
    requires OnePerStream(xs) && stop <= |xs| && SendsExactly(xs, 0, stop, ks) && k !in ks && Stands(xs, k, id)
    ensures Others(xs, ks, id)
  {
    forall i | 0 <= i < |ks| ensures ks[i] < |xs| && xs[ks[i]].id != id {
      assert ks[i] in ks;
    }
  }

  // ---------------------------------------------------------------------
  // The sender is a participant
  // ---------------------------------------------------------------------

  /** Substates that two bits can hold. */
  predicate WireSubject(s: Subject) { s.Listener? ==> s.sub < 4 }

  predicate OnWire(items: seq<Item>) {
    forall i :: 0 <= i < |items| ==> WireSubject(items[i].subject)
  }

  /** What the encoder sees of an attribute when a sweep with e has been made. */
  function ToSend(it: Item, e: Event): TxListener {
    var q := AppRequest(it.app, e);
    match it.subject
    case Listener(id, sub) =>
      TxListener(true, id, q.optional, q.sndmsg, RegNext(it.reg, e) == IN, if sub < 4 then sub else IGNORE)
    case _ => TxListener(false, NO_STREAM, q.optional, q.sndmsg, RegNext(it.reg, e) == IN, IGNORE)
  }

  function Requests(items: seq<Item>, e: Event): (r: seq<TxListener>)
    ensures |r| == |items|
    ensures forall i :: 0 <= i < |items| ==> r[i] == ToSend(items[i], e)
  {
    seq(|items|, i requires 0 <= i < |items| => ToSend(items[i], e))
  }

  /** The LeaveAll flag that msrp_txpdu finds in the record. */
  function FlagOf(m: Mad, e: Event): bool {
    if e == Tx then m.mrp.lva.tx
    else LeaveAllFsm(LeaveAllFsm(m.mrp.(leaveAll := false, join := false), LvaTimer), Tx).lva.tx
  }

  /** The Listener message of a transmitting event, in the room that the talker
      messages leave. */
  function SentListeners(m: Mad, e: Event, room: nat): Option<seq<Byte>>
    requires e in {Tx, LvaTimer}
  {
    Message(Requests(m.items, SweepOf(e)), FlagOf(m, e), e == LvaTimer, room)
  }

  /** The participant's own list meets what the encoder needs. */
  lemma RequestsAreProper(items: seq<Item>, e: Event)
    requires Unique(items) && e in {Tx, TxLA}
    ensures OnePerStream(Requests(items, e)) && AllSendable(Requests(items, e))
  {
    hide AppRequest;
    var xs := Requests(items, e);
    forall i, j | 0 <= i < j < |xs| && xs[i].listener && xs[j].listener ensures xs[i].id != xs[j].id {
      assert KeyOf(items[i].subject) != KeyOf(items[j].subject);
    }
    forall t | t in xs ensures Sendable(t.sndmsg) {
      var i :| 0 <= i < |xs| && xs[i] == t;
      RequestSendable(items[i].app, e);
    }
  }

  lemma RequestSendable(s: AppState, e: Event)
    requires e in {Tx, TxLA}
    ensures Sendable(AppRequest(s, e).sndmsg)
  {
  }

  function LvaCount(rx: seq<Rx>): nat {
    if rx == [] then 0 else (if rx[0].RxLeaveAll? then 1 else 0) + LvaCount(rx[1..])
  }

  lemma {:induction false} ItemsHaveNoLva(xs: seq<TxListener>, ks: seq<nat>)
    requires Within(ks, |xs|)
    ensures LvaCount(RxItems(xs, ks)) == 0
  {
    if ks == [] {
    } else {
      ItemsHaveNoLva(xs, ks[1..]);
      if RxItem(xs[ks[0]]) != [] {
        assert RxItems(xs, ks)[1..] == RxItems(xs, ks[1..]);
      } else {
        assert RxItems(xs, ks) == RxItems(xs, ks[1..]);
      }
    }
  }

  /** The message, if there is one, stands in the frame at pos. */
  ghost predicate InFrame(msg: Option<seq<Byte>>, buf: seq<Byte>, eof: nat, pos: nat) {
    msg.Some? && msg.value != [] ==> Holds(buf, pos, msg.value) && pos + |msg.value| <= eof <= |buf|
  }

  /** A Listener message of the join timer never carries a LeaveAll.  One of the LeaveAll
      timer carries exactly one, before everything else, even with nothing to declare. */
  lemma LeaveAllOnlyFromItsTimer(m: Mad, e: Event, room: nat, buf: seq<Byte>, eof: nat, pos: nat)
    requires Inv(m) && e in {Tx, LvaTimer} && room <= ROOM
    requires var msg := SentListeners(m, e, room); msg.Some? && msg.value != [] && InFrame(msg, buf, eof, pos)
    ensures var rx := ParseListener(buf, eof, pos, false).rx;
            && LvaCount(rx) == (if e == LvaTimer then 1 else 0)
            && (e == LvaTimer ==> rx[0] == RxLeaveAll)
  {
    hide Message, Picked, RxItems, ParseListener, Unique;
    var xs := Requests(m.items, SweepOf(e));
    RoundTrip(xs, e == LvaTimer, e == LvaTimer, room, buf, eof, pos);
    var rx := RxItems(xs, Picked(xs, 0, 0, room));
    ItemsHaveNoLva(xs, Picked(xs, 0, 0, room));
    assert ([RxLeaveAll] + rx)[1..] == rx && [] + rx == rx;
  }

  /** What a participant makes of the message in the frame. */
  function Hear(m: Mad, msg: Option<seq<Byte>>, buf: seq<Byte>, eof: nat, pos: nat, p2p: bool): Mad
    requires eof <= |buf|
  {
    if msg.Some? && msg.value != [] then Deliver(m, ParseListener(buf, eof, pos, false).rx, p2p) else m
  }

  /** The list is that of the participant. */
  lemma ListenerStands(items: seq<Item>, e: Event, id: StreamId)
    ensures var k := Find(items, ListenerKey(id));
            Stands(Requests(items, e), k, id) && (k < |items| ==> Requests(items, e)[k] == ToSend(items[k], e))
  {
  }

  /** A Listener message changes the attribute of a stream at the peer as it says. */
  lemma Transmit(from: Mad, e: Event, to: Mad, room: nat, buf: seq<Byte>, eof: nat, pos: nat, p2p: bool, id: StreamId)
    requires Inv(from) && Inv(to) && e in {Tx, LvaTimer} && room <= ROOM && eof <= |buf|
    requires InFrame(SentListeners(from, e, room), buf, eof, pos)
    ensures var msg, k := SentListeners(from, e, room), Find(from.items, ListenerKey(id));
            var to', xs := Hear(to, msg, buf, eof, pos, p2p), Requests(from.items, SweepOf(e));
            var o, o' := Get(to.items, ListenerKey(id)), Get(to'.items, ListenerKey(id));
            var o1 := if e == LvaTimer then AfterRLA(o, p2p) else o;
            && Inv(to')
            && (if msg.None? || msg.value == [] then to' == to
                else if Mentions(xs, room, k) then k < |from.items| && Heard(o1, o', xs[k], p2p)
                else o' == o1)
  {
    hide Emit, Picked, RxItems, ParseListener, Deliver, Heard, AfterRLA, FindFrom, Requests, Unique, EncodeVectors;
    hide Wrap;
    var lva, xs, k := e == LvaTimer, Requests(from.items, SweepOf(e)), Find(from.items, ListenerKey(id));
    RequestsAreProper(from.items, SweepOf(e));
    ListenerStands(from.items, SweepOf(e), id);
    var msg := SentListeners(from, e, room);
    if msg.Some? && msg.value != [] {
      RoundTrip(xs, lva, lva, room, buf, eof, pos);
      hide Inv;
      MessageAt(to, xs, k, id, lva, room, p2p);
    }
  }

  /** What must be sent is mentioned exactly when the bytes allow it, unless the peer is
      to ignore it. */
  lemma DueIsMentioned(m: Mad, e: Event, room: nat, k: nat)
    requires Inv(m) && e in {Tx, LvaTimer} && room <= ROOM && k < |m.items| && m.items[k].subject.Listener?
    requires !AppRequest(m.items[k].app, SweepOf(e)).optional
    ensures var msg, xs := SentListeners(m, e, room), Requests(m.items, SweepOf(e));
            msg.Some? && msg.value != [] && Mentions(xs, room, k) <==> xs[k].sub != IGNORE && Carried(xs, room, k)
  {
    hide Emit, Picked, FindFrom, Fills, ListenerBudget.Before, Unique, EncodeVectors, AppRequest, Inv, FlagOf;
    var lva, xs := e == LvaTimer, Requests(m.items, SweepOf(e));
    AtRest(m, e);
    RequestsAreProper(m.items, SweepOf(e));
    CarriedIff(xs, lva, room, k);
    if Emit(xs, 0, 0, lva, room).Emitted? {
      PickedExactly(xs, 0, 0, lva, room);
      EmitSound(xs, 0, 0, lva, room);
    }
  }

  lemma AtRest(m: Mad, e: Event)
    requires Inv(m) && e in {Tx, LvaTimer}
    ensures Unique(m.items) && (FlagOf(m, e) <==> e == LvaTimer)
  {
  }

  /** A listener of one participant that must be sent, declares, and is not registered at
      the other, is registered there after the transmission exactly when the message
      carries it, by the count of bytes, with a substate that is not to be ignored. */
  lemma RegisteredIffCarried(a: Mad, b: Mad, e: Event, k: nat, room: nat, buf: seq<Byte>, eof: nat, pos: nat, p2p: bool)
    requires Inv(a) && Inv(b) && OnWire(a.items) && e in {Tx, LvaTimer} && room <= ROOM && k < |a.items| && eof <= |buf|
    requires a.items[k].subject.Listener? && MustDeclare(a.items[k].app, SweepOf(e))
    requires !Registered(b, a.items[k].subject.listener) && InFrame(SentListeners(a, e, room), buf, eof, pos)
    ensures Registered(Hear(b, SentListeners(a, e, room), buf, eof, pos, p2p), a.items[k].subject.listener)
       <==> a.items[k].subject.sub != IGNORE && Carried(Requests(a.items, SweepOf(e)), room, k)
  {
    hide Message, Picked, FindFrom, Heard, Carried, AfterRLA, Hear, AppRequest, Mentions;
    var id, xs := a.items[k].subject.listener, Requests(a.items, SweepOf(e));
    GetAt(a.items, k);
    Transmit(a, e, b, room, buf, eof, pos, p2p, id);
    DeclaresByRequest(a.items[k], SweepOf(e));
    DueIsMentioned(a, e, room, k);
    var o := Get(b.items, ListenerKey(id));
    var o1 := if e == LvaTimer then AfterRLA(o, p2p) else o;
    LeaveAllRegistersNothing(o, p2p);
    var msg := SentListeners(a, e, room);
    if msg.Some? && msg.value != [] && Mentions(xs, room, k) {
      HeardRegisters(o1, Get(Hear(b, msg, buf, eof, pos, p2p).items, ListenerKey(id)), xs[k], p2p);
    }
  }

  lemma DeclaresByRequest(it: Item, e: Event)
    requires it.subject.Listener? && e in {Tx, TxLA} && MustDeclare(it.app, e)
    ensures !AppRequest(it.app, e).optional && CodeOf(ToSend(it, e)) in {CODE_NEW, CODE_JOININ, CODE_JOINMT}
    ensures ToSend(it, e).id == it.subject.listener
    ensures it.subject.sub < 4 ==> ToSend(it, e).sub == it.subject.sub
  {
  }

  lemma HeardRegisters(o: Option<Item>, o': Option<Item>, t: TxListener, p2p: bool)
    requires o.Some? ==> KeyOf(o.value.subject) == ListenerKey(t.id)
    requires CodeOf(t) in {CODE_NEW, CODE_JOININ, CODE_JOINMT} && Heard(o, o', t, p2p)
    ensures o'.Some? && o'.value.reg == IN
  {
    hide AppNext, CodeOf;
  }

  lemma LeaveAllRegistersNothing(o: Option<Item>, p2p: bool)
    requires o.Some? ==> o.value.reg != IN
    ensures AfterRLA(o, p2p).Some? ==> AfterRLA(o, p2p).value.reg != IN
  {
    hide AppNext;
  }

  // ---------------------------------------------------------------------
  // Substates stay within two bits
  // ---------------------------------------------------------------------

  /** Nobody names a substate above 3.  The wire has room for no other, so this concerns
      the requests of clients only. */
  predicate Legal(a: Action) {
    a.Do? && a.arg.Some? ==> WireSubject(a.arg.value.subject)
  }

  predicate WireOption(o: Option<Item>) { o.Some? ==> WireSubject(o.value.subject) }

  lemma ServeOnWire(o: Option<Item>, a: Action, key: Key, b: Beside, p2p: bool)
    requires (o.Some? ==> KeyOf(o.value.subject) == key) && WireOption(o) && WireOption(b.listener) && Legal(a)
    ensures WireOption(ServeAction(o, a, key, b, p2p))
  {
    hide AppNext, RegNext;
  }

  lemma ActOnWire(m: Mad, a: Action, p2p: bool)
    requires Inv(m) && OnWire(m.items) && Legal(a)
    ensures OnWire(Act(m, a, p2p).items)
  {
    hide Act, ServeAction, FindFrom;
    var s := Act(m, a, p2p).items;
    forall i | 0 <= i < |s| ensures WireSubject(s[i].subject) {
      var key := KeyOf(s[i].subject);
      Refines(m, a, p2p, key);
      GetAt(s, i);
      ServeOnWire(Get(m.items, key), a, key, BesideOf(m, IdOf(a)), p2p);
    }
  }

  /** In every run that keeps to two bits, so does the database. */
  lemma {:induction false} RunOnWire(acts: seq<Action>, pruning: Option<nat>, p2p: bool)
    requires forall i :: 0 <= i < |acts| ==> Legal(acts[i])
    ensures OnWire(RunAll(acts, pruning, p2p).items)
  {
    hide Act, Legal, OnWire;
    if acts == [] {
      NothingOnWire();
    } else {
      var pre := acts[..|acts| - 1];
      RunOnWire(pre, pruning, p2p);
      RunRefines(pre, pruning, p2p, DomainKey(0));
      ActOnWire(RunAll(pre, pruning, p2p), acts[|acts| - 1], p2p);
    }
  }

  lemma NothingOnWire()
    ensures OnWire([])
  {
  }
}
