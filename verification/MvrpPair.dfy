/** Two MVRP participants on a link: every frame one sends is decoded by the other
    before the next event. */
module MvrpPair {
  import opened Mrp
  import opened MrpRuns
  import opened MrpPdu
  import opened VidCodec
  import opened VidRoundTrip
  import opened VidBudget
  import opened MvrpSpec
  import opened MvrpInvariants
  import opened MvrpTimers

  datatype Net = Net(a: Mad, b: Mad)

  datatype Step = AtA(act: Action) | AtB(act: Action)

  /** mrpd_recvmsgbuf: the received bytes in a zeroed buffer. */
  function RxBuffer(frame: seq<Byte>): seq<Byte> {
    frame + seq(if |frame| <= FRAME then FRAME - |frame| else 0, _ => 0)
  }

  function Receive(m: Mad, frame: Option<seq<Byte>>, port: Port): Mad {
    match frame
    case None => m
    case Some(f) => Deliver(m, ParseFrame(RxBuffer(f), |f|).rx, port).mad
  }

  function Take(n: Net, s: Step, pa: Port, pb: Port): Net {
    match s
    case AtA(act) =>
      var o := Act(n.a, act, pa);
      Net(o.mad, Receive(n.b, o.frame, pb))
    case AtB(act) =>
      var o := Act(n.b, act, pb);
      Net(Receive(n.a, o.frame, pa), o.mad)
  }

  /** What can start at an endpoint: client requests, timers and reclaim. */
  ghost predicate Local(act: Action) {
    Legal(act) && (act.Do? ==>
      || act.e in {Tx, LvaTimer, LvTimer, Periodic}
      || (act.e in {New, Join, Lv} && act.arg.Some?))
  }

  /** The frame of a sweep with e carries the k-th attribute: the vectors the encoder
      begins keep to the budget, and that of the attribute is among them. */
  predicate Carried(items: seq<Item>, e: Event, k: nat)
    requires k < |items|
  {
    var xs := Requests(items, e);
    Spent(xs, 0, 0) <= BUDGET && Before(xs, 0, k, 0) < BEGIN
  }

  /** There is an attribute for v, and a sweep with e must send it. */
  predicate Due(items: seq<Item>, e: Event, v: nat) {
    var k := Find(items, v);
    k < |items| && !AppRequest(items[k].app, e).optional
  }

  /** If v must be sent, the frame carries it. */
  ghost predicate Announces(m: Mad, e: Event, v: nat) {
    Due(m.items, e, v) ==> Carried(m.items, e, Find(m.items, v))
  }

  /** The LeaveAll frame is sent, whatever it leaves out. */
  ghost predicate LeaveAllFits(m: Mad) {
    Spent(Requests(m.items, TxLA), 0, 0) <= BUDGET
  }

  /** The step makes no client request for v at B. */
  ghost predicate LeavesBAlone(s: Step, v: nat) {
    s.AtB? && s.act.Do? && s.act.e in {New, Join, Lv} ==> s.act.arg != Some(v)
  }

  /** What the agreement on v needs: no client request for v at B, v in A's frame whenever
      it must be, and a LeaveAll of B on the wire.  Nothing else has to fit. */
  ghost predicate Allowed(n: Net, s: Step, v: nat) {
    && Local(s.act)
    && LeavesBAlone(s, v)
    && (s.AtA? && s.act.Do? && s.act.e in {Tx, LvaTimer} ==> Announces(n.a, SweepOf(s.act.e), v))
    && (s.AtB? && s.act.Do? && s.act.e == LvaTimer ==> LeaveAllFits(n.b))
  }

  // ---------------------------------------------------------------------
  // What receiving a frame does to one VID
  // ---------------------------------------------------------------------

  ghost predicate Proper(rx: seq<Rx>) {
    forall r :: r in rx ==> r.RxLeaveAll? || (r.vid < 0x1_0000 && AttributeEvent(r.e))
  }

  function AfterRx(o: Option<Item>, e: Event, v: nat, p2p: bool): Option<Item> {
    if e == RMt && o.None? then None
    else
      var it := Update(if o.Some? then o.value else Item(v, VO, MT), e, p2p);
      if Dead(it) then None else Some(it)
  }

  function AfterRLA(o: Option<Item>, p2p: bool): Option<Item> {
    if o.None? then None else Some(StepBoth(o.value, RLA, p2p))
  }

  /** One received event. */
  lemma HandleRxAt(m: Mad, r: Rx, port: Port, v: nat)
    requires Inv(m) && Proper([r])
    ensures var m' := HandleRx(m, r, port).mad;
            && Inv(m')
            && Get(m'.items, v) == (if r.RxLeaveAll? then AfterRLA(Get(m.items, v), port.p2p)
                                    else if r.vid == v then AfterRx(Get(m.items, v), r.e, v, port.p2p)
                                    else Get(m.items, v))
  {
    hide OnAttribute, OnRLA, Get, Update, StepBoth;
    assert r in [r];
    match r
    case RxLeaveAll =>
      ActInv(m, Do(RLA, None), port);
      GetSweep(m, RLA, port, v);
    case RxValue(w, e) =>
      ActInv(m, Do(e, Some(w)), port);
      GetOnAttribute(m, e, w, port.p2p, v);
  }

  lemma {:induction false} DeliverInv(m: Mad, rx: seq<Rx>, port: Port)
    requires Inv(m) && Proper(rx)
    ensures Inv(Deliver(m, rx, port).mad)
  {
    if rx == [] {
    } else {
      var pre, r := rx[..|rx| - 1], rx[|rx| - 1];
      DeliverInv(m, pre, port);
      HandleRxAt(Deliver(m, pre, port).mad, r, port, 0);
    }
  }

  lemma {:induction false} DeliverConcat(m: Mad, a: seq<Rx>, b: seq<Rx>, port: Port)
    ensures Deliver(m, a + b, port).mad == Deliver(Deliver(m, a, port).mad, b, port).mad
  {
    if b == [] {
      assert a + b == a;
    } else {
      assert (a + b)[..|a + b| - 1] == a + b[..|b| - 1];
      DeliverConcat(m, a, b[..|b| - 1], port);
    }
  }

  lemma {:induction false} DeliverSilent(m: Mad, rx: seq<Rx>, port: Port, v: nat)
    requires Inv(m) && Proper(rx) && Silent(rx, v)
    ensures Inv(Deliver(m, rx, port).mad)
    ensures Get(Deliver(m, rx, port).mad.items, v) == Get(m.items, v)
  {
    if rx == [] {
    } else {
      var pre, r := rx[..|rx| - 1], rx[|rx| - 1];
      assert r in rx;
      DeliverSilent(m, pre, port, v);
      HandleRxAt(Deliver(m, pre, port).mad, r, port, v);
    }
  }

  lemma DeliverOne(m: Mad, r: Rx, port: Port)
    ensures Deliver(m, [r], port).mad == HandleRx(m, r, port).mad
  {
    assert [r][..0] == [];
    assert Deliver(m, [], port).mad == m;
  }

  lemma {:induction false} RxItemsProper(ts: seq<TxItem>)
    ensures Proper(RxItems(ts))
  {
    if ts == [] {
    } else {
      RxItemsProper(ts[1..]);
    }
  }

  /** A leading LeaveAll, if any. */
  lemma DeliverFlag(m: Mad, lva: bool, port: Port, v: nat)
    requires Inv(m)
    ensures var m' := Deliver(m, if lva then [RxLeaveAll] else [], port).mad;
            Inv(m') && Get(m'.items, v) == if lva then AfterRLA(Get(m.items, v), port.p2p) else Get(m.items, v)
  {
    if lva {
      DeliverOne(m, RxLeaveAll, port);
      HandleRxAt(m, RxLeaveAll, port, v);
    }
  }

  /** A frame that does not mention v. */
  lemma FrameSilent(m: Mad, lva: bool, ts: seq<TxItem>, port: Port, v: nat)
    requires Inv(m) && forall t :: t in ts ==> t.vid != v
    ensures var m' := Deliver(m, (if lva then [RxLeaveAll] else []) + RxItems(ts), port).mad;
            Get(m'.items, v) == if lva then AfterRLA(Get(m.items, v), port.p2p) else Get(m.items, v)
  {
    var flag := if lva then [RxLeaveAll] else [];
    DeliverConcat(m, flag, RxItems(ts), port);
    DeliverFlag(m, lva, port, v);
    RxItemsProper(ts);
    SilentAbout(ts, v);
    DeliverSilent(Deliver(m, flag, port).mad, RxItems(ts), port, v);
  }

  /** A list of events that mentions v once. */
  lemma DeliverMention(m: Mad, a: seq<Rx>, e: Event, b: seq<Rx>, port: Port, v: nat)
    requires Inv(m) && Proper(a) && Proper(b) && Silent(a, v) && Silent(b, v) && AttributeEvent(e) && v < 0x1_0000
    ensures Get(Deliver(m, a + [RxValue(v, e)] + b, port).mad.items, v) == AfterRx(Get(m.items, v), e, v, port.p2p)
  {
    var r := RxValue(v, e);
    var m1 := Deliver(m, a, port).mad;
    DeliverSilent(m, a, port, v);
    HandleRxAt(m1, r, port, v);
    DeliverConcat(m, a, [r], port);
    DeliverOne(m1, r, port);
    DeliverConcat(m, a + [r], b, port);
    DeliverSilent(HandleRx(m1, r, port).mad, b, port, v);
  }

  /** A frame that mentions v once. */
  lemma FrameMentions(m: Mad, lva: bool, a: seq<TxItem>, t: TxItem, b: seq<TxItem>, port: Port)
    requires Inv(m) && t.vid <= 0xFFF && Sendable(t.sndmsg)
    requires forall x :: x in a || x in b ==> x.vid != t.vid
    ensures var m' := Deliver(m, (if lva then [RxLeaveAll] else []) + RxItems(a + [t] + b), port).mad;
            var o := if lva then AfterRLA(Get(m.items, t.vid), port.p2p) else Get(m.items, t.vid);
            Get(m'.items, t.vid) == AfterRx(o, CodeEvent(CodeOf(t)).value, t.vid, port.p2p)
  {
    hide Get, Deliver, RxItems, AfterRx, AfterRLA, CodeOf;
    var flag := if lva then [RxLeaveAll] else [];
    DeliverConcat(m, flag, RxItems(a + [t] + b), port);
    DeliverFlag(m, lva, port, t.vid);
    MentionedOnce(a, t, b);
    RxItemsProper(a);
    RxItemsProper(b);
    DeliverMention(Deliver(m, flag, port).mad, RxItems(a), CodeEvent(CodeOf(t)).value, RxItems(b), port, t.vid);
  }

  // ---------------------------------------------------------------------
  // What a transmission does to v at the other end
  // ---------------------------------------------------------------------

  /** The event v's attribute sends on a sweep with e. */
  function Sent(it: Item, e: Event): Event
    requires e in {Tx, TxLA}
  {
    CodeEvent(CodeOf(ToSend(it, e))).value
  }

  /** The encoder picks v's attribute. */
  ghost predicate Mentions(items: seq<Item>, e: Event, v: nat) {
    exists t :: t in Picked(Requests(items, e), 0, 2) && t.vid == v
  }

  /** What a frame leaves of the peer's attribute for v: the LeaveAll comes first, if the
      frame carries one, and then v's event, if the frame mentions v. */
  function AfterFrame(o: Option<Item>, it: Option<Item>, e: Event, mentions: bool, v: nat, p2p: bool): Option<Item>
    requires e in {Tx, TxLA}
  {
    var o1 := if e == TxLA then AfterRLA(o, p2p) else o;
    if mentions && it.Some? then AfterRx(o1, Sent(it.value, e), v, p2p) else o1
  }

  lemma PickedIsToSend(items: seq<Item>, e: Event, t: TxItem)
    requires Sorted(items) && e in {Tx, TxLA} && t in Requests(items, e)
    ensures var o := Get(items, t.vid);
            o.Some? && t == ToSend(o.value, e) && Sendable(t.sndmsg)
  {
    var i :| 0 <= i < |items| && Requests(items, e)[i] == t;
    GetAt(items, i);
  }

  /** v among the attributes sent, or not. */
  lemma DeliverPicked(items: seq<Item>, e: Event, stop: nat, to: Mad, pt: Port, v: nat)
    requires Sorted(items) && Inv(to) && e in {Tx, TxLA} && v <= 0xFFF && stop <= |items|
    requires SendsExactly(Requests(items, e), 0, stop, Picked(Requests(items, e), 0, 2))
    ensures var ts := Picked(Requests(items, e), 0, 2);
            var to' := Deliver(to, (if e == TxLA then [RxLeaveAll] else []) + RxItems(ts), pt).mad;
            Get(to'.items, v) == AfterFrame(Get(to.items, v), Get(items, v), e, Mentions(items, e, v), v, pt.p2p)
  {
    hide Get, Deliver, RxItems, AfterRx, AfterRLA, FindFrom, Picked;
    var ts := Picked(Requests(items, e), 0, 2);
    if j :| 0 <= j < |ts| && ts[j].vid == v {
      assert ts[j] in Requests(items, e)[0..stop];
      PickedIsToSend(items, e, ts[j]);
      OthersDiffer(ts, j);
      FrameMentions(to, e == TxLA, ts[..j], ts[j], ts[j + 1..], pt);
      assert Mentions(items, e, v);
    } else {
      FrameSilent(to, e == TxLA, ts, pt, v);
    }
  }

  /** A transmission changes v at the peer as the frame says, if one is sent. */
  lemma Transmit(from: Mad, e: Event, to: Mad, pf: Port, pt: Port, v: nat)
    requires Inv(from) && Inv(to) && e in {Tx, LvaTimer} && v <= 0xFFF
    ensures var frame := Handle(from, e, None, pf).frame;
            var to', e' := Receive(to, frame, pt), SweepOf(e);
            && Inv(to') && (frame.None? ==> to' == to)
            && (frame.Some? ==>
                  Get(to'.items, v)
                  == AfterFrame(Get(to.items, v), Get(from.items, v), e', Mentions(from.items, e', v), v, pt.p2p))
  {
    hide Get, Picked, Requests, RxItems, Pdu, Emit, SendsExactly, Deliver, AfterFrame, Mentions, Receive, Ascending;
    var lva, e' := e == LvaTimer, SweepOf(e);
    var xs := Requests(from.items, e');
    RequestsAscend(from.items, e');
    assert Handle(from, e, None, pf).frame == Pdu(xs, lva, lva, pf.station);
    if Pdu(xs, lva, lva, pf.station).Some? {
      ReceiveFrame(xs, lva, pf.station, to, pt);
      RxItemsProper(Picked(xs, 0, 2));
      DeliverInv(to, (if lva then [RxLeaveAll] else []) + RxItems(Picked(xs, 0, 2)), pt);
      SentIsEmitted(xs, lva, pf.station);
      PickedExactly(xs, 0, 2, lva);
      DeliverPicked(from.items, e', Emit(xs, 0, 2, lva).stop, to, pt, v);
    } else {
      NothingReceived(to, pt);
    }
  }

  lemma SentIsEmitted(xs: seq<TxItem>, lva: bool, src: Mac)
    requires Pdu(xs, lva, lva, src).Some?
    ensures Emit(xs, 0, 2, lva).Emitted?
  {
    hide Emit;
  }

  lemma ReceiveFrame(xs: seq<TxItem>, lva: bool, src: Mac, to: Mad, pt: Port)
    requires Ascending(xs) && Pdu(xs, lva, lva, src).Some?
    ensures Receive(to, Pdu(xs, lva, lva, src), pt)
         == Deliver(to, (if lva then [RxLeaveAll] else []) + RxItems(Picked(xs, 0, 2)), pt).mad
  {
    hide Emit, Picked, ParseFrame, RxItems, Ascending, EncodeVectors, Deliver;
    var frame := Pdu(xs, lva, lva, src).value;
    EmitSound(xs, 0, 2, lva);
    RoundTrip(xs, lva, lva, src, seq(FRAME - |frame|, _ => 0));
  }

  lemma NothingReceived(m: Mad, port: Port)
    ensures Receive(m, None, port) == m
  {
  }

  /** What must be sent is mentioned in a frame exactly when the bytes allow it. */
  lemma DueIsMentioned(m: Mad, e: Event, port: Port, v: nat)
    requires Inv(m) && e in {Tx, LvaTimer} && Due(m.items, SweepOf(e), v)
    ensures Handle(m, e, None, port).frame.Some? && Mentions(m.items, SweepOf(e), v)
       <==> Carried(m.items, SweepOf(e), Find(m.items, v))
  {
    hide Get, Picked, Pdu, Emit, FindFrom, Spent, Before, Ascending, Requests;
    var lva, e', k := e == LvaTimer, SweepOf(e), Find(m.items, v);
    var xs := Requests(m.items, e');
    RequestsAscend(m.items, e');
    DueIsRequired(m.items, e', k);
    CarriedIff(xs, lva, lva, port.station, k);
    assert Handle(m, e, None, port).frame == Pdu(xs, lva, lva, port.station);
    if Pdu(xs, lva, lva, port.station).Some? {
      SentIsEmitted(xs, lva, port.station);
      PickedExactly(xs, 0, 2, lva);
      var stop := Emit(xs, 0, 2, lva).stop;
      if k >= stop {
        NotPicked(xs, stop, Picked(xs, 0, 2), k);
      }
    }
  }

  lemma DueIsRequired(items: seq<Item>, e: Event, k: nat)
    requires k < |items| && e in {Tx, TxLA} && !AppRequest(items[k].app, e).optional
    ensures Required(Requests(items, e)[k]) && Requests(items, e)[k].vid == items[k].vid
  {
  }

  lemma NotPicked(xs: seq<TxItem>, stop: nat, ts: seq<TxItem>, k: nat)
    requires Ascending(xs) && stop <= k < |xs| && SendsExactly(xs, 0, stop, ts)
    ensures forall t :: t in ts ==> t.vid != xs[k].vid
  {
    forall t | t in ts ensures t.vid != xs[k].vid {
      assert t in xs[0..stop];
    }
  }

  // ---------------------------------------------------------------------
  // A quiet declaration is registered at the peer
  // ---------------------------------------------------------------------

  function App(o: Option<Item>): AppState { if o.Some? then o.value.app else VO }

  function Reg(o: Option<Item>): RegState { if o.Some? then o.value.reg else MT }

  /** B only observes v, A has never heard a JoinIn for it, and if A is quiet
      about v then B has it registered. */
  ghost predicate Agreed(oa: Option<Item>, ob: Option<Item>) {
    && Observes(App(ob))
    && Unjoined(App(oa))
    && (App(oa) == QA ==> Reg(ob) == IN)
  }

  ghost predicate PairInv(n: Net, v: nat) {
    Inv(n.a) && Inv(n.b) && Agreed(Get(n.a.items, v), Get(n.b.items, v))
  }

  /** How a sweep with e changes an attribute. */
  function Swept(o: Option<Item>, e: Event, p2p: bool): Option<Item> {
    if o.None? then None else Some(if e == Tx then StepApp(o.value, Tx, p2p) else StepBoth(o.value, e, p2p))
  }

  /** An observer stays one, whatever it hears. */
  lemma ObserverHears(o: Option<Item>, e: Event, v: nat, p2p: bool)
    requires Observes(App(o)) && e in {RNew, RJoinIn, RIn, RJoinMt, RMt, RLv}
    ensures Observes(App(AfterRx(o, e, v, p2p))) && Observes(App(AfterRLA(o, p2p)))
    ensures e in {RNew, RJoinIn, RJoinMt} ==> Reg(AfterRx(o, e, v, p2p)) == IN
  {
  }

  /** An applicant that is quiet after its own transmission has just declared, or
      was quiet before. */
  lemma DeclarerSends(it: Item, e: Event, p2p: bool)
    requires e in {Tx, TxLA} && Unjoined(it.app)
    ensures var it' := Swept(Some(it), e, p2p).value;
            && Unjoined(it'.app) && Sent(it, e) in {RNew, RJoinIn, RIn, RJoinMt, RMt, RLv}
            && (it'.app == QA ==> Sent(it, e) in {RNew, RJoinIn, RJoinMt})
            && (it'.app == QA && AppRequest(it.app, e).optional ==> it.app == QA && e == Tx)
  {
  }

  /** A transmits.  B sees a frame that mentions v, or v need not be sent and B sees a
      frame or none. */
  lemma AgreedAfterA(oa: Option<Item>, ob: Option<Item>, e: Event, v: nat, pa: bool, pb: bool)
    requires e in {Tx, TxLA} && Agreed(oa, ob)
    ensures oa.Some? ==> Agreed(Swept(oa, e, pa), AfterFrame(ob, oa, e, true, v, pb))
    ensures (oa.Some? ==> AppRequest(oa.value.app, e).optional) ==>
              Agreed(Swept(oa, e, pa), AfterFrame(ob, oa, e, false, v, pb)) && Agreed(Swept(oa, e, pa), ob)
  {
    hide AfterRLA, AfterRx, Sent, AppRequest, StepApp, StepBoth;
    var o1 := if e == TxLA then AfterRLA(ob, pb) else ob;
    ObserverHears(ob, RMt, v, pb);
    if oa.Some? {
      DeclarerSends(oa.value, e, pa);
      ObserverHears(o1, Sent(oa.value, e), v, pb);
    }
  }

  /** All an observer says is whether it has the attribute registered. */
  lemma ObserverSends(it: Item, e: Event, p2p: bool)
    requires e in {Tx, TxLA} && Observes(it.app)
    ensures var it' := Swept(Some(it), e, p2p).value;
            Observes(it'.app) && Sent(it, e) == (if it'.reg == IN then RIn else RMt) && (e == Tx ==> it'.reg == it.reg)
  {
  }

  lemma DeclarerHears(o: Option<Item>, e: Event, v: nat, p2p: bool)
    requires Unjoined(App(o)) && e in {RIn, RMt}
    ensures Unjoined(App(AfterRx(o, e, v, p2p))) && (App(AfterRx(o, e, v, p2p)) == QA ==> e == RIn)
    ensures Unjoined(App(AfterRLA(o, p2p))) && App(AfterRLA(o, p2p)) != QA
  {
  }

  /** B transmits.  A sees a frame, which mentions v or not, or on a Tx none. */
  lemma AgreedAfterB(oa: Option<Item>, ob: Option<Item>, e: Event, mentions: bool, v: nat, pa: bool, pb: bool)
    requires e in {Tx, TxLA} && Agreed(oa, ob)
    ensures Agreed(AfterFrame(oa, ob, e, mentions, v, pa), Swept(ob, e, pb))
    ensures e == Tx ==> Agreed(oa, Swept(ob, e, pb))
  {
    hide AfterRLA, AfterRx, Sent, StepApp, StepBoth;
    var o1 := if e == TxLA then AfterRLA(oa, pa) else oa;
    DeclarerHears(oa, RMt, v, pa);
    if ob.Some? {
      ObserverSends(ob.value, e, pb);
      DeclarerHears(o1, Sent(ob.value, e), v, pa);
    }
  }

  lemma LocalStep(m: Mad, act: Action, port: Port, v: nat)
    requires Inv(m) && Local(act) && (act.Do? ==> act.e !in {Tx, LvaTimer})
    ensures var o := Act(m, act, port);
            var i, i' := Get(m.items, v), Get(o.mad.items, v);
            && Inv(o.mad) && o.frame.None?
            && (act.Do? && act.e in {New, Join, Lv} && act.arg == Some(v) ==> i' == AfterRx(i, act.e, v, port.p2p))
            && (act.Do? && act.e == Periodic ==>
                  App(i') == AppNext(App(i), Periodic, Reg(i) == IN, port.p2p) && Reg(i') == Reg(i))
            && (!(act.Do? && act.e == Periodic) && !(act.Do? && act.e in {New, Join, Lv} && act.arg == Some(v)) ==>
                  (App(i') == App(i) || (i'.None? && App(i) in {VO, AO, QO})) && (Reg(i) == IN ==> Reg(i') == IN))
  {
    ActInv(m, act, port);
    match act
    case GarbageCollect => GetKept(m.items, v);
    case Do(e, arg) =>
      if e in {LvTimer, Periodic} {
        GetSweep(m, e, port, v);
      } else {
        GetOnAttribute(m, e, arg.value, port.p2p, v);
      }
  }

  lemma SendAKeeps(n: Net, e: Event, pa: Port, pb: Port, v: nat)
    requires PairInv(n, v) && e in {Tx, LvaTimer} && v <= 0xFFF && Announces(n.a, SweepOf(e), v)
    ensures PairInv(Take(n, AtA(Do(e, None)), pa, pb), v)
  {
    hide Agreed, Handle, AfterRx, AfterRLA, Sent, Receive, StepApp, StepBoth, FindFrom, Mentions, AppRequest, Carried;
    ActInv(n.a, Do(e, None), pa);
    GetSweep(n.a, e, pa, v);
    Transmit(n.a, e, n.b, pa, pb, v);
    AgreedAfterA(Get(n.a.items, v), Get(n.b.items, v), SweepOf(e), v, pa.p2p, pb.p2p);
    if Due(n.a.items, SweepOf(e), v) {
      DueIsMentioned(n.a, e, pa, v);
    }
  }

  lemma SendBKeeps(n: Net, e: Event, pa: Port, pb: Port, v: nat)
    requires PairInv(n, v) && e in {Tx, LvaTimer} && v <= 0xFFF && (e == LvaTimer ==> LeaveAllFits(n.b))
    ensures PairInv(Take(n, AtB(Do(e, None)), pa, pb), v)
  {
    hide Get, Agreed, OnTx, OnLvaTimer, AfterFrame, Receive, StepApp, StepBoth, Mentions, Spent;
    ActInv(n.b, Do(e, None), pb);
    GetSweep(n.b, e, pb, v);
    Transmit(n.b, e, n.a, pb, pa, v);
    var mentions := Mentions(n.b.items, SweepOf(e), v);
    AgreedAfterB(Get(n.a.items, v), Get(n.b.items, v), SweepOf(e), mentions, v, pa.p2p, pb.p2p);
    LvaTimerSends(n.b, pb);
  }

  lemma TakeKeeps(n: Net, s: Step, pa: Port, pb: Port, v: nat)
    requires PairInv(n, v) && Allowed(n, s, v) && v <= 0xFFF
    ensures PairInv(Take(n, s, pa, pb), v)
  {
    hide Get, OnTx, OnLvaTimer, OnAttribute, OnLvTimer, OnPeriodic, Cost;
    if s.act.Do? && s.act.e in {Tx, LvaTimer} {
      if s.AtA? {
        SendAKeeps(n, s.act.e, pa, pb, v);
        assert Take(n, s, pa, pb) == Take(n, AtA(Do(s.act.e, None)), pa, pb);
      } else {
        SendBKeeps(n, s.act.e, pa, pb, v);
        assert Take(n, s, pa, pb) == Take(n, AtB(Do(s.act.e, None)), pa, pb);
      }
    } else if s.AtA? {
      LocalStep(n.a, s.act, pa, v);
    } else {
      LocalStep(n.b, s.act, pb, v);
    }
  }

  function RunNet(ss: seq<Step>, pa: Port, pb: Port): Net {
    if ss == [] then Net(START, START)
    else Take(RunNet(ss[..|ss| - 1], pa, pb), ss[|ss| - 1], pa, pb)
  }

  ghost predicate RunAllowed(ss: seq<Step>, pa: Port, pb: Port, v: nat) {
    forall i :: 0 <= i < |ss| ==> Allowed(RunNet(ss[..i], pa, pb), ss[i], v)
  }

  lemma {:induction false} RunKeeps(ss: seq<Step>, pa: Port, pb: Port, v: nat)
    requires RunAllowed(ss, pa, pb, v) && v <= 0xFFF
    ensures PairInv(RunNet(ss, pa, pb), v)
  {
    if ss == [] {
    } else {
      var pre := ss[..|ss| - 1];
      forall i | 0 <= i < |pre| ensures Allowed(RunNet(pre[..i], pa, pb), pre[i], v) {
        assert pre[..i] == ss[..i] && pre[i] == ss[i];
      }
      RunKeeps(pre, pa, pb, v);
      TakeKeeps(RunNet(pre, pa, pb), ss[|ss| - 1], pa, pb, v);
    }
  }

  /** Through any interleaving of client requests, timers, LeaveAlls from either
      side and reclaim, in either p2p mode of either end: when A's applicant for v
      is quiet, B's registrar for v is IN. */
  lemma QuietIsRegistered(ss: seq<Step>, pa: Port, pb: Port, v: nat)
    requires RunAllowed(ss, pa, pb, v) && v <= 0xFFF
    requires App(Get(RunNet(ss, pa, pb).a.items, v)) == QA
    ensures MeaningOf(RunNet(ss, pa, pb).b, v).reg == IN
  {
    RunKeeps(ss, pa, pb, v);
  }

  // ---------------------------------------------------------------------
  // A declaration gets through
  // ---------------------------------------------------------------------

  /** A transmits n times in a row. */
  function Flush(n: Net, times: nat, pa: Port, pb: Port): Net {
    if times == 0 then n else Take(Flush(n, times - 1, pa, pb), AtA(Do(Tx, None)), pa, pb)
  }

  /** A Tx leaves nothing new to be sent, so the next one costs no more. */
  lemma TxCostsNoMore(m: Mad, port: Port)
    ensures Cost(Requests(OnTx(m, port).mad.items, Tx), 0) <= Cost(Requests(m.items, Tx), 0)
  {
    hide Cost, Pdu, MoreToSend;
    var xs, ys := Requests(m.items, Tx), Requests(OnTx(m, port).mad.items, Tx);
    forall k | 0 <= k < |xs|
      ensures xs[k].tx && ys[k].tx && ys[k].vid == xs[k].vid && (xs[k].optional ==> ys[k].optional)
    {
      OptionalStays(m.items[k], port.p2p);
    }
    CostFalls(xs, ys, 0);
  }

  lemma OptionalStays(it: Item, p2p: bool)
    ensures AppRequest(it.app, Tx).tx
    ensures AppRequest(it.app, Tx).optional ==> AppRequest(StepApp(it, Tx, p2p).app, Tx).optional
  {
  }

  /** A Tx of A must send v, and its frame carries v. */
  ghost predicate Delivers(m: Mad, v: nat) {
    Due(m.items, Tx, v) && Carried(m.items, Tx, Find(m.items, v))
  }

  /** A declares v, and only by itself. */
  ghost predicate Declaring(m: Mad, v: nat) {
    Inv(m) && MeaningOf(m, v).declared && Unjoined(App(Get(m.items, v)))
  }

  /** All that a declaring applicant says registers v. */
  lemma DeclaringSpeaks(it: Item, o: Option<Item>, mentions: bool, v: nat, pa: bool, pb: bool)
    requires Declared(it.app) && Unjoined(it.app)
    ensures Declared(StepApp(it, Tx, pa).app) && Unjoined(StepApp(it, Tx, pa).app)
    ensures Reg(o) == IN || mentions ==> Reg(AfterFrame(o, Some(it), Tx, mentions, v, pb)) == IN
  {
  }

  lemma FlushOnce(n: Net, pa: Port, pb: Port, v: nat)
    requires Declaring(n.a, v) && Inv(n.b) && v <= 0xFFF
    ensures var n' := Take(n, AtA(Do(Tx, None)), pa, pb);
            && Declaring(n'.a, v) && Inv(n'.b) && n'.a == OnTx(n.a, pa).mad
            && (Reg(Get(n.b.items, v)) == IN || Delivers(n.a, v) ==> Reg(Get(n'.b.items, v)) == IN)
  {
    hide Receive, Mentions, Carried, AfterFrame, OnTx, StepApp, Due, FindFrom;
    Transmit(n.a, Tx, n.b, pa, pb, v);
    ActInv(n.a, Do(Tx, None), pa);
    GetSweep(n.a, Tx, pa, v);
    DeclaringSpeaks(Get(n.a.items, v).value, Get(n.b.items, v), Mentions(n.a.items, Tx, v), v, pa.p2p, pb.p2p);
    if Delivers(n.a, v) {
      DueIsMentioned(n.a, Tx, pa, v);
    }
  }

  lemma {:induction false} FlushKeeps(n: Net, times: nat, pa: Port, pb: Port, v: nat)
    requires Declaring(n.a, v) && Inv(n.b) && v <= 0xFFF
    ensures var n' := Flush(n, times, pa, pb);
            && Declaring(n'.a, v) && Inv(n'.b) && n'.a == TxTimes(n.a, times, pa)
            && (Reg(Get(n.b.items, v)) == IN || (exists i :: 0 <= i < times && Delivers(TxTimes(n.a, i, pa), v)) ==>
                  Reg(Get(n'.b.items, v)) == IN)
  {
    hide Take, OnTx, Declaring, Delivers, Get;
    if times == 0 {
    } else {
      FlushKeeps(n, times - 1, pa, pb, v);
      FlushOnce(Flush(n, times - 1, pa, pb), pa, pb, v);
    }
  }

  /** Whatever has happened before, three transmit opportunities at A register every VID
      that A declares, and that B's clients leave alone, at B, if one of those that must
      send it does, or if A was quiet about it already. */
  lemma DeclarationGetsThrough(ss: seq<Step>, pa: Port, pb: Port, v: nat)
    requires RunAllowed(ss, pa, pb, v) && v <= 0xFFF
    requires MeaningOf(RunNet(ss, pa, pb).a, v).declared
    requires || App(Get(RunNet(ss, pa, pb).a.items, v)) == QA
             || exists i :: 0 <= i < 3 && Delivers(TxTimes(RunNet(ss, pa, pb).a, i, pa), v)
    ensures var n := Flush(RunNet(ss, pa, pb), 3, pa, pb);
            App(Get(n.a.items, v)) == QA && MeaningOf(n.b, v).reg == IN
  {
    hide RunNet, Flush, TxTimes, Inv, FindFrom, RunAllowed, Delivers;
    RunKeeps(ss, pa, pb, v);
    var n := RunNet(ss, pa, pb);
    FlushKeeps(n, 3, pa, pb, v);
    QuiescentAfterThree(n.a, pa);
    var o := Get(TxTimes(n.a, 3, pa).items, v);
    assert o.Some? ==> o.value in TxTimes(n.a, 3, pa).items;
  }

  /** In particular if all that A must send at first keeps to the budget. */
  lemma FittingGetsThrough(ss: seq<Step>, pa: Port, pb: Port, v: nat)
    requires RunAllowed(ss, pa, pb, v) && v <= 0xFFF
    requires MeaningOf(RunNet(ss, pa, pb).a, v).declared
    requires Cost(Requests(RunNet(ss, pa, pb).a.items, Tx), 0) <= BUDGET
    ensures var n := Flush(RunNet(ss, pa, pb), 3, pa, pb);
            App(Get(n.a.items, v)) == QA && MeaningOf(n.b, v).reg == IN
  {
    hide RunNet, Flush, FindFrom, RunAllowed, Cost, Spent, Before, Requests;
    RunKeeps(ss, pa, pb, v);
    var n := RunNet(ss, pa, pb);
    var xs, k := Requests(n.a.items, Tx), Find(n.a.items, v);
    if n.a.items[k].app != QA {
      AnxiousIsDue(n.a.items[k].app);
      DueIsRequired(n.a.items, Tx, k);
      CheapIsSpent(xs, 0, 0);
      assert Delivers(TxTimes(n.a, 0, pa), v);
    }
    DeclarationGetsThrough(ss, pa, pb, v);
  }

  lemma AnxiousIsDue(s: AppState)
    requires Declared(s) && Unjoined(s) && s != QA
    ensures !AppRequest(s, Tx).optional
  {
  }

  // ---------------------------------------------------------------------
  // Without the assumption that everything fits
  // ---------------------------------------------------------------------

  /** A declaration that must be sent, and that B has not registered, is registered
      there after A's transmission exactly when the frame carries it.  Nothing at A
      depends on that: mvrp_event ignores the result of mvrp_txpdu. */
  lemma RegisteredIffCarried(n: Net, k: nat, e: Event, pa: Port, pb: Port)
    requires Inv(n.a) && Inv(n.b) && k < |n.a.items| && n.a.items[k].vid <= 0xFFF && e in {Tx, LvaTimer}
    requires MustDeclare(n.a.items[k].app, SweepOf(e))
    requires Reg(Get(n.b.items, n.a.items[k].vid)) != IN
    ensures var n' := Take(n, AtA(Do(e, None)), pa, pb);
            var e', v := SweepOf(e), n.a.items[k].vid;
            && App(Get(n'.a.items, v)) == AppNext(n.a.items[k].app, e', n.a.items[k].reg == IN, pa.p2p)
            && (Reg(Get(n'.b.items, v)) == IN <==> Carried(n.a.items, e', k))
  {
    hide Receive, Carried, Mentions, AfterFrame, OnTx, OnLvaTimer, AppRequest, AppNext, FindFrom;
    var v, it := n.a.items[k].vid, n.a.items[k];
    GetAt(n.a.items, k);
    GetSweep(n.a, e, pa, v);
    Transmit(n.a, e, n.b, pa, pb, v);
    DueIsMentioned(n.a, e, pa, v);
    DeclarationRegisters(it, Get(n.b.items, v), SweepOf(e), Mentions(n.a.items, SweepOf(e), v), v, pb.p2p);
  }

  /** A New or Join registers v, and nothing else in a frame does. */
  lemma DeclarationRegisters(it: Item, o: Option<Item>, e: Event, mentions: bool, v: nat, p2p: bool)
    requires e in {Tx, TxLA} && MustDeclare(it.app, e) && Reg(o) != IN
    ensures Reg(AfterFrame(o, Some(it), e, mentions, v, p2p)) == IN <==> mentions
  {
    hide AppNext;
  }

  /** A LeaveAll at B that is not sent: B takes its registrations back all the same, and
      a quiet A learns nothing of it.  So the agreement on a VID that A is quiet about
      survives B's LeaveAll timer exactly when its frame is sent. */
  lemma UnsentLeaveAll(n: Net, pa: Port, pb: Port, v: nat)
    requires PairInv(n, v) && v <= 0xFFF && App(Get(n.a.items, v)) == QA
    ensures var n' := Take(n, AtB(Do(LvaTimer, None)), pa, pb);
            && Reg(Get(n'.b.items, v)) == LV
            && (App(Get(n'.a.items, v)) != QA <==> LeaveAllFits(n.b))
            && (PairInv(n', v) <==> LeaveAllFits(n.b))
  {
    hide Get, OnLvaTimer, Receive, Mentions, Spent, Inv;
    ActInv(n.b, Do(LvaTimer, None), pb);
    GetSweep(n.b, LvaTimer, pb, v);
    Transmit(n.b, LvaTimer, n.a, pb, pa, v);
    LvaTimerSends(n.b, pb);
    if LeaveAllFits(n.b) {
      SendBKeeps(n, LvaTimer, pa, pb, v);
    }
    LeavesIn(Get(n.b.items, v).value, pb.p2p);
    NoneQuiet(Get(n.a.items, v), Get(n.b.items, v), Mentions(n.b.items, TxLA, v), v, pa.p2p);
  }

  lemma LeavesIn(it: Item, p2p: bool)
    requires it.reg == IN
    ensures StepBoth(it, TxLA, p2p).reg == LV
  {
    hide AppNext;
  }

  /** An observer's LeaveAll frame wakes a quiet declarer. */
  lemma NoneQuiet(oa: Option<Item>, ob: Option<Item>, mentions: bool, v: nat, p2p: bool)
    requires App(oa) == QA && Agreed(oa, ob)
    ensures App(AfterFrame(oa, ob, TxLA, mentions, v, p2p)) != QA
  {
    DeclarerHears(oa, RMt, v, p2p);
    ObserverSends(ob.value, TxLA, p2p);
    DeclarerHears(AfterRLA(oa, p2p), Sent(ob.value, TxLA), v, p2p);
  }

  lemma {:induction false} SilentAboveFFF(ts: seq<TxItem>, v: nat)
    requires v > 0xFFF
    ensures Silent(RxItems(ts), v)
  {
    if ts == [] {
    } else {
      SilentAboveFFF(ts[1..], v);
    }
  }

  /** What a participant receives, whatever fits, keeps its invariant, and tells it
      nothing about a VID above 0xFFF. */
  lemma ReceiveKeeps(from: Mad, e: Event, to: Mad, pf: Port, pt: Port, v: nat)
    requires Inv(from) && Inv(to) && e in {Tx, LvaTimer}
    ensures var to' := Receive(to, Handle(from, e, None, pf).frame, pt);
            Inv(to') && (v > 0xFFF && Get(to.items, v) == None ==> Get(to'.items, v) == None)
  {
    hide Get, Pdu, Requests, Receive, RxItems, Picked, Deliver, Ascending;
    var lva := e == LvaTimer;
    var xs := Requests(from.items, if lva then TxLA else Tx);
    RequestsAscend(from.items, if lva then TxLA else Tx);
    assert Handle(from, e, None, pf).frame == Pdu(xs, lva, lva, pf.station);
    if Pdu(xs, lva, lva, pf.station).Some? {
      ReceiveFrame(xs, lva, pf.station, to, pt);
      DeliverAboveFFF(to, lva, Picked(xs, 0, 2), pt, v);
    } else {
      NothingReceived(to, pt);
    }
  }

  lemma DeliverAboveFFF(to: Mad, lva: bool, ts: seq<TxItem>, pt: Port, v: nat)
    requires Inv(to)
    ensures var to' := Deliver(to, (if lva then [RxLeaveAll] else []) + RxItems(ts), pt).mad;
            Inv(to') && (v > 0xFFF && Get(to.items, v) == None ==> Get(to'.items, v) == None)
  {
    hide Get, RxItems, Deliver;
    var flag := if lva then [RxLeaveAll] else [];
    DeliverConcat(to, flag, RxItems(ts), pt);
    DeliverFlag(to, lva, pt, v);
    RxItemsProper(ts);
    DeliverInv(Deliver(to, flag, pt).mad, RxItems(ts), pt);
    if v > 0xFFF {
      SilentAboveFFF(ts, v);
      DeliverSilent(Deliver(to, flag, pt).mad, RxItems(ts), pt, v);
    }
  }

  /** Nothing a participant does by itself gives it an attribute for v, except a client
      request for v. */
  lemma ActsWithout(m: Mad, act: Action, port: Port, v: nat)
    requires Inv(m) && Local(act) && Get(m.items, v) == None
    requires act.Do? && act.e in {New, Join, Lv} ==> act.arg != Some(v)
    ensures Get(Act(m, act, port).mad.items, v) == None
  {
    hide Get, OnAttribute, OnTx, OnLvaTimer, OnLvTimer, OnPeriodic;
    match act
    case GarbageCollect => GetKept(m.items, v);
    case Do(e, arg) =>
      if e in {Tx, LvaTimer, LvTimer, Periodic} {
        GetSweep(m, e, port, v);
      } else {
        GetOnAttribute(m, e, arg.value, port.p2p, v);
      }
  }

  lemma TakeAboveFFF(n: Net, s: Step, pa: Port, pb: Port, v: nat)
    requires Inv(n.a) && Inv(n.b) && Get(n.b.items, v) == None && v > 0xFFF && Local(s.act) && LeavesBAlone(s, v)
    ensures var n' := Take(n, s, pa, pb);
            Inv(n'.a) && Inv(n'.b) && Get(n'.b.items, v) == None
  {
    hide Get, Act, Receive, Inv;
    var m, p := if s.AtA? then n.a else n.b, if s.AtA? then pa else pb;
    ActInv(m, s.act, p);
    if s.AtB? {
      ActsWithout(n.b, s.act, pb, v);
    }
    if s.act.Do? && s.act.e in {Tx, LvaTimer} {
      ActTransmits(m, s.act, p);
      if s.AtA? {
        ReceiveKeeps(n.a, s.act.e, n.b, pa, pb, v);
      } else {
        ReceiveKeeps(n.b, s.act.e, n.a, pb, pa, v);
      }
    } else {
      LocalStep(m, s.act, p, v);
      NothingReceived(n.a, pa);
      NothingReceived(n.b, pb);
    }
  }

  lemma ActTransmits(m: Mad, act: Action, port: Port)
    requires act.Do? && act.e in {Tx, LvaTimer}
    ensures Act(m, act, port).frame == Handle(m, act.e, None, port).frame
  {
  }

  /** A VID above 0xFFF can be declared, but no run, whether its frames fit or not,
      makes a peer register it. */
  lemma {:induction false} NeverHeardAboveFFF(ss: seq<Step>, pa: Port, pb: Port, v: nat)
    requires v > 0xFFF && forall i :: 0 <= i < |ss| ==> Local(ss[i].act) && LeavesBAlone(ss[i], v)
    ensures var n := RunNet(ss, pa, pb);
            Inv(n.a) && Inv(n.b) && Get(n.b.items, v) == None && MeaningOf(n.b, v).reg == MT
  {
    hide Take, Local, LeavesBAlone;
    if ss == [] {
    } else {
      NeverHeardAboveFFF(ss[..|ss| - 1], pa, pb, v);
      TakeAboveFFF(RunNet(ss[..|ss| - 1], pa, pb), ss[|ss| - 1], pa, pb, v);
    }
  }

  /** A client request for v at B takes its registration away exactly when it is
      a New or a Leave. */
  lemma PeerRequest(b: Mad, e: Event, v: nat, pb: Port)
    requires Inv(b) && v < 0x1_0000 && e in {New, Join, Lv} && MeaningOf(b, v).reg == IN
    ensures MeaningOf(Handle(b, e, Some(v), pb).mad, v).reg == IN <==> e == Join
  {
    AttributeRefines(b, e, v, pb.p2p, v);
  }
}
