/** Two MSRP participants on a link that exchange Listener messages: whatever else
    happens at either end, a listener that one is quiet about is registered at the other. */
module MsrpPair {
  import opened Mrp
  import opened MrpRuns
  import opened MrpPdu
  import opened Seqs
  import opened ListenerCodec
  import opened ListenerRoundTrip
  import opened ListenerBudget
  import opened MsrpSpec
  import opened MsrpInvariants
  import opened MsrpLink

  datatype Net = Net(a: Mad, b: Mad)

  /** An action at one end.  If it transmits, `room` is what the other messages leave of
      the frame for the Listener message, and `sent` tells whether the frame goes out. */
  datatype Step = AtA(act: Action, room: nat, sent: bool) | AtB(act: Action, room: nat, sent: bool)

  predicate Transmits(act: Action) { act.Do? && act.e in {Tx, LvaTimer} }

  /** What the peer makes of the Listener message. */
  function Listen(to: Mad, from: Mad, s: Step, p2p: bool): Mad {
    if Transmits(s.act) && s.sent then
      var msg := SentListeners(from, s.act.e, s.room);
      var buf := if msg.Some? then msg.value else [];
      Hear(to, msg, buf, |buf|, 0, p2p)
    else to
  }

  function Take(n: Net, s: Step, pa: bool, pb: bool): Net {
    match s
    case AtA(act, _, _) => Net(Act(n.a, act, pa), Listen(n.b, n.a, s, pb))
    case AtB(act, _, _) => Net(Listen(n.a, n.b, s, pa), Act(n.b, act, pb))
  }

  /** Anything but what only the link brings: received events about the listener, and
      LeaveAlls for listeners.  Only A's clients ask for the listener. */
  ghost predicate Local(act: Action, id: StreamId, atA: bool) {
    && Legal(act)
    && (act.Do? && act.e == RLA && act.arg.Some? ==> !act.arg.value.subject.Listener?)
    && (act.Do? && AttributeEvent(act.e) && act.arg.Some? && KeyOf(act.arg.value.subject) == ListenerKey(id) ==>
          atA && act.e in {New, Join, Lv})
    && (act == Withdraw(id) ==> atA)
  }

  /** A sweep with e must send the listener. */
  predicate Due(items: seq<Item>, e: Event, id: StreamId) {
    var k := Find(items, ListenerKey(id));
    k < |items| && !AppRequest(items[k].app, e).optional
  }

  /** The frame goes out, and the Listener message in it tells the peer about the k-th
      attribute: it carries it, with a substate that the peer does not ignore. */
  predicate Told(items: seq<Item>, e: Event, k: nat, room: nat, sent: bool)
    requires k < |items|
  {
    sent && items[k].subject.Listener? && items[k].subject.sub != IGNORE && Carried(Requests(items, e), room, k)
  }

  predicate LeaveAllFits(m: Mad, room: nat) {
    room >= 13 && Fills(Requests(m.items, TxLA), 0, 0, room)
  }

  /** If A must send the listener it does, and a LeaveAll of B goes out. */
  ghost predicate Allowed(n: Net, s: Step, id: StreamId) {
    && Local(s.act, id, s.AtA?) && s.room <= ROOM
    && (s.AtA? && Transmits(s.act) && Due(n.a.items, SweepOf(s.act.e), id) ==>
          Told(n.a.items, SweepOf(s.act.e), Find(n.a.items, ListenerKey(id)), s.room, s.sent))
    && (s.AtB? && s.act.Do? && s.act.e == LvaTimer ==> s.sent && LeaveAllFits(n.b, s.room))
  }

  // ---------------------------------------------------------------------
  // A quiet listener is registered at the peer
  // ---------------------------------------------------------------------

  function App(o: Option<Item>): AppState { if o.Some? then o.value.app else VO }

  function Reg(o: Option<Item>): RegState { if o.Some? then o.value.reg else MT }

  /** B only observes the listener, A has never heard a JoinIn for it, and if A is quiet
      about it then B has it registered. */
  ghost predicate Agreed(oa: Option<Item>, ob: Option<Item>) {
    && Observes(App(ob))
    && Unjoined(App(oa))
    && (App(oa) == QA ==> Reg(ob) == IN)
  }

  ghost predicate PairInv(n: Net, id: StreamId) {
    && Inv(n.a) && Inv(n.b) && OnWire(n.a.items) && OnWire(n.b.items)
    && Agreed(Get(n.a.items, ListenerKey(id)), Get(n.b.items, ListenerKey(id)))
  }

  function Swept(it: Item, e: Event, p2p: bool): Item {
    if e == Tx then StepTx(it, p2p) else StepBoth(it, e, p2p)
  }

  /** An observer stays one whatever it hears, merged or not, and a declaration registers. */
  lemma ObserverHears(o: Option<Item>, o': Option<Item>, t: TxListener, p2p: bool)
    requires (o.Some? ==> KeyOf(o.value.subject) == ListenerKey(t.id)) && Observes(App(o)) && Heard(o, o', t, p2p)
    ensures Observes(App(o'))
    ensures CodeOf(t) in {CODE_NEW, CODE_JOININ, CODE_JOINMT} ==> Reg(o') == IN
  {
    hide CodeOf;
    ObserverStays(App(o), CodeEvent(CodeOf(t)).value, p2p);
    hide AppNext;
  }

  lemma ObserverStays(s: AppState, e: Event, p2p: bool)
    requires Observes(s) && e in {RNew, RJoinIn, RIn, RJoinMt, RMt, RLv, RLA}
    ensures forall regIn :: Observes(AppNext(s, e, regIn, p2p))
  {
  }

  lemma DeclarerSends(it: Item, e: Event, p2p: bool)
    requires e in {Tx, TxLA} && Unjoined(it.app)
    ensures var s' := Swept(it, e, p2p).app;
            && Unjoined(s')
            && (s' == QA ==> CodeOf(ToSend(it, e)) in {CODE_NEW, CODE_JOININ, CODE_JOINMT})
            && (s' == QA && AppRequest(it.app, e).optional ==> it.app == QA && e == Tx)
  {
  }

  /** A transmits; its listener is heard, or need not be. */
  lemma AgreedAfterA(it: Item, ob: Option<Item>, o1: Option<Item>, o': Option<Item>, e: Event, pa: bool, pb: bool)
    requires e in {Tx, TxLA} && it.subject.Listener? && Agreed(Some(it), ob)
    requires ob.Some? ==> KeyOf(ob.value.subject) == KeyOf(it.subject)
    requires o1 == if e == TxLA then AfterRLA(ob, pb) else ob
    requires || Heard(o1, o', ToSend(it, e), pb)
             || ((o' == o1 || o' == ob) && AppRequest(it.app, e).optional)
    ensures Agreed(Some(Swept(it, e, pa)), o')
  {
    hide Heard, ToSend, AppRequest, Swept;
    DeclarerSends(it, e, pa);
    ObserverStays(App(ob), RLA, pb);
    hide AppNext;
    ToSendKeepsId(it, e);
    if Heard(o1, o', ToSend(it, e), pb) {
      ObserverHears(o1, o', ToSend(it, e), pb);
    }
  }

  lemma ToSendKeepsId(it: Item, e: Event)
    requires it.subject.Listener?
    ensures ToSend(it, e).id == it.subject.listener
  {
    hide AppRequest, RegNext;
  }

  /** All an observer says is whether it has the listener registered. */
  lemma ObserverSends(it: Item, e: Event, p2p: bool)
    requires e in {Tx, TxLA} && Observes(it.app)
    ensures var it' := Swept(it, e, p2p);
            && Observes(it'.app) && (e == Tx ==> it'.reg == it.reg) && (e == TxLA ==> it'.reg != IN)
            && CodeOf(ToSend(it, e)) == if it'.reg == IN then CODE_IN else CODE_MT
  {
  }

  lemma DeclarerStays(s: AppState, p2p: bool)
    requires Unjoined(s)
    ensures forall regIn :: Unjoined(AppNext(s, RLA, regIn, p2p)) && AppNext(s, RLA, regIn, p2p) != QA
    ensures forall regIn, e :: e in {RIn, RMt} ==>
              Unjoined(AppNext(s, e, regIn, p2p)) && (AppNext(s, e, regIn, p2p) == QA ==> e == RIn)
  {
  }

  lemma DeclarerHears(o: Option<Item>, o': Option<Item>, t: TxListener, p2p: bool)
    requires (o.Some? ==> KeyOf(o.value.subject) == ListenerKey(t.id)) && Unjoined(App(o)) && Heard(o, o', t, p2p)
    requires CodeOf(t) in {CODE_IN, CODE_MT}
    ensures Unjoined(App(o')) && (App(o') == QA ==> CodeOf(t) == CODE_IN)
  {
    hide CodeOf;
    DeclarerStays(App(o), p2p);
    hide AppNext;
  }

  /** B transmits; A hears about the listener or not, and on a Tx may hear nothing at all. */
  lemma AgreedAfterB(it: Item, oa: Option<Item>, o1: Option<Item>, o': Option<Item>, e: Event, pa: bool, pb: bool)
    requires e in {Tx, TxLA} && it.subject.Listener? && Agreed(oa, Some(it))
    requires oa.Some? ==> KeyOf(oa.value.subject) == KeyOf(it.subject)
    requires o1 == if e == TxLA then AfterRLA(oa, pa) else oa
    requires Heard(o1, o', ToSend(it, e), pa) || o' == o1
    ensures Agreed(o', Some(Swept(it, e, pb)))
  {
    hide Heard, ToSend, Swept;
    ObserverSends(it, e, pb);
    DeclarerStays(App(oa), pa);
    hide AppNext;
    ToSendKeepsId(it, e);
    if Heard(o1, o', ToSend(it, e), pa) {
      DeclarerHears(o1, o', ToSend(it, e), pa);
    }
  }

  /** A LeaveAll wakes a quiet declarer. */
  lemma LeaveAllWakes(o: Option<Item>, p2p: bool)
    requires Unjoined(App(o))
    ensures Unjoined(App(AfterRLA(o, p2p))) && App(AfterRLA(o, p2p)) != QA
  {
    DeclarerStays(App(o), p2p);
    hide AppNext;
  }

  lemma ObserverAfterRLA(o: Option<Item>, p2p: bool)
    requires Observes(App(o))
    ensures Observes(App(AfterRLA(o, p2p)))
  {
    ObserverStays(App(o), RLA, p2p);
    hide AppNext;
  }

  // ---------------------------------------------------------------------
  // Steps
  // ---------------------------------------------------------------------

  lemma {:induction false} DeliverOnWire(m: Mad, rx: seq<Rx>, p2p: bool)
    requires Inv(m) && OnWire(m.items)
    ensures Inv(Deliver(m, rx, p2p)) && OnWire(Deliver(m, rx, p2p).items)
  {
    hide Inv, OnWire, Handle, Act;
    if rx == [] {
    } else {
      DeliverOnWire(m, rx[..|rx| - 1], p2p);
      HandleRxOnWire(Deliver(m, rx[..|rx| - 1], p2p), rx[|rx| - 1], p2p);
    }
  }

  lemma HandleRxOnWire(m: Mad, r: Rx, p2p: bool)
    requires Inv(m) && OnWire(m.items)
    ensures Inv(HandleRx(m, r, p2p)) && OnWire(HandleRx(m, r, p2p).items)
  {
    hide Inv, OnWire, Handle;
    var a := match r
      case RxLeaveAll => Do(RLA, Some(Announced(NO_STREAM, IGNORE)))
      case RxListener(id, e, sub) => Do(e, Some(Announced(id, sub)));
    ActOnWire(m, a, p2p);
    Refines(m, a, p2p, DomainKey(0));
  }

  lemma ListenOnWire(to: Mad, from: Mad, s: Step, p2p: bool)
    requires Inv(to) && OnWire(to.items)
    ensures Inv(Listen(to, from, s, p2p)) && OnWire(Listen(to, from, s, p2p).items)
  {
    hide Inv, OnWire, Deliver, ParseListener, SentListeners;
    if Transmits(s.act) && s.sent {
      var msg := SentListeners(from, s.act.e, s.room);
      if msg.Some? && msg.value != [] {
        DeliverOnWire(to, ParseListener(msg.value, |msg.value|, 0, false).rx, p2p);
      }
    }
  }

  /** What the peer hears of one listener. */
  lemma ListenAt(to: Mad, from: Mad, s: Step, p2p: bool, id: StreamId)
    requires Inv(from) && Inv(to) && Transmits(s.act) && s.sent && s.room <= ROOM
    ensures var msg, k := SentListeners(from, s.act.e, s.room), Find(from.items, ListenerKey(id));
            var to', xs := Listen(to, from, s, p2p), Requests(from.items, SweepOf(s.act.e));
            var o, o' := Get(to.items, ListenerKey(id)), Get(to'.items, ListenerKey(id));
            var o1 := if s.act.e == LvaTimer then AfterRLA(o, p2p) else o;
            && Inv(to')
            && (if msg.None? || msg.value == [] then o' == o
                else if Mentions(xs, s.room, k) then k < |from.items| && Heard(o1, o', xs[k], p2p)
                else o' == o1)
  {
    hide Inv, FindFrom, Hear, SentListeners, Mentions, Heard, AfterRLA;
    var msg := SentListeners(from, s.act.e, s.room);
    var buf := if msg.Some? then msg.value else [];
    assert buf[0..|buf|] == buf;
    Transmit(from, s.act.e, to, s.room, buf, |buf|, 0, p2p, id);
  }

  /** A LeaveAll message is made exactly when every vector begun fits. */
  lemma LeaveAllSent(m: Mad, room: nat)
    requires Inv(m)
    ensures var msg := SentListeners(m, LvaTimer, room);
            (msg.Some? && msg.value != []) <==> LeaveAllFits(m, room)
  {
    hide Inv, Emit, Fills, Requests, EncodeVectors;
    AtRest(m, LvaTimer);
    RequestsAreProper(m.items, TxLA);
    EmitFills(Requests(m.items, TxLA), 0, 0, FlagOf(m, LvaTimer), room);
  }

  /** The sender's own attribute. */
  lemma SweptAt(m: Mad, act: Action, p2p: bool, id: StreamId)
    requires Inv(m) && Transmits(act)
    ensures Inv(Act(m, act, p2p))
    ensures var o := Get(m.items, ListenerKey(id));
            Get(Act(m, act, p2p).items, ListenerKey(id))
            == if o.None? then None else Some(Swept(o.value, SweepOf(act.e), p2p))
  {
    hide Inv, FindFrom, StepTx, StepBoth, OnTx, OnLvaTimer;
    SweepRefines(m, act.e, act.arg, p2p, ListenerKey(id), Beside(None, false, false, false));
  }

  lemma SendAKeeps(n: Net, s: Step, pa: bool, pb: bool, id: StreamId)
    requires PairInv(n, id) && s.AtA? && Transmits(s.act) && Allowed(n, s, id)
    ensures var n' := Take(n, s, pa, pb);
            Agreed(Get(n'.a.items, ListenerKey(id)), Get(n'.b.items, ListenerKey(id)))
  {
    hide Inv, Agreed, Act, Listen, Heard, AfterRLA, Swept, ToSend, AppRequest, Carried, Mentions, FindFrom, OnWire;
    var e, key := SweepOf(s.act.e), ListenerKey(id);
    var k, ob := Find(n.a.items, key), Get(n.b.items, key);
    SweptAt(n.a, s.act, pa, id);
    var o' := Get(Take(n, s, pa, pb).b.items, key);
    var o1 := if e == TxLA then AfterRLA(ob, pb) else ob;
    if s.sent {
      ListenAt(n.b, n.a, s, pb, id);
    } else {
      assert o' == ob by { NotSent(n.b, n.a, s, pb); }
    }
    if k == |n.a.items| {
      NothingToSay(ob, o', pb);
    } else {
      if !AppRequest(n.a.items[k].app, e).optional {
        DueIsMentioned(n.a, s.act.e, s.room, k);
        WireSub(n.a.items, k, e);
      }
      AgreedAfterA(n.a.items[k], ob, o1, o', e, pa, pb);
    }
  }

  lemma NotSent(to: Mad, from: Mad, s: Step, p2p: bool)
    requires !s.sent
    ensures Listen(to, from, s, p2p) == to
  {
  }

  lemma NothingToSay(ob: Option<Item>, o': Option<Item>, p2p: bool)
    requires Agreed(None, ob) && (o' == ob || o' == AfterRLA(ob, p2p))
    ensures Agreed(None, o')
  {
    ObserverAfterRLA(ob, p2p);
  }

  lemma WireSub(items: seq<Item>, k: nat, e: Event)
    requires OnWire(items) && k < |items| && items[k].subject.Listener?
    ensures Requests(items, e)[k].sub == items[k].subject.sub
  {
    hide AppRequest, RegNext;
  }

  lemma SendBKeeps(n: Net, s: Step, pa: bool, pb: bool, id: StreamId)
    requires PairInv(n, id) && s.AtB? && Transmits(s.act) && Allowed(n, s, id)
    ensures var n' := Take(n, s, pa, pb);
            Agreed(Get(n'.a.items, ListenerKey(id)), Get(n'.b.items, ListenerKey(id)))
  {
    hide Inv, Agreed, Act, Listen, Heard, AfterRLA, Swept, ToSend, AppRequest, Carried, Mentions, FindFrom, OnWire;
    hide LeaveAllFits, SentListeners;
    var e, key := SweepOf(s.act.e), ListenerKey(id);
    var k, oa := Find(n.b.items, key), Get(n.a.items, key);
    SweptAt(n.b, s.act, pb, id);
    var o' := Get(Take(n, s, pa, pb).a.items, key);
    var o1 := if e == TxLA then AfterRLA(oa, pa) else oa;
    LeaveAllSent(n.b, s.room);
    if s.sent {
      ListenAt(n.a, n.b, s, pa, id);
    } else {
      NotSent(n.a, n.b, s, pa);
    }
    if k == |n.b.items| {
      NothingHeard(oa, o', e, pa);
    } else {
      AgreedAfterB(n.b.items[k], oa, o1, o', e, pa, pb);
    }
  }

  lemma NothingHeard(oa: Option<Item>, o': Option<Item>, e: Event, p2p: bool)
    requires Agreed(oa, None) && o' == if e == TxLA then AfterRLA(oa, p2p) else oa
    ensures Agreed(o', None)
  {
    LeaveAllWakes(oa, p2p);
  }

  /** A client's request does not make an applicant quiet. */
  lemma RequestStays(s: AppState, e: Event, p2p: bool)
    requires Unjoined(s) && e in {New, Join, Lv}
    ensures forall regIn ::
              Unjoined(AppNext(s, e, regIn, p2p)) && (AppNext(s, e, regIn, p2p) == QA ==> s == QA)
  {
  }

  /** A request of a client serves the listener. */
  ghost predicate Requested(o: Option<Item>, o': Option<Item>, id: StreamId, p2p: bool)
    requires o.Some? ==> KeyOf(o.value.subject) == ListenerKey(id)
  {
    exists e: Event, r: Request, talker: bool ::
      e in {New, Join, Lv} && KeyOf(r.subject) == ListenerKey(id) && o' == Serve(o, e, r, talker, p2p)
  }

  /** What a step that sends nothing does to the listener: a request of A's clients serves
      it, and apart from that it loses at most a registration that was leaving. */
  lemma LocalAt(m: Mad, act: Action, p2p: bool, id: StreamId, atA: bool)
    requires Inv(m) && Local(act, id, atA) && !Transmits(act)
    ensures var o, o' := Get(m.items, ListenerKey(id)), Get(Act(m, act, p2p).items, ListenerKey(id));
            && Inv(Act(m, act, p2p))
            && (o' == o || o' == Reap(o) || o' == Reap(Lift(Expire, o)) || (atA && Requested(o, o', id, p2p)))
  {
    hide Inv, FindFrom, Act, Serve, Reap, Expire, StepBoth;
    Refines(m, act, p2p, ListenerKey(id));
    WithdrawalKey(id, Get(m.items, ListenerKey(id)));
  }

  lemma WithdrawalKey(id: StreamId, record: Option<Item>)
    ensures KeyOf(Withdrawal(id, record).subject) == ListenerKey(id)
  {
  }

  lemma RequestedAgrees(oa: Option<Item>, o': Option<Item>, ob: Option<Item>, id: StreamId, p2p: bool)
    requires Agreed(oa, ob) && (oa.Some? ==> KeyOf(oa.value.subject) == ListenerKey(id)) && Requested(oa, o', id, p2p)
    ensures Agreed(o', ob)
  {
    RequestStays(App(oa), New, p2p);
    RequestStays(App(oa), Join, p2p);
    RequestStays(App(oa), Lv, p2p);
    hide AppNext;
  }

  lemma ReapedAgrees(oa: Option<Item>, ob: Option<Item>)
    requires Agreed(oa, ob)
    ensures Agreed(Reap(oa), ob) && Agreed(Reap(Lift(Expire, oa)), ob)
    ensures Agreed(oa, Reap(ob)) && Agreed(oa, Reap(Lift(Expire, ob)))
  {
  }

  lemma TakeKeeps(n: Net, s: Step, pa: bool, pb: bool, id: StreamId)
    requires PairInv(n, id) && Allowed(n, s, id)
    ensures PairInv(Take(n, s, pa, pb), id)
  {
    hide Inv, Agreed, Act, Listen, Requested, Reap, Expire, FindFrom, OnWire, Legal, Due, Told, LeaveAllFits;
    var m, p := if s.AtA? then n.a else n.b, if s.AtA? then pa else pb;
    var oa, ob := Get(n.a.items, ListenerKey(id)), Get(n.b.items, ListenerKey(id));
    Refines(m, s.act, p, ListenerKey(id));
    ActOnWire(m, s.act, p);
    ListenOnWire(n.a, n.b, s, pa);
    ListenOnWire(n.b, n.a, s, pb);
    if Transmits(s.act) {
      if s.AtA? {
        SendAKeeps(n, s, pa, pb, id);
      } else {
        SendBKeeps(n, s, pa, pb, id);
      }
    } else {
      NothingSaid(n, s, pa, pb);
      LocalAt(m, s.act, p, id, s.AtA?);
      ReapedAgrees(oa, ob);
      var o' := Get(Act(m, s.act, p).items, ListenerKey(id));
      if s.AtA? && Requested(oa, o', id, p) {
        RequestedAgrees(oa, o', ob, id, p);
      }
    }
  }

  lemma NothingSaid(n: Net, s: Step, pa: bool, pb: bool)
    requires !Transmits(s.act)
    ensures Listen(n.a, n.b, s, pa) == n.a && Listen(n.b, n.a, s, pb) == n.b
  {
  }

  // ---------------------------------------------------------------------
  // Runs
  // ---------------------------------------------------------------------

  function RunNet(ss: seq<Step>, start: Net, pa: bool, pb: bool): Net {
    if ss == [] then start else Take(RunNet(ss[..|ss| - 1], start, pa, pb), ss[|ss| - 1], pa, pb)
  }

  ghost predicate RunAllowed(ss: seq<Step>, start: Net, pa: bool, pb: bool, id: StreamId) {
    forall i :: 0 <= i < |ss| ==> Allowed(RunNet(ss[..i], start, pa, pb), ss[i], id)
  }

  function Starts(qa: Option<nat>, qb: Option<nat>): Net { Net(Start(qa), Start(qb)) }

  lemma {:induction false} RunKeeps(ss: seq<Step>, qa: Option<nat>, qb: Option<nat>, pa: bool, pb: bool, id: StreamId)
    requires RunAllowed(ss, Starts(qa, qb), pa, pb, id)
    ensures PairInv(RunNet(ss, Starts(qa, qb), pa, pb), id)
  {
    hide Take, PairInv, Allowed;
    if ss == [] {
      StartAgrees(qa, qb, id);
    } else {
      var pre := ss[..|ss| - 1];
      forall i | 0 <= i < |pre| ensures Allowed(RunNet(pre[..i], Starts(qa, qb), pa, pb), pre[i], id) {
        assert pre[..i] == ss[..i] && pre[i] == ss[i];
      }
      RunKeeps(pre, qa, qb, pa, pb, id);
      TakeKeeps(RunNet(pre, Starts(qa, qb), pa, pb), ss[|ss| - 1], pa, pb, id);
    }
  }

  lemma StartAgrees(qa: Option<nat>, qb: Option<nat>, id: StreamId)
    ensures PairInv(Starts(qa, qb), id)
  {
    StartInv(qa);
    StartInv(qb);
    GetEmpty(ListenerKey(id));
  }

  /** Through any interleaving of requests, commands, received talkers and domains, timers,
      Listener messages and lost frames, with merges that force registrars to MT, pruning
      or not, in either p2p mode of either end: when A's applicant for a listener is quiet,
      B's registrar for it is IN. */
  lemma QuietIsRegistered(ss: seq<Step>, qa: Option<nat>, qb: Option<nat>, pa: bool, pb: bool, id: StreamId)
    requires RunAllowed(ss, Starts(qa, qb), pa, pb, id)
    requires App(Get(RunNet(ss, Starts(qa, qb), pa, pb).a.items, ListenerKey(id))) == QA
    ensures Registered(RunNet(ss, Starts(qa, qb), pa, pb).b, id)
  {
    hide RunNet, RunAllowed, Inv, OnWire;
    RunKeeps(ss, qa, qb, pa, pb, id);
  }

  // ---------------------------------------------------------------------
  // What the assumptions are for
  // ---------------------------------------------------------------------

  /** A quiet A agrees with B after B's LeaveAll timer exactly when the LeaveAll goes out;
      B takes the registration back in any case. */
  lemma UnsentLeaveAll(n: Net, s: Step, pa: bool, pb: bool, id: StreamId)
    requires PairInv(n, id) && s.AtB? && s.act == Do(LvaTimer, None) && s.room <= ROOM
    requires App(Get(n.a.items, ListenerKey(id))) == QA
    ensures var n' := Take(n, s, pa, pb);
            && Reg(Get(n'.b.items, ListenerKey(id))) == LV
            && (PairInv(n', id) <==> s.sent && LeaveAllFits(n.b, s.room))
  {
    hide Inv, Act, Listen, Swept, FindFrom, OnWire, LeaveAllFits, SentListeners, Mentions, Heard;
    SweptAt(n.b, s.act, pb, id);
    LeavesIn(Get(n.b.items, ListenerKey(id)).value, pb);
    LeaveAllSent(n.b, s.room);
    if !s.sent {
      NotSent(n.a, n.b, s, pa);
    } else if !LeaveAllFits(n.b, s.room) {
      ListenAt(n.a, n.b, s, pa, id);
    } else {
      LvaTimerAllowed(n, s, id);
      TakeKeeps(n, s, pa, pb, id);
    }
  }

  lemma LeavesIn(it: Item, p2p: bool)
    requires it.reg == IN
    ensures Swept(it, TxLA, p2p).reg == LV
  {
    hide AppNext;
  }

  lemma LvaTimerAllowed(n: Net, s: Step, id: StreamId)
    requires s.AtB? && s.act == Do(LvaTimer, None) && s.room <= ROOM && s.sent && LeaveAllFits(n.b, s.room)
    ensures Allowed(n, s, id)
  {
    hide LeaveAllFits;
  }

  /** A joins with the substate that receivers ignore, and transmits twice. */
  function IgnoredRun(id: StreamId): seq<Step> {
    [AtA(Do(Join, Some(Request(Listener(id, IGNORE), Declare))), ROOM, true),
     AtA(Do(Tx, None), ROOM, true), AtA(Do(Tx, None), ROOM, true)]
  }

  /** One ignored listener at A in state s, and nothing of it at B. */
  ghost predicate Unheard(n: Net, s: AppState, id: StreamId) {
    && Inv(n.a) && Inv(n.b) && n.a.items == [Item(Listener(id, IGNORE), Declare, s, IN)]
    && Get(n.b.items, ListenerKey(id)) == None
  }

  lemma FirstJoin(id: StreamId, pa: bool, pb: bool)
    ensures Unheard(Take(Starts(None, None), IgnoredRun(id)[0], pa, pb), VP, id)
  {
    var r := Request(Listener(id, IGNORE), Declare);
    StartInv(None);
    GetEmpty(ListenerKey(id));
    Refines(Start(None), Do(Join, Some(r)), pa, ListenerKey(id));
    assert InsertAt([], 0, Allocated(r)) == [Allocated(r)];
  }

  lemma StaysUnheard(n: Net, s: AppState, id: StreamId, pa: bool, pb: bool)
    requires Unheard(n, s, id) && s in {VP, AA}
    ensures Unheard(Take(n, AtA(Do(Tx, None), ROOM, true), pa, pb), if s == VP then AA else QA, id)
  {
    hide Inv, Listen, SentListeners, Heard, Deliver, Picked;
    var step := AtA(Do(Tx, None), ROOM, true);
    SweptAt(n.a, step.act, pa, id);
    ListenAt(n.b, n.a, step, pb, id);
  }

  /** Such a listener goes quiet without ever having been registered. */
  lemma IgnoredGoesQuiet(id: StreamId, pa: bool, pb: bool)
    ensures var n := RunNet(IgnoredRun(id), Starts(None, None), pa, pb);
            App(Get(n.a.items, ListenerKey(id))) == QA && !Registered(n.b, id)
  {
    hide Take, Inv, Registered;
    var ss := IgnoredRun(id);
    var s1, s2 := ss[..1], ss[..2];
    assert s2[..1] == s1 && s1[..0] == [];
    FirstJoin(id, pa, pb);
    assert RunNet([], Starts(None, None), pa, pb) == Starts(None, None);
    assert RunNet(s1, Starts(None, None), pa, pb) == Take(Starts(None, None), ss[0], pa, pb);
    StaysUnheard(RunNet(s1, Starts(None, None), pa, pb), VP, id, pa, pb);
    assert RunNet(s2, Starts(None, None), pa, pb) == Take(RunNet(s1, Starts(None, None), pa, pb), ss[1], pa, pb);
    StaysUnheard(RunNet(s2, Starts(None, None), pa, pb), AA, id, pa, pb);
    UnheardMeans(RunNet(ss, Starts(None, None), pa, pb), id);
  }

  lemma UnheardMeans(n: Net, id: StreamId)
    requires Unheard(n, QA, id)
    ensures App(Get(n.a.items, ListenerKey(id))) == QA && !Registered(n.b, id)
  {
    hide Inv;
  }
}
