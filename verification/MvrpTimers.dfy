/** Timers, transmit opportunities, LeaveAll and notifications of the MVRP
    participant. */
module MvrpTimers {
  import opened Mrp
  import opened MrpRuns
  import opened MrpPdu
  import opened VidCodec
  import opened VidRoundTrip
  import opened VidBudget
  import opened Seqs
  import opened MvrpSpec
  import opened MvrpInvariants

  // ---------------------------------------------------------------------
  // The join timer
  // ---------------------------------------------------------------------

  /** An applicant with something to say has its transmit opportunity coming. */
  ghost predicate JoinTimed(m: Mad) {
    forall it :: it in m.items && WantsTx(it.app) ==> m.mrp.join
  }

  /** Tx, a received LeaveAll, a periodic event and every attribute event
      establish it, whatever was the case before. */
  lemma JoinTimedAfter(m: Mad, e: Event, arg: Option<nat>, port: Port)
    requires e in {Tx, RLA, Periodic} || AttributeEvent(e)
    ensures JoinTimed(Handle(m, e, arg, port).mad)
  {
    hide OnAttribute, Find, SweepBoth, OnTx;
    if AttributeEvent(e) && arg.Some? {
      OnAttributeStartsJoin(m, e, arg.value, port.p2p);
    } else if e == Tx {
      JoinTimedAfterTx(m, port);
    } else if e == Periodic {
      assert m.items == [] ==> OnPeriodic(m, port).mad.items == [];
    }
  }

  lemma OnAttributeStartsJoin(m: Mad, e: Event, v: nat, p2p: bool)
    ensures OnAttribute(m, e, v, p2p).mad.mrp.join
  {
    hide Find, Position, Update, Add;
  }

  lemma JoinTimedAfterTx(m: Mad, port: Port)
    ensures JoinTimed(OnTx(m, port).mad)
  {
    var items := SweepApp(m.items, Tx, port.p2p);
    forall it | it in items && WantsTx(it.app) ensures MoreToSend(m.items, port.p2p) {
      var i :| 0 <= i < |items| && items[i] == it;
      TxLowersRank(m.items[i].app, m.items[i].reg == IN, port.p2p);
    }
  }

  /** The leave timer and reclaim preserve it. */
  lemma JoinTimedKept(m: Mad)
    requires JoinTimed(m)
    ensures JoinTimed(OnLvTimer(m).mad) && JoinTimed(Collect(m).mad)
  {
    hide Dead, Without, ReclaimNotes, SurvivorNotes, RegNext;
    var items := ExpireLeaves(m.items);
    WithoutMembers(Dead, items);
    WithoutMembers(Dead, m.items);
    forall it | it in items ensures exists i :: 0 <= i < |m.items| && m.items[i].app == it.app {
      var i :| 0 <= i < |items| && items[i] == it;
      assert m.items[i].app == it.app;
    }
  }

  /** The LeaveAll timer stops the join timer without starting it again.  That
      loses the property exactly when some applicant was very anxious. */
  lemma LvaTimerLosesJoin(m: Mad, port: Port)
    ensures JoinTimed(OnLvaTimer(m, port).mad) <==> Calm(m)
  {
    hide Pdu, Requests, AppNext, WantsTx;
    var items := OnLvaTimer(m, port).mad.items;
    forall i | 0 <= i < |items| ensures WantsTx(items[i].app) <==> m.items[i].app in {VP, VN} {
      AnxiousAfterTxLA(m.items[i].app, m.items[i].reg == IN, port.p2p);
    }
    if it :| it in m.items && it.app in {VP, VN} {
      var i :| 0 <= i < |m.items| && m.items[i] == it;
      assert items[i] in items;
    }
  }

  ghost predicate Calm(m: Mad) {
    forall it :: it in m.items ==> it.app !in {VP, VN}
  }

  lemma ActKeepsJoin(m: Mad, a: Action, port: Port)
    requires JoinTimed(m) && (a.Do? && a.e == LvaTimer ==> Calm(m))
    ensures JoinTimed(Act(m, a, port).mad)
  {
    hide JoinTimed, Calm, OnAttribute, OnTx, OnLvaTimer, OnLvTimer, OnPeriodic, OnRLA, Without;
    match a
    case GarbageCollect => JoinTimedKept(m);
    case Do(e, arg) =>
      if e in {Tx, RLA, Periodic} || AttributeEvent(e) {
        JoinTimedAfter(m, e, arg, port);
      } else if e == LvaTimer {
        LvaTimerLosesJoin(m, port);
      } else if e == LvTimer {
        JoinTimedKept(m);
      }
  }

  /** In every run in which the LeaveAll timer finds nobody very anxious, nobody who wants
      to transmit waits in vain. */
  lemma {:induction false} RunTimed(acts: seq<Action>, port: Port)
    requires forall i :: 0 <= i < |acts| && acts[i].Do? && acts[i].e == LvaTimer ==> Calm(RunAll(acts[..i], port))
    ensures JoinTimed(RunAll(acts, port))
  {
    hide Act, Calm;
    if acts == [] {
    } else {
      var pre := acts[..|acts| - 1];
      forall i | 0 <= i < |pre| && pre[i].Do? && pre[i].e == LvaTimer ensures Calm(RunAll(pre[..i], port)) {
        assert pre[..i] == acts[..i] && pre[i] == acts[i];
      }
      RunTimed(pre, port);
      ActKeepsJoin(RunAll(pre, port), acts[|acts| - 1], port);
    }
  }

  /** A joined VID whose join timer was lost in that way. */
  lemma LvaTimerLosesJoinExample(v: nat, port: Port)
    requires v < 0x1_0000
    ensures var m := RunAll([Do(Join, Some(v)), Do(LvaTimer, None)], port);
            m.items == [Item(v, AA, LV)] && !m.mrp.join
  {
    hide OnAttribute, Pdu, Requests, OnTx, OnRLA, OnLvTimer, OnPeriodic, Find;
    var acts := [Do(Join, Some(v)), Do(LvaTimer, None)];
    assert acts[..1] == [Do(Join, Some(v))] && acts[..1][..0] == [];
    JoinFromStart(v, port);
    assert RunAll(acts[..1], port) == OnAttribute(START, Join, v, port.p2p).mad;
  }

  lemma JoinFromStart(v: nat, port: Port)
    ensures OnAttribute(START, Join, v, port.p2p).mad.items == [Item(v, VP, IN)]
  {
    assert Add([], v) == [Item(v, VO, MT)];
  }

  // ---------------------------------------------------------------------
  // Transmit opportunities run out
  // ---------------------------------------------------------------------

  /** After n consecutive Tx events. */
  function TxTimes(m: Mad, n: nat, port: Port): Mad {
    if n == 0 then m else OnTx(TxTimes(m, n - 1, port), port).mad
  }

  ghost predicate RankBelow(items: seq<Item>, n: int) {
    forall it :: it in items ==> Rank(it.app) < n
  }

  lemma TxLowersAll(m: Mad, n: nat, port: Port)
    requires RankBelow(m.items, n + 1)
    ensures RankBelow(OnTx(m, port).mad.items, if n == 0 then 1 else n)
    ensures n <= 1 ==> !OnTx(m, port).mad.mrp.join
  {
    var items := OnTx(m, port).mad.items;
    forall i | 0 <= i < |items| ensures Rank(items[i].app) < if n == 0 then 1 else n {
      assert m.items[i] in m.items;
      TxLowersRank(m.items[i].app, m.items[i].reg == IN, port.p2p);
    }
  }

  /** From any state whatever, three transmit opportunities leave every applicant
      with nothing more to say and the join timer stopped. */
  lemma QuiescentAfterThree(m: Mad, port: Port)
    ensures var m' := TxTimes(m, 3, port);
            !m'.mrp.join && forall it :: it in m'.items ==> it.app in {VO, QA, AO, QO, QP}
  {
    var m1, m2, m3 := TxTimes(m, 1, port), TxTimes(m, 2, port), TxTimes(m, 3, port);
    assert RankBelow(m.items, 4);
    assert m1 == OnTx(TxTimes(m, 0, port), port).mad;
    TxLowersAll(m, 3, port);
    TxLowersAll(m1, 2, port);
    TxLowersAll(m2, 1, port);
    forall it | it in m3.items ensures it.app in {VO, QA, AO, QO, QP} {
      TxLowersRank(it.app, true, true);
    }
  }

  /** Two are not enough for a New on a VID that no peer registers. */
  lemma TwoAreNotEnough(v: nat, mrp: MrpDb, port: Port)
    ensures TxTimes(Mad([Item(v, VN, MT)], mrp), 2, port).items == [Item(v, AA, MT)]
  {
    var m := Mad([Item(v, VN, MT)], mrp);
    assert TxTimes(m, 1, port) == OnTx(TxTimes(m, 0, port), port).mad;
    assert TxTimes(m, 1, port).items == [Item(v, AN, MT)];
  }

  // ---------------------------------------------------------------------
  // LeaveAll
  // ---------------------------------------------------------------------

  lemma RequestsAscend(items: seq<Item>, e: Event)
    requires Sorted(items) && e in {Tx, TxLA}
    ensures Ascending(Requests(items, e)) && AllSendable(Requests(items, e))
  {
    var xs := Requests(items, e);
    forall t | t in xs ensures Sendable(t.sndmsg) {
      var i :| 0 <= i < |xs| && xs[i] == t;
    }
  }

  function LvaCount(rx: seq<Rx>): nat {
    if rx == [] then 0 else (if rx[0].RxLeaveAll? then 1 else 0) + LvaCount(rx[1..])
  }

  lemma {:induction false} ItemsHaveNoLva(ts: seq<TxItem>)
    ensures LvaCount(RxItems(ts)) == 0
  {
    if ts == [] {
    } else {
      ItemsHaveNoLva(ts[1..]);
      if RxItem(ts[0]) != [] {
        assert RxItems(ts)[1..] == RxItems(ts[1..]);
      } else {
        assert RxItems(ts) == RxItems(ts[1..]);
      }
    }
  }

  /** A frame sent by the join timer never carries a LeaveAll.  The frame of the
      LeaveAll timer carries exactly one, before everything else, even when there
      is nothing to declare. */
  lemma LeaveAllOnlyFromItsTimer(m: Mad, e: Event, port: Port, tail: seq<Byte>)
    requires Inv(m) && e in {Tx, LvaTimer} && Handle(m, e, None, port).frame.Some?
    ensures var frame := Handle(m, e, None, port).frame.value;
            var rx := ParseFrame(frame + tail, |frame|).rx;
            && LvaCount(rx) == (if e == LvaTimer then 1 else 0)
            && (e == LvaTimer ==> rx[0] == RxLeaveAll)
  {
    var e' := if e == Tx then Tx else TxLA;
    var xs := Requests(m.items, e');
    RequestsAscend(m.items, e');
    RoundTrip(xs, e == LvaTimer, e == LvaTimer, port.station, tail);
    var rx := RxItems(Picked(xs, 0, 2));
    ItemsHaveNoLva(Picked(xs, 0, 2));
    assert ([RxLeaveAll] + rx)[1..] == rx && [] + rx == rx;
  }

  /** The LeaveAll timer sends a frame exactly when the vectors the encoder begins keep
      to the budget. */
  lemma LvaTimerSends(m: Mad, port: Port)
    requires Inv(m)
    ensures OnLvaTimer(m, port).frame.Some? <==> Spent(Requests(m.items, TxLA), 0, 0) <= BUDGET
  {
    hide Pdu, Picked, Requests, Spent, Cost, Before, Ascending, AllSendable;
    var xs := Requests(m.items, TxLA);
    RequestsAscend(m.items, TxLA);
    if k :| 0 <= k < |xs| && Required(xs[k]) {
      SentIff(xs, true, true, port.station, k);
    } else {
      NoneLeft(xs, 0);
      CheapIsSpent(xs, 0, 0);
      CheapIsCarried(xs, true, port.station);
    }
  }

  // ---------------------------------------------------------------------
  // Notifications
  // ---------------------------------------------------------------------

  function Count(notes: seq<Note>, n: Note): nat {
    if notes == [] then 0 else (if notes[0] == n then 1 else 0) + Count(notes[1..], n)
  }

  lemma {:induction false} CountConcat(a: seq<Note>, b: seq<Note>, n: Note)
    ensures Count(a + b, n) == Count(a, n) + Count(b, n)
  {
    if a == [] {
      assert a + b == b;
    } else {
      assert (a + b)[1..] == a[1..] + b;
      CountConcat(a[1..], b, n);
    }
  }

  function Once(b: bool): nat { if b then 1 else 0 }

  ghost predicate Reclaims(items: seq<Item>, v: nat) {
    exists it :: it in items && it.vid == v && Dead(it)
  }

  lemma {:induction false} CountReclaimed(items: seq<Item>, n: Note)
    requires Sorted(items)
    ensures Count(ReclaimNotes(items), n) == Once(n.kind == NotifyLv && Reclaims(items, n.vid))
  {
    if items == [] {
    } else {
      hide Dead;
      var pre, last := items[..|items| - 1], items[|items| - 1];
      CountReclaimed(pre, n);
      CountConcat(ReclaimNotes(pre), ReclaimNote(last), n);
      assert forall it :: it in pre ==> it.vid < last.vid;
      assert forall it :: it in items <==> it in pre || it == last;
    }
  }

  predicate Survives(it: Item) {
    it.reg == LV && !Reclaimable(it.app, MT)
  }

  ghost predicate HasSurvivor(items: seq<Item>, v: nat) {
    exists it :: it in items && it.vid == v && Survives(it)
  }

  lemma {:induction false} CountSurvivors(items: seq<Item>, n: Note)
    requires Sorted(items)
    ensures Count(SurvivorNotes(items), n) == Once(n.kind == NotifyLv && HasSurvivor(items, n.vid))
  {
    if items == [] {
    } else {
      var pre, last := items[..|items| - 1], items[|items| - 1];
      CountSurvivors(pre, n);
      CountConcat(SurvivorNotes(pre), SurvivorNote(last), n);
      assert forall it :: it in pre ==> it.vid < last.vid;
      assert forall it :: it in items <==> it in pre || it == last;
    }
  }

  /** An In or Mt that finds nobody interested in the VID: an attribute without
      registration whose applicant ends up observing.  An In for an unknown VID makes
      such an attribute; an Mt does not. */
  predicate Unwanted(o: Option<Item>, e: Event) {
    match o
    case None => e == RIn
    case Some(it) => it.reg == MT && (it.app in {VO, AO, QO} || (it.app == LO && e == RMt))
  }

  /** What clients are told of an attribute event, if o is the attribute before: a New
      always, a Join exactly when the registrar was not IN, a Leave always, and for an
      In or Mt a Leave exactly when it makes the attribute go. */
  ghost predicate Reported(notes: seq<Note>, e: Event, v: nat, o: Option<Item>) {
    && (e in {New, RNew} ==> notes == [Note(NotifyNew, v)])
    && (e in {Join, RJoinIn, RJoinMt} ==> notes == if Meant(o).reg == IN then [] else [Note(NotifyJoin, v)])
    && (e in {Lv, RLv} ==> notes == [Note(NotifyLv, v)])
    && (e in {RIn, RMt} ==> notes == if Unwanted(o, e) then [Note(NotifyLv, v)] else [])
  }

  lemma ApplyReported(items: seq<Item>, mrp: MrpDb, k: nat, e: Event, p2p: bool)
    requires k < |items| && AttributeEvent(e)
    ensures Reported(Apply(items, mrp, k, e, p2p).notes, e, items[k].vid, Some(items[k]))
  {
    DeadAfter(items[k], e, p2p);
    hide AppNext, Dead;
  }

  lemma DeadAfter(it: Item, e: Event, p2p: bool)
    ensures e in {New, Join, RNew, RJoinIn, RJoinMt} ==> !Dead(Update(it, e, p2p))
    ensures e in {RIn, RMt} ==> (Dead(Update(it, e, p2p)) <==> Unwanted(Some(it), e))
  {
  }

  lemma AttributeReported(m: Mad, e: Event, v: nat, p2p: bool)
    requires Inv(m) && v < 0x1_0000 && AttributeEvent(e)
    ensures Reported(OnAttribute(m, e, v, p2p).notes, e, v, Get(m.items, v))
  {
    hide FindFrom, Apply;
    var k, mrp := Find(m.items, v), m.mrp.(join := true);
    if k < |m.items| {
      ApplyReported(m.items, mrp, k, e, p2p);
    } else {
      assert Add(m.items, v)[Position(m.items, v, 0)] == Item(v, VO, MT);
      ApplyReported(Add(m.items, v), mrp, Position(m.items, v, 0), e, p2p);
    }
  }

  /** Clients are told that a VID nobody had registered has left. */
  lemma LeaveOfAnUnknownVid(v: nat, port: Port)
    requires v < 0x1_0000
    ensures Handle(START, RIn, Some(v), port).notes == [Note(NotifyLv, v)]
  {
    hide OnAttribute;
    AttributeReported(START, RIn, v, port.p2p);
  }

  lemma OnlyOne(items: seq<Item>, k: nat)
    requires Sorted(items) && k < |items|
    ensures items[k] in items && forall it :: it in items && it.vid == items[k].vid ==> it == items[k]
  {
  }

  /** The leave timer takes the VID's registration away, or finds its attribute dead. */
  ghost predicate Expires(m: Mad, v: nat) {
    var k := Find(m.items, v);
    k < |m.items| && (m.items[k].reg == LV || Dead(m.items[k]))
  }

  /** When the leave timer expires, a VID whose registrar was leaving is reported
      exactly once, whether its attribute survives or is reclaimed; so is a VID
      whose dead attribute is swept up on the way.  Nothing else is reported. */
  lemma LeaveReportedOnce(m: Mad, n: Note)
    requires Inv(m)
    ensures Count(OnLvTimer(m).notes, n) == Once(n.kind == NotifyLv && Expires(m, n.vid))
  {
    hide ReclaimNotes, SurvivorNotes, Count, Without;
    var items, k := ExpireLeaves(m.items), Find(m.items, n.vid);
    assert Sorted(items);
    CountReclaimed(items, n);
    CountSurvivors(m.items, n);
    CountConcat(ReclaimNotes(items), SurvivorNotes(m.items), n);
    if k < |m.items| {
      OnlyOne(items, k);
      OnlyOne(m.items, k);
    } else {
      NoneThere(m.items, n.vid);
      assert forall i :: 0 <= i < |items| ==> items[i].vid == m.items[i].vid;
      NoneThere(items, n.vid);
    }
  }

  lemma NoneThere(items: seq<Item>, v: nat)
    requires forall i :: 0 <= i < |items| ==> items[i].vid != v
    ensures forall it :: it in items ==> it.vid != v
  {
  }
}
