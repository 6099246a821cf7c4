/** What every run of the MVRP participant keeps. */
module MvrpInvariants {
  import opened Mrp
  import opened MrpRuns
  import opened Seqs
  import opened MvrpSpec

  /** One thing that can happen to the participant. */
  datatype Action = Do(e: Event, arg: Option<nat>) | GarbageCollect

  ghost predicate Legal(a: Action) {
    a.Do? && a.arg.Some? ==> a.arg.value < 0x1_0000
  }

  function Act(m: Mad, a: Action, port: Port): Outcome {
    match a
    case Do(e, arg) => Handle(m, e, arg, port)
    case GarbageCollect => Collect(m)
  }

  function RunAll(acts: seq<Action>, port: Port): Mad {
    if acts == [] then START else Act(RunAll(acts[..|acts| - 1], port), acts[|acts| - 1], port).mad
  }

  // ---------------------------------------------------------------------
  // The list is strictly ascending
  // ---------------------------------------------------------------------

  ghost predicate Sorted(items: seq<Item>) {
    && (forall i, j :: 0 <= i < j < |items| ==> items[i].vid < items[j].vid)
    && (forall i :: 0 <= i < |items| ==> items[i].vid < 0x1_0000)
  }

  lemma AddSorted(items: seq<Item>, v: nat)
    requires Sorted(items) && v < 0x1_0000 && Find(items, v) == |items|
    ensures Sorted(Add(items, v))
  {
    var k := Position(items, v, 0);
    assert k < |items| ==> items[k].vid != v;
    hide Position, FindFrom;
    var a := Add(items, v);
    forall i, j | 0 <= i < j < |a| ensures a[i].vid < a[j].vid {
      assert a[i] == if i < k then items[i] else if i == k then Item(v, VO, MT) else items[i - 1];
      assert a[j] == if j < k then items[j] else if j == k then Item(v, VO, MT) else items[j - 1];
    }
  }

  lemma RemoveSorted(items: seq<Item>, k: nat)
    requires Sorted(items) && k < |items|
    ensures Sorted(RemoveAt(items, k))
  {
  }

  lemma SortedAppend(s: seq<Item>, x: Item)
    requires Sorted(s) && x.vid < 0x1_0000 && forall it :: it in s ==> it.vid < x.vid
    ensures Sorted(s + [x])
  {
  }

  lemma {:induction false} KeptSorted(items: seq<Item>)
    requires Sorted(items)
    ensures Sorted(Kept(items))
    ensures forall it :: it in Kept(items) <==> it in items && !Dead(it)
  {
    hide Dead;
    WithoutMembers(Dead, items);
    if items == [] {
    } else {
      var pre, it := items[..|items| - 1], items[|items| - 1];
      KeptSorted(pre);
      SortedAppend(Kept(pre), it);
      assert Kept(pre) + [] == Kept(pre);
    }
  }

  // ---------------------------------------------------------------------
  // The invariant
  // ---------------------------------------------------------------------

  /** The shared leave timer runs while any registrar is leaving. */
  ghost predicate LeaveTimed(m: Mad) {
    forall i :: 0 <= i < |m.items| && m.items[i].reg == LV ==> m.mrp.leave
  }

  /** Between events no LeaveAll is pending and its timer runs. */
  ghost predicate LeaveAllAtRest(m: Mad) {
    !m.mrp.lva.active && !m.mrp.lva.tx && m.mrp.leaveAll
  }

  ghost predicate Inv(m: Mad) {
    Sorted(m.items) && LeaveTimed(m) && LeaveAllAtRest(m)
  }

  lemma ApplyInv(items: seq<Item>, mrp: MrpDb, k: nat, e: Event, p2p: bool)
    requires k < |items| && Inv(Mad(items, mrp))
    ensures Inv(Apply(items, mrp, k, e, p2p).mad)
  {
    RemoveSorted(items, k);
  }

  lemma OnAttributeInv(m: Mad, e: Event, v: nat, p2p: bool)
    requires Inv(m) && v < 0x1_0000
    ensures Inv(OnAttribute(m, e, v, p2p).mad)
  {
    var mrp := m.mrp.(join := true);
    var k := Find(m.items, v);
    if k < |m.items| {
      ApplyInv(m.items, mrp, k, e, p2p);
    } else if e != RMt {
      AddSorted(m.items, v);
      ApplyInv(Add(m.items, v), mrp, Position(m.items, v, 0), e, p2p);
    }
  }

  lemma OnLvTimerInv(m: Mad)
    requires Inv(m)
    ensures Inv(OnLvTimer(m).mad)
    ensures forall it :: it in OnLvTimer(m).mad.items ==> it.reg != LV
  {
    hide Dead, Without;
    var items := ExpireLeaves(m.items);
    KeptSorted(items);
    assert forall i :: 0 <= i < |Kept(items)| ==> Kept(items)[i] in items;
  }

  lemma SweepInv(m: Mad, e: Event, port: Port)
    requires Inv(m) && e in {LvaTimer, RLA, Tx, Periodic}
    ensures Inv(Handle(m, e, None, port).mad)
  {
  }

  lemma CollectInv(m: Mad)
    requires Inv(m)
    ensures Inv(Collect(m).mad)
  {
    KeptSorted(m.items);
    assert forall i :: 0 <= i < |Kept(m.items)| ==> Kept(m.items)[i] in m.items;
  }

  lemma ActInv(m: Mad, a: Action, port: Port)
    requires Inv(m) && Legal(a)
    ensures Inv(Act(m, a, port).mad)
  {
    match a {
      case GarbageCollect => CollectInv(m);
      case Do(e, arg) =>
        if e == LvTimer {
          OnLvTimerInv(m);
        } else if e in {LvaTimer, RLA, Tx, Periodic} {
          SweepInv(m, e, port);
        } else if AttributeEvent(e) && arg.Some? {
          OnAttributeInv(m, e, arg.value, port.p2p);
        }
    }
  }

  /** In every reachable state the list is strictly ascending by VID, a leaving
      registrar implies a running leave timer, and no LeaveAll is pending. */
  lemma {:induction false} RunInv(acts: seq<Action>, port: Port)
    requires forall a :: a in acts ==> Legal(a)
    ensures Inv(RunAll(acts, port))
  {
    if acts == [] {
    } else {
      RunInv(acts[..|acts| - 1], port);
      ActInv(RunAll(acts[..|acts| - 1], port), acts[|acts| - 1], port);
    }
  }

  // ---------------------------------------------------------------------
  // Refinement of a map from VIDs to (declared, registrar)
  // ---------------------------------------------------------------------

  /** The machine states of a VID, if it has an attribute. */
  function Get(items: seq<Item>, v: nat): Option<Item> {
    var k := Find(items, v);
    if k < |items| then Some(items[k]) else None
  }

  /** The whole meaning of a VID: whether it is declared, and whether peers have
      it registered.  A VID without an attribute is neither. */
  datatype Meaning = Meaning(declared: bool, reg: RegState)

  function Meant(o: Option<Item>): Meaning {
    if o.None? then Meaning(false, MT) else Meaning(Declared(o.value.app), o.value.reg)
  }

  function MeaningOf(m: Mad, v: nat): Meaning { Meant(Get(m.items, v)) }

  function Leave(r: RegState): RegState { if r == IN then LV else r }

  /** The service MVRP offers, one VID at a time: `mine` says that the event
      carries this VID. */
  function Serve(s: Meaning, e: Event, mine: bool): Meaning {
    match e
    case New => if mine then Meaning(true, MT) else s
    case Join => if mine then Meaning(true, IN) else s
    case Lv => if mine then Meaning(false, Leave(s.reg)) else s
    case RNew | RJoinIn | RJoinMt => if mine then s.(reg := IN) else s
    case RLv => if mine then s.(reg := Leave(s.reg)) else s
    case RLA | LvaTimer => s.(reg := Leave(s.reg))
    case LvTimer => s.(reg := if s.reg == LV then MT else s.reg)
    case _ => s
  }

  lemma GetAt(items: seq<Item>, k: nat)
    requires Sorted(items) && k < |items|
    ensures Find(items, items[k].vid) == k
  {
  }

  lemma FindAdded(items: seq<Item>, v: nat)
    requires Sorted(items) && v < 0x1_0000 && Find(items, v) == |items|
    ensures Sorted(Add(items, v))
    ensures Find(Add(items, v), v) == Position(items, v, 0)
    ensures Get(Add(items, v), v) == Some(Item(v, VO, MT))
  {
    AddSorted(items, v);
    GetAt(Add(items, v), Position(items, v, 0));
  }

  lemma GetAdd(items: seq<Item>, v: nat, w: nat)
    requires Sorted(items) && v < 0x1_0000 && Find(items, v) == |items| && w != v
    ensures Get(Add(items, v), w) == Get(items, w)
  {
    AddSorted(items, v);
    var k, f := Position(items, v, 0), Find(items, w);
    if f < |items| {
      GetAt(Add(items, v), if f < k then f else f + 1);
    }
  }

  lemma GetRemove(items: seq<Item>, k: nat, w: nat)
    requires Sorted(items) && k < |items|
    ensures Get(RemoveAt(items, k), w) == if w == items[k].vid then None else Get(items, w)
  {
    RemoveSorted(items, k);
    var a := RemoveAt(items, k);
    var f := Find(items, w);
    if w != items[k].vid && f < |items| {
      var f' := if f < k then f else f - 1;
      assert a[f'] == items[f];
      GetAt(a, f');
    } else {
      forall i | 0 <= i < |a| ensures a[i].vid != w {
        assert a[i] == if i < k then items[i] else items[i + 1];
      }
    }
  }

  lemma GetUpdate(items: seq<Item>, k: nat, it: Item, w: nat)
    requires Sorted(items) && k < |items| && it.vid == items[k].vid
    ensures Get(items[k := it], w) == if w == it.vid then Some(it) else Get(items, w)
  {
    var a := items[k := it];
    assert Sorted(a);
    GetAt(a, k);
    var f := Find(items, w);
    if w != it.vid && f < |items| {
      assert a[f] == items[f];
      GetAt(a, f);
    }
  }

  lemma GetMap(f: Item -> Item, items: seq<Item>, w: nat)
    requires forall it :: f(it).vid == it.vid
    ensures Get(Map(f, items), w) == (if Get(items, w).Some? then Some(f(Get(items, w).value)) else None)
  {
    assert forall i :: 0 <= i < |items| ==> Map(f, items)[i].vid == items[i].vid;
  }

  lemma GetKept(items: seq<Item>, w: nat)
    requires Sorted(items)
    ensures Get(Kept(items), w) == (if Get(items, w).Some? && !Dead(Get(items, w).value) then Get(items, w) else None)
  {
    hide Without, FindFrom;
    KeptSorted(items);
    var a := Kept(items);
    var f, j := Find(items, w), Find(a, w);
    if j < |a| {
      assert a[j] in a && a[j] in items;
      var i :| 0 <= i < |items| && items[i] == a[j];
      GetAt(items, i);
    } else {
      assert f < |items| ==> items[f] !in a;
    }
  }

  /** What an attribute event does to every VID. */
  lemma GetApply(items: seq<Item>, mrp: MrpDb, k: nat, e: Event, p2p: bool, w: nat)
    requires Sorted(items) && k < |items|
    ensures var it' := Update(items[k], e, p2p);
            Get(Apply(items, mrp, k, e, p2p).mad.items, w)
            == if w != items[k].vid then Get(items, w) else if Dead(it') then None else Some(it')
  {
    GetRemove(items, k, w);
    GetUpdate(items, k, Update(items[k], e, p2p), w);
  }

  /** The attribute an event about v acts on: the one in the list, or a new one. */
  function Target(m: Mad, v: nat): Item {
    if Get(m.items, v).Some? then Get(m.items, v).value else Item(v, VO, MT)
  }

  lemma GetOnAttribute(m: Mad, e: Event, v: nat, p2p: bool, w: nat)
    requires Inv(m) && v < 0x1_0000
    ensures var it' := Update(Target(m, v), e, p2p);
            Get(OnAttribute(m, e, v, p2p).mad.items, w)
            == if w != v || (e == RMt && Get(m.items, v).None?) then Get(m.items, w)
               else if Dead(it') then None else Some(it')
  {
    var mrp := m.mrp.(join := true);
    var k := Find(m.items, v);
    if k < |m.items| {
      GetApply(m.items, mrp, k, e, p2p, w);
    } else if e != RMt {
      FindAdded(m.items, v);
      if w != v { GetAdd(m.items, v, w); }
      GetApply(Add(m.items, v), mrp, Position(m.items, v, 0), e, p2p, w);
    }
  }

  lemma GetSweep(m: Mad, e: Event, port: Port, w: nat)
    requires Inv(m) && e in {LvaTimer, RLA, Tx, LvTimer, Periodic}
    ensures var o := Get(m.items, w);
            var o' := Get(Handle(m, e, None, port).mad.items, w);
            if o.None? then o' == None
            else match e
              case LvaTimer => o' == Some(StepBoth(o.value, TxLA, port.p2p))
              case RLA => o' == Some(StepBoth(o.value, RLA, port.p2p))
              case LvTimer =>
                var it := o.value.(reg := RegNext(o.value.reg, LvTimer));
                o' == if Dead(it) then None else Some(it)
              case _ => o' == Some(StepApp(o.value, e, port.p2p))
  {
    var p2p := port.p2p;
    match e
    case LvaTimer => GetMap(it => StepBoth(it, TxLA, p2p), m.items, w);
    case RLA => GetMap(it => StepBoth(it, RLA, p2p), m.items, w);
    case LvTimer =>
      GetMap((it: Item) => it.(reg := RegNext(it.reg, LvTimer)), m.items, w);
      assert Sorted(ExpireLeaves(m.items));
      GetKept(ExpireLeaves(m.items), w);
    case _ => GetMap(it => StepApp(it, e, p2p), m.items, w);
  }

  /** An attribute event serves its VID. */
  lemma UpdateServes(it: Item, e: Event, p2p: bool)
    requires AttributeEvent(e)
    ensures var it' := Update(it, e, p2p);
            Meant(if Dead(it') then None else Some(it')) == Serve(Meant(Some(it)), e, true)
  {
  }

  lemma AttributeRefines(m: Mad, e: Event, v: nat, p2p: bool, w: nat)
    requires Inv(m) && v < 0x1_0000 && AttributeEvent(e)
    ensures MeaningOf(OnAttribute(m, e, v, p2p).mad, w) == Serve(MeaningOf(m, w), e, v == w)
  {
    GetOnAttribute(m, e, v, p2p, w);
    UpdateServes(Target(m, v), e, p2p);
  }

  lemma SweepRefines(m: Mad, e: Event, port: Port, w: nat)
    requires Inv(m) && e in {LvaTimer, RLA, Tx, LvTimer, Periodic}
    ensures MeaningOf(Handle(m, e, None, port).mad, w) == Serve(MeaningOf(m, w), e, false)
  {
    hide Handle, Get;
    GetSweep(m, e, port, w);
  }

  lemma CollectRefines(m: Mad, w: nat)
    requires Inv(m)
    ensures MeaningOf(Collect(m).mad, w) == MeaningOf(m, w)
  {
    GetKept(m.items, w);
  }

  lemma UnusedServes(s: Meaning, e: Event, mine: bool)
    requires e !in {LvaTimer, RLA, Tx, LvTimer, Periodic} && !AttributeEvent(e)
    ensures Serve(s, e, mine) == s
  {
  }

  lemma SweepServesAll(s: Meaning, e: Event)
    requires e in {LvaTimer, RLA, Tx, LvTimer, Periodic}
    ensures Serve(s, e, true) == Serve(s, e, false)
  {
  }

  /** Every action is a step of the service, or a stutter, at every VID. */
  lemma Refines(m: Mad, a: Action, port: Port, w: nat)
    requires Inv(m) && Legal(a)
    ensures MeaningOf(Act(m, a, port).mad, w) == ServeAction(MeaningOf(m, w), a, w)
  {
    hide Get, Serve, OnAttribute, OnTx, OnLvaTimer, OnRLA, OnLvTimer, OnPeriodic, Without;
    match a
    case GarbageCollect => CollectRefines(m, w);
    case Do(e, arg) =>
      if e in {LvaTimer, RLA, Tx, LvTimer, Periodic} {
        SweepRefines(m, e, port, w);
        SweepServesAll(MeaningOf(m, w), e);
        assert Handle(m, e, arg, port) == Handle(m, e, None, port);
      } else if !AttributeEvent(e) {
        UnusedServes(MeaningOf(m, w), e, arg == Some(w));
      } else if arg.Some? {
        AttributeRefines(m, e, arg.value, port.p2p, w);
      }
  }

  /** Reclaim and an attribute event without an attribute change nothing. */
  function ServeAction(s: Meaning, a: Action, w: nat): Meaning {
    match a
    case GarbageCollect => s
    case Do(e, arg) => if AttributeEvent(e) && arg.None? then s else Serve(s, e, arg == Some(w))
  }

  /** The service run from its start: every VID undeclared and unregistered. */
  function ServeAll(acts: seq<Action>, w: nat): Meaning {
    if acts == [] then Meaning(false, MT)
    else ServeAction(ServeAll(acts[..|acts| - 1], w), acts[|acts| - 1], w)
  }

  lemma {:induction false} RunRefines(acts: seq<Action>, port: Port, w: nat)
    requires forall a :: a in acts ==> Legal(a)
    ensures MeaningOf(RunAll(acts, port), w) == ServeAll(acts, w)
  {
    if acts == [] {
    } else {
      var pre := acts[..|acts| - 1];
      RunRefines(pre, port, w);
      RunInv(pre, port);
      Refines(RunAll(pre, port), acts[|acts| - 1], port, w);
    }
  }

  /** So no run loses a VID that the service still needs. */
  lemma NoneLost(acts: seq<Action>, port: Port, w: nat)
    requires forall a :: a in acts ==> Legal(a)
    requires ServeAll(acts, w).declared || ServeAll(acts, w).reg != MT
    ensures Get(RunAll(acts, port).items, w).Some?
  {
    RunRefines(acts, port, w);
  }
}
