/** What every run of the MSRP participant keeps: keys stay unique although merges
    rewrite attributes in place, and the list is a map from keys to attributes. */
module MsrpInvariants {
  import opened Mrp
  import opened Seqs
  import opened ListenerCodec
  import opened MsrpSpec

  /** One thing that can happen to the participant. */
  datatype Action =
    | Do(e: Event, arg: Option<Request>)
    | Withdraw(id: StreamId)
    | Interest(id: StreamId)
    | Disinterest(id: StreamId)
    | ForgetAll
    | GarbageCollect

  function Act(m: Mad, a: Action, p2p: bool): Mad {
    match a
    case Do(e, arg) => Handle(m, e, arg, p2p)
    case Withdraw(id) => WithdrawListener(m, id, p2p)
    case Interest(id) => Interesting(m, id)
    case Disinterest(id) => Uninteresting(m, id)
    case ForgetAll => m.(interesting := {})
    case GarbageCollect => Collect(m)
  }

  function RunAll(acts: seq<Action>, pruning: Option<nat>, p2p: bool): Mad {
    if acts == [] then Start(pruning) else Act(RunAll(acts[..|acts| - 1], pruning, p2p), acts[|acts| - 1], p2p)
  }

  // ---------------------------------------------------------------------
  // Unique keys
  // ---------------------------------------------------------------------

  ghost predicate Unique(items: seq<Item>) {
    forall i, j :: 0 <= i < j < |items| ==> KeyOf(items[i].subject) != KeyOf(items[j].subject)
  }

  /** Whatever has the same keys in the same places is as unique. */
  ghost predicate SameKeys(s: seq<Item>, s': seq<Item>) {
    |s'| == |s| && forall i :: 0 <= i < |s| ==> KeyOf(s'[i].subject) == KeyOf(s[i].subject)
  }

  lemma SameKeysUnique(s: seq<Item>, s': seq<Item>)
    requires Unique(s) && SameKeys(s, s')
    ensures Unique(s')
  {
  }

  lemma GetAt(items: seq<Item>, i: nat)
    requires Unique(items) && i < |items|
    ensures Get(items, KeyOf(items[i].subject)) == Some(items[i]) && Find(items, KeyOf(items[i].subject)) == i
  {
  }

  /** Keys read back from a list whose keys are those of another. */
  lemma GetSameKeys(s: seq<Item>, s': seq<Item>, key: Key)
    requires Unique(s) && SameKeys(s, s')
    ensures Find(s', key) == Find(s, key)
  {
    hide FindFrom;
    SameKeysUnique(s, s');
    var k := Find(s, key);
    if k < |s| {
      GetAt(s', k);
    } else {
      var k' := Find(s', key);
    }
  }

  lemma MergeKeeps(a: Item, r: Request, talker: bool)
    requires KeyOf(a.subject) == KeyOf(r.subject)
    ensures var a' := Merge(a, r, talker);
            KeyOf(a'.subject) == KeyOf(a.subject) && a'.app == a.app && a'.reg in {a.reg, MT}
  {
  }

  lemma AddGet(items: seq<Item>, k: nat, x: Item, key: Key)
    requires Unique(items) && k <= |items| && !Present(items, KeyOf(x.subject))
    ensures Unique(InsertAt(items, k, x))
    ensures Get(InsertAt(items, k, x), key) == if key == KeyOf(x.subject) then Some(x) else Get(items, key)
  {
    hide KeyOf, FindFrom;
    var s := InsertAt(items, k, x);
    assert Unique(s);
    GetAt(s, k);
    var i := Find(items, key);
    if key != KeyOf(x.subject) && i < |items| {
      GetAt(s, if i < k then i else i + 1);
    }
  }

  lemma RemoveGet(items: seq<Item>, k: nat, key: Key)
    requires Unique(items) && k < |items|
    ensures Unique(RemoveAt(items, k))
    ensures Get(RemoveAt(items, k), key) == if key == KeyOf(items[k].subject) then None else Get(items, key)
  {
    hide KeyOf, FindFrom;
    var s := RemoveAt(items, k);
    assert Unique(s);
    var i := Find(items, key);
    if i < |items| && i != k {
      GetAt(s, if i < k then i else i - 1);
    }
  }

  lemma SetGet(items: seq<Item>, k: nat, x: Item, key: Key)
    requires Unique(items) && k < |items| && KeyOf(x.subject) == KeyOf(items[k].subject)
    ensures Unique(items[k := x])
    ensures Get(items[k := x], key) == if key == KeyOf(x.subject) then Some(x) else Get(items, key)
  {
    hide KeyOf, FindFrom;
    var s := items[k := x];
    assert SameKeys(items, s);
    SameKeysUnique(items, s);
    GetAt(s, k);
    GetAt(items, k);
    GetSameKeys(items, s, key);
  }

  // ---------------------------------------------------------------------
  // Filters and sweeps
  // ---------------------------------------------------------------------

  function Reap(o: Option<Item>): Option<Item> {
    if o.Some? && !Dead(o.value) then o else None
  }

  lemma GetLast(items: seq<Item>, key: Key)
    requires Unique(items) && items != []
    ensures var pre, it := items[..|items| - 1], items[|items| - 1];
            && Unique(pre) && Get(pre, KeyOf(it.subject)) == None
            && Get(items, key) == if key == KeyOf(it.subject) then Some(it) else Get(pre, key)
  {
    hide KeyOf;
    var n := |items| - 1;
    assert items == InsertAt(items[..n], n, items[n]);
    assert !Present(items[..n], KeyOf(items[n].subject));
    AddGet(items[..n], n, items[n], key);
  }

  lemma AppendGet(s: seq<Item>, it: Item, key: Key)
    requires Unique(s) && Get(s, KeyOf(it.subject)) == None
    ensures Unique(s + [it])
    ensures Get(s + [it], key) == if key == KeyOf(it.subject) then Some(it) else Get(s, key)
  {
    hide KeyOf;
    assert s + [it] == InsertAt(s, |s|, it);
    AddGet(s, |s|, it, key);
  }

  /** What a filter does to every key. */
  lemma {:induction false} WithoutGet(goes: Item -> bool, items: seq<Item>, key: Key)
    requires Unique(items)
    ensures Unique(Without(goes, items))
    ensures Get(Without(goes, items), key)
         == if Get(items, key).Some? && goes(Get(items, key).value) then None else Get(items, key)
  {
    hide FindFrom, KeyOf, Unique, Get;
    if items == [] {
      GetEmpty(key);
    } else {
      var pre, it := items[..|items| - 1], items[|items| - 1];
      GetLast(items, key);
      WithoutGet(goes, pre, key);
      WithoutGet(goes, pre, KeyOf(it.subject));
      AppendGet(Without(goes, pre), it, key);
      assert Without(goes, pre) + [] == Without(goes, pre);
    }
  }

  lemma GetEmpty(key: Key)
    ensures Get([], key) == None
  {
  }

  lemma WithoutTalkerGet(items: seq<Item>, id: StreamId, key: Key)
    requires Unique(items)
    ensures Unique(WithoutTalker(items, id))
    ensures Get(WithoutTalker(items, id), key) == if key == TalkerKey(id) then None else Get(items, key)
  {
    hide Without, Find, Unique;
    WithoutGet(TalkerOf(id), items, key);
  }

  /** A sweep that leaves subjects alone. */
  lemma SweepGet(items: seq<Item>, f: Item -> Item, key: Key)
    requires Unique(items) && forall i :: 0 <= i < |items| ==> f(items[i]).subject == items[i].subject
    ensures Unique(Map(f, items))
    ensures Get(Map(f, items), key) == match Get(items, key) case None => None case Some(it) => Some(f(it))
  {
    hide FindFrom, KeyOf;
    var s := Map(f, items);
    assert SameKeys(items, s);
    SameKeysUnique(items, s);
    GetSameKeys(items, s, key);
  }

  // ---------------------------------------------------------------------
  // The invariant
  // ---------------------------------------------------------------------

  ghost predicate LeaveTimed(m: Mad) {
    forall i :: 0 <= i < |m.items| && m.items[i].reg == LV ==> m.mrp.leave
  }

  ghost predicate LeaveAllAtRest(m: Mad) {
    !m.mrp.lva.active && !m.mrp.lva.tx && m.mrp.leaveAll
  }

  ghost predicate Inv(m: Mad) {
    Unique(m.items) && LeaveTimed(m) && LeaveAllAtRest(m)
  }

  lemma ApplyServes(m: Mad, k: nat, e: Event, p2p: bool, key: Key)
    requires k < |m.items| && Inv(m)
    ensures Inv(Apply(m, k, e, p2p))
    ensures var it := m.items[k];
            Get(Apply(m, k, e, p2p).items, key)
            == if key == KeyOf(it.subject) then Reap(Some(Update(it, e, p2p))) else Get(m.items, key)
  {
    hide KeyOf, Get, AppNext, Unique;
    var it := m.items[k];
    RemoveGet(m.items, k, key);
    SetGet(m.items, k, Update(it, e, p2p), key);
  }

  /** What an attribute event makes of the attribute with its key. */
  function Serve(o: Option<Item>, e: Event, r: Request, talker: bool, p2p: bool): Option<Item>
    requires o.Some? ==> KeyOf(o.value.subject) == KeyOf(r.subject)
  {
    match o
    case Some(it) => Reap(Some(Update(Merge(it, r, talker), e, p2p)))
    case None => if e == RMt then None else Reap(Some(Update(Allocated(r), e, p2p)))
  }

  function TalkerFor(items: seq<Item>, r: Request): bool {
    r.subject.Listener? && Present(items, TalkerKey(r.subject.listener))
  }

  lemma MergedServes(m: Mad, k: nat, e: Event, r: Request, p2p: bool, key: Key)
    requires Inv(m) && k < |m.items| && KeyOf(m.items[k].subject) == KeyOf(r.subject)
    ensures var m' := Apply(m.(items := m.items[k := MergeAt(m.items, k, r)]), k, e, p2p);
            && Inv(m')
            && Get(m'.items, key) == if key != KeyOf(r.subject) then Get(m.items, key)
                                     else Reap(Some(Update(Merge(m.items[k], r, TalkerFor(m.items, r)), e, p2p)))
  {
    hide KeyOf, Get, Merge, Update, Dead, Apply, Unique, Present;
    var it := MergeAt(m.items, k, r);
    MergeKeeps(m.items[k], r, TalkerFor(m.items, r));
    SetGet(m.items, k, it, key);
    ApplyServes(m.(items := m.items[k := it]), k, e, p2p, key);
  }

  lemma AddedServes(m: Mad, at: nat, e: Event, r: Request, p2p: bool, key: Key)
    requires Inv(m) && at <= |m.items| && !Present(m.items, KeyOf(r.subject))
    ensures var m' := Apply(m.(items := InsertAt(m.items, at, Allocated(r))), at, e, p2p);
            && Inv(m')
            && Get(m'.items, key) == if key != KeyOf(r.subject) then Get(m.items, key)
                                     else Reap(Some(Update(Allocated(r), e, p2p)))
  {
    hide KeyOf, Get, Update, Dead, Apply, Unique, Present;
    AddGet(m.items, at, Allocated(r), key);
    ApplyServes(m.(items := InsertAt(m.items, at, Allocated(r))), at, e, p2p, key);
  }

  /** An attribute event serves the attribute with its key and no other. */
  lemma OnAttributeServes(m: Mad, e: Event, r: Request, p2p: bool, key: Key)
    requires Inv(m)
    ensures Inv(OnAttribute(m, e, r, p2p))
    ensures Get(OnAttribute(m, e, r, p2p).items, key)
         == if key != KeyOf(r.subject) || !Interested(m, r.subject) then Get(m.items, key)
            else Serve(Get(m.items, key), e, r, TalkerFor(m.items, r), p2p)
  {
    hide KeyOf, FindFrom, Merge, Update, Reap, AddIndex, Apply, Interested, Unique, InsertAt, MergeAt, TalkerFor,
         Allocated;
    var m1 := m.(mrp := m.mrp.(join := true));
    var k := Find(m.items, KeyOf(r.subject));
    if k < |m.items| {
      MergedServes(m1, k, e, r, p2p, key);
    } else {
      AddedServes(m1, AddIndex(m.items, Allocated(r)), e, r, p2p, key);
    }
  }

  /** The differences that make a merge force the registrar to MT. */
  predicate Changes(it: Item, r: Request, talker: bool)
    requires KeyOf(it.subject) == KeyOf(r.subject)
  {
    match it.subject
    case Talker(failed, _, _, _) => r.op == it.op && r.subject.failed != failed
    case Listener(_, sub) => r.subject.sub != sub && (sub == ASKFAILED ==> talker)
    case Domain(_, priority, _, vid) => r.subject.priority != priority || r.subject.vid != vid
  }

  /** A peer that goes on announcing an attribute keeps its registration, except with
      an In or Mt that changes the attribute: then the registration is dropped. */
  lemma RegistrationKept(it: Item, e: Event, r: Request, talker: bool, p2p: bool)
    requires KeyOf(it.subject) == KeyOf(r.subject) && it.reg == IN && e in {RNew, RJoinIn, RJoinMt, RIn, RMt}
    ensures (var o := Serve(Some(it), e, r, talker, p2p); o.Some? && o.value.reg == IN)
            <==> (e in {RIn, RMt} ==> !Changes(it, r, talker))
  {
    hide AppNext;
  }

  /** A registered listener whose substate turns from Ready to ReadyFailed in an In is
      deleted. */
  lemma RegistrationDropped(id: StreamId, p2p: bool)
    ensures var it := Item(Listener(id, 2), Register, VO, IN);
            Serve(Some(it), RIn, Request(Listener(id, 3), Register), true, p2p) == None
  {
  }

  // ---------------------------------------------------------------------
  // Every action, every run
  // ---------------------------------------------------------------------

  /** What an action looks at beside the attribute it serves. */
  datatype Beside = Beside(listener: Option<Item>, talker: bool, interesting: bool, pruning: bool)

  const NO_STREAM: StreamId := [0, 0, 0, 0, 0, 0, 0, 0]

  function StreamOf(s: Subject): StreamId {
    match s
    case Talker(_, id, _, _) => id
    case Listener(id, _) => id
    case Domain(_, _, _, _) => NO_STREAM
  }

  function IdOf(a: Action): StreamId {
    match a
    case Do(_, Some(r)) => StreamOf(r.subject)
    case Withdraw(id) => id
    case Interest(id) => id
    case Disinterest(id) => id
    case _ => NO_STREAM
  }

  function BesideOf(m: Mad, id: StreamId): Beside {
    Beside(Get(m.items, ListenerKey(id)), Get(m.items, TalkerKey(id)).Some?, id in m.interesting, m.pruning.Some?)
  }

  function ServeAttribute(o: Option<Item>, e: Event, r: Request, key: Key, b: Beside, p2p: bool): Option<Item>
    requires o.Some? ==> KeyOf(o.value.subject) == key
  {
    if key != KeyOf(r.subject) || (r.subject.Talker? && b.pruning && !b.interesting && b.listener.None?) then o
    else Serve(o, e, r, r.subject.Listener? && b.talker, p2p)
  }

  function Lift(f: Item -> Item, o: Option<Item>): Option<Item> {
    match o
    case None => None
    case Some(it) => Some(f(it))
  }

  function ServeEvent(o: Option<Item>, e: Event, arg: Option<Request>, key: Key, b: Beside, p2p: bool): Option<Item>
    requires o.Some? ==> KeyOf(o.value.subject) == key
  {
    if e == LvaTimer then Lift(it => StepBoth(it, TxLA, p2p), o)
    else if e == RLA then if arg.None? then o else Lift(it => HearLeaveAll(it, arg.value.subject, p2p), o)
    else if e == Tx then Lift(it => StepTx(it, p2p), o)
    else if e == LvTimer then Reap(Lift(Expire, o))
    else if AttributeEvent(e) && arg.Some? then ServeAttribute(o, e, arg.value, key, b, p2p)
    else o
  }

  /** The participant as a map: what an action makes of one key, absent keys included. */
  function ServeAction(o: Option<Item>, a: Action, key: Key, b: Beside, p2p: bool): Option<Item>
    requires o.Some? ==> KeyOf(o.value.subject) == key
  {
    match a
    case Do(e, arg) => ServeEvent(o, e, arg, key, b, p2p)
    case Withdraw(id) =>
      if key == TalkerKey(id) && b.pruning && !b.interesting then None
      else ServeAttribute(o, Lv, Withdrawal(id, b.listener), key, b, p2p)
    case Disinterest(id) =>
      if key == TalkerKey(id) && b.pruning && b.interesting && b.listener.None? then None else o
    case GarbageCollect => Reap(o)
    case _ => o
  }

  lemma AttributeRefines(m: Mad, e: Event, r: Request, p2p: bool, key: Key)
    requires Inv(m)
    ensures Inv(OnAttribute(m, e, r, p2p))
    ensures Get(OnAttribute(m, e, r, p2p).items, key)
         == ServeAttribute(Get(m.items, key), e, r, key, BesideOf(m, StreamOf(r.subject)), p2p)
  {
    hide FindFrom, Serve, OnAttribute, Inv;
    OnAttributeServes(m, e, r, p2p, key);
  }

  lemma FilterInv(m: Mad, items: seq<Item>)
    requires Inv(m) && Unique(items) && forall i :: 0 <= i < |items| ==> items[i] in m.items
    ensures Inv(m.(items := items))
  {
  }

  lemma SweepRefines(m: Mad, e: Event, arg: Option<Request>, p2p: bool, key: Key, b: Beside)
    requires Inv(m) && e in {LvaTimer, RLA, Tx}
    ensures Inv(Handle(m, e, arg, p2p))
    ensures Get(Handle(m, e, arg, p2p).items, key) == ServeEvent(Get(m.items, key), e, arg, key, b, p2p)
  {
    hide Get, KeyOf, AppNext;
    if e == LvaTimer {
      SweepGet(m.items, it => StepBoth(it, TxLA, p2p), key);
    } else if e == Tx {
      SweepGet(m.items, it => StepTx(it, p2p), key);
    } else if arg.Some? {
      SweepGet(m.items, it => HearLeaveAll(it, arg.value.subject, p2p), key);
    }
  }

  lemma LvTimerRefines(m: Mad, key: Key)
    requires Inv(m)
    ensures Inv(OnLvTimer(m)) && Get(OnLvTimer(m).items, key) == Reap(Lift(Expire, Get(m.items, key)))
    ensures forall i :: 0 <= i < |OnLvTimer(m).items| ==> OnLvTimer(m).items[i].reg != LV
  {
    hide Get, KeyOf, Without, Unique, Dead;
    var s := Map(Expire, m.items);
    SweepGet(m.items, Expire, key);
    WithoutGet(Dead, s, key);
    WithoutMembers(Dead, s);
    assert forall it :: it in s ==> it.reg != LV;
  }

  /** One action keeps the invariant and does to every key what the map says. */
  lemma Refines(m: Mad, a: Action, p2p: bool, key: Key)
    requires Inv(m)
    ensures Inv(Act(m, a, p2p))
    ensures Get(Act(m, a, p2p).items, key) == ServeAction(Get(m.items, key), a, key, BesideOf(m, IdOf(a)), p2p)
  {
    hide Get, KeyOf, Without, Unique, Dead, OnAttribute, OnLvTimer, OnTx, OnRLA, OnLvaTimer, ServeAttribute, AppNext,
         Find;
    match a
    case Do(e, arg) =>
      if e in {LvaTimer, RLA, Tx} {
        SweepRefines(m, e, arg, p2p, key, BesideOf(m, IdOf(a)));
      } else if e == LvTimer {
        LvTimerRefines(m, key);
      } else if AttributeEvent(e) && arg.Some? {
        AttributeRefines(m, e, arg.value, p2p, key);
      }
    case Withdraw(id) =>
      WithdrawRefines(m, id, p2p, key);
    case Disinterest(id) =>
      WithoutTalkerGet(m.items, id, key);
      WithoutMembers(TalkerOf(id), m.items);
      FilterInv(m, WithoutTalker(m.items, id));
      PresentIsGet(m.items, ListenerKey(id));
    case GarbageCollect =>
      WithoutGet(Dead, m.items, key);
      WithoutMembers(Dead, m.items);
      FilterInv(m, Kept(m.items));
    case _ =>
  }

  lemma PresentIsGet(items: seq<Item>, key: Key)
    ensures Present(items, key) <==> Get(items, key).Some?
  {
  }

  lemma WithdrawRefines(m: Mad, id: StreamId, p2p: bool, key: Key)
    requires Inv(m)
    ensures Inv(WithdrawListener(m, id, p2p))
    ensures Get(WithdrawListener(m, id, p2p).items, key)
         == ServeAction(Get(m.items, key), Withdraw(id), key, BesideOf(m, id), p2p)
  {
    hide Get, KeyOf, Unique, OnAttribute, ServeAttribute, Without, Withdrawal;
    var r := Withdrawal(id, Get(m.items, ListenerKey(id)));
    WithdrawalSubject(id, Get(m.items, ListenerKey(id)));
    AttributeRefines(m, Lv, r, p2p, key);
    AttributeKeepsSettings(m, Lv, r, p2p);
    var m1 := OnAttribute(m, Lv, r, p2p);
    WithoutTalkerGet(m1.items, id, key);
    WithoutMembers(TalkerOf(id), m1.items);
    FilterInv(m1, WithoutTalker(m1.items, id));
  }

  lemma WithdrawalSubject(id: StreamId, record: Option<Item>)
    ensures StreamOf(Withdrawal(id, record).subject) == id
  {
  }

  lemma AttributeKeepsSettings(m: Mad, e: Event, r: Request, p2p: bool)
    ensures var m' := OnAttribute(m, e, r, p2p);
            m'.interesting == m.interesting && m'.pruning == m.pruning
  {
    hide Find, KeyOf, MergeAt, AddIndex, Update, Dead, Interested;
  }

  /** The keys the run of a map from keys to attributes holds, and what it finds
      interesting. */
  function ServeAll(acts: seq<Action>, pruning: Option<nat>, p2p: bool, key: Key): (o: Option<Item>)
    ensures o.Some? ==> KeyOf(o.value.subject) == key
    decreases |acts|
  {
    if acts == [] then None
    else
      var pre, a := acts[..|acts| - 1], acts[|acts| - 1];
      var id := IdOf(a);
      var b := Beside(ServeAll(pre, pruning, p2p, ListenerKey(id)), ServeAll(pre, pruning, p2p, TalkerKey(id)).Some?,
                      id in InterestingAfter(pre, pruning), pruning.Some?);
      ServeAction(ServeAll(pre, pruning, p2p, key), a, key, b, p2p)
  }

  function InterestingAfter(acts: seq<Action>, pruning: Option<nat>): set<StreamId> {
    if acts == [] || pruning.None? then {}
    else
      var ids := InterestingAfter(acts[..|acts| - 1], pruning);
      match acts[|acts| - 1]
      case Interest(id) => if |ids| < pruning.value then ids + {id} else ids
      case Disinterest(id) => ids - {id}
      case ForgetAll => {}
      case _ => ids
  }

  lemma ActSettings(m: Mad, a: Action, p2p: bool)
    ensures Act(m, a, p2p).pruning == m.pruning
    ensures Act(m, a, p2p).interesting
         == match a
            case Interest(id) =>
              if m.pruning.Some? && |m.interesting| < m.pruning.value then m.interesting + {id} else m.interesting
            case Disinterest(id) => if m.pruning.Some? then m.interesting - {id} else m.interesting
            case ForgetAll => {}
            case _ => m.interesting
  {
    hide OnAttribute;
    match a
    case Do(e, Some(r)) => AttributeKeepsSettings(m, e, r, p2p);
    case Withdraw(id) => AttributeKeepsSettings(m, Lv, Withdrawal(id, Get(m.items, ListenerKey(id))), p2p);
    case _ =>
  }

  /** In every run the invariant holds and the list agrees with the map on every key. */
  lemma {:induction false} RunRefines(acts: seq<Action>, pruning: Option<nat>, p2p: bool, key: Key)
    ensures var m := RunAll(acts, pruning, p2p);
            && Inv(m) && m.pruning == pruning && m.interesting == InterestingAfter(acts, pruning)
            && Get(m.items, key) == ServeAll(acts, pruning, p2p, key)
    decreases |acts|
  {
    hide Get, KeyOf, Act, Inv, ServeAction;
    if acts == [] {
      GetEmpty(key);
      StartInv(pruning);
    } else {
      var pre, a := acts[..|acts| - 1], acts[|acts| - 1];
      RunRefines(pre, pruning, p2p, key);
      RunRefines(pre, pruning, p2p, ListenerKey(IdOf(a)));
      RunRefines(pre, pruning, p2p, TalkerKey(IdOf(a)));
      var m := RunAll(pre, pruning, p2p);
      Refines(m, a, p2p, key);
      ActSettings(m, a, p2p);
    }
  }

  lemma StartInv(pruning: Option<nat>)
    ensures Inv(Start(pruning))
  {
  }
}
