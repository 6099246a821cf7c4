/** The MSRP participant of msrp.c as a value: the attribute list in list order, the
    timers, and the stream IDs a client has declared interesting.  As in MVRP, the
    encoder's flags and pending notifications are not part of the state at rest. */
module MsrpSpec {
  import opened Mrp
  import opened MrpRuns
  import opened Seqs
  import opened AttribList
  import opened ListenerCodec

  // ---------------------------------------------------------------------
  // Attributes and their keys
  // ---------------------------------------------------------------------

  datatype Failure = Failure(code: Byte, bridge: seq<Byte>)

  /** DataFrameParameters, TSpec, PriorityAndRank and AccumulatedLatency. */
  datatype Stream = Stream(dest: seq<Byte>, vlan: nat, frameSize: nat, interval: nat, priorityAndRank: Byte,
                           latency: nat)

  /** The four attribute types with their values.  Talker Advertise and Talker
      Failed share a layout. */
  datatype Subject =
    | Talker(failed: bool, talker: StreamId, stream: Stream, failure: Failure)
    | Listener(listener: StreamId, sub: nat)
    | Domain(srClass: Byte, priority: Byte, neighbor: Byte, vid: nat)

  const ASKFAILED := 1

  datatype Operation = Register | Declare

  /** What msrp_lookup compares. */
  datatype Key = TalkerKey(id: StreamId) | ListenerKey(id: StreamId) | DomainKey(srClass: Byte)

  function KeyOf(s: Subject): Key {
    match s
    case Talker(_, id, _, _) => TalkerKey(id)
    case Listener(id, _) => ListenerKey(id)
    case Domain(c, _, _, _) => DomainKey(c)
  }

  predicate SameType(a: Subject, b: Subject) {
    match a
    case Talker(f, _, _, _) => b.Talker? && b.failed == f
    case Listener(_, _) => b.Listener?
    case Domain(_, _, _, _) => b.Domain?
  }

  /** The bytes msrp_add compares: a stream ID, or a whole msrpdu_domain_t on a
      little-endian machine. */
  function SortBytes(s: Subject): seq<Byte> {
    match s
    case Talker(_, id, _, _) => id
    case Listener(id, _) => id
    case Domain(c, p, n, v) => [c, p, n, v % 256, v / 256 % 256]
  }

  datatype Item = Item(subject: Subject, op: Operation, app: AppState, reg: RegState)

  /** An attribute that msrp_alloc made and the caller filled in. */
  datatype Request = Request(subject: Subject, op: Operation)

  function Allocated(r: Request): Item { Item(r.subject, r.op, VO, MT) }

  predicate Same(a: Item, b: Item) { SameType(a.subject, b.subject) }

  predicate Below(a: Item, b: Item) { LexBelow(SortBytes(a.subject), SortBytes(b.subject)) }

  // ---------------------------------------------------------------------
  // Lookup, insertion, merge
  // ---------------------------------------------------------------------

  /** msrp_lookup: index of the first attribute with the key, or the length. */
  function FindFrom(items: seq<Item>, key: Key, i: nat): (k: nat)
    requires i <= |items|
    ensures i <= k <= |items|
    ensures k < |items| ==> KeyOf(items[k].subject) == key
    ensures forall m :: i <= m < k ==> KeyOf(items[m].subject) != key
    decreases |items| - i
  {
    if i == |items| || KeyOf(items[i].subject) == key then i else FindFrom(items, key, i + 1)
  }

  function Find(items: seq<Item>, key: Key): nat { FindFrom(items, key, 0) }

  predicate Present(items: seq<Item>, key: Key) { Find(items, key) < |items| }

  /** msrp_add. */
  function AddIndex(items: seq<Item>, x: Item): (k: nat)
    ensures k <= |items|
  {
    InsertIndex(items, x, Same, Below, 0)
  }

  /** msrp_merge of r into an attribute with the same key.  A change of substance
      forces the registrar to MT. */
  function Merge(a: Item, r: Request, talkerPresent: bool): Item
    requires KeyOf(a.subject) == KeyOf(r.subject)
  {
    match a.subject
    case Talker(failed, _, _, _) =>
      if r.op != a.op then a
      else Item(a.subject.(failed := r.subject.failed, failure := r.subject.failure), a.op, a.app,
                if failed != r.subject.failed then MT else a.reg)
    case Listener(_, sub) =>
      if sub == r.subject.sub || (sub == ASKFAILED && !talkerPresent) then a
      else Item(if r.op == a.op then a.subject.(sub := r.subject.sub) else a.subject, a.op, a.app, MT)
    case Domain(_, priority, _, vid) =>
      if priority == r.subject.priority && vid == r.subject.vid then a
      else Item(a.subject.(neighbor := r.subject.priority, vid := r.subject.vid), a.op, a.app, MT)
  }

  // ---------------------------------------------------------------------
  // msrp_event
  // ---------------------------------------------------------------------

  /** The database.  `interesting` holds the stream IDs of I+S commands; `pruning` is the
      room for them if uninteresting talkers are to be ignored. */
  datatype Mad = Mad(items: seq<Item>, mrp: MrpDb, interesting: set<StreamId>, pruning: Option<nat>)

  /** msrp_init. */
  function Start(pruning: Option<nat>): Mad {
    Mad([], LeaveAllFsm(MrpDb(LeaveAll(false, false, SndNew), false, false, false), Begin), {}, pruning)
  }

  function StepBoth(it: Item, e: Event, p2p: bool): Item {
    it.(app := AppNext(it.app, e, it.reg == IN, p2p), reg := RegNext(it.reg, e))
  }

  function StepTx(it: Item, p2p: bool): Item { it.(app := AppNext(it.app, Tx, it.reg == IN, p2p)) }

  function Expire(it: Item): Item { it.(reg := RegNext(it.reg, LvTimer)) }

  predicate Dead(it: Item) { Reclaimable(it.app, it.reg) }

  /** The attributes that reclaim leaves. */
  function Kept(items: seq<Item>): seq<Item> { Without(Dead, items) }

  predicate AnyIn(items: seq<Item>) {
    exists i :: 0 <= i < |items| && items[i].reg == IN
  }

  /** A received LeaveAll concerns the attributes of one type. */
  function HearLeaveAll(it: Item, about: Subject, p2p: bool): Item {
    if SameType(it.subject, about) then StepBoth(it, RLA, p2p) else it
  }

  predicate AnyInOf(items: seq<Item>, about: Subject) {
    exists i :: 0 <= i < |items| && SameType(items[i].subject, about) && items[i].reg == IN
  }

  predicate MoreToSend(items: seq<Item>, p2p: bool) {
    exists i :: 0 <= i < |items| &&
      var s' := AppNext(items[i].app, Tx, items[i].reg == IN, p2p);
      s' != items[i].app && WantsTx(s')
  }

  /** Talkers are ignored, if so configured, unless their stream is interesting or
      has a listener. */
  predicate Interested(m: Mad, s: Subject) {
    s.Talker? && m.pruning.Some? ==> s.talker in m.interesting || Present(m.items, ListenerKey(s.talker))
  }

  /** Both machines of an attribute take the event. */
  function Update(it: Item, e: Event, p2p: bool): Item {
    it.(app := AppNext(it.app, e, it.reg == IN, p2p), reg := RegNext(it.reg, RegEvent(e, it.reg)))
  }

  /** From the state machines to the conditional reclaim of the attribute at k. */
  function Apply(m: Mad, k: nat, e: Event, p2p: bool): Mad
    requires k < |m.items|
  {
    var it, it' := m.items[k], Update(m.items[k], e, p2p);
    m.(items := if Dead(it') then RemoveAt(m.items, k) else m.items[k := it'],
       mrp := m.mrp.(leave := m.mrp.leave || StartsLeaveTimer(it.reg, RegEvent(e, it.reg))))
  }

  function MergeAt(items: seq<Item>, k: nat, r: Request): Item
    requires k < |items| && KeyOf(items[k].subject) == KeyOf(r.subject)
  {
    Merge(items[k], r, r.subject.Listener? && Present(items, TalkerKey(r.subject.listener)))
  }

  function OnAttribute(m: Mad, e: Event, r: Request, p2p: bool): Mad {
    if !Interested(m, r.subject) then m
    else
      var m1 := m.(mrp := m.mrp.(join := true));
      var k := Find(m.items, KeyOf(r.subject));
      if k < |m.items| then Apply(m1.(items := m.items[k := MergeAt(m.items, k, r)]), k, e, p2p)
      else if e == RMt then m1
      else
        var at := AddIndex(m.items, Allocated(r));
        Apply(m1.(items := InsertAt(m.items, at, Allocated(r))), at, e, p2p)
  }

  function TakeLva(mrp: MrpDb): MrpDb { mrp.(lva := mrp.lva.(tx := false)) }

  function OnLvaTimer(m: Mad, p2p: bool): Mad {
    var stopped := m.mrp.(leaveAll := false, join := false, leave := m.mrp.leave || AnyIn(m.items));
    m.(items := Map(it => StepBoth(it, TxLA, p2p), m.items),
       mrp := TakeLva(LeaveAllFsm(LeaveAllFsm(stopped, LvaTimer), Tx)))
  }

  function OnTx(m: Mad, p2p: bool): Mad {
    m.(items := Map(it => StepTx(it, p2p), m.items),
       mrp := TakeLva(m.mrp).(join := MoreToSend(m.items, p2p)))
  }

  function OnRLA(m: Mad, about: Subject, p2p: bool): Mad {
    m.(items := Map(it => HearLeaveAll(it, about, p2p), m.items),
       mrp := LeaveAllFsm(m.mrp.(join := true, leave := m.mrp.leave || AnyInOf(m.items, about)), RLA))
  }

  function OnLvTimer(m: Mad): Mad {
    m.(items := Kept(Map(Expire, m.items)), mrp := m.mrp.(leave := false))
  }

  function Handle(m: Mad, e: Event, arg: Option<Request>, p2p: bool): Mad {
    if e == LvaTimer then OnLvaTimer(m, p2p)
    else if e == RLA then
      (match arg
       case None => m.(mrp := m.mrp.(join := true))
       case Some(r) => OnRLA(m, r.subject, p2p))
    else if e == Tx then OnTx(m, p2p)
    else if e == LvTimer then OnLvTimer(m)
    else if AttributeEvent(e) && arg.Some? then OnAttribute(m, e, arg.value, p2p)
    else m
  }

  // ---------------------------------------------------------------------
  // Deletions by command
  // ---------------------------------------------------------------------

  function TalkerOf(id: StreamId): Item -> bool {
    (it: Item) => it.subject.Talker? && it.subject.talker == id
  }

  /** The loops of S-L and I-S: every talker attribute of the stream goes. */
  function WithoutTalker(items: seq<Item>, id: StreamId): seq<Item> { Without(TalkerOf(id), items) }

  /** The attribute msrp_cmd_withdraw_listener_status makes: it repeats the substate
      on record. */
  function Withdrawal(id: StreamId, record: Option<Item>): Request {
    Request(Listener(id, if record.Some? && record.value.subject.Listener? then record.value.subject.sub else 0),
            Register)
  }

  /** The attribute with a key, if it is there. */
  function Get(items: seq<Item>, key: Key): (r: Option<Item>)
    ensures r.Some? ==> KeyOf(r.value.subject) == key
  {
    var k := Find(items, key);
    if k < |items| then Some(items[k]) else None
  }

  /** S-L: withdraw a listener status. */
  function WithdrawListener(m: Mad, id: StreamId, p2p: bool): Mad {
    var m1 := OnAttribute(m, Lv, Withdrawal(id, Get(m.items, ListenerKey(id))), p2p);
    if m1.pruning.Some? && id !in m1.interesting then m1.(items := WithoutTalker(m1.items, id)) else m1
  }

  /** I+S: a stream ID becomes interesting, if there is room for it. */
  function Interesting(m: Mad, id: StreamId): Mad {
    if m.pruning.Some? && |m.interesting| < m.pruning.value then m.(interesting := m.interesting + {id}) else m
  }

  /** I-S: a stream ID is no longer interesting. */
  function Uninteresting(m: Mad, id: StreamId): Mad {
    if m.pruning.None? || id !in m.interesting then m
    else
      var m1 := m.(interesting := m.interesting - {id});
      if Present(m.items, ListenerKey(id)) then m1 else m1.(items := WithoutTalker(m.items, id))
  }

  /** msrp_reclaim. */
  function Collect(m: Mad): Mad { m.(items := Kept(m.items)) }
}
