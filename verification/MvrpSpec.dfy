/** The MVRP participant of mvrp.c as a value: what each event does to the
    database, which frame it sends and which clients it notifies.

    Between events an attribute is its VID and its two machine states.  The
    encoder's flags (tx, sndmsg, encode, previous state) are written by the sweep
    that precedes every use of them, and the pending notification is always
    cleared before an event returns, so neither is part of the state at rest. */
module MvrpSpec {
  import opened Mrp
  import opened MrpRuns
  import opened VidCodec
  import opened Seqs

  datatype Item = Item(vid: nat, app: AppState, reg: RegState)

  datatype Mad = Mad(items: seq<Item>, mrp: MrpDb)

  datatype Note = Note(kind: Notify, vid: nat)

  /** The port's settings: operPointToPointMAC and the station's address. */
  datatype Port = Port(p2p: bool, station: Mac)

  datatype Outcome = Outcome(mad: Mad, frame: Option<seq<Byte>>, notes: seq<Note>)

  /** mvrp_init. */
  const START := Mad([], LeaveAllFsm(MrpDb(LeaveAll(false, false, SndNew), false, false, false), Begin))

  // ---------------------------------------------------------------------
  // Sweeps over the whole list
  // ---------------------------------------------------------------------

  function StepApp(it: Item, e: Event, p2p: bool): Item {
    it.(app := AppNext(it.app, e, it.reg == IN, p2p))
  }

  function StepBoth(it: Item, e: Event, p2p: bool): Item {
    StepApp(it, e, p2p).(reg := RegNext(it.reg, e))
  }

  function SweepApp(items: seq<Item>, e: Event, p2p: bool): (r: seq<Item>) {
    Map(it => StepApp(it, e, p2p), items)
  }

  function SweepBoth(items: seq<Item>, e: Event, p2p: bool): (r: seq<Item>) {
    Map(it => StepBoth(it, e, p2p), items)
  }

  function ExpireLeaves(items: seq<Item>): (r: seq<Item>) {
    Map((it: Item) => it.(reg := RegNext(it.reg, LvTimer)), items)
  }

  predicate AnyIn(items: seq<Item>) {
    exists i :: 0 <= i < |items| && items[i].reg == IN
  }

  /** What the encoder sees when a sweep with e (Tx or TxLA) has been made. */
  function ToSend(it: Item, e: Event): TxItem {
    var q := AppRequest(it.app, e);
    TxItem(it.vid, q.tx, q.optional, q.sndmsg, RegNext(it.reg, e) == IN)
  }

  function Requests(items: seq<Item>, e: Event): (r: seq<TxItem>)
    ensures |r| == |items|
    ensures forall i :: 0 <= i < |items| ==> r[i] == ToSend(items[i], e)
  {
    seq(|items|, i requires 0 <= i < |items| => ToSend(items[i], e))
  }

  /** Whether some applicant asks for another transmit opportunity after a Tx sweep. */
  predicate MoreToSend(items: seq<Item>, p2p: bool) {
    exists i :: 0 <= i < |items| &&
      var s' := AppNext(items[i].app, Tx, items[i].reg == IN, p2p);
      s' != items[i].app && WantsTx(s')
  }

  // ---------------------------------------------------------------------
  // Lookup, insertion, reclaim
  // ---------------------------------------------------------------------

  /** Index of the first attribute with the VID, or the length. */
  function FindFrom(items: seq<Item>, v: nat, i: nat): (k: nat)
    requires i <= |items|
    ensures i <= k <= |items|
    ensures k < |items| ==> items[k].vid == v
    ensures forall m :: i <= m < k ==> items[m].vid != v
    decreases |items| - i
  {
    if i == |items| || items[i].vid == v then i else FindFrom(items, v, i + 1)
  }

  function Find(items: seq<Item>, v: nat): nat { FindFrom(items, v, 0) }

  /** Index of the first attribute with a VID not below v, or the length. */
  function Position(items: seq<Item>, v: nat, i: nat): (k: nat)
    requires i <= |items|
    ensures i <= k <= |items|
    ensures k < |items| ==> items[k].vid >= v
    ensures forall m :: i <= m < k ==> items[m].vid < v
    decreases |items| - i
  {
    if i == |items| || items[i].vid >= v then i else Position(items, v, i + 1)
  }

  function Add(items: seq<Item>, v: nat): seq<Item> {
    InsertAt(items, Position(items, v, 0), Item(v, VO, MT))
  }

  predicate Dead(it: Item) { Reclaimable(it.app, it.reg) }

  /** mvrp_reclaim: the attributes that stay, and the Leaves it reports. */
  function Kept(items: seq<Item>): seq<Item> { Without(Dead, items) }

  function ReclaimNote(it: Item): seq<Note> { if Dead(it) then [Note(NotifyLv, it.vid)] else [] }

  function ReclaimNotes(items: seq<Item>): seq<Note> {
    if items == [] then [] else ReclaimNotes(items[..|items| - 1]) + ReclaimNote(items[|items| - 1])
  }

  /** The Leaves that attributes surviving an LVTIMER report: those that were in LV. */
  function SurvivorNote(it: Item): seq<Note> {
    if it.reg == LV && !Reclaimable(it.app, MT) then [Note(NotifyLv, it.vid)] else []
  }

  function SurvivorNotes(items: seq<Item>): seq<Note> {
    if items == [] then [] else SurvivorNotes(items[..|items| - 1]) + SurvivorNote(items[|items| - 1])
  }

  // ---------------------------------------------------------------------
  // Events about one attribute
  // ---------------------------------------------------------------------

  function Update(it: Item, e: Event, p2p: bool): Item {
    Item(it.vid, AppNext(it.app, e, it.reg == IN, p2p), RegNext(it.reg, RegEvent(e, it.reg)))
  }

  function NotifyOf(e: Event, r: RegState): Notify {
    if e == New then NotifyNew else RegNotify(r, RegEvent(e, r))
  }

  /** The state machines of the attribute at k take the event, and it is
      reclaimed or reported. */
  function Apply(items: seq<Item>, mrp: MrpDb, k: nat, e: Event, p2p: bool): Outcome
    requires k < |items|
  {
    var it, it' := items[k], Update(items[k], e, p2p);
    var mrp' := mrp.(leave := mrp.leave || StartsLeaveTimer(it.reg, RegEvent(e, it.reg)));
    if Dead(it') then Outcome(Mad(RemoveAt(items, k), mrp'), None, [Note(NotifyLv, it.vid)])
    else
      var n := NotifyOf(e, it.reg);
      Outcome(Mad(items[k := it'], mrp'), None, if n == NotifyNone then [] else [Note(n, it.vid)])
  }

  function OnAttribute(m: Mad, e: Event, v: nat, p2p: bool): Outcome {
    var mrp := m.mrp.(join := true);
    var k := Find(m.items, v);
    if k < |m.items| then Apply(m.items, mrp, k, e, p2p)
    else if e == RMt then Outcome(Mad(m.items, mrp), None, [])
    else Apply(Add(m.items, v), mrp, Position(m.items, v, 0), e, p2p)
  }

  // ---------------------------------------------------------------------
  // mvrp_event
  // ---------------------------------------------------------------------

  /** mvrp_txpdu as far as the record is concerned: it takes the LeaveAll flag. */
  function TakeLva(mrp: MrpDb): MrpDb { mrp.(lva := mrp.lva.(tx := false)) }

  function OnLvaTimer(m: Mad, port: Port): Outcome {
    var stopped := m.mrp.(leaveAll := false, join := false, leave := m.mrp.leave || AnyIn(m.items));
    var mrp := LeaveAllFsm(LeaveAllFsm(stopped, LvaTimer), Tx);
    Outcome(Mad(SweepBoth(m.items, TxLA, port.p2p), TakeLva(mrp)),
            Pdu(Requests(m.items, TxLA), mrp.lva.tx, true, port.station), [])
  }

  function OnTx(m: Mad, port: Port): Outcome {
    Outcome(Mad(SweepApp(m.items, Tx, port.p2p), TakeLva(m.mrp).(join := MoreToSend(m.items, port.p2p))),
            Pdu(Requests(m.items, Tx), m.mrp.lva.tx, false, port.station), [])
  }

  function OnRLA(m: Mad, port: Port): Outcome {
    var mrp := m.mrp.(join := true, leave := m.mrp.leave || AnyIn(m.items));
    Outcome(Mad(SweepBoth(m.items, RLA, port.p2p), LeaveAllFsm(mrp, RLA)), None, [])
  }

  function OnLvTimer(m: Mad): Outcome {
    var items := ExpireLeaves(m.items);
    Outcome(Mad(Kept(items), m.mrp.(leave := false)), None, ReclaimNotes(items) + SurvivorNotes(m.items))
  }

  function OnPeriodic(m: Mad, port: Port): Outcome {
    Outcome(Mad(SweepApp(m.items, Periodic, port.p2p), m.mrp.(join := m.mrp.join || m.items != [])), None, [])
  }

  function Handle(m: Mad, e: Event, arg: Option<nat>, port: Port): Outcome {
    if e == LvaTimer then OnLvaTimer(m, port)
    else if e == RLA then OnRLA(m, port)
    else if e == Tx then OnTx(m, port)
    else if e == LvTimer then OnLvTimer(m)
    else if e == Periodic then OnPeriodic(m, port)
    else if AttributeEvent(e) then
      match arg
      case None => Outcome(m.(mrp := m.mrp.(join := true)), None, [])
      case Some(v) => OnAttribute(m, e, v, port.p2p)
    else Outcome(m, None, [])
  }

  /** mvrp_reclaim, run by the garbage-collection timer. */
  function Collect(m: Mad): Outcome {
    Outcome(m.(items := Kept(m.items)), None, ReclaimNotes(m.items))
  }

  // ---------------------------------------------------------------------
  // mvrp_recv_msg
  // ---------------------------------------------------------------------

  function HandleRx(m: Mad, r: Rx, port: Port): Outcome {
    match r
    case RxLeaveAll => Handle(m, RLA, None, port)
    case RxValue(v, e) => Handle(m, e, Some(v), port)
  }

  function Deliver(m: Mad, rx: seq<Rx>, port: Port): Outcome {
    if rx == [] then Outcome(m, None, [])
    else
      var o := Deliver(m, rx[..|rx| - 1], port);
      var o' := HandleRx(o.mad, rx[|rx| - 1], port);
      Outcome(o'.mad, None, o.notes + o'.notes)
  }
}
