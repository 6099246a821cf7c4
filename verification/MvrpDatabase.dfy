/** mvrp.c itself: the database with its linked list, updated in place by
    mvrp_event, mvrp_reclaim and mvrp_recv_msg.  Every operation is proved against
    the functions of MvrpSpec. */
module MvrpDatabase {
  import opened Mrp
  import opened MrpRuns
  import opened Seqs
  import opened MrpPdu
  import opened MrpPacking
  import opened VidCodec
  import opened AttribList
  import opened MvrpSpec
  import opened MvrpEncoder

  function AppStep(a: Attr, e: Event, p2p: bool): Attr {
    a.(app := ApplicantFsm(a.app, e, a.reg.state == IN, p2p))
  }

  function RegStep(a: Attr, e: Event): Attr {
    a.(reg := RegistrarFsm(a.reg, e))
  }

  function BothStep(a: Attr, e: Event, p2p: bool): Attr {
    RegStep(AppStep(a, e, p2p), e)
  }

  ghost predicate NothingPending(s: seq<Attr>) {
    forall i :: 0 <= i < |s| ==> s[i].reg.notify == NotifyNone
  }

  /** The notifications pending in a list, in order. */
  function Pending(s: seq<Attr>): seq<Note> {
    if s == [] then []
    else Pending(s[..|s| - 1]) + PendingAt(s[|s| - 1])
  }

  function PendingAt(a: Attr): seq<Note> {
    if a.reg.notify == NotifyNone then [] else [Note(a.reg.notify, a.vid)]
  }

  function ClearNotify(a: Attr): Attr { a.(reg := a.reg.(notify := NotifyNone)) }

  function DropNotify(s: seq<Attr>): (r: seq<Attr>) {
    Map(ClearNotify, s)
  }

  predicate DeadAttr(a: Attr) { Dead(ItemOf(a)) }

  function Expired(a: Attr): Attr { RegStep(a, LvTimer) }

  lemma {:induction false} LiveIsKept(s: seq<Attr>)
    ensures Items(Without(DeadAttr, s)) == Kept(Items(s))
  {
    hide Dead;
    if s == [] {
    } else {
      LiveIsKept(s[..|s| - 1]);
      assert Items(s)[..|s| - 1] == Items(s[..|s| - 1]);
    }
  }

  /** Both machines of an attribute take an attribute event; the registrar takes a
      local request in its own terms. */
  function AttrStep(a: Attr, e: Event, p2p: bool): Attr {
    var r := RegistrarFsm(a.reg, RegEvent(e, a.reg.state));
    AppStep(a, e, p2p).(reg := if e == New then r.(notify := NotifyNew) else r)
  }

  lemma AttrStepIsUpdate(a: Attr, e: Event, p2p: bool)
    requires AttributeEvent(e)
    ensures ItemOf(AttrStep(a, e, p2p)) == Update(ItemOf(a), e, p2p)
    ensures AttrStep(a, e, p2p).reg.notify == NotifyOf(e, a.reg.state) && AttrStep(a, e, p2p).vid == a.vid
  {
  }

  lemma {:induction false} PendingNone(s: seq<Attr>)
    requires NothingPending(s)
    ensures Pending(s) == []
  {
    if s == [] {
    } else {
      PendingNone(s[..|s| - 1]);
    }
  }

  lemma {:induction false} PendingOne(s: seq<Attr>, k: nat)
    requires k < |s| && forall i :: 0 <= i < |s| && i != k ==> s[i].reg.notify == NotifyNone
    ensures Pending(s) == PendingAt(s[k])
    decreases |s|
  {
    if k == |s| - 1 {
      PendingNone(s[..k]);
    } else {
      PendingOne(s[..|s| - 1], k);
    }
  }

  // ---------------------------------------------------------------------
  // Sweeps as the specification sees them
  // ---------------------------------------------------------------------

  /** The first i applicants have taken e, and `more` tells whether one of them asks
      for another transmit opportunity. */
  ghost predicate SweptApps(s: seq<Attr>, s': seq<Attr>, e: Event, p2p: bool, i: nat, more: nat) {
    && i <= |s| == |s'|
    && (forall k :: 0 <= k < |s| ==> s'[k] == if k < i then AppStep(s[k], e, p2p) else s[k])
    && (more > 0 <==> exists k :: 0 <= k < i && TransitionImpliesTx(AppStep(s[k], e, p2p).app))
  }

  lemma SweptAppsGoOn(s: seq<Attr>, s': seq<Attr>, e: Event, p2p: bool, i: nat, more: nat)
    requires SweptApps(s, s', e, p2p, i, more) && i < |s|
    ensures s'[i] == s[i]
    ensures var a := AppStep(s[i], e, p2p);
            SweptApps(s, s'[i := a], e, p2p, i + 1, if TransitionImpliesTx(a.app) then more + 1 else more)
  {
    hide AppStep, TransitionImpliesTx;
  }

  /** Both machines of the first i attributes have taken e, and the leave timer was
      started if one of them left. */
  ghost predicate SweptBoths(s: seq<Attr>, s': seq<Attr>, e: Event, p2p: bool, i: nat, leave: bool, leave': bool) {
    && i <= |s| == |s'|
    && (forall k :: 0 <= k < |s| ==> s'[k] == if k < i then BothStep(s[k], e, p2p) else s[k])
    && (leave' <==> leave || exists k :: 0 <= k < i && s[k].reg.state == IN)
  }

  lemma SweptBothsGoOn(s: seq<Attr>, s': seq<Attr>, e: Event, p2p: bool, i: nat, leave: bool, leave': bool)
    requires SweptBoths(s, s', e, p2p, i, leave, leave') && i < |s|
    ensures s'[i] == s[i]
    ensures SweptBoths(s, s'[i := BothStep(s[i], e, p2p)], e, p2p, i + 1, leave, leave' || s[i].reg.state == IN)
  {
    hide BothStep;
  }

  lemma SweptApp(s: seq<Attr>, s': seq<Attr>, e: Event, p2p: bool, more: nat)
    requires SweptApps(s, s', e, p2p, |s|, more) && AppAccepts(e)
    ensures Items(s') == SweepApp(Items(s), e, p2p)
    ensures NothingPending(s) ==> NothingPending(s')
  {
  }

  lemma SweptTx(s: seq<Attr>, s': seq<Attr>, p2p: bool, more: nat)
    requires SweptApps(s, s', Tx, p2p, |s|, more)
    ensures TxItems(s') == Requests(Items(s), Tx)
    ensures MoreToSend(Items(s), p2p) <==> more > 0
  {
    if k :| 0 <= k < |s| && TransitionImpliesTx(AppStep(s[k], Tx, p2p).app) {
      assert Items(s)[k] == ItemOf(s[k]);
    }
  }

  lemma SweptBoth(s: seq<Attr>, s': seq<Attr>, e: Event, p2p: bool, leave: bool, leave': bool)
    requires SweptBoths(s, s', e, p2p, |s|, leave, leave') && e in {TxLA, RLA}
    ensures Items(s') == SweepBoth(Items(s), e, p2p) && NothingPending(s')
    ensures e == TxLA ==> TxItems(s') == Requests(Items(s), TxLA)
    ensures leave' <==> leave || AnyIn(Items(s))
  {
    AnyInItems(s);
    hide AnyIn;
  }

  lemma AnyInItems(s: seq<Attr>)
    ensures AnyIn(Items(s)) <==> exists k :: 0 <= k < |s| && s[k].reg.state == IN
  {
    if k :| 0 <= k < |s| && s[k].reg.state == IN {
      assert Items(s)[k].reg == IN;
    }
  }

  lemma OnlyTxItems(s: seq<Attr>, s': seq<Attr>)
    requires OnlyTxCleared(s, s')
    ensures Items(s') == Items(s) && (NothingPending(s) ==> NothingPending(s'))
  {
  }

  lemma {:induction false} PendingConcat(a: seq<Attr>, b: seq<Attr>)
    ensures Pending(a + b) == Pending(a) + Pending(b)
  {
    if b == [] {
      assert a + b == a;
    } else {
      assert (a + b)[..|a + b| - 1] == a + b[..|b| - 1];
      PendingConcat(a, b[..|b| - 1]);
    }
  }

  /** After a leave-timer walk the pending notifications are the survivors'. */
  lemma {:induction false} SurvivorsPending(s: seq<Attr>)
    requires NothingPending(s)
    ensures Pending(Without(DeadAttr, Map(Expired, s))) == SurvivorNotes(Items(s))
  {
    hide Expired, SurvivorNote, Pending, DeadAttr, ItemOf;
    if s == [] {
      PendingNone([]);
    } else {
      var pre, a := s[..|s| - 1], s[|s| - 1];
      SurvivorsPending(pre);
      SurvivorPending(a);
      assert Items(s)[..|s| - 1] == Items(pre) && Map(Expired, s)[..|s| - 1] == Map(Expired, pre);
      PendingConcat(Without(DeadAttr, Map(Expired, pre)), Unless(DeadAttr, Expired(a)));
    }
  }

  lemma SurvivorPending(a: Attr)
    requires a.reg.notify == NotifyNone
    ensures Pending(Unless(DeadAttr, Expired(a))) == SurvivorNote(ItemOf(a))
  {
    var b := Expired(a);
    assert Pending([b]) == [] + PendingAt(b);
  }

  lemma ExpiredItems(s: seq<Attr>)
    ensures Items(Map(Expired, s)) == ExpireLeaves(Items(s))
  {
  }

  /** Only the two transmitting events send a frame. */
  lemma SendsNothing(m: Mad, e: Event, arg: Option<nat>, port: Port)
    ensures e !in {Tx, LvaTimer} ==> Handle(m, e, arg, port).frame == None
  {
    hide Find, Position, Update, Dead, SweepApp, SweepBoth, ExpireLeaves, Pdu, Requests;
  }

  class Database {
    const port: Port
    const list: List<Attr>
    var mrp: MrpDb
    var sendEmpty: bool
    var wire: seq<seq<Byte>>
    var notes: seq<Note>

    /** Between events: a well-formed list, and no notification pending. */
    ghost predicate Valid()
      reads this, list, list.repr, list.nodes
    {
      list.Valid() && !sendEmpty && NothingPending(list.Contents())
    }

    ghost function View(): Mad
      reads this, list, list.nodes
    {
      Mad(Items(list.Contents()), mrp)
    }

    /** mvrp_init. */
    constructor (port: Port)
      ensures Valid() && this.port == port && View() == START && wire == [] && notes == []
      ensures fresh(list) && list.nodes == []
    {
      this.port := port;
      list := new List<Attr>();
      mrp := LeaveAllFsm(MrpDb(LeaveAll(false, false, SndNew), false, false, false), Begin);
      sendEmpty := false;
      wire := [];
      notes := [];
    }

    // -------------------------------------------------------------------
    // Walks over the whole list
    // -------------------------------------------------------------------

    method SweepAppStep(e: Event, attrib: Node<Attr>, ghost s: seq<Attr>, ghost i: nat, more: nat)
      returns (more': nat)
      requires list.Valid() && i < |list.nodes| && list.nodes[i] == attrib
      requires SweptApps(s, list.Contents(), e, port.p2p, i, more)
      modifies attrib`value
      ensures list.Valid() && SweptApps(s, list.Contents(), e, port.p2p, i + 1, more')
    {
      hide SweptApps, AppStep, TransitionImpliesTx, List.Contents, List.Valid;
      SameLength(s, list.Contents(), e, i, more);
      SweptAppsGoOn(s, list.Contents(), e, port.p2p, i, more);
      list.Set(attrib, i, AppStep(attrib.value, e, port.p2p));
      more' := if TransitionImpliesTx(attrib.value.app) then more + 1 else more;
    }

    lemma SameLength(s: seq<Attr>, s': seq<Attr>, e: Event, i: nat, more: nat)
      requires SweptApps(s, s', e, port.p2p, i, more)
      ensures |s'| == |s|
    {
    }

    /** Every applicant takes e; `more` counts the transitions that ask for
        another transmit opportunity. */
    method SweepApplicants(e: Event) returns (more: nat)
      requires list.Valid()
      modifies list.nodes`value
      ensures list.Valid()
      ensures var s := old(list.Contents());
              SweptApps(s, list.Contents(), e, port.p2p, |s|, more)
    {
      hide SweptApps, List.Contents, List.Valid;
      ghost var s, i := list.Contents(), 0;
      SweptNothing(s, e, false);
      list.Links(0);
      var attrib := list.head;
      more := 0;
      while attrib != null
        invariant 0 <= i <= |s| == |list.nodes| && attrib == list.At(i) && list.Valid()
        invariant SweptApps(s, list.Contents(), e, port.p2p, i, more)
        decreases |s| - i
      {
        list.Links(i);
        more := SweepAppStep(e, attrib, s, i, more);
        attrib := attrib.next;
        i := i + 1;
      }
    }

    lemma SweptNothing(s: seq<Attr>, e: Event, leave: bool)
      ensures SweptApps(s, s, e, port.p2p, 0, 0) && SweptBoths(s, s, e, port.p2p, 0, leave, leave)
    {
    }

    method SweepBothStep(e: Event, attrib: Node<Attr>, ghost s: seq<Attr>, ghost i: nat, ghost leave: bool)
      requires list.Valid() && i < |list.nodes| && list.nodes[i] == attrib && i < |s| && e in {TxLA, RLA}
      requires SweptBoths(s, list.Contents(), e, port.p2p, i, leave, mrp.leave)
      modifies this`mrp, attrib`value
      ensures list.Valid() && mrp == old(mrp).(leave := mrp.leave)
      ensures SweptBoths(s, list.Contents(), e, port.p2p, i + 1, leave, mrp.leave)
    {
      hide SweptBoths, BothStep, List.Contents, List.Valid;
      SweptBothsGoOn(s, list.Contents(), e, port.p2p, i, leave, mrp.leave);
      if StartsLeaveTimer(attrib.value.reg.state, e) {
        mrp := mrp.(leave := true);
      }
      list.Set(attrib, i, BothStep(attrib.value, e, port.p2p));
    }

    /** Every applicant and registrar takes e (TxLA or RLA). */
    method SweepBothMachines(e: Event)
      requires list.Valid() && e in {TxLA, RLA}
      modifies this`mrp, list.nodes`value
      ensures list.Valid() && mrp == old(mrp).(leave := mrp.leave)
      ensures var s := old(list.Contents());
              SweptBoths(s, list.Contents(), e, port.p2p, |s|, old(mrp).leave, mrp.leave)
    {
      hide SweptBoths, List.Contents, List.Valid;
      ghost var s, i, leave := list.Contents(), 0, mrp.leave;
      SweptNothing(s, e, leave);
      list.Links(0);
      var attrib := list.head;
      while attrib != null
        invariant 0 <= i <= |s| == |list.nodes| && attrib == list.At(i) && list.Valid()
        invariant SweptBoths(s, list.Contents(), e, port.p2p, i, leave, mrp.leave)
        invariant mrp == old(mrp).(leave := mrp.leave)
        decreases |s| - i
      {
        list.Links(i);
        SweepBothStep(e, attrib, s, i, leave);
        attrib := attrib.next;
        i := i + 1;
      }
    }

    /** The last loop of mvrp_event: send what is pending and clear it. */
    method SendNotifications()
      requires list.Valid()
      modifies this`notes, list.nodes`value
      ensures list.Valid()
      ensures var s := old(list.Contents());
              list.Contents() == DropNotify(s) && notes == old(notes) + Pending(s)
    {
      hide Notified, List.Contents, List.Valid, Pending, DropNotify;
      ghost var s, i := list.Contents(), 0;
      NotifiedStarts(s, notes);
      list.Links(0);
      var attrib := list.head;
      while attrib != null
        invariant 0 <= i <= |s| == |list.nodes| && attrib == list.At(i) && list.Valid()
        invariant Notified(s, list.Contents(), i, old(notes), notes)
        decreases |s| - i
      {
        list.Links(i);
        NotifiedGoesOn(s, list.Contents(), i, old(notes), notes);
        if attrib.value.reg.notify != NotifyNone {
          notes := notes + [Note(attrib.value.reg.notify, attrib.value.vid)];
          list.Set(attrib, i, ClearNotify(attrib.value));
        }
        attrib := attrib.next;
        i := i + 1;
      }
      NotifiedEnds(s, list.Contents(), old(notes), notes);
    }

    /** The first i attributes have been reported and cleared. */
    ghost predicate Notified(s: seq<Attr>, s': seq<Attr>, i: nat, before: seq<Note>, after: seq<Note>) {
      && i <= |s| == |s'|
      && (forall k :: 0 <= k < |s| ==> s'[k] == if k < i then ClearNotify(s[k]) else s[k])
      && after == before + Pending(s[..i])
    }

    lemma NotifiedStarts(s: seq<Attr>, before: seq<Note>)
      ensures Notified(s, s, 0, before, before)
    {
    }

    lemma NotifiedGoesOn(s: seq<Attr>, s': seq<Attr>, i: nat, before: seq<Note>, after: seq<Note>)
      requires Notified(s, s', i, before, after) && i < |s|
      ensures s'[i] == s[i]
      ensures if s[i].reg.notify == NotifyNone then Notified(s, s', i + 1, before, after)
              else Notified(s, s'[i := ClearNotify(s[i])], i + 1, before, after + [Note(s[i].reg.notify, s[i].vid)])
    {
      assert s[..i + 1][..i] == s[..i];
    }

    lemma NotifiedEnds(s: seq<Attr>, s': seq<Attr>, before: seq<Note>, after: seq<Note>)
      requires Notified(s, s', |s|, before, after)
      ensures s' == DropNotify(s) && after == before + Pending(s)
    {
      hide Pending, ClearNotify;
      assert s[..|s|] == s;
    }

    // -------------------------------------------------------------------
    // mvrp_conditional_reclaim, mvrp_reclaim and the leave timer
    // -------------------------------------------------------------------

    /** Deletes the k-th attribute if nobody needs it, and returns the next one. */
    method ConditionalReclaim(attrib: Node<Attr>, ghost k: nat) returns (next: Node?<Attr>)
      requires list.Valid() && k < |list.nodes| && list.nodes[k] == attrib
      modifies this`notes, list, list.repr`prev, list.repr`next
      ensures list.Valid() && notes == old(notes) + ReclaimNote(ItemOf(attrib.value))
      ensures list.repr == old(list.repr)
      ensures if DeadAttr(attrib.value)
              then list.nodes == RemoveAt(old(list.nodes), k) && list.Contents() == RemoveAt(old(list.Contents()), k)
                   && next == list.At(k)
              else list.nodes == old(list.nodes) && list.Contents() == old(list.Contents()) && next == list.At(k + 1)
    {
      if DeadAttr(attrib.value) {
        next := list.Unlink(attrib, k);
        notes := notes + [Note(NotifyLv, attrib.value.vid)];
      } else {
        next := attrib.next;
      }
    }

    /** One turn of a reclaiming walk: an attribute is updated by f first. */
    method ReclaimStep(f: Attr -> Attr, attrib: Node<Attr>, ghost s: seq<Attr>, ghost d: nat, ghost k: nat)
      returns (next: Node?<Attr>, ghost k': nat)
      requires list.Valid() && k < |list.nodes| && list.nodes[k] == attrib
      requires Purging(f, DeadAttr, s, list.Contents(), d, k)
      modifies this`notes, list, list.repr
      ensures list.Valid() && list.repr == old(list.repr) && next == list.At(k') && k' <= |list.nodes|
      ensures d < |s| && Purging(f, DeadAttr, s, list.Contents(), d + 1, k')
      ensures notes == old(notes) + ReclaimNote(ItemOf(f(s[d])))
    {
      hide Purging, DeadAttr, ReclaimNote, ItemOf, List.Contents, List.Valid;
      PurgingGoesOn(f, DeadAttr, s, list.Contents(), d, k);
      list.Links(k);
      list.Set(attrib, k, f(attrib.value));
      next := ConditionalReclaim(attrib, k);
      k' := if DeadAttr(f(s[d])) then k else k + 1;
    }

    /** mvrp_reclaim, and the walk of the leave timer, which first expires the
        leaving registrars. */
    method ReclaimWalk(f: Attr -> Attr)
      requires list.Valid()
      modifies this`notes, list, list.repr
      ensures list.Valid() && list.repr == old(list.repr)
      ensures var s := Map(f, old(list.Contents()));
              list.Contents() == Without(DeadAttr, s) && notes == old(notes) + ReclaimNotes(Items(s))
    {
      hide Purging, Without, Map, ReclaimNotes, ReclaimNote, Items, ItemOf, List.Contents, List.Valid;
      ghost var s := list.Contents();
      ghost var d: nat, k: nat, report := 0, 0, [];
      PurgingStarts(f, DeadAttr, s);
      NotesGrow(f, s, 0);
      list.Links(0);
      var attrib := list.head;
      while attrib != null
        invariant d <= |s| && k <= |list.nodes| && attrib == list.At(k) && list.Valid() && list.repr == old(list.repr)
        invariant Purging(f, DeadAttr, s, list.Contents(), d, k)
        invariant notes == old(notes) + report && report == ReclaimNotes(Items(Map(f, s[..d])))
        decreases |s| - d
      {
        attrib, k := ReclaimStep(f, attrib, s, d, k);
        ghost var note := ReclaimNote(ItemOf(f(s[d])));
        NotesGrow(f, s, d);
        Associative(old(notes), report, note);
        d, report := d + 1, report + note;
      }
      PurgingEnds(f, DeadAttr, s, list.Contents(), d, k);
      assert s[..|s|] == s;
    }

    lemma NotesGrow(f: Attr -> Attr, s: seq<Attr>, d: nat)
      requires d <= |s|
      ensures d == 0 ==> ReclaimNotes(Items(Map(f, s[..d]))) == []
      ensures d < |s| ==>
                ReclaimNotes(Items(Map(f, s[..d + 1])))
                == ReclaimNotes(Items(Map(f, s[..d]))) + ReclaimNote(ItemOf(f(s[d])))
    {
      hide ReclaimNote, ItemOf;
      if d < |s| {
        assert Items(Map(f, s[..d + 1]))[..d] == Items(Map(f, s[..d]));
      }
    }

    // -------------------------------------------------------------------
    // mvrp_txpdu
    // -------------------------------------------------------------------

    /** Closes the frame and sends it, if its second end mark fits. */
    method SendFrame(buf: array<Byte>, used: nat) returns (rc: int)
      requires buf.Length == FRAME && BODY + used <= FRAME
      modifies this`wire, buf
      ensures var frame := old(buf[..BODY + used]) + [0, 0];
              if used == 0 || BODY + used >= FRAME - 2 then rc == -1 && wire == old(wire)
              else rc == 0 && wire == old(wire) + [frame]
    {
      if used == 0 || BODY + used >= FRAME - 2 {
        return -1;
      }
      ghost var b := buf[..BODY + used];
      buf[BODY + used], buf[BODY + used + 1] := 0, 0;
      assert buf[..BODY + used] == b;
      assert buf[..BODY + used + 2] == b + [0, 0];
      wire := wire + [buf[..BODY + used + 2]];
      rc := 0;
    }

    method TxPdu() returns (rc: int)
      requires list.Valid()
      modifies this`mrp, this`wire, list.nodes`value
      ensures list.Valid() && OnlyTxCleared(old(list.Contents()), list.Contents()) && mrp == TakeLva(old(mrp))
      ensures var pdu := Pdu(TxItems(old(list.Contents())), old(mrp).lva.tx, sendEmpty, port.station);
              wire == old(wire) + Sending(pdu) && rc == if pdu.Some? then 0 else -1
    {
      hide Message, TxClearedUpTo, OnlyTxCleared, Emit, List.Contents, List.Valid;
      var buf := new Byte[FRAME](_ => 0);
      var head := MVRP_ADDR + port.station + [0x88, 0xF5, 0];
      Write(buf, 0, head);
      assert buf[..BODY] == head;
      var lva := mrp.lva.tx;
      mrp := TakeLva(mrp);
      var used;
      rc, used := EmitVidVectors(list, buf, lva, sendEmpty);
      if rc == -1 {
        return;
      }
      assert buf[..BODY + used] == buf[..BODY] + buf[BODY..BODY + used];
      rc := SendFrame(buf, used);
    }

    // -------------------------------------------------------------------
    // Events about one attribute
    // -------------------------------------------------------------------

    /** mvrp_lookup. */
    method Lookup(vid: nat) returns (n: Node?<Attr>, ghost k: nat)
      requires list.Valid()
      ensures k == Find(Items(list.Contents()), vid) && n == list.At(k)
    {
      hide List.Valid;
      list.Links(0);
      n, k := list.head, 0;
      while n != null
        invariant k <= |list.nodes| && n == list.At(k)
        invariant FindFrom(Items(list.Contents()), vid, k) == Find(Items(list.Contents()), vid)
        decreases |list.nodes| - k
      {
        if n.value.vid == vid {
          return;
        }
        list.Links(k);
        n, k := n.next, k + 1;
      }
    }

    /** mvrp_add. */
    method Add(r: Node<Attr>) returns (ghost k: nat)
      requires list.Valid() && r !in list.nodes
      modifies list, list.repr`prev, list.repr`next, r`prev, r`next
      ensures list.Valid() && list.repr == old(list.repr) + {r}
      ensures k == Position(Items(old(list.Contents())), r.value.vid, 0)
      ensures list.Contents() == InsertAt(old(list.Contents()), k, r.value) && list.At(k) == r
    {
      ghost var s := list.Contents();
      k := InsertIndex(s, r.value, (a: Attr, b: Attr) => true, (a: Attr, b: Attr) => a.vid < b.vid, 0);
      InsertIndexIsPosition(s, r.value, 0);
      list.Add(r, (a: Attr, b: Attr) => true, (a: Attr, b: Attr) => a.vid < b.vid);
    }

    lemma {:induction false} InsertIndexIsPosition(s: seq<Attr>, x: Attr, i: nat)
      requires i <= |s|
      ensures InsertIndex(s, x, (a: Attr, b: Attr) => true, (a: Attr, b: Attr) => a.vid < b.vid, i)
           == Position(Items(s), x.vid, i)
      decreases |s| - i
    {
      if i == |s| {
      } else {
        InsertIndexIsPosition(s, x, i + 1);
      }
    }

    /** The machines of the k-th attribute take the event. */
    method Machines(attrib: Node<Attr>, ghost k: nat, e: Event)
      requires list.Valid() && k < |list.nodes| && list.nodes[k] == attrib
      modifies this`mrp, attrib`value
      ensures list.Valid()
      ensures var a := old(attrib.value);
              && list.Contents() == old(list.Contents())[k := AttrStep(a, e, port.p2p)]
              && mrp == old(mrp).(leave := old(mrp).leave || StartsLeaveTimer(a.reg.state, RegEvent(e, a.reg.state)))
    {
      var a := attrib.value;
      var app := ApplicantFsm(a.app, e, a.reg.state == IN, port.p2p);
      var re := RegEvent(e, a.reg.state);
      if StartsLeaveTimer(a.reg.state, re) {
        mrp := mrp.(leave := true);
      }
      var reg := RegistrarFsm(a.reg, re);
      if e == New {
        reg := reg.(notify := NotifyNew);
      }
      list.Set(attrib, k, Attr(a.vid, app, reg));
    }

    lemma DroppedItems(s: seq<Attr>)
      ensures Items(DropNotify(s)) == Items(s) && NothingPending(DropNotify(s))
    {
    }

    /** The list of an applied event: the attribute at k stepped, or gone. */
    lemma AppliedItems(s: seq<Attr>, k: nat, e: Event, mrp: MrpDb)
      requires k < |s| && NothingPending(s) && AttributeEvent(e)
      ensures var a := AttrStep(s[k], e, port.p2p);
              var o := Apply(Items(s), mrp, k, e, port.p2p);
              var s' := if DeadAttr(a) then RemoveAt(s[k := a], k) else s[k := a];
              && o.mad.items == Items(DropNotify(s')) && NothingPending(DropNotify(s'))
              && o.notes == ReclaimNote(ItemOf(a)) + Pending(s')
              && o.mad.mrp == mrp.(leave := mrp.leave || StartsLeaveTimer(s[k].reg.state, RegEvent(e, s[k].reg.state)))
    {
      hide AttrStep, Update, NotifyOf, StartsLeaveTimer, RegEvent, Pending, DropNotify, Reclaimable;
      var a := AttrStep(s[k], e, port.p2p);
      AttrStepIsUpdate(s[k], e, port.p2p);
      assert Items(s)[k] == ItemOf(s[k]);
      if DeadAttr(a) {
        var s' := RemoveAt(s[k := a], k);
        PendingNone(s');
        DroppedItems(s');
        assert Items(s') == RemoveAt(Items(s), k);
        assert ReclaimNote(ItemOf(a)) + [] == [Note(NotifyLv, s[k].vid)];
      } else {
        var s' := s[k := a];
        PendingOne(s', k);
        DroppedItems(s');
        assert Items(s') == Items(s)[k := ItemOf(a)];
        assert ReclaimNote(ItemOf(a)) + PendingAt(a) == PendingAt(a);
      }
    }

    /** From the state machines to the notifications. */
    method ApplyEvent(attrib: Node<Attr>, ghost k: nat, e: Event)
      requires list.Valid() && k < |list.nodes| && list.nodes[k] == attrib && attrib in list.repr
      requires NothingPending(list.Contents()) && AttributeEvent(e)
      modifies this`mrp, this`notes, list, list.repr
      ensures list.Valid() && list.repr == old(list.repr) && NothingPending(list.Contents())
      ensures var o := Apply(Items(old(list.Contents())), old(mrp), k, e, port.p2p);
              Items(list.Contents()) == o.mad.items && mrp == o.mad.mrp && notes == old(notes) + o.notes
    {
      hide List.Valid, List.Contents, NothingPending, Apply, AttrStep, DeadAttr, Pending, DropNotify, Items,
           StartsLeaveTimer, RegEvent;
      ghost var s, m := list.Contents(), mrp;
      ghost var a := AttrStep(s[k], e, port.p2p);
      AppliedItems(s, k, e, m);
      Machines(attrib, k, e);
      var next := ConditionalReclaim(attrib, k);
      list.ListedInRepr();
      Associative(old(notes), ReclaimNote(ItemOf(a)), Pending(list.Contents()));
      SendNotifications();
    }

    /** The attribute cases of mvrp_event; r is a freshly allocated attribute. */
    method AttributeCase(e: Event, r: Node<Attr>)
      requires Valid() && AttributeEvent(e) && r !in list.repr && r.value == Alloc(r.value.vid)
      modifies this`mrp, this`notes, list, list.repr, r
      ensures Valid() && list.repr <= old(list.repr) + {r}
      ensures var o := OnAttribute(old(View()), e, old(r.value.vid), port.p2p);
              View() == o.mad && notes == old(notes) + o.notes
    {
      hide List.Valid, List.Contents, NothingPending, Apply, Find, Position, MvrpSpec.Add, OnAttribute, Alloc, Items;
      ghost var m, v := View(), r.value.vid;
      OnAttributeCases(m, e, v);
      mrp := mrp.(join := true);
      var attrib;
      ghost var k;
      attrib, k := FindOrAdd(e, r);
      if attrib != null {
        ApplyEvent(attrib, k, e);
      }
    }

    /** The attribute an event is about: the one in the list, or r, which joins the
        list; none if an Mt concerns no attribute in the list. */
    method FindOrAdd(e: Event, r: Node<Attr>) returns (attrib: Node?<Attr>, ghost k: nat)
      requires list.Valid() && NothingPending(list.Contents()) && r !in list.repr && r.value == Alloc(r.value.vid)
      modifies list, list.repr`prev, list.repr`next, r`prev, r`next
      ensures list.Valid() && NothingPending(list.Contents()) && list.repr <= old(list.repr) + {r}
      ensures attrib != null ==> k < |list.nodes| && list.nodes[k] == attrib && attrib in list.repr
      ensures var items, v := Items(old(list.Contents())), r.value.vid;
              var at := Find(items, v);
              if at < |items| then attrib != null && k == at && Items(list.Contents()) == items
              else if e == RMt then attrib == null && Items(list.Contents()) == items
              else && attrib != null && k == Position(items, v, 0)
                   && Items(list.Contents()) == MvrpSpec.Add(items, v)
    {
      hide List.Valid, List.Contents, NothingPending, Find, Position, MvrpSpec.Add, Alloc, Items;
      ghost var s := list.Contents();
      attrib, k := Lookup(r.value.vid);
      if attrib == null && e != RMt {
        list.ListedInRepr();
        k := Add(r);
        AddedItems(s, k, r.value);
        attrib := r;
      }
      list.Links(k);
    }

    lemma OnAttributeCases(m: Mad, e: Event, v: nat)
      ensures var k := Find(m.items, v);
              var mrp := m.mrp.(join := true);
              OnAttribute(m, e, v, port.p2p)
              == if k < |m.items| then Apply(m.items, mrp, k, e, port.p2p)
                 else if e == RMt then Outcome(Mad(m.items, mrp), None, [])
                 else Apply(MvrpSpec.Add(m.items, v), mrp, Position(m.items, v, 0), e, port.p2p)
    {
    }

    lemma AddedItems(s: seq<Attr>, k: nat, a: Attr)
      requires k == Position(Items(s), a.vid, 0) && a == Alloc(a.vid) && NothingPending(s)
      ensures Items(InsertAt(s, k, a)) == MvrpSpec.Add(Items(s), a.vid) && NothingPending(InsertAt(s, k, a))
    {
    }

    // -------------------------------------------------------------------
    // The other cases of mvrp_event
    // -------------------------------------------------------------------

    /** Ends an event that left nothing to notify. */
    method NotifyNobody()
      requires list.Valid() && NothingPending(list.Contents())
      modifies this`notes, list.nodes`value
      ensures list.Valid() && list.Contents() == old(list.Contents()) && notes == old(notes)
    {
      PendingNone(list.Contents());
      assert DropNotify(list.Contents()) == list.Contents();
      SendNotifications();
    }

    /** The Tx sweep and its frame. */
    method SweepAndSend() returns (more: nat)
      requires list.Valid() && NothingPending(list.Contents())
      modifies this`mrp, this`wire, list.nodes`value
      ensures list.Valid() && NothingPending(list.Contents()) && mrp == TakeLva(old(mrp))
      ensures var items := Items(old(list.Contents()));
              && Items(list.Contents()) == SweepApp(items, Tx, port.p2p)
              && (more > 0 <==> MoreToSend(items, port.p2p))
              && wire == old(wire) + Sending(Pdu(Requests(items, Tx), old(mrp).lva.tx, sendEmpty, port.station))
    {
      hide List.Valid, List.Contents, NothingPending, Items, SweptApps, OnlyTxCleared, Pdu, MoreToSend, SweepApp;
      ghost var s := list.Contents();
      more := SweepApplicants(Tx);
      ghost var s1 := list.Contents();
      SweptApp(s, s1, Tx, port.p2p, more);
      SweptTx(s, s1, port.p2p, more);
      var rc := TxPdu();
      OnlyTxItems(s1, list.Contents());
    }

    method TxCase()
      requires Valid()
      modifies this`mrp, this`wire, this`notes, list.nodes`value
      ensures Valid()
      ensures var o := OnTx(old(View()), port);
              View() == o.mad && wire == old(wire) + Sending(o.frame) && notes == old(notes) + o.notes
    {
      hide List.Valid, List.Contents, NothingPending, Items, Pdu, MoreToSend, SweepApp, Requests, Sending;
      mrp := mrp.(join := false);
      var more := SweepAndSend();
      mrp := if more > 0 then mrp.(join := true) else mrp;
      NotifyNobody();
    }

    /** The TxLA sweep. */
    method SweepLeaveAll()
      requires list.Valid()
      modifies this`mrp, list.nodes`value
      ensures list.Valid() && NothingPending(list.Contents())
      ensures var items := Items(old(list.Contents()));
              && Items(list.Contents()) == SweepBoth(items, TxLA, port.p2p)
              && TxItems(list.Contents()) == Requests(items, TxLA)
              && mrp == old(mrp).(leave := old(mrp).leave || AnyIn(items))
    {
      hide List.Valid, List.Contents, NothingPending, Items, SweptBoths, AnyIn, SweepBoth;
      ghost var s := list.Contents();
      SweepBothMachines(TxLA);
      SweptBoth(s, list.Contents(), TxLA, port.p2p, old(mrp).leave, mrp.leave);
    }

    /** The LeaveAll machine fires, and the frame goes out even if empty. */
    method SendLeaveAll()
      requires list.Valid() && NothingPending(list.Contents())
      modifies this`mrp, this`wire, this`sendEmpty, list.nodes`value
      ensures list.Valid() && NothingPending(list.Contents()) && !sendEmpty
      ensures Items(list.Contents()) == Items(old(list.Contents()))
      ensures var fired := LeaveAllFsm(LeaveAllFsm(old(mrp), LvaTimer), Tx);
              && mrp == TakeLva(fired)
              && wire == old(wire) + Sending(Pdu(TxItems(old(list.Contents())), fired.lva.tx, true, port.station))
    {
      hide List.Valid, List.Contents, NothingPending, Items, OnlyTxCleared, Pdu, TxItems, Sending;
      ghost var s := list.Contents();
      mrp := LeaveAllFsm(mrp, LvaTimer);
      sendEmpty := true;
      mrp := LeaveAllFsm(mrp, Tx);
      var rc := TxPdu();
      OnlyTxItems(s, list.Contents());
      sendEmpty := false;
    }

    method LvaTimerCase()
      requires Valid()
      modifies this`mrp, this`wire, this`notes, this`sendEmpty, list.nodes`value
      ensures Valid()
      ensures var o := OnLvaTimer(old(View()), port);
              View() == o.mad && wire == old(wire) + Sending(o.frame) && notes == old(notes) + o.notes
    {
      hide List.Valid, List.Contents, NothingPending, Items, Pdu, AnyIn, SweepBoth, Requests, TxItems, Sending;
      hide LeaveAllFsm;
      mrp := mrp.(leaveAll := false, join := false);
      SweepLeaveAll();
      SendLeaveAll();
      NotifyNobody();
    }

    method RLACase()
      requires Valid()
      modifies this`mrp, this`notes, list.nodes`value
      ensures Valid()
      ensures var o := OnRLA(old(View()), port);
              View() == o.mad && notes == old(notes) + o.notes
    {
      hide List.Valid, List.Contents, NothingPending, Items, SweptBoths, AnyIn, SweepBoth;
      ghost var s := list.Contents();
      mrp := mrp.(join := true);
      SweepBothMachines(RLA);
      SweptBoth(s, list.Contents(), RLA, port.p2p, old(mrp).leave, mrp.leave);
      mrp := LeaveAllFsm(mrp, RLA);
      NotifyNobody();
    }

    method LvTimerCase()
      requires Valid()
      modifies this`mrp, this`notes, list, list.repr
      ensures Valid() && list.repr == old(list.repr)
      ensures var o := OnLvTimer(old(View()));
              View() == o.mad && notes == old(notes) + o.notes
    {
      hide List.Valid, List.Contents, NothingPending, Items, Without, Pending, DropNotify, Map;
      hide ReclaimNotes, SurvivorNotes, ExpireLeaves;
      ghost var s := list.Contents();
      mrp := mrp.(leave := false);
      ReclaimWalk(Expired);
      ghost var w := Map(Expired, s);
      ExpiredItems(s);
      LiveIsKept(w);
      SurvivorsPending(s);
      DroppedItems(Without(DeadAttr, w));
      Associative(old(notes), ReclaimNotes(Items(w)), SurvivorNotes(Items(s)));
      list.ListedInRepr();
      SendNotifications();
    }

    method PeriodicCase()
      requires Valid()
      modifies this`mrp, this`notes, list.nodes`value
      ensures Valid()
      ensures var o := OnPeriodic(old(View()), port);
              View() == o.mad && notes == old(notes) + o.notes
    {
      hide List.Valid, List.Contents, NothingPending, SweptApps, SweepApp;
      ghost var s := list.Contents();
      list.Links(0);
      if list.head != null {
        mrp := mrp.(join := true);
      }
      var more := SweepApplicants(Periodic);
      SweptApp(s, list.Contents(), Periodic, port.p2p, more);
      NotifyNobody();
    }

    /** mvrp_event. */
    method Event(e: Event, r: Node?<Attr>) returns (rc: int)
      requires Valid() && (r != null ==> r !in list.repr && r.value == Alloc(r.value.vid))
      modifies this`mrp, this`wire, this`notes, this`sendEmpty, list, list.repr, r
      ensures Valid() && (forall n :: n in list.repr ==> n in old(list.repr) || n == r)
      ensures var o := Handle(old(View()), e, if r == null then None else Some(old(r.value.vid)), port);
              View() == o.mad && wire == old(wire) + Sending(o.frame) && notes == old(notes) + o.notes
      ensures rc == if AttributeEvent(e) && r == null then -1 else 0
    {
      hide List.Valid, List.Contents, Items, NothingPending, OnLvaTimer, OnTx, OnRLA, OnLvTimer, OnPeriodic,
           OnAttribute;
      SendsNothing(View(), e, if r == null then None else Some(r.value.vid), port);
      list.ListedInRepr();
      rc := 0;
      if e == LvaTimer {
        LvaTimerCase();
      } else if e == RLA {
        RLACase();
      } else if e == Tx {
        TxCase();
      } else if e == LvTimer {
        LvTimerCase();
      } else if e == Periodic {
        PeriodicCase();
      } else if AttributeEvent(e) {
        if r == null {
          mrp := mrp.(join := true);
          rc := -1;
        } else {
          AttributeCase(e, r);
        }
      } else {
        NotifyNobody();
      }
    }

    /** mvrp_reclaim. */
    method Reclaim()
      requires Valid()
      modifies this`notes, list, list.repr
      ensures Valid() && list.repr == old(list.repr)
      ensures var o := Collect(old(View()));
              View() == o.mad && notes == old(notes) + o.notes
    {
      hide List.Valid, List.Contents, Items, Without, ReclaimNotes, DeadAttr;
      ghost var s := list.Contents();
      MapUnchanged(s);
      ReclaimWalk(Unchanged);
      LiveIsKept(s);
      WithoutMembers(DeadAttr, s);
      assert forall a :: a in s ==> a.reg.notify == NotifyNone;
    }
  }
}
