/** msrp.c itself: the database with its linked list, updated in place.  Every
    operation is proved against the functions of MsrpSpec. */
module MsrpDatabase {
  import opened Mrp
  import opened Seqs
  import opened AttribList
  import opened ListenerCodec
  import opened MsrpSpec

  /** The walks of msrp_event that step every attribute. */
  datatype Pass = LeaveAllPass | TxPass | HearPass(about: Subject)

  function StepOf(p: Pass, it: Item, p2p: bool): Item {
    match p
    case LeaveAllPass => StepBoth(it, TxLA, p2p)
    case TxPass => StepTx(it, p2p)
    case HearPass(about) => HearLeaveAll(it, about, p2p)
  }

  predicate Leaves(p: Pass, it: Item) {
    it.reg == IN && (p.LeaveAllPass? || (p.HearPass? && SameType(it.subject, p.about)))
  }

  predicate Asks(it: Item, it': Item) {
    it'.app != it.app && WantsTx(it'.app)
  }

  function Stepped(p: Pass, s: seq<Item>, p2p: bool): (r: seq<Item>)
    ensures |r| == |s|
    ensures forall i :: 0 <= i < |s| ==> r[i] == StepOf(p, s[i], p2p)
  {
    seq(|s|, i requires 0 <= i < |s| => StepOf(p, s[i], p2p))
  }

  /** The first i attributes have been stepped, with what that did to the timers. */
  ghost predicate Stepping(p: Pass, s: seq<Item>, s': seq<Item>, p2p: bool, i: nat, leave: bool, leave': bool,
                           more: nat)
  {
    && |s'| == |s| && i <= |s|
    && (forall k :: 0 <= k < |s| ==> s'[k] == if k < i then StepOf(p, s[k], p2p) else s[k])
    && (leave' <==> leave || exists k :: 0 <= k < i && Leaves(p, s[k]))
    && (more > 0 <==> exists k :: 0 <= k < i && Asks(s[k], StepOf(p, s[k], p2p)))
  }

  lemma SteppingGoesOn(p: Pass, s: seq<Item>, s': seq<Item>, p2p: bool, i: nat, leave: bool, leave': bool, more: nat)
    requires Stepping(p, s, s', p2p, i, leave, leave', more) && i < |s|
    ensures s'[i] == s[i]
    ensures Stepping(p, s, s'[i := StepOf(p, s[i], p2p)], p2p, i + 1, leave, leave' || Leaves(p, s[i]),
                     if Asks(s[i], StepOf(p, s[i], p2p)) then more + 1 else more)
  {
    hide Asks, Leaves, StepOf;
  }

  lemma SteppingEnds(p: Pass, s: seq<Item>, s': seq<Item>, p2p: bool, leave: bool, leave': bool, more: nat)
    requires Stepping(p, s, s', p2p, |s|, leave, leave', more)
    ensures s' == Stepped(p, s, p2p)
    ensures leave' <==> leave || exists k :: 0 <= k < |s| && Leaves(p, s[k])
    ensures more > 0 <==> exists k :: 0 <= k < |s| && Asks(s[k], StepOf(p, s[k], p2p))
  {
    hide Asks, Leaves, StepOf;
  }

  /** The passes are the sweeps of the specification. */
  lemma LeaveAllPassIs(m: Mad, p2p: bool)
    ensures OnLvaTimer(m, p2p).items == Stepped(LeaveAllPass, m.items, p2p)
    ensures AnyIn(m.items) <==> exists k :: 0 <= k < |m.items| && Leaves(LeaveAllPass, m.items[k])
  {
    hide StepBoth;
  }

  lemma TxPassIs(m: Mad, p2p: bool)
    ensures OnTx(m, p2p).items == Stepped(TxPass, m.items, p2p)
    ensures forall k :: 0 <= k < |m.items| ==> !Leaves(TxPass, m.items[k])
  {
    hide StepTx, MoreToSend;
  }

  lemma HearPassIs(m: Mad, about: Subject, p2p: bool)
    ensures OnRLA(m, about, p2p).items == Stepped(HearPass(about), m.items, p2p)
    ensures AnyInOf(m.items, about) <==> exists k :: 0 <= k < |m.items| && Leaves(HearPass(about), m.items[k])
  {
    hide HearLeaveAll;
  }

  lemma AsksMeans(s: seq<Item>, p2p: bool)
    ensures MoreToSend(s, p2p) <==> exists k :: 0 <= k < |s| && Asks(s[k], StepOf(TxPass, s[k], p2p))
  {
    hide AppNext;
    if k :| 0 <= k < |s| && Asks(s[k], StepOf(TxPass, s[k], p2p)) {
      assert MoreToSend(s, p2p);
    }
  }

  class Database {
    const p2p: bool
    const pruning: Option<nat>
    const list: List<Item>
    var mrp: MrpDb
    var interesting: set<StreamId>

    ghost function View(): Mad
      reads this, list, list.nodes
    {
      Mad(list.Contents(), mrp, interesting, pruning)
    }

    /** msrp_init. */
    constructor (p2p: bool, pruning: Option<nat>)
      ensures list.Valid() && View() == Start(pruning) && this.p2p == p2p && fresh(list) && list.repr == {}
    {
      this.p2p := p2p;
      this.pruning := pruning;
      list := new List<Item>();
      mrp := LeaveAllFsm(MrpDb(LeaveAll(false, false, SndNew), false, false, false), Begin);
      interesting := {};
    }

    // -------------------------------------------------------------------
    // Walks
    // -------------------------------------------------------------------

    method SweepStep(p: Pass, attrib: Node<Item>, ghost s: seq<Item>, ghost i: nat, ghost leave: bool, more: nat)
      returns (more': nat)
      requires list.Valid() && i < |list.nodes| && list.nodes[i] == attrib
      requires Stepping(p, s, list.Contents(), p2p, i, leave, mrp.leave, more)
      modifies this`mrp, attrib`value
      ensures list.Valid() && mrp == old(mrp).(leave := mrp.leave)
      ensures Stepping(p, s, list.Contents(), p2p, i + 1, leave, mrp.leave, more')
    {
      hide Stepping, StepOf, Leaves, Asks, List.Contents, List.Valid;
      SteppingBound(p, s, list.Contents(), i, leave, mrp.leave, more);
      SteppingGoesOn(p, s, list.Contents(), p2p, i, leave, mrp.leave, more);
      var it := attrib.value;
      if Leaves(p, it) {
        mrp := mrp.(leave := true);
      }
      list.Set(attrib, i, StepOf(p, it, p2p));
      more' := if Asks(it, attrib.value) then more + 1 else more;
    }

    lemma SteppingBound(p: Pass, s: seq<Item>, s': seq<Item>, i: nat, leave: bool, leave': bool, more: nat)
      requires Stepping(p, s, s', p2p, i, leave, leave', more)
      ensures |s'| == |s|
    {
    }

    method Sweep(p: Pass) returns (more: nat)
      requires list.Valid()
      modifies this`mrp, list.nodes`value
      ensures list.Valid()
      ensures var s := old(list.Contents());
              && list.Contents() == Stepped(p, s, p2p)
              && mrp == old(mrp).(leave := old(mrp).leave || exists k :: 0 <= k < |s| && Leaves(p, s[k]))
              && (more > 0 <==> exists k :: 0 <= k < |s| && Asks(s[k], StepOf(p, s[k], p2p)))
    {
      hide Stepping, Stepped, StepOf, Leaves, Asks, List.Contents, List.Valid;
      ghost var s, i := list.Contents(), 0;
      ghost var leave := mrp.leave;
      SteppingStarts(p, s, leave);
      list.Links(0);
      var attrib := list.head;
      more := 0;
      while attrib != null
        invariant 0 <= i <= |s| == |list.nodes| && attrib == list.At(i) && list.Valid()
        invariant Stepping(p, s, list.Contents(), p2p, i, leave, mrp.leave, more)
        invariant mrp == old(mrp).(leave := mrp.leave)
        decreases |s| - i
      {
        list.Links(i);
        more := SweepStep(p, attrib, s, i, leave, more);
        attrib := attrib.next;
        i := i + 1;
      }
      SteppingEnds(p, s, list.Contents(), p2p, leave, mrp.leave, more);
    }

    lemma SteppingStarts(p: Pass, s: seq<Item>, leave: bool)
      ensures Stepping(p, s, s, p2p, 0, leave, leave, 0)
    {
    }

    /** The loops of the S-L and I-S commands. */
    method DropTalkers(id: StreamId)
      requires list.Valid()
      modifies list, list.repr
      ensures list.Valid() && list.repr == old(list.repr) && list.Contents() == WithoutTalker(old(list.Contents()), id)
    {
      hide List.Valid, List.Contents, Without;
      MapUnchanged(list.Contents());
      list.Walk(Unchanged, TalkerOf(id));
    }

    // -------------------------------------------------------------------
    // Events about one attribute
    // -------------------------------------------------------------------

    /** msrp_lookup. */
    method Lookup(key: Key) returns (n: Node?<Item>, ghost k: nat)
      requires list.Valid()
      ensures k == Find(list.Contents(), key) && n == list.At(k)
      ensures n != null ==> KeyOf(n.value.subject) == key
    {
      hide List.Valid, KeyOf;
      list.Links(0);
      n, k := list.head, 0;
      while n != null
        invariant k <= |list.nodes| && n == list.At(k)
        invariant FindFrom(list.Contents(), key, k) == Find(list.Contents(), key)
        decreases |list.nodes| - k
      {
        if KeyOf(n.value.subject) == key {
          return;
        }
        list.Links(k);
        n, k := n.next, k + 1;
      }
    }

    /** msrp_add. */
    method Add(r: Node<Item>) returns (ghost k: nat)
      requires list.Valid() && r !in list.nodes
      modifies list, list.repr`prev, list.repr`next, r`prev, r`next
      ensures list.Valid() && list.repr == old(list.repr) + {r}
      ensures k == AddIndex(old(list.Contents()), r.value)
      ensures list.Contents() == InsertAt(old(list.Contents()), k, r.value) && list.At(k) == r
    {
      hide InsertIndex;
      k := AddIndex(list.Contents(), r.value);
      list.Add(r, Same, Below);
    }

    /** msrp_merge into the k-th attribute, which the lookup found. */
    method MergeInto(attrib: Node<Item>, ghost k: nat, r: Request)
      requires list.Valid() && k < |list.nodes| && list.nodes[k] == attrib
      requires KeyOf(attrib.value.subject) == KeyOf(r.subject)
      modifies attrib`value
      ensures list.Valid()
      ensures list.Contents() == old(list.Contents())[k := MergeAt(old(list.Contents()), k, r)]
    {
      hide Merge, Find, List.Valid;
      var talker := false;
      if r.subject.Listener? {
        var n, at := Lookup(TalkerKey(r.subject.listener));
        talker := n != null;
      }
      list.Set(attrib, k, Merge(attrib.value, r, talker));
    }

    /** The machines of the k-th attribute take the event, and it is reclaimed if
        nobody needs it. */
    method ApplyEvent(attrib: Node<Item>, ghost k: nat, e: Event)
      requires list.Valid() && k < |list.nodes| && list.nodes[k] == attrib && attrib in list.repr
      modifies this`mrp, list, list.repr
      ensures list.Valid() && list.repr == old(list.repr)
      ensures View() == Apply(old(View()), k, e, p2p)
    {
      hide Update, Dead, Apply, StartsLeaveTimer, RegEvent, List.Valid, List.Contents;
      var it := attrib.value;
      var it' := Update(it, e, p2p);
      Applied(View(), k, e);
      if StartsLeaveTimer(it.reg, RegEvent(e, it.reg)) {
        mrp := mrp.(leave := true);
      }
      list.Set(attrib, k, it');
      var next := list.Delete(attrib, k, Dead(it'));
    }

    lemma Applied(m: Mad, k: nat, e: Event)
      requires k < |m.items|
      ensures var it, it' := m.items[k], Update(m.items[k], e, p2p);
              var stepped := m.items[k := it'];
              Apply(m, k, e, p2p)
              == m.(items := if Dead(it') then RemoveAt(stepped, k) else stepped,
                    mrp := m.mrp.(leave := m.mrp.leave || StartsLeaveTimer(it.reg, RegEvent(e, it.reg))))
    {
      hide Update, Dead, StartsLeaveTimer, RegEvent;
      assert RemoveAt(m.items[k := Update(m.items[k], e, p2p)], k) == RemoveAt(m.items, k);
    }

    /** Whether the attribute cases of msrp_event go on. */
    method CheckInterest(s: Subject) returns (ok: bool)
      requires list.Valid()
      ensures ok == Interested(View(), s)
    {
      hide Find, List.Valid, List.Contents;
      ok := true;
      if s.Talker? && pruning.Some? && s.talker !in interesting {
        var n, k := Lookup(ListenerKey(s.talker));
        ok := n != null;
      }
    }

    method AttributeCase(e: Event, r: Node<Item>)
      requires list.Valid() && r !in list.repr && r.value == Allocated(Request(r.value.subject, r.value.op))
      modifies this`mrp, list, list.repr, r
      ensures list.Valid() && list.repr <= old(list.repr) + {r}
      ensures View() == OnAttribute(old(View()), e, Request(old(r.value.subject), old(r.value.op)), p2p)
    {
      hide Find, Apply, AddIndex, MergeAt, Interested, KeyOf, OnAttribute, List.Valid, List.Contents;
      var q := Request(r.value.subject, r.value.op);
      OnAttributeCases(View(), e, q);
      var ok := CheckInterest(q.subject);
      if !ok {
        return;
      }
      mrp := mrp.(join := true);
      list.ListedInRepr();
      var attrib;
      ghost var k;
      attrib, k := Lookup(KeyOf(q.subject));
      if attrib == null {
        if e == RMt {
          return;
        }
        k := Add(r);
        attrib := r;
      } else {
        MergeInto(attrib, k, q);
      }
      list.Links(k);
      ApplyEvent(attrib, k, e);
    }

    lemma OnAttributeCases(m: Mad, e: Event, r: Request)
      ensures var m1 := m.(mrp := m.mrp.(join := true));
              var k := Find(m.items, KeyOf(r.subject));
              var at := AddIndex(m.items, Allocated(r));
              OnAttribute(m, e, r, p2p)
              == if !Interested(m, r.subject) then m
                 else if k < |m.items| then Apply(m1.(items := m.items[k := MergeAt(m.items, k, r)]), k, e, p2p)
                 else if e == RMt then m1
                 else Apply(m1.(items := InsertAt(m.items, at, Allocated(r))), at, e, p2p)
    {
    }

    // -------------------------------------------------------------------
    // The other cases of msrp_event, and the commands
    // -------------------------------------------------------------------

    lemma OnLvaTimerTimers(m: Mad)
      ensures var stopped := m.mrp.(leaveAll := false, join := false, leave := m.mrp.leave || AnyIn(m.items));
              OnLvaTimer(m, p2p)
              == m.(items := OnLvaTimer(m, p2p).items, mrp := TakeLva(LeaveAllFsm(LeaveAllFsm(stopped, LvaTimer), Tx)))
    {
    }

    lemma OnTxTimers(m: Mad)
      ensures OnTx(m, p2p) == m.(items := OnTx(m, p2p).items, mrp := TakeLva(m.mrp).(join := MoreToSend(m.items, p2p)))
    {
    }

    lemma OnRLATimers(m: Mad, about: Subject)
      ensures OnRLA(m, about, p2p)
           == m.(items := OnRLA(m, about, p2p).items,
                 mrp := LeaveAllFsm(m.mrp.(join := true, leave := m.mrp.leave || AnyInOf(m.items, about)), RLA))
    {
    }

    method LvaTimerCase()
      requires list.Valid()
      modifies this`mrp, list.nodes`value
      ensures list.Valid() && View() == OnLvaTimer(old(View()), p2p)
    {
      hide Stepped, Leaves, AnyIn, OnLvaTimer, List.Valid, List.Contents;
      LeaveAllPassIs(View(), p2p);
      OnLvaTimerTimers(View());
      mrp := mrp.(leaveAll := false, join := false);
      var more := Sweep(LeaveAllPass);
      mrp := LeaveAllFsm(mrp, LvaTimer);
      mrp := LeaveAllFsm(mrp, Tx);
      mrp := TakeLva(mrp);
    }

    method RLACase(about: Subject)
      requires list.Valid()
      modifies this`mrp, list.nodes`value
      ensures list.Valid() && View() == OnRLA(old(View()), about, p2p)
    {
      hide Stepped, Leaves, AnyInOf, OnRLA, List.Valid, List.Contents;
      HearPassIs(View(), about, p2p);
      OnRLATimers(View(), about);
      mrp := mrp.(join := true);
      var more := Sweep(HearPass(about));
      mrp := LeaveAllFsm(mrp, RLA);
    }

    method TxCase()
      requires list.Valid()
      modifies this`mrp, list.nodes`value
      ensures list.Valid() && View() == OnTx(old(View()), p2p)
    {
      hide Stepped, StepOf, Leaves, Asks, MoreToSend, OnTx, List.Valid, List.Contents;
      TxPassIs(View(), p2p);
      OnTxTimers(View());
      AsksMeans(list.Contents(), p2p);
      mrp := mrp.(join := false);
      var more := Sweep(TxPass);
      mrp := TakeLva(mrp);
      if more > 0 {
        mrp := mrp.(join := true);
      }
    }

    method LvTimerCase()
      requires list.Valid()
      modifies this`mrp, list, list.repr
      ensures list.Valid() && list.repr == old(list.repr) && View() == OnLvTimer(old(View()))
    {
      hide Without, Map, List.Valid, List.Contents;
      mrp := mrp.(leave := false);
      list.Walk(Expire, Dead);
    }

    /** msrp_event. */
    method Event(e: Event, r: Node?<Item>) returns (rc: int)
      requires list.Valid()
      requires r != null ==> r !in list.repr && r.value == Allocated(Request(r.value.subject, r.value.op))
      modifies this`mrp, list, list.repr, r
      ensures list.Valid() && (forall n :: n in list.repr ==> n in old(list.repr) || n == r)
      ensures var q := if r == null then None else Some(Request(old(r.value.subject), old(r.value.op)));
              View() == Handle(old(View()), e, q, p2p)
      ensures rc == if r == null && (e == RLA || AttributeEvent(e)) then -1 else 0
    {
      hide OnLvaTimer, OnTx, OnRLA, OnLvTimer, OnAttribute, List.Valid, List.Contents;
      list.ListedInRepr();
      rc := 0;
      if e == LvaTimer {
        LvaTimerCase();
      } else if e == RLA {
        if r == null {
          mrp := mrp.(join := true);
          rc := -1;
        } else {
          RLACase(r.value.subject);
        }
      } else if e == Tx {
        TxCase();
      } else if e == LvTimer {
        LvTimerCase();
      } else if AttributeEvent(e) {
        if r == null {
          rc := -1;
        } else {
          AttributeCase(e, r);
        }
      }
    }

    /** The S-L command. */
    method Withdraw(id: StreamId)
      requires list.Valid()
      modifies this`mrp, list, list.repr
      ensures list.Valid() && View() == WithdrawListener(old(View()), id, p2p)
    {
      hide Find, OnAttribute, WithoutTalker, List.Valid, List.Contents;
      var n, k := Lookup(ListenerKey(id));
      var record := if n == null then None else Some(n.value);
      var q := Withdrawal(id, record);
      var r := new Node(Allocated(q));
      AttributeCase(Lv, r);
      if pruning.Some? && id !in interesting {
        DropTalkers(id);
      }
    }

    /** The I+S command; a stream ID on record, or one too many, is an error. */
    method Interest(id: StreamId) returns (rc: int)
      modifies this`interesting
      ensures View() == Interesting(old(View()), id)
      ensures rc == if pruning.Some? && id !in old(interesting) && |old(interesting)| < pruning.value then 0 else -1
    {
      hide List.Contents;
      if pruning.None? || id in interesting || |interesting| >= pruning.value {
        assert id in interesting ==> interesting + {id} == interesting;
        return -1;
      }
      interesting := interesting + {id};
      rc := 0;
    }

    /** The I-S command. */
    method Uninterest(id: StreamId) returns (rc: int)
      requires list.Valid()
      modifies this`interesting, list, list.repr
      ensures list.Valid() && View() == Uninteresting(old(View()), id)
      ensures rc == if pruning.Some? && id in old(interesting) then 0 else -1
    {
      hide Find, WithoutTalker, List.Valid, List.Contents;
      if pruning.None? || id !in interesting {
        return -1;
      }
      interesting := interesting - {id};
      var n, k := Lookup(ListenerKey(id));
      if n == null {
        DropTalkers(id);
      }
      rc := 0;
    }

    /** msrp_reclaim. */
    method Reclaim()
      requires list.Valid()
      modifies list, list.repr
      ensures list.Valid() && View() == Collect(old(View()))
    {
      hide Without, List.Valid, List.Contents;
      MapUnchanged(list.Contents());
      list.Walk(Unchanged, Dead);
    }
  }
}
