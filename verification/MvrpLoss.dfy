/** A run of two participants in which a declaration goes quiet without ever having
    reached the peer: 396 VIDs without neighbours are one too many for a frame. */
module MvrpLoss {
  import opened Mrp
  import opened MrpPdu
  import opened VidCodec
  import opened VidBudget
  import opened MvrpSpec
  import opened MvrpInvariants
  import opened MvrpPair

  const TOO_MANY: nat := 396
  const TRANSMIT: Step := AtA(Do(Tx, None))

  /** A client joins the first n even VIDs at A. */
  function Joins(n: nat): (ss: seq<Step>)
    ensures |ss| == n
  {
    if n == 0 then [] else Joins(n - 1) + [AtA(Do(Join, Some(2 * (n - 1))))]
  }

  /** The first n even VIDs in one state, all registered. */
  function Row(n: nat, s: AppState): (r: seq<Item>)
    ensures |r| == n && forall i :: 0 <= i < n ==> r[i] == Item(2 * i, s, IN)
  {
    seq(n, i requires 0 <= i => Item(2 * i, s, IN))
  }

  lemma JoinExtends(m: Mad, n: nat, p2p: bool)
    requires m.items == Row(n, VP)
    ensures OnAttribute(m, Join, 2 * n, p2p).mad.items == Row(n + 1, VP)
            && OnAttribute(m, Join, 2 * n, p2p).frame == None
  {
    assert Find(m.items, 2 * n) == n && Position(m.items, 2 * n, 0) == n;
    assert Add(m.items, 2 * n) == Row(n, VP) + [Item(2 * n, VO, MT)];
  }

  lemma {:induction false} AfterJoins(n: nat, pa: Port, pb: Port)
    ensures RunNet(Joins(n), pa, pb).a.items == Row(n, VP) && RunNet(Joins(n), pa, pb).b == START
  {
    hide Take, Row;
    if n == 0 {
      RowEmpty(VP);
    } else {
      AfterJoins(n - 1, pa, pb);
      var ss := Joins(n);
      assert ss[..|ss| - 1] == Joins(n - 1);
      JoinAtA(RunNet(Joins(n - 1), pa, pb), n - 1, pa, pb);
    }
  }

  lemma JoinAtA(n: Net, k: nat, pa: Port, pb: Port)
    requires n.a.items == Row(k, VP)
    ensures var n' := Take(n, AtA(Do(Join, Some(2 * k))), pa, pb);
            n'.a.items == Row(k + 1, VP) && n'.b == n.b
  {
    hide OnAttribute, Row, Receive;
    JoinExtends(n.a, k, pa.p2p);
    NothingReceived(n.b, pb);
  }

  lemma RowEmpty(s: AppState)
    ensures Row(0, s) == []
  {
  }

  /** All of the row must be sent, and no two VIDs share a vector. */
  lemma RowIsSpread(s: AppState, n: nat)
    requires s in {VP, AA} && n <= TOO_MANY
    ensures Spread(Requests(Row(n, s), Tx))
  {
    var xs := Requests(Row(n, s), Tx);
    forall t | t in xs ensures Sendable(t.sndmsg) {
      var i :| 0 <= i < |xs| && xs[i] == t;
    }
  }

  lemma RowSteps(m: Mad, s: AppState, port: Port)
    requires s in {VP, AA} && m.items == Row(TOO_MANY, s)
    ensures OnTx(m, port).mad.items == Row(TOO_MANY, if s == VP then AA else QA)
  {
    hide Pdu, Requests, MoreToSend;
  }

  /** The last of the row is not carried. */
  lemma LastIsLost(n: Net, s: AppState, pa: Port, pb: Port)
    requires Inv(n.a) && Inv(n.b) && s in {VP, AA} && n.a.items == Row(TOO_MANY, s)
    requires Reg(Get(n.b.items, 790)) != IN
    ensures var n' := Take(n, TRANSMIT, pa, pb);
            n'.a.items == Row(TOO_MANY, if s == VP then AA else QA) && Reg(Get(n'.b.items, 790)) != IN
  {
    hide Inv, Get, Requests, Before, Spent, Receive, OnTx;
    RowIsSpread(s, TOO_MANY);
    RowSteps(n.a, s, pa);
    SpreadBefore(Requests(n.a.items, Tx), 0, 395);
    RegisteredIffCarried(n, 395, Tx, pa, pb);
  }

  lemma {:induction false} AllLocal(n: nat)
    requires n <= TOO_MANY
    ensures forall i :: 0 <= i < n ==> Local(Joins(n)[i].act) && Joins(n)[i].AtA?
  {
    if n == 0 {
    } else {
      AllLocal(n - 1);
    }
  }

  /** 396 Joins and two transmissions at A, nothing at B: the last VID is quiet at A,
      and B has not registered it. */
  lemma LostInARun(pa: Port, pb: Port)
    ensures var n := RunNet(Joins(TOO_MANY) + [TRANSMIT, TRANSMIT], pa, pb);
            App(Get(n.a.items, 790)) == QA && Reg(Get(n.b.items, 790)) != IN
  {
    hide Take, Get, Row, Joins, RunNet, Inv, Local, LeavesBAlone;
    var ss := Joins(TOO_MANY);
    AllLocal(TOO_MANY);
    TransmitIsLocal();
    AfterJoins(TOO_MANY, pa, pb);
    RunTwoMore(ss, pa, pb);
    var n0, n1 := RunNet(ss, pa, pb), RunNet(ss + [TRANSMIT], pa, pb);
    NeverHeardAboveFFF(ss, pa, pb, 0x1000);
    NeverHeardAboveFFF(ss + [TRANSMIT], pa, pb, 0x1000);
    NeverHeardAboveFFF(ss + [TRANSMIT, TRANSMIT], pa, pb, 0x1000);
    NothingAtStart();
    LastIsLost(n0, VP, pa, pb);
    LastIsLost(n1, AA, pa, pb);
    LastOfRow(RunNet(ss + [TRANSMIT, TRANSMIT], pa, pb));
  }

  lemma TransmitIsLocal()
    ensures Local(TRANSMIT.act) && forall s: Step, v: nat :: s.AtA? ==> LeavesBAlone(s, v)
  {
  }

  lemma RunTwoMore(ss: seq<Step>, pa: Port, pb: Port)
    ensures RunNet(ss + [TRANSMIT], pa, pb) == Take(RunNet(ss, pa, pb), TRANSMIT, pa, pb)
    ensures RunNet(ss + [TRANSMIT, TRANSMIT], pa, pb) == Take(RunNet(ss + [TRANSMIT], pa, pb), TRANSMIT, pa, pb)
  {
    hide Take;
    var s1, s2 := ss + [TRANSMIT], ss + [TRANSMIT, TRANSMIT];
    assert s1[..|s1| - 1] == ss && s2[..|s2| - 1] == s1;
  }

  lemma NothingAtStart()
    ensures Reg(Get(START.items, 790)) != IN
  {
  }

  lemma LastOfRow(n: Net)
    requires Inv(n.a) && n.a.items == Row(TOO_MANY, QA)
    ensures App(Get(n.a.items, 790)) == QA
  {
    GetAt(n.a.items, 395);
  }

  // ---------------------------------------------------------------------
  // A LeaveAll that is not sent
  // ---------------------------------------------------------------------

  const QUIET_VID: nat := 3000

  /** 394 VIDs without neighbours, and then 13 in a row. */
  const CROWD: nat := 407

  function CrowdVid(i: nat): nat { if i < 394 then 2 * i else 606 + i }

  function Crowd(n: nat): (r: seq<Item>)
    ensures |r| == n && forall i :: 0 <= i < n ==> r[i] == Item(CrowdVid(i), VP, IN)
  {
    seq(n, i requires 0 <= i => Item(CrowdVid(i), VP, IN))
  }

  /** After 394 vectors of five bytes the encoder begins one of nine, which is one byte
      too much. */
  lemma {:induction false} CrowdSpent(xs: seq<TxItem>, i: nat)
    requires i <= 394 && |xs| > CROWD && forall k :: 0 <= k < CROWD ==> Required(xs[k]) && xs[k].vid == CrowdVid(k)
    requires xs[CROWD].vid == QUIET_VID
    ensures Spent(xs, i, 5 * i) > BUDGET
    decreases 394 - i
  {
    if i == 394 {
      RowEnds(xs, 395);
    } else {
      assert RunEnd(xs, i + 1) == i + 1;
      CrowdSpent(xs, i + 1);
    }
  }

  lemma {:induction false} RowEnds(xs: seq<TxItem>, j: nat)
    requires 395 <= j <= CROWD < |xs| && forall k :: 0 <= k < CROWD ==> Required(xs[k]) && xs[k].vid == CrowdVid(k)
    requires xs[CROWD].vid == QUIET_VID
    ensures RunEnd(xs, j) == CROWD
    decreases CROWD - j
  {
    if j == CROWD {
    } else {
      RowEnds(xs, j + 1);
    }
  }

  lemma CrowdDoesNotFit(m: Mad, x: Item)
    requires m.items == Crowd(CROWD) + [x] && x.vid == QUIET_VID
    ensures !LeaveAllFits(m)
  {
    hide Spent;
    var xs := Requests(m.items, TxLA);
    forall k | 0 <= k < CROWD ensures Required(xs[k]) && xs[k].vid == CrowdVid(k) {
      assert m.items[k] == Crowd(CROWD)[k];
    }
    CrowdSpent(xs, 0);
  }

  lemma CrowdGrows(m: Mad, n: nat, x: Item, p2p: bool)
    requires n < CROWD && m.items == Crowd(n) + [x] && x.vid == QUIET_VID
    ensures var o := OnAttribute(m, Join, CrowdVid(n), p2p);
            o.mad.items == Crowd(n + 1) + [x] && o.frame == None
  {
    var v := CrowdVid(n);
    assert forall i :: 0 <= i < n ==> m.items[i] == Crowd(n)[i];
    assert Find(m.items, v) == n + 1;
    var k := Position(m.items, v, 0);
    assert m.items[n] == x && k <= n;
    assert Add(m.items, v) == Crowd(n) + [Item(v, VO, MT)] + [x];
  }

  /** A declares one VID until it is quiet; then a client at B joins n others. */
  function Settle(n: nat): (ss: seq<Step>)
    ensures |ss| == 3 + n
  {
    if n == 0 then [AtA(Do(Join, Some(QUIET_VID))), TRANSMIT, TRANSMIT]
    else Settle(n - 1) + [AtB(Do(Join, Some(CrowdVid(n - 1))))]
  }

  ghost predicate Settled(n: Net, crowd: nat) {
    && PairInv(n, QUIET_VID) && n.a.items == [Item(QUIET_VID, QA, IN)]
    && |n.b.items| == crowd + 1 && n.b.items[crowd].vid == QUIET_VID && n.b.items[..crowd] == Crowd(crowd)
  }

  /** One attribute, on its way to be quiet, and a peer that knows of no other. */
  ghost predicate Settling(n: Net, s: AppState) {
    && PairInv(n, QUIET_VID) && n.a.items == [Item(QUIET_VID, s, IN)]
    && forall w :: w != QUIET_VID ==> Get(n.b.items, w) == None
  }

  lemma FirstJoin(pa: Port, pb: Port)
    ensures Settling(Take(Net(START, START), AtA(Do(Join, Some(QUIET_VID))), pa, pb), VP)
  {
    hide PairInv, Allowed;
    var n := Net(START, START);
    StartAgrees();
    TakeKeeps(n, AtA(Do(Join, Some(QUIET_VID))), pa, pb, QUIET_VID);
    assert Add([], QUIET_VID) == [Item(QUIET_VID, VO, MT)];
  }

  lemma StartAgrees()
    ensures PairInv(Net(START, START), QUIET_VID)
    ensures Allowed(Net(START, START), AtA(Do(Join, Some(QUIET_VID))), QUIET_VID)
  {
  }

  lemma FewAreAnnounced(m: Mad, v: nat)
    requires |m.items| <= ALWAYS_FIT
    ensures Announces(m, Tx, v)
  {
    hide Cost, Spent, Before, Requests, FindFrom;
    var xs := Requests(m.items, Tx);
    AlwaysFit(xs);
    CheapIsSpent(xs, 0, 0);
    if Due(m.items, Tx, v) {
      DueIsRequired(m.items, Tx, Find(m.items, v));
    }
  }

  lemma PairInvMeans(n: Net, v: nat)
    requires PairInv(n, v)
    ensures Inv(n.a) && Inv(n.b)
  {
  }

  lemma SettlesOn(n: Net, s: AppState, pa: Port, pb: Port)
    requires Settling(n, s) && s in {VP, AA}
    ensures Settling(Take(n, TRANSMIT, pa, pb), if s == VP then AA else QA)
  {
    hide PairInv, Receive, Announces, Mentions, Pdu, FindFrom, MoreToSend;
    FewAreAnnounced(n.a, QUIET_VID);
    AllowedTransmit(n);
    TakeKeeps(n, TRANSMIT, pa, pb, QUIET_VID);
    PairInvMeans(n, QUIET_VID);
    var n' := Take(n, TRANSMIT, pa, pb);
    forall w | w != QUIET_VID ensures Get(n'.b.items, w) == None {
      OnlyItem(n.a.items, w);
      if w <= 0xFFF {
        Transmit(n.a, Tx, n.b, pa, pb, w);
      } else {
        ReceiveKeeps(n.a, Tx, n.b, pa, pb, w);
      }
    }
  }

  lemma AllowedTransmit(n: Net)
    requires Announces(n.a, Tx, QUIET_VID)
    ensures Allowed(n, TRANSMIT, QUIET_VID)
  {
    hide Announces;
  }

  lemma OnlyItem(items: seq<Item>, w: nat)
    requires |items| == 1 && items[0].vid != w
    ensures Get(items, w) == None
  {
  }

  lemma QuietSettles(n: Net)
    requires Settling(n, QA)
    ensures Settled(n, 0)
  {
    forall i | 0 <= i < |n.b.items| ensures n.b.items[i].vid == QUIET_VID {
      GetAt(n.b.items, i);
      assert Get(n.b.items, n.b.items[i].vid) == Some(n.b.items[i]);
    }
    OnlyQuiet(n.a.items);
    if |n.b.items| > 1 {
      TwoDiffer(n.b.items);
      assert false;
    }
    assert n.b.items[..0] == [] == Crowd(0);
  }

  lemma TwoDiffer(items: seq<Item>)
    requires Sorted(items) && |items| > 1
    ensures items[0].vid != items[1].vid
  {
  }

  lemma OnlyQuiet(items: seq<Item>)
    requires items == [Item(QUIET_VID, QA, IN)]
    ensures App(Get(items, QUIET_VID)) == QA
  {
  }

  lemma {:induction false} SettleRuns(n: nat, pa: Port, pb: Port)
    requires n <= CROWD
    ensures Settled(RunNet(Settle(n), pa, pb), n)
  {
    hide Take, Settled, Settling;
    var ss := Settle(n);
    if n == 0 {
      var s1, s2 := ss[..1], ss[..2];
      assert ss[..2] == s2 && s2[..1] == s1 && s1[..0] == [];
      assert s1[0] == AtA(Do(Join, Some(QUIET_VID))) && s2[1] == TRANSMIT && ss[2] == TRANSMIT;
      assert RunNet([], pa, pb) == Net(START, START);
      FirstJoin(pa, pb);
      SettlesOn(RunNet(s1, pa, pb), VP, pa, pb);
      SettlesOn(RunNet(s2, pa, pb), AA, pa, pb);
      QuietSettles(RunNet(ss, pa, pb));
    } else {
      assert ss[..|ss| - 1] == Settle(n - 1);
      SettleRuns(n - 1, pa, pb);
      SettledGrows(RunNet(Settle(n - 1), pa, pb), n - 1, pa, pb);
    }
  }

  lemma SettledGrows(n: Net, crowd: nat, pa: Port, pb: Port)
    requires Settled(n, crowd) && crowd < CROWD
    ensures Settled(Take(n, AtB(Do(Join, Some(CrowdVid(crowd)))), pa, pb), crowd + 1)
  {
    hide PairInv, OnAttribute, Receive;
    var s, x := AtB(Do(Join, Some(CrowdVid(crowd)))), n.b.items[crowd];
    assert n.b.items == Crowd(crowd) + [x];
    CrowdGrows(n.b, crowd, x, pb.p2p);
    NothingReceived(n.a, pa);
    TakeKeeps(n, s, pa, pb, QUIET_VID);
  }

  /** A is quiet about a VID that B has registered.  B's LeaveAll timer and then its leave
      timer expire: B has lost the VID and A is still quiet, because the LeaveAll did not
      fit its frame. */
  lemma LeaveAllLostInARun(pa: Port, pb: Port)
    ensures var n := RunNet(Settle(CROWD) + [AtB(Do(LvaTimer, None)), AtB(Do(LvTimer, None))], pa, pb);
            App(Get(n.a.items, QUIET_VID)) == QA && Reg(Get(n.b.items, QUIET_VID)) == MT
  {
    hide Get, OnLvaTimer, OnLvTimer, Receive, Inv, LeaveAllFits, Settle;
    var n := RunNet(Settle(CROWD), pa, pb);
    SettleRuns(CROWD, pa, pb);
    OnlyQuiet(n.a.items);
    CrowdDoesNotFit(n.b, n.b.items[CROWD]);
    UnsentLeaveAll(n, pa, pb, QUIET_VID);
    var n1 := Take(n, AtB(Do(LvaTimer, None)), pa, pb);
    ActInv(n.b, Do(LvaTimer, None), pb);
    GetSweep(n1.b, LvTimer, pb, QUIET_VID);
    NothingReceived(n1.a, pa);
    NoLeaveFrame(n1.b, pb);
    RunTwoMoreAtB(Settle(CROWD), pa, pb);
  }

  lemma NoLeaveFrame(m: Mad, port: Port)
    ensures Handle(m, LvTimer, None, port).frame == None
  {
  }

  lemma RunTwoMoreAtB(ss: seq<Step>, pa: Port, pb: Port)
    ensures RunNet(ss + [AtB(Do(LvaTimer, None)), AtB(Do(LvTimer, None))], pa, pb)
         == Take(Take(RunNet(ss, pa, pb), AtB(Do(LvaTimer, None)), pa, pb), AtB(Do(LvTimer, None)), pa, pb)
  {
    hide Take;
    var s1, s2 := ss + [AtB(Do(LvaTimer, None))], ss + [AtB(Do(LvaTimer, None)), AtB(Do(LvTimer, None))];
    assert s1[..|s1| - 1] == ss && s2[..|s2| - 1] == s1;
  }
}
