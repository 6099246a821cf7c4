/** What MSRP promises about its join timer and its transmit opportunities. */
module MsrpTimers {
  import opened Mrp
  import opened MrpRuns
  import opened Seqs
  import opened ListenerCodec
  import opened MsrpSpec
  import opened MsrpInvariants

  // ---------------------------------------------------------------------
  // The join timer
  // ---------------------------------------------------------------------

  /** Whoever wants to transmit has a join timer to wait for. */
  ghost predicate JoinTimed(m: Mad) {
    forall it :: it in m.items && WantsTx(it.app) ==> m.mrp.join
  }

  /** Tx and a received LeaveAll establish it, whatever was the case before.  So does an
      event about an attribute, except about a talker that is pruned, which changes
      nothing. */
  lemma JoinTimedAfter(m: Mad, e: Event, arg: Option<Request>, p2p: bool)
    requires e in {Tx, RLA} || (AttributeEvent(e) && arg.Some?)
    ensures JoinTimed(Handle(m, e, arg, p2p))
       <==> (AttributeEvent(e) && !Interested(m, arg.value.subject) ==> JoinTimed(m))
  {
    hide OnAttribute, OnTx, Interested;
    if e == Tx {
      JoinTimedAfterTx(m, p2p);
    } else if AttributeEvent(e) {
      AttributeStartsJoin(m, e, arg.value, p2p);
    }
  }

  lemma AttributeStartsJoin(m: Mad, e: Event, r: Request, p2p: bool)
    ensures if Interested(m, r.subject) then OnAttribute(m, e, r, p2p).mrp.join else OnAttribute(m, e, r, p2p) == m
  {
    hide FindFrom, KeyOf, MergeAt, AddIndex, Update, Dead, Interested;
  }

  lemma JoinTimedAfterTx(m: Mad, p2p: bool)
    ensures JoinTimed(OnTx(m, p2p))
  {
    hide AppNext;
    var items := OnTx(m, p2p).items;
    forall it | it in items && WantsTx(it.app) ensures MoreToSend(m.items, p2p) {
      var i :| 0 <= i < |items| && items[i] == it;
      TxLowersRank(m.items[i].app, m.items[i].reg == IN, p2p);
    }
  }

  lemma FewerAreTimed(m: Mad, items: seq<Item>, interesting: set<StreamId>, leave: bool)
    requires JoinTimed(m) && forall it :: it in items ==> exists i :: 0 <= i < |m.items| && m.items[i].app == it.app
    ensures JoinTimed(m.(items := items, interesting := interesting, mrp := m.mrp.(leave := leave)))
  {
  }

  /** The leave timer preserves it. */
  lemma LvTimerKeepsJoin(m: Mad)
    requires JoinTimed(m)
    ensures JoinTimed(OnLvTimer(m))
  {
    hide Dead, Without, RegNext, JoinTimed;
    var items := Map(Expire, m.items);
    WithoutMembers(Dead, items);
    forall it | it in Kept(items) ensures exists i :: 0 <= i < |m.items| && m.items[i].app == it.app {
      var i :| 0 <= i < |items| && items[i] == it;
      assert m.items[i].app == it.app;
    }
    FewerAreTimed(m, Kept(items), m.interesting, false);
  }

  lemma FilterKeepsJoin(m: Mad, goes: Item -> bool, interesting: set<StreamId>)
    requires JoinTimed(m)
    ensures JoinTimed(m.(items := Without(goes, m.items), interesting := interesting))
  {
    hide Without;
    WithoutMembers(goes, m.items);
    forall it | it in Without(goes, m.items) ensures exists i :: 0 <= i < |m.items| && m.items[i].app == it.app {
      var i :| 0 <= i < |m.items| && m.items[i] == it;
    }
    FewerAreTimed(m, Without(goes, m.items), interesting, m.mrp.leave);
  }

  /** The LeaveAll timer stops the join timer without starting it again.  That loses the
      property exactly when some applicant was very anxious. */
  lemma LvaTimerLosesJoin(m: Mad, p2p: bool)
    ensures JoinTimed(OnLvaTimer(m, p2p)) <==> Calm(m)
  {
    hide AppNext, WantsTx;
    var items := OnLvaTimer(m, p2p).items;
    forall i | 0 <= i < |items| ensures WantsTx(items[i].app) <==> m.items[i].app in {VP, VN} {
      AnxiousAfterTxLA(m.items[i].app, m.items[i].reg == IN, p2p);
    }
    if it :| it in m.items && it.app in {VP, VN} {
      var i :| 0 <= i < |m.items| && m.items[i] == it;
      assert items[i] in items;
    }
  }

  ghost predicate Calm(m: Mad) {
    forall it :: it in m.items ==> it.app !in {VP, VN}
  }

  /** Every action but an ill-timed LeaveAll timer preserves it. */
  lemma ActKeepsJoin(m: Mad, a: Action, p2p: bool)
    requires JoinTimed(m) && (a.Do? && a.e == LvaTimer ==> Calm(m))
    ensures JoinTimed(Act(m, a, p2p))
  {
    hide JoinTimed, Calm, Without, OnAttribute, OnTx, OnLvaTimer, OnLvTimer, Interested, Dead, FindFrom, Withdrawal;
    match a
    case Do(e, arg) =>
      if e in {Tx, RLA} || (AttributeEvent(e) && arg.Some?) {
        JoinTimedAfter(m, e, arg, p2p);
      } else if e == LvaTimer {
        LvaTimerLosesJoin(m, p2p);
      } else if e == LvTimer {
        LvTimerKeepsJoin(m);
      }
    case Withdraw(id) =>
      WithdrawKeepsJoin(m, id, p2p);
    case Disinterest(id) =>
      FilterKeepsJoin(m, TalkerOf(id), m.interesting - {id});
      FewerAreTimedSame(m, m.interesting - {id});
    case Interest(id) =>
      FewerAreTimedSame(m, m.interesting + {id});
    case ForgetAll =>
      FewerAreTimedSame(m, {});
    case GarbageCollect =>
      FilterKeepsJoin(m, Dead, m.interesting);
  }

  lemma FewerAreTimedSame(m: Mad, interesting: set<StreamId>)
    requires JoinTimed(m)
    ensures JoinTimed(m.(interesting := interesting))
  {
  }

  /** A withdrawn listener is no talker, so its event is never pruned. */
  lemma WithdrawKeepsJoin(m: Mad, id: StreamId, p2p: bool)
    ensures JoinTimed(WithdrawListener(m, id, p2p))
  {
    hide OnAttribute, Without, FindFrom;
    AttributeStartsJoin(m, Lv, Withdrawal(id, Get(m.items, ListenerKey(id))), p2p);
  }

  /** In every run in which the LeaveAll timer finds nobody very anxious, nobody who wants
      to transmit waits in vain. */
  lemma {:induction false} RunTimed(acts: seq<Action>, pruning: Option<nat>, p2p: bool)
    requires forall i :: 0 <= i < |acts| && acts[i].Do? && acts[i].e == LvaTimer ==>
               Calm(RunAll(acts[..i], pruning, p2p))
    ensures JoinTimed(RunAll(acts, pruning, p2p))
  {
    hide Act, Calm;
    if acts == [] {
    } else {
      var pre := acts[..|acts| - 1];
      forall i | 0 <= i < |pre| && pre[i].Do? && pre[i].e == LvaTimer ensures Calm(RunAll(pre[..i], pruning, p2p)) {
        assert pre[..i] == acts[..i] && pre[i] == acts[i];
      }
      RunTimed(pre, pruning, p2p);
      ActKeepsJoin(RunAll(pre, pruning, p2p), acts[|acts| - 1], p2p);
    }
  }

  // ---------------------------------------------------------------------
  // Transmit opportunities run out
  // ---------------------------------------------------------------------

  /** After n consecutive Tx events. */
  function TxTimes(m: Mad, n: nat, p2p: bool): Mad {
    if n == 0 then m else OnTx(TxTimes(m, n - 1, p2p), p2p)
  }

  ghost predicate RankBelow(items: seq<Item>, n: int) {
    forall it :: it in items ==> Rank(it.app) < n
  }

  lemma TxLowersAll(m: Mad, n: nat, p2p: bool)
    requires RankBelow(m.items, n + 1)
    ensures RankBelow(OnTx(m, p2p).items, if n == 0 then 1 else n)
    ensures n <= 1 ==> !OnTx(m, p2p).mrp.join
  {
    hide AppNext;
    var items := OnTx(m, p2p).items;
    forall i | 0 <= i < |items| ensures Rank(items[i].app) < if n == 0 then 1 else n {
      assert m.items[i] in m.items;
      TxLowersRank(m.items[i].app, m.items[i].reg == IN, p2p);
    }
  }

  /** From any state whatever, three transmit opportunities leave every applicant with
      nothing more to say and the join timer stopped. */
  lemma QuiescentAfterThree(m: Mad, p2p: bool)
    ensures var m' := TxTimes(m, 3, p2p);
            !m'.mrp.join && forall it :: it in m'.items ==> it.app in {VO, QA, AO, QO, QP}
  {
    hide OnTx;
    var m1, m2, m3 := TxTimes(m, 1, p2p), TxTimes(m, 2, p2p), TxTimes(m, 3, p2p);
    assert RankBelow(m.items, 4);
    assert m1 == OnTx(TxTimes(m, 0, p2p), p2p);
    TxLowersAll(m, 3, p2p);
    TxLowersAll(m1, 2, p2p);
    TxLowersAll(m2, 1, p2p);
    forall it | it in m3.items ensures it.app in {VO, QA, AO, QO, QP} {
      TxLowersRank(it.app, true, true);
    }
  }
}
