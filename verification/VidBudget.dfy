/** What fits an MVRP frame, in bytes, without running the encoder. */
module VidBudget {
  import opened Seqs
  import opened MrpPdu
  import opened VidCodec
  import opened VidRoundTrip

  /** The most bytes of vectors that a frame can carry and still be sent. */
  const BUDGET: nat := 1978

  /** The encoder begins a vector only while it has written fewer bytes than this. */
  const BEGIN: nat := 1975

  predicate Required(t: TxItem) { t.tx && !t.optional }

  function VectorSize(n: nat): nat { 4 + Packed3(n) }

  /** The bytes of all vectors from attribute i on: one for each run of consecutive
      VIDs, from the first attribute that must be sent. */
  function Cost(xs: seq<TxItem>, i: nat): (c: nat)
    requires i <= |xs|
    ensures c == 0 || c >= 5
    decreases |xs| - i
  {
    if i == |xs| then 0
    else if !Required(xs[i]) then Cost(xs, i + 1)
    else var j := RunEnd(xs, i + 1); VectorSize(j - i) + Cost(xs, j)
  }

  /** The bytes of the vectors the encoder begins, if `used` bytes precede attribute i. */
  function Spent(xs: seq<TxItem>, i: nat, used: nat): (c: nat)
    requires i <= |xs|
    ensures c >= used
    decreases |xs| - i
  {
    if i == |xs| || used >= BEGIN then used
    else if !Required(xs[i]) then Spent(xs, i + 1, used)
    else var j := RunEnd(xs, i + 1); Spent(xs, j, used + VectorSize(j - i))
  }

  /** The bytes of the vectors in front of the one that holds attribute k. */
  function Before(xs: seq<TxItem>, i: nat, k: nat, used: nat): (c: nat)
    requires i <= k < |xs|
    ensures c >= used
    decreases |xs| - i
  {
    if !Required(xs[i]) then if i == k then used else Before(xs, i + 1, k, used)
    else var j := RunEnd(xs, i + 1); if k < j then used else Before(xs, j, k, used + VectorSize(j - i))
  }

  // ---------------------------------------------------------------------
  // The encoder meets these numbers
  // ---------------------------------------------------------------------

  /** The encoder fails exactly when what it begins overruns the message, and otherwise
      writes exactly the bytes it begins. */
  lemma {:induction false} EmitSpends(xs: seq<TxItem>, i: nat, used: nat, lva: bool)
    requires AllSendable(xs) && i <= |xs| && used <= ROOM - 4
    ensures var r := Emit(xs, i, used + 2, lva);
            && (r.Oops? <==> Spent(xs, i, used) > ROOM - 4)
            && (r.Emitted? ==> used + |EncodeVectors(r.vectors)| == Spent(xs, i, used))
    decreases |xs| - i
  {
    hide Codes, RunEnd, EncodeVector;
    if i == |xs| || used >= BEGIN {
    } else if !Required(xs[i]) {
      EmitSpends(xs, i + 1, used, lva);
    } else {
      var j := RunEnd(xs, i + 1);
      SliceWithin(xs, i, j);
      if used + VectorSize(j - i) <= ROOM - 4 {
        EmitSpends(xs, j, used + VectorSize(j - i), false);
        var v := Vector(lva, xs[i].vid, Codes(xs[i..j]));
        var rest := Emit(xs, j, used + 2 + VectorSize(j - i), false);
        if rest.Emitted? {
          assert ([v] + rest.vectors)[1..] == rest.vectors;
        }
      }
    }
  }

  /** The encoder reaches an attribute that must be sent exactly when it begins the
      vector that holds it. */
  lemma {:induction false} EmitReaches(xs: seq<TxItem>, i: nat, used: nat, lva: bool, k: nat)
    requires i <= k < |xs| && Required(xs[k]) && Emit(xs, i, used + 2, lva).Emitted?
    ensures k < Emit(xs, i, used + 2, lva).stop <==> Before(xs, i, k, used) < BEGIN
    decreases |xs| - i
  {
    hide Codes, AllSendable, RunEnd, EncodeVector;
    if used >= BEGIN {
    } else if !Required(xs[i]) {
      EmitReaches(xs, i + 1, used, lva, k);
    } else {
      var j := RunEnd(xs, i + 1);
      if k >= j {
        EmitReaches(xs, j, used + VectorSize(j - i), false, k);
      }
    }
  }

  lemma {:induction false} SpentSomething(xs: seq<TxItem>, i: nat, k: nat, used: nat)
    requires i <= k < |xs| && Required(xs[k]) && used < BEGIN
    ensures Spent(xs, i, used) > used
    decreases |xs| - i
  {
    hide RunEnd;
    if !Required(xs[i]) {
      SpentSomething(xs, i + 1, k, used);
    }
  }

  /** A frame is sent exactly when the vectors begun keep to the budget. */
  lemma SentIff(xs: seq<TxItem>, lva: bool, sendEmpty: bool, src: Mac, k: nat)
    requires AllSendable(xs) && k < |xs| && Required(xs[k])
    ensures Pdu(xs, lva, sendEmpty, src).Some? <==> Spent(xs, 0, 0) <= BUDGET
  {
    hide Emit, EncodeVectors, Spent, AllSendable;
    EmitSpends(xs, 0, 0, lva);
    SpentSomething(xs, 0, k, 0);
    NoBytes();
    if Emit(xs, 0, 2, lva).Emitted? {
      MessageLength(xs, lva, sendEmpty);
    }
    hide Message;
  }

  lemma MessageLength(xs: seq<TxItem>, lva: bool, sendEmpty: bool)
    requires Emit(xs, 0, 2, lva).Emitted? && Emit(xs, 0, 2, lva).vectors != []
    ensures Message(xs, lva, sendEmpty).Some?
    ensures |Message(xs, lva, sendEmpty).value| == |EncodeVectors(Emit(xs, 0, 2, lva).vectors)| + 4
  {
    hide Emit, EncodeVectors;
  }

  lemma NoBytes()
    ensures EncodeVectors([]) == []
  {
  }

  /** So an attribute that must be sent is in a frame that is sent exactly when the
      vectors begun keep to the budget and its own is among them. */
  lemma CarriedIff(xs: seq<TxItem>, lva: bool, sendEmpty: bool, src: Mac, k: nat)
    requires AllSendable(xs) && k < |xs| && Required(xs[k])
    ensures Pdu(xs, lva, sendEmpty, src).Some? && k < Emit(xs, 0, 2, lva).stop
       <==> Spent(xs, 0, 0) <= BUDGET && Before(xs, 0, k, 0) < BEGIN
  {
    hide Emit, EncodeVectors, Spent, Before;
    SentIff(xs, lva, sendEmpty, src, k);
    if Pdu(xs, lva, sendEmpty, src).Some? {
      EmitReaches(xs, 0, 0, lva, k);
    }
  }

  // ---------------------------------------------------------------------
  // Everything fits
  // ---------------------------------------------------------------------

  /** Nothing that must be sent lies at or behind position stop. */
  ghost predicate NoneBehind(xs: seq<TxItem>, stop: nat) {
    forall k :: stop <= k < |xs| ==> !Required(xs[k])
  }

  lemma {:induction false} CheapIsSpent(xs: seq<TxItem>, i: nat, used: nat)
    requires i <= |xs| && used + Cost(xs, i) <= BUDGET
    ensures Spent(xs, i, used) == used + Cost(xs, i)
    ensures forall k :: i <= k < |xs| && Required(xs[k]) ==> Before(xs, i, k, used) < BEGIN
    decreases |xs| - i
  {
    hide RunEnd;
    if i == |xs| {
    } else if !Required(xs[i]) {
      CheapIsSpent(xs, i + 1, used);
    } else {
      var j := RunEnd(xs, i + 1);
      CheapIsSpent(xs, j, used + VectorSize(j - i));
    }
    if used >= BEGIN {
      NoneLeft(xs, i);
    }
  }

  /** No cost, nothing to send. */
  lemma {:induction false} NoneLeft(xs: seq<TxItem>, i: nat)
    requires i <= |xs|
    ensures Cost(xs, i) == 0 <==> NoneBehind(xs, i)
    decreases |xs| - i
  {
    if i == |xs| {
    } else if !Required(xs[i]) {
      NoneLeft(xs, i + 1);
    }
  }

  lemma {:induction false} SpentIsCheap(xs: seq<TxItem>, i: nat, used: nat)
    requires i <= |xs| && Spent(xs, i, used) <= BUDGET
    requires forall k :: i <= k < |xs| && Required(xs[k]) ==> Before(xs, i, k, used) < BEGIN
    ensures used + Cost(xs, i) == Spent(xs, i, used)
    decreases |xs| - i
  {
    hide RunEnd;
    if i == |xs| {
    } else if used >= BEGIN {
      forall k | i <= k < |xs| ensures !Required(xs[k]) {}
      NoneLeft(xs, i);
    } else if !Required(xs[i]) {
      forall k | i + 1 <= k < |xs| && Required(xs[k]) ensures Before(xs, i + 1, k, used) < BEGIN {
        assert Before(xs, i, k, used) < BEGIN;
      }
      SpentIsCheap(xs, i + 1, used);
    } else {
      var j := RunEnd(xs, i + 1);
      forall k | j <= k < |xs| && Required(xs[k]) ensures Before(xs, j, k, used + VectorSize(j - i)) < BEGIN {
        assert Before(xs, i, k, used) < BEGIN;
      }
      SpentIsCheap(xs, j, used + VectorSize(j - i));
    }
  }

  /** All that must be sent costs at most the budget exactly when a frame is sent and
      nothing that must be sent is left behind. */
  lemma CostDecides(xs: seq<TxItem>, lva: bool, sendEmpty: bool, src: Mac)
    requires AllSendable(xs) && Cost(xs, 0) > 0
    ensures Cost(xs, 0) <= BUDGET
       <==> Pdu(xs, lva, sendEmpty, src).Some? && NoneBehind(xs, Emit(xs, 0, 2, lva).stop)
  {
    hide Emit, Spent, Before, Cost, AllSendable;
    NoneLeft(xs, 0);
    var k :| 0 <= k < |xs| && Required(xs[k]);
    if Cost(xs, 0) <= BUDGET {
      CheapIsSpent(xs, 0, 0);
      CarriedIff(xs, lva, sendEmpty, src, k);
      forall k | 0 <= k < |xs| && Required(xs[k]) ensures k < Emit(xs, 0, 2, lva).stop {
        CarriedIff(xs, lva, sendEmpty, src, k);
      }
    } else if Pdu(xs, lva, sendEmpty, src).Some? && NoneBehind(xs, Emit(xs, 0, 2, lva).stop) {
      SentIff(xs, lva, sendEmpty, src, k);
      forall k | 0 <= k < |xs| && Required(xs[k]) ensures Before(xs, 0, k, 0) < BEGIN {
        CarriedIff(xs, lva, sendEmpty, src, k);
      }
      SpentIsCheap(xs, 0, 0);
    }
  }

  /** Up to 395 attributes always fit: five bytes for each at worst. */
  const ALWAYS_FIT := 395

  lemma {:induction false} CostBound(xs: seq<TxItem>, i: nat)
    requires i <= |xs|
    ensures Cost(xs, i) <= 5 * (|xs| - i)
    decreases |xs| - i
  {
    hide RunEnd;
    if i == |xs| {
    } else if !Required(xs[i]) {
      CostBound(xs, i + 1);
    } else {
      CostBound(xs, RunEnd(xs, i + 1));
    }
  }

  lemma AlwaysFit(xs: seq<TxItem>)
    requires |xs| <= ALWAYS_FIT
    ensures Cost(xs, 0) <= BUDGET
  {
    CostBound(xs, 0);
  }

  /** VIDs that must all be sent and of which no two are neighbours. */
  ghost predicate Spread(xs: seq<TxItem>) {
    && AllSendable(xs)
    && (forall i :: 0 <= i < |xs| ==> Required(xs[i]) && xs[i].vid < 0x1_0000)
    && (forall i, j :: 0 <= i < j < |xs| ==> xs[i].vid + 1 < xs[j].vid)
  }

  lemma {:induction false} SpreadSpent(xs: seq<TxItem>, i: nat)
    requires Spread(xs) && i <= |xs| && i <= ALWAYS_FIT
    ensures Spent(xs, i, 5 * i) == if |xs| <= ALWAYS_FIT then 5 * |xs| else BEGIN
    decreases |xs| - i
  {
    if i == |xs| || i == ALWAYS_FIT {
    } else {
      assert RunEnd(xs, i + 1) == i + 1;
      SpreadSpent(xs, i + 1);
    }
  }

  lemma {:induction false} SpreadBefore(xs: seq<TxItem>, i: nat, k: nat)
    requires Spread(xs) && i <= k < |xs|
    ensures Before(xs, i, k, 5 * i) == 5 * k
    decreases |xs| - i
  {
    assert RunEnd(xs, i + 1) == i + 1;
    if i == k {
    } else {
      SpreadBefore(xs, i + 1, k);
    }
  }

  /** The bound is sharp: of more than 395 spread VIDs, those from the 396th on are
      silently left out of a frame that is sent. */
  lemma OneTooMany(xs: seq<TxItem>, lva: bool, sendEmpty: bool, src: Mac)
    requires Spread(xs) && |xs| > ALWAYS_FIT
    ensures Pdu(xs, lva, sendEmpty, src).Some? && Emit(xs, 0, 2, lva).stop == ALWAYS_FIT
    ensures forall k :: ALWAYS_FIT <= k < |xs| ==> xs[k] !in Picked(xs, 0, 2)
  {
    hide Spent, Before, Emit, Picked, Message;
    SpreadSpent(xs, 0);
    SentIff(xs, lva, sendEmpty, src, 0);
    hide Spread;
    var stop := Reached(xs, lva, sendEmpty, src);
    PickedExactly(xs, 0, 2, lva);
    forall k | ALWAYS_FIT <= k < |xs| ensures xs[k] !in Picked(xs, 0, 2) {
      NotSentBehindStop(xs, ALWAYS_FIT, Picked(xs, 0, 2), k);
    }
  }

  lemma Reached(xs: seq<TxItem>, lva: bool, sendEmpty: bool, src: Mac) returns (stop: nat)
    requires Spread(xs) && |xs| > ALWAYS_FIT && Pdu(xs, lva, sendEmpty, src).Some?
    ensures Emit(xs, 0, 2, lva).Emitted? && stop == Emit(xs, 0, 2, lva).stop == ALWAYS_FIT && Ascending(xs)
  {
    hide Before, Emit;
    stop := Emit(xs, 0, 2, lva).stop;
    EmitReaches(xs, 0, 0, lva, ALWAYS_FIT - 1);
    EmitReaches(xs, 0, 0, lva, ALWAYS_FIT);
    SpreadBefore(xs, 0, ALWAYS_FIT - 1);
    SpreadBefore(xs, 0, ALWAYS_FIT);
  }

  // ---------------------------------------------------------------------
  // The cost only falls while nothing new has to be sent
  // ---------------------------------------------------------------------

  /** The same VIDs, all with tx set; what ys must send, xs must send too. */
  ghost predicate Relaxes(xs: seq<TxItem>, ys: seq<TxItem>) {
    && |ys| == |xs|
    && (forall k :: 0 <= k < |xs| ==> xs[k].tx && ys[k].tx && ys[k].vid == xs[k].vid)
    && (forall k :: 0 <= k < |xs| && !ys[k].optional ==> !xs[k].optional)
  }

  lemma {:induction false} SameRuns(xs: seq<TxItem>, ys: seq<TxItem>, j: nat)
    requires Relaxes(xs, ys) && 0 < j <= |xs|
    ensures RunEnd(ys, j) == RunEnd(xs, j)
    decreases |xs| - j
  {
    if j == |xs| {
    } else {
      SameRuns(xs, ys, j + 1);
    }
  }

  /** From inside a run on, at most one vector for the rest of the run. */
  lemma {:induction false} RestOfRun(xs: seq<TxItem>, m: nat)
    requires m < |xs|
    ensures var j := RunEnd(xs, m + 1); Cost(xs, m) <= VectorSize(j - m) + Cost(xs, j)
    decreases |xs| - m
  {
    var j := RunEnd(xs, m + 1);
    if Required(xs[m]) || j == m + 1 {
    } else {
      assert RunEnd(xs, m + 2) == j;
      RestOfRun(xs, m + 1);
    }
  }

  lemma {:induction false} CostFalls(xs: seq<TxItem>, ys: seq<TxItem>, i: nat)
    requires Relaxes(xs, ys) && i <= |xs|
    ensures Cost(ys, i) <= Cost(xs, i)
    decreases |xs| - i
  {
    hide RunEnd;
    if i == |xs| {
    } else if !Required(xs[i]) {
      CostFalls(xs, ys, i + 1);
    } else {
      var j := RunEnd(xs, i + 1);
      SameRuns(xs, ys, i + 1);
      RestOfRun(ys, i);
      CostFalls(xs, ys, j);
    }
  }

  // ---------------------------------------------------------------------
  // Within the budget everything is carried
  // ---------------------------------------------------------------------

  lemma SendsTheRest(xs: seq<TxItem>, stop: nat, ts: seq<TxItem>)
    requires stop <= |xs| && SendsExactly(xs, 0, stop, ts) && NoneBehind(xs, stop)
    ensures SendsExactly(xs, 0, |xs|, ts)
  {
    assert forall t :: t in xs[0..stop] ==> t in xs[0..|xs|];
  }

  lemma CheapIsEmitted(xs: seq<TxItem>, lva: bool)
    requires AllSendable(xs) && Cost(xs, 0) <= BUDGET
    ensures var r := Emit(xs, 0, 2, lva);
            r.Emitted? && |EncodeVectors(r.vectors)| == Cost(xs, 0) && NoneBehind(xs, r.stop)
  {
    hide Emit, Spent, Before, Cost, EncodeVectors, AllSendable;
    CheapIsSpent(xs, 0, 0);
    EmitSpends(xs, 0, 0, lva);
    forall k | 0 <= k < |xs| && Required(xs[k]) ensures k < Emit(xs, 0, 2, lva).stop {
      EmitReaches(xs, 0, 0, lva, k);
    }
  }

  /** If all that must be sent keeps to the budget, a frame is sent unless there is
      nothing to say, and it carries all of it. */
  lemma CheapIsCarried(xs: seq<TxItem>, lva: bool, src: Mac)
    requires Ascending(xs) && AllSendable(xs) && Cost(xs, 0) <= BUDGET
    ensures SendsExactly(xs, 0, |xs|, Picked(xs, 0, 2))
    ensures Pdu(xs, lva, lva, src).None? ==> !lva && Picked(xs, 0, 2) == []
  {
    hide Emit, Picked, Cost, EncodeVectors, AllSendable, Ascending, SendsExactly;
    CheapIsEmitted(xs, lva);
    PickedExactly(xs, 0, 2, lva);
    SendsTheRest(xs, Emit(xs, 0, 2, lva).stop, Picked(xs, 0, 2));
    EmitSound(xs, 0, 2, lva);
  }
}
