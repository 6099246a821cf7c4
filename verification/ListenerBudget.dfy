/** What fits a Listener message, in bytes, without running the encoder. */
module ListenerBudget {
  import opened Seqs
  import opened ListenerCodec

  predicate Required(t: TxListener) { t.listener && !t.optional }

  /** The encoder begins no vector once `used` bytes of vectors are written. */
  predicate Full(used: nat, room: nat) { WriteOffset(used) + 15 >= room }

  /** The write pointer passes the message header with the first vector. */
  function WriteOffset(used: nat): nat { if used == 0 then 0 else 4 + used }

  /** Every vector the encoder begins from attribute i on fits, if `used` bytes of
      vectors precede it. */
  predicate Fills(xs: seq<TxListener>, i: nat, used: nat, room: nat)
    requires i <= |xs|
    decreases |xs| - i
  {
    if i == |xs| || Full(used, room) then true
    else if !Required(xs[i]) then Fills(xs, i + 1, used, room)
    else
      var j := RunEnd(xs, i + 1);
      FitsAt(j - i, 4 + used + Size(j - i), room) && Fills(xs, j, used + Size(j - i), room)
  }

  /** The bytes of the vectors in front of the one that holds attribute k. */
  function Before(xs: seq<TxListener>, i: nat, k: nat, used: nat): (c: nat)
    requires i <= k < |xs|
    ensures c >= used
    decreases |xs| - i
  {
    if !Required(xs[i]) then if i == k then used else Before(xs, i + 1, k, used)
    else var j := RunEnd(xs, i + 1); if k < j then used else Before(xs, j, k, used + Size(j - i))
  }

  /** A message is sent and carries the k-th attribute. */
  predicate Carried(xs: seq<TxListener>, room: nat, k: nat)
    requires k < |xs|
  {
    Fills(xs, 0, 0, room) && !Full(Before(xs, 0, k, 0), room)
  }

  /** The encoder fails exactly when a vector it begins does not fit. */
  lemma {:induction false} EmitFills(xs: seq<TxListener>, i: nat, used: nat, lva: bool, room: nat)
    requires AllSendable(xs) && i <= |xs|
    ensures Emit(xs, i, WriteOffset(used), lva, room).Emitted? <==> Fills(xs, i, used, room)
    decreases |xs| - i
  {
    hide Codes, Subs, RunEnd, FitsAt;
    if i == |xs| || Full(used, room) {
    } else if !Required(xs[i]) {
      EmitFills(xs, i + 1, used, lva, room);
    } else {
      var j := RunEnd(xs, i + 1);
      SliceWithin(xs, i, j);
      EmitFills(xs, j, used + Size(j - i), false, room);
    }
  }

  /** The encoder reaches an attribute that must be sent exactly when it begins the
      vector that holds it. */
  lemma {:induction false} EmitReaches(xs: seq<TxListener>, i: nat, used: nat, lva: bool, room: nat, k: nat)
    requires i <= k < |xs| && Required(xs[k]) && Emit(xs, i, WriteOffset(used), lva, room).Emitted?
    ensures k < Emit(xs, i, WriteOffset(used), lva, room).stop <==> !Full(Before(xs, i, k, used), room)
    decreases |xs| - i
  {
    hide Codes, Subs, AllSendable, RunEnd, FitsAt;
    if Full(used, room) {
    } else if !Required(xs[i]) {
      EmitReaches(xs, i + 1, used, lva, room, k);
    } else {
      var j := RunEnd(xs, i + 1);
      if k >= j {
        EmitReaches(xs, j, used + Size(j - i), false, room, k);
      }
    }
  }

  /** So the bytes decide what the message carries. */
  lemma CarriedIff(xs: seq<TxListener>, lva: bool, room: nat, k: nat)
    requires AllSendable(xs) && k < |xs| && Required(xs[k])
    ensures Emit(xs, 0, 0, lva, room).Emitted? && k < Emit(xs, 0, 0, lva, room).stop <==> Carried(xs, room, k)
  {
    hide Emit, Fills, Before, AllSendable;
    EmitFills(xs, 0, 0, lva, room);
    if Emit(xs, 0, 0, lva, room).Emitted? {
      EmitReaches(xs, 0, 0, lva, room, k);
    }
  }
}
