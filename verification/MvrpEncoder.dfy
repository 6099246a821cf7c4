/** mvrp_emit_vidvectors: the encoder walks the linked list, clears tx flags and
    fills the frame in place. */
module MvrpEncoder {
  import opened Mrp
  import opened MrpPdu
  import opened MrpPacking
  import opened VidCodec
  import opened AttribList
  import opened MvrpSpec

  /** struct mvrp_attribute without its links. */
  datatype Attr = Attr(vid: nat, app: Applicant, reg: Registrar)

  /** mvrp_alloc. */
  function Alloc(vid: nat): Attr {
    Attr(vid, Applicant(VO, false, SndNull, true, None), Registrar(MT, NotifyNone))
  }

  function ItemOf(a: Attr): Item { Item(a.vid, a.app.state, a.reg.state) }

  function Items(s: seq<Attr>): (r: seq<Item>)
    ensures |r| == |s|
    ensures forall i :: 0 <= i < |s| ==> r[i] == ItemOf(s[i])
  {
    seq(|s|, i requires 0 <= i < |s| => ItemOf(s[i]))
  }

  function TxItemOf(a: Attr): TxItem {
    TxItem(a.vid, a.app.tx, a.app.optional, a.app.sndmsg, a.reg.state == IN)
  }

  function TxItems(s: seq<Attr>): (r: seq<TxItem>)
    ensures |r| == |s|
    ensures forall i :: 0 <= i < |s| ==> r[i] == TxItemOf(s[i])
  {
    seq(|s|, i requires 0 <= i < |s| => TxItemOf(s[i]))
  }

  function ClearTx(a: Attr): Attr { a.(app := a.app.(tx := false)) }

  /** Nothing but tx flags differs, and those only by being cleared. */
  ghost predicate OnlyTxCleared(s: seq<Attr>, s': seq<Attr>) {
    |s'| == |s| && forall i :: 0 <= i < |s| ==> s'[i] == s[i] || s'[i] == ClearTx(s[i])
  }

  /** The encoder cleared tx before `stop` and left the rest alone. */
  ghost predicate TxClearedUpTo(s: seq<Attr>, s': seq<Attr>, stop: nat) {
    |s'| == |s| && forall i :: 0 <= i < |s| ==> s'[i] == if i < stop then ClearTx(s[i]) else s[i]
  }

  function Sending(frame: Option<seq<Byte>>): seq<seq<Byte>> {
    if frame.Some? then [frame.value] else []
  }

  lemma {:induction false} EncodeVectorsAppend(vs: seq<Vector>, v: Vector)
    ensures EncodeVectors(vs + [v]) == EncodeVectors(vs) + EncodeVector(v)
  {
    if vs == [] {
      assert vs + [v] == [v] && [v][1..] == [];
    } else {
      assert (vs + [v])[1..] == vs[1..] + [v];
      EncodeVectorsAppend(vs[1..], v);
    }
  }

  // ---------------------------------------------------------------------
  // One vector
  // ---------------------------------------------------------------------

  /** The tx flags from i up to j have been cleared. */
  ghost predicate ClearedBetween(s: seq<Attr>, s': seq<Attr>, i: nat, j: nat) {
    |s'| == |s| && forall k :: 0 <= k < |s| ==> s'[k] == if i <= k < j then ClearTx(s[k]) else s[k]
  }

  lemma ClearOneMore(s: seq<Attr>, s': seq<Attr>, i: nat, j: nat)
    requires i <= j < |s| && ClearedBetween(s, s', i, j)
    ensures ClearedBetween(s, s'[j := ClearTx(s[j])], i, j + 1)
  {
  }

  /** The encoder has taken the attributes i .. j - 1 of a run into a vector. */
  ghost predicate Scanned(s: seq<Attr>, s': seq<Attr>, xs: seq<TxItem>, i: nat, j: nat) {
    && i < j <= |xs| == |s| && xs == TxItems(s)
    && ClearedBetween(s, s', i, j)
    && RunEnd(xs, j) == RunEnd(xs, i + 1)
    && AllSendable(xs[i..j])
  }

  /** What the encoder finds at the next attribute. */
  datatype Scan = RunOver | Huh | Got(code: Code)

  lemma ScannedOneMore(s: seq<Attr>, s': seq<Attr>, xs: seq<TxItem>, i: nat, j: nat)
    requires Scanned(s, s', xs, i, j) && j < |xs| && xs[j].tx && xs[j].vid == (xs[j - 1].vid + 1) % 0x1_0000
    ensures ClearedBetween(s, s'[j := ClearTx(s[j])], i, j + 1)
    ensures Sendable(xs[j].sndmsg) ==>
              Scanned(s, s'[j := ClearTx(s[j])], xs, i, j + 1)
              && Codes(xs[i..j + 1]) == Codes(xs[i..j]) + [CodeOf(xs[j])]
    ensures !Sendable(xs[j].sndmsg) ==> !AllSendable(xs[i..RunEnd(xs, i + 1)])
  {
    ClearOneMore(s, s', i, j);
    assert xs[i..j + 1] == xs[i..j] + [xs[j]];
    if !Sendable(xs[j].sndmsg) {
      assert xs[i..RunEnd(xs, i + 1)][j - i] == xs[j];
    }
  }

  lemma ScannedCleared(s: seq<Attr>, s': seq<Attr>, xs: seq<TxItem>, i: nat, j: nat)
    requires Scanned(s, s', xs, i, j)
    ensures ClearedBetween(s, s', i, j) && OnlyTxCleared(s, s') && AllSendable(xs[i..j])
    ensures RunEnd(xs, i + 1) >= j && i < j <= |xs| == |s'| && s'[i].vid == xs[i].vid
  {
  }

  method NextInRun(list: List<Attr>, vattrib: Node?<Attr>, vid: nat,
                   ghost s: seq<Attr>, ghost xs: seq<TxItem>, ghost i: nat, ghost j: nat)
    returns (r: Scan)
    requires list.Valid() && vattrib == list.At(j) && Scanned(s, list.Contents(), xs, i, j) && vid == xs[j - 1].vid
    modifies list.nodes`value
    ensures list.Valid() && OnlyTxCleared(s, list.Contents())
    ensures match r
            case RunOver => list.Contents() == old(list.Contents()) && j == RunEnd(xs, i + 1)
            case Huh => !AllSendable(xs[i..RunEnd(xs, i + 1)])
            case Got(c) =>
              && vattrib != null && vattrib.next == list.At(j + 1)
              && Scanned(s, list.Contents(), xs, i, j + 1) && j < |xs| && j < RunEnd(xs, i + 1)
              && xs[j].vid == (vid + 1) % 0x1_0000
              && Codes(xs[i..j + 1]) == Codes(xs[i..j]) + [c]
  {
    if vattrib == null || !vattrib.value.app.tx || vattrib.value.vid != (vid + 1) % 0x1_0000 {
      return RunOver;
    }
    assert vattrib.value == s[j];
    ScannedOneMore(s, list.Contents(), xs, i, j);
    list.Set(vattrib, j, ClearTx(vattrib.value));
    if !Sendable(vattrib.value.app.sndmsg) {
      return Huh;
    }
    return Got(CodeOf(TxItemOf(vattrib.value)));
  }

  /** Whether the run that starts at i can be written at pos. */
  ghost predicate RunFits(xs: seq<TxItem>, i: nat, pos: nat)
    requires i < |xs|
  {
    var j := RunEnd(xs, i + 1);
    AllSendable(xs[i..j]) && pos + 4 + Packed3(j - i) <= ROOM - 2
  }

  /** A run has been taken up to j, and its packed events lie in the frame behind the
      first value of the vector at pos. */
  ghost predicate Taking(s: seq<Attr>, s': seq<Attr>, b: seq<Byte>, pos: nat, xs: seq<TxItem>, i: nat, j: nat,
                         evt: seq<Code>) {
    && Scanned(s, s', xs, i, j) && |evt| == 3 && pos + 4 + (j - i) / 3 <= ROOM - 2
    && Stored(b, BODY + pos + 4, Codes(xs[i..j]), evt)
  }

  lemma TakingMeans(s: seq<Attr>, s': seq<Attr>, b: seq<Byte>, pos: nat, xs: seq<TxItem>, i: nat, j: nat,
                    evt: seq<Code>)
    requires Taking(s, s', b, pos, xs, i, j, evt)
    ensures i < j <= |xs| == |s| == |s'| && j <= RunEnd(xs, i + 1) && AllSendable(xs[i..j]) && |evt| == 3
    ensures ClearedBetween(s, s', i, j) && OnlyTxCleared(s, s') && Scanned(s, s', xs, i, j)
    ensures pos + 4 + (j - i) / 3 <= ROOM - 2 && Stored(b, BODY + pos + 4, Codes(xs[i..j]), evt)
  {
    ScannedCleared(s, s', xs, i, j);
  }

  lemma TakingIs(s: seq<Attr>, s': seq<Attr>, b: seq<Byte>, pos: nat, xs: seq<TxItem>, i: nat, j: nat, evt: seq<Code>)
    requires Scanned(s, s', xs, i, j) && |evt| == 3 && pos + 4 + (j - i) / 3 <= ROOM - 2
    requires Stored(b, BODY + pos + 4, Codes(xs[i..j]), evt)
    ensures Taking(s, s', b, pos, xs, i, j, evt)
  {
  }

  /** One turn of the inner loop; RunOver ends it, Huh makes the encoder fail.  A
      packed byte is stored before the bounds test that may reject it. */
  method TakeNext(list: List<Attr>, buf: array<Byte>, pos: nat, vattrib: Node?<Attr>, vid: nat, n: nat, evt: seq<Code>,
                  ghost s: seq<Attr>, ghost xs: seq<TxItem>, ghost i: nat, ghost j: nat)
    returns (r: Scan, evt': seq<Code>)
    requires list.Valid() && vattrib == list.At(j) && buf.Length == FRAME && n == j - i
    requires Taking(s, list.Contents(), buf[..], pos, xs, i, j, evt) && vid == xs[j - 1].vid
    modifies buf, list.nodes`value
    ensures list.Valid() && OnlyTxCleared(s, list.Contents()) && buf[..BODY + pos + 4] == old(buf[..BODY + pos + 4])
    ensures match r
            case RunOver =>
              evt' == evt && j == RunEnd(xs, i + 1) && Taking(s, list.Contents(), buf[..], pos, xs, i, j, evt)
            case Huh => !RunFits(xs, i, pos)
            case Got(_) =>
              && vattrib != null && vattrib.next == list.At(j + 1) && j < |xs| && xs[j].vid == (vid + 1) % 0x1_0000
              && Taking(s, list.Contents(), buf[..], pos, xs, i, j + 1, evt')
  {
    hide Stored, Scanned, Taking, RunEnd, RunFits, AllSendable, ClearedBetween, OnlyTxCleared, Codes;
    hide List.Contents, List.Valid;
    TakingMeans(s, list.Contents(), buf[..], pos, xs, i, j, evt);
    evt' := evt;
    r := NextInRun(list, vattrib, vid, s, xs, i, j);
    if r.Huh? {
      Unfit(xs, i, i, pos);
    } else if r.Got? {
      ghost var s1 := list.Contents();
      evt' := StoreCode(buf, BODY + pos + 4, evt, n, r.code, Codes(xs[i..j]));
      assert list.Valid() && list.Contents() == s1;
      if pos + 4 + (n + 1) / 3 > ROOM - 2 {
        Unfit(xs, i, j + 1, pos);
        r := Huh;
        return;
      }
      TakingIs(s, list.Contents(), buf[..], pos, xs, i, j + 1, evt');
    }
  }

  lemma Unfit(xs: seq<TxItem>, i: nat, j: nat, pos: nat)
    requires i < |xs|
    requires !AllSendable(xs[i..RunEnd(xs, i + 1)]) || (i < j <= RunEnd(xs, i + 1) && pos + 4 + (j - i) / 3 > ROOM - 2)
    ensures !RunFits(xs, i, pos)
  {
    hide RunEnd, AllSendable;
  }

  /** The inner loop: the rest of the run behind its first attribute, up to the last
      complete triple. */
  method ScanRest(list: List<Attr>, buf: array<Byte>, pos: nat, attrib: Node<Attr>, evt: seq<Code>,
                  ghost s: seq<Attr>, ghost xs: seq<TxItem>, ghost i: nat)
    returns (over: bool, numvalues: nat, vectevt: seq<Code>)
    requires list.Valid() && i < |list.nodes| && list.nodes[i] == attrib && attrib.next == list.At(i + 1)
    requires buf.Length == FRAME && pos < ROOM - 8 && i < |xs| && attrib.value.vid == xs[i].vid
    requires Taking(s, list.Contents(), buf[..], pos, xs, i, i + 1, evt)
    modifies buf, list.nodes`value
    ensures list.Valid() && OnlyTxCleared(s, list.Contents())
    ensures buf[..BODY + pos + 4] == old(buf[..BODY + pos + 4])
    ensures if !over then !RunFits(xs, i, pos)
            else && i + numvalues == RunEnd(xs, i + 1)
                 && Taking(s, list.Contents(), buf[..], pos, xs, i, i + numvalues, vectevt)
  {
    hide Stored, Scanned, Taking, ClearedBetween, OnlyTxCleared, AllSendable, RunFits, RunEnd;
    hide List.Contents, List.Valid;
    ghost var j := i + 1;
    var vid, vattrib := attrib.value.vid, attrib.next;
    over, numvalues, vectevt := false, 1, evt;
    while true
      invariant i < j <= |xs| && vattrib == list.At(j) && list.Valid() && vid == xs[j - 1].vid && numvalues == j - i
      invariant Taking(s, list.Contents(), buf[..], pos, xs, i, j, vectevt)
      invariant buf[..BODY + pos + 4] == old(buf[..BODY + pos + 4])
      decreases |xs| - j
    {
      var next;
      next, vectevt := TakeNext(list, buf, pos, vattrib, vid, numvalues, vectevt, s, xs, i, j);
      if next.RunOver? {
        over := true;
        return;
      } else if next.Huh? {
        return;
      }
      vid, numvalues, j, vattrib := (vid + 1) % 0x1_0000, numvalues + 1, j + 1, vattrib.next;
    }
  }

  /** The rest of the run and its trailer. */
  method EmitRest(list: List<Attr>, buf: array<Byte>, pos: nat, attrib: Node<Attr>, evt: seq<Code>,
                  ghost s: seq<Attr>, ghost xs: seq<TxItem>, ghost i: nat)
    returns (ok: bool, numvalues: nat)
    requires list.Valid() && i < |list.nodes| && list.nodes[i] == attrib && attrib.next == list.At(i + 1)
    requires buf.Length == FRAME && 2 <= pos < ROOM - 8 && |evt| == 3
    requires Scanned(s, list.Contents(), xs, i, i + 1) && Stored(buf[..], BODY + pos + 4, Codes(xs[i..i + 1]), evt)
    modifies buf, list.nodes`value
    ensures list.Valid() && OnlyTxCleared(s, list.Contents())
    ensures buf[..BODY + pos + 4] == old(buf[..BODY + pos + 4])
    ensures ok <==> RunFits(xs, i, pos)
    ensures ok ==>
              var j := RunEnd(xs, i + 1);
              && numvalues == j - i && ClearedBetween(s, list.Contents(), i, j)
              && buf[BODY + pos + 4..BODY + pos + 4 + Packed3(j - i)] == Pack3(Codes(xs[i..j]))
  {
    hide Stored, Scanned, Taking, ClearedBetween, OnlyTxCleared, AllSendable, Pack3, RunEnd, List.Contents, List.Valid;
    TakingIs(s, list.Contents(), buf[..], pos, xs, i, i + 1, evt);
    TakingMeans(s, list.Contents(), buf[..], pos, xs, i, i + 1, evt);
    ScannedCleared(s, list.Contents(), xs, i, i + 1);
    var over, vectevt;
    ok := false;
    over, numvalues, vectevt := ScanRest(list, buf, pos, attrib, evt, s, xs, i);
    if !over {
      return;
    }
    ghost var j := i + numvalues;
    TakingMeans(s, list.Contents(), buf[..], pos, xs, i, j, vectevt);
    ghost var s1 := list.Contents();
    StoreTrailer(buf, BODY + pos + 4, vectevt, numvalues, Codes(xs[i..j]));
    assert list.Valid() && list.Contents() == s1;
    ok := pos + 4 + Packed3(numvalues) <= ROOM - 2;
  }

  /** The first value and the events of the run of attributes that starts with the
      i-th. */
  method EmitRun(list: List<Attr>, buf: array<Byte>, pos: nat, attrib: Node<Attr>, ghost i: nat)
    returns (ok: bool, numvalues: nat)
    requires list.Valid() && i < |list.nodes| && list.nodes[i] == attrib && buf.Length == FRAME && 2 <= pos < ROOM - 8
    modifies buf, list.nodes`value
    ensures list.Valid() && OnlyTxCleared(old(list.Contents()), list.Contents())
    ensures buf[..BODY + pos] == old(buf[..BODY + pos])
    ensures var s := old(list.Contents());
            var xs := TxItems(s);
            && (ok <==> RunFits(xs, i, pos))
            && (ok ==>
                  var j := RunEnd(xs, i + 1);
                  && numvalues == j - i && ClearedBetween(s, list.Contents(), i, j)
                  && buf[BODY + pos + 2..BODY + pos + 4] == [xs[i].vid / 256 % 256, xs[i].vid % 256]
                  && buf[BODY + pos + 4..BODY + pos + 4 + Packed3(j - i)] == Pack3(Codes(xs[i..j])))
  {
    hide Stored, OnlyTxCleared, ClearedBetween, Scanned, RunEnd, RunFits, Pack3, AllSendable, List.Valid;
    ghost var s := list.Contents();
    ghost var xs := TxItems(s);
    list.Set(attrib, i, ClearTx(attrib.value));
    RunStarts(s, i);
    var vid := attrib.value.vid;
    buf[BODY + pos + 2], buf[BODY + pos + 3] := vid / 256 % 256, vid % 256;
    ghost var b := buf[..BODY + pos + 4];
    assert b[..BODY + pos] == old(buf[..BODY + pos]) && b[BODY + pos + 2..] == [vid / 256 % 256, vid % 256];
    if !Sendable(attrib.value.app.sndmsg) {
      NotSendable(xs, i, pos);
      return false, 0;
    }
    var c := CodeOf(TxItemOf(attrib.value));
    StoredStarts(buf[..], BODY + pos + 4, c);
    list.Links(i);
    ok, numvalues := EmitRest(list, buf, pos, attrib, [c, 0, 0], s, xs, i);
    assert buf[..BODY + pos] == buf[..BODY + pos + 4][..BODY + pos] == b[..BODY + pos];
    assert buf[BODY + pos + 2..BODY + pos + 4] == buf[..BODY + pos + 4][BODY + pos + 2..] == b[BODY + pos + 2..];
  }

  lemma RunStarts(s: seq<Attr>, i: nat)
    requires i < |s|
    ensures var xs, s' := TxItems(s), s[i := ClearTx(s[i])];
            && OnlyTxCleared(s, s')
            && (Sendable(xs[i].sndmsg) ==> Scanned(s, s', xs, i, i + 1))
            && Codes(xs[i..i + 1]) == [CodeOf(xs[i])]
  {
    assert TxItems(s)[i..i + 1] == [TxItems(s)[i]];
  }

  lemma NotSendable(xs: seq<TxItem>, i: nat, pos: nat)
    requires i < |xs| && !Sendable(xs[i].sndmsg)
    ensures !RunFits(xs, i, pos)
  {
    assert xs[i..RunEnd(xs, i + 1)][0] == xs[i];
  }

  /** A whole vector with the run that starts at the i-th attribute; the header comes
      last. */
  method EmitVector(list: List<Attr>, buf: array<Byte>, pos: nat, lva: bool, attrib: Node<Attr>, ghost i: nat)
    returns (ok: bool, end: nat)
    requires list.Valid() && i < |list.nodes| && list.nodes[i] == attrib
    requires buf.Length == FRAME && 2 <= pos < ROOM - 8
    modifies buf, list.nodes`value
    ensures list.Valid() && OnlyTxCleared(old(list.Contents()), list.Contents())
    ensures buf[..BODY + pos] == old(buf[..BODY + pos])
    ensures var s := old(list.Contents());
            var xs := TxItems(s);
            && (ok <==> RunFits(xs, i, pos))
            && (ok ==>
                  var j := RunEnd(xs, i + 1);
                  && end == pos + 4 + Packed3(j - i) <= ROOM - 2
                  && ClearedBetween(s, list.Contents(), i, j)
                  && buf[BODY + pos..BODY + end] == EncodeVector(RunVector(xs, i, lva)))
  {
    hide Header, Pack3, EncodeVector, RunVector, RunEnd, ClearedBetween, OnlyTxCleared, RunFits, Codes;
    hide List.Contents, List.Valid;
    var numvalues;
    end := 0;
    ghost var s := list.Contents();
    ok, numvalues := EmitRun(list, buf, pos, attrib, i);
    if ok {
      RunFitsRoom(TxItems(s), i, pos);
      end := pos + 4 + Packed3(numvalues);
      ghost var s1, events := list.Contents(), Pack3(Codes(TxItems(s)[i..i + numvalues]));
      FirstAndEvents(buf[..], BODY + pos + 2, TxItems(s)[i].vid, events);
      PutHeader(buf, BODY + pos, Header(numvalues, lva), BODY + end, buf[BODY + pos + 2..BODY + end]);
      assert list.Valid() && list.Contents() == s1;
      VectorIs(TxItems(s), i, numvalues, lva);
    }
  }

  lemma FirstAndEvents(b: seq<Byte>, p: nat, vid: nat, events: seq<Byte>)
    requires p + 2 + |events| <= |b| && b[p..p + 2] == [vid / 256 % 256, vid % 256]
             && b[p + 2..p + 2 + |events|] == events
    ensures b[p..p + 2 + |events|] == [vid / 256 % 256, vid % 256] + events
  {
    assert b[p..p + 2 + |events|] == b[p..p + 2] + b[p + 2..p + 2 + |events|];
  }

  lemma VectorIs(xs: seq<TxItem>, i: nat, n: nat, lva: bool)
    requires i < |xs| && n == RunEnd(xs, i + 1) - i
    ensures var h, vid := Header(n, lva), xs[i].vid;
            EncodeVector(RunVector(xs, i, lva))
            == [h / 256, h % 256] + ([vid / 256 % 256, vid % 256] + Pack3(Codes(xs[i..i + n])))
  {
    hide Pack3, Codes, RunEnd, Header;
  }

  lemma RunFitsRoom(xs: seq<TxItem>, i: nat, pos: nat)
    requires i < |xs| && RunFits(xs, i, pos)
    ensures pos + 4 + Packed3(RunEnd(xs, i + 1) - i) <= ROOM - 2
  {
  }

  /** A run does not depend on the attributes before it. */
  lemma {:induction false} RunEndSuffix(xs: seq<TxItem>, ys: seq<TxItem>, i: nat, j: nat)
    requires |xs| == |ys| && i < j <= |xs| && forall k :: i <= k < |xs| ==> xs[k] == ys[k]
    ensures RunEnd(xs, j) == RunEnd(ys, j)
    decreases |xs| - j
  {
    if j == |xs| {
    } else {
      RunEndSuffix(xs, ys, i, j + 1);
    }
  }

  lemma RunFitsSuffix(xs: seq<TxItem>, ys: seq<TxItem>, i: nat, pos: nat)
    requires |xs| == |ys| && i < |xs| && forall k :: i <= k < |xs| ==> xs[k] == ys[k]
    ensures RunFits(xs, i, pos) <==> RunFits(ys, i, pos)
    ensures var j := RunEnd(xs, i + 1);
            j == RunEnd(ys, i + 1) && xs[i..j] == ys[i..j]
  {
    RunEndSuffix(xs, ys, i, i + 1);
    var j := RunEnd(xs, i + 1);
    assert xs[i..j] == ys[i..j];
  }

  /** The state of the outer loop: what precedes `stop` has been dealt with and
      went into vs, which is at buf[BODY + 2..BODY + pos]. */
  ghost predicate Emitting(s: seq<Attr>, s': seq<Attr>, b: seq<Byte>, lva: bool, vs: seq<Vector>, stop: nat, pos: nat) {
    && stop <= |s| && TxClearedUpTo(s, s', stop)
    && Emit(TxItems(s), 0, 2, lva) == Continue(vs, Emit(TxItems(s), stop, pos, lva && vs == []))
    && BODY + pos <= |b| && b[BODY..BODY + pos] == [VID_TYPE, 2] + EncodeVectors(vs)
  }

  lemma EmittingSkips(s: seq<Attr>, s': seq<Attr>, b: seq<Byte>, lva: bool, vs: seq<Vector>, stop: nat, pos: nat)
    requires Emitting(s, s', b, lva, vs, stop, pos) && stop < |s| && pos < ROOM - 8
    requires !s[stop].app.tx || s[stop].app.optional
    ensures Emitting(s, s'[stop := ClearTx(s[stop])], b, lva, vs, stop + 1, pos)
  {
  }

  /** The vector for the run that starts at i. */
  function RunVector(xs: seq<TxItem>, i: nat, lva: bool): Vector
    requires i < |xs|
  {
    Vector(lva, xs[i].vid, Codes(xs[i..RunEnd(xs, i + 1)]))
  }

  lemma EmitUnfolds(xs: seq<TxItem>, vs: seq<Vector>, i: nat, pos: nat, lva: bool)
    requires i < |xs| && pos < ROOM - 8 && xs[i].tx && !xs[i].optional && RunFits(xs, i, pos)
    ensures var v := RunVector(xs, i, lva);
            Continue(vs, Emit(xs, i, pos, lva))
            == Continue(vs + [v], Emit(xs, RunEnd(xs, i + 1), pos + |EncodeVector(v)|, false))
  {
    var v := RunVector(xs, i, lva);
    var j := RunEnd(xs, i + 1);
    var rest := Emit(xs, j, pos + |EncodeVector(v)|, false);
    assert rest.Emitted? ==> vs + ([v] + rest.vectors) == vs + [v] + rest.vectors;
  }

  lemma EmitFails(xs: seq<TxItem>, vs: seq<Vector>, i: nat, pos: nat, lva: bool)
    requires i < |xs| && pos < ROOM - 8 && xs[i].tx && !xs[i].optional && !RunFits(xs, i, pos)
    ensures Continue(vs, Emit(xs, i, pos, lva)) == Oops
  {
  }

  lemma BytesGrow(b: seq<Byte>, b': seq<Byte>, from: nat, to: nat, w: seq<Byte>, more: seq<Byte>)
    requires from <= to && to + |more| <= |b'| && to <= |b|
    requires b[from..to] == w && b'[..to] == b[..to] && b'[to..to + |more|] == more
    ensures b'[from..to + |more|] == w + more
  {
    assert b'[from..to] == b'[..to][from..] && b[from..to] == b[..to][from..];
    assert b'[from..to + |more|] == b'[from..to] + b'[to..to + |more|];
  }

  lemma EmittingRun(s: seq<Attr>, s': seq<Attr>, s'': seq<Attr>, b: seq<Byte>, b': seq<Byte>, lva: bool,
                    vs: seq<Vector>, stop: nat, pos: nat)
    requires Emitting(s, s', b, lva, vs, stop, pos) && stop < |s| && 2 <= pos < ROOM - 8
    requires s[stop].app.tx && !s[stop].app.optional && RunFits(TxItems(s), stop, pos)
    requires ClearedBetween(s', s'', stop, RunEnd(TxItems(s), stop + 1))
    requires var e := EncodeVector(RunVector(TxItems(s), stop, lva && vs == []));
             && BODY + pos + |e| <= |b'| && b'[..BODY + pos] == b[..BODY + pos]
             && b'[BODY + pos..BODY + pos + |e|] == e
    ensures var v := RunVector(TxItems(s), stop, lva && vs == []);
            Emitting(s, s'', b', lva, vs + [v], RunEnd(TxItems(s), stop + 1), pos + |EncodeVector(v)|)
  {
    hide Emit, RunEnd, RunFits, AllSendable, EncodeVector;
    var v := RunVector(TxItems(s), stop, lva && vs == []);
    EmitUnfolds(TxItems(s), vs, stop, pos, lva && vs == []);
    EncodeVectorsAppend(vs, v);
    BytesGrow(b, b', BODY, BODY + pos, [VID_TYPE, 2] + EncodeVectors(vs), EncodeVector(v));
    hide Emit, EncodeVectors, EncodeVector, RunEnd, RunVector;
    assert [VID_TYPE, 2] + EncodeVectors(vs) + EncodeVector(v) == [VID_TYPE, 2] + EncodeVectors(vs + [v]);
    assert TxClearedUpTo(s, s'', RunEnd(TxItems(s), stop + 1));
  }

  /** The attributes from `stop` on look to the encoder as they did at the start. */
  lemma SuffixUntouched(s: seq<Attr>, s': seq<Attr>, stop: nat, pos: nat, lva: bool)
    requires TxClearedUpTo(s, s', stop) && stop < |s|
    ensures RunFits(TxItems(s'), stop, pos) <==> RunFits(TxItems(s), stop, pos)
    ensures RunEnd(TxItems(s'), stop + 1) == RunEnd(TxItems(s), stop + 1)
    ensures RunVector(TxItems(s'), stop, lva) == RunVector(TxItems(s), stop, lva)
    ensures s'[stop] == s[stop]
  {
    RunFitsSuffix(TxItems(s), TxItems(s'), stop, pos);
  }

  lemma ClearedTwice(s: seq<Attr>, s': seq<Attr>, s'': seq<Attr>, stop: nat)
    requires TxClearedUpTo(s, s', stop) && OnlyTxCleared(s', s'')
    ensures OnlyTxCleared(s, s'')
  {
  }

  lemma EmittingCleared(s: seq<Attr>, s': seq<Attr>, b: seq<Byte>, lva: bool, vs: seq<Vector>, stop: nat, pos: nat)
    requires Emitting(s, s', b, lva, vs, stop, pos)
    ensures |s| == |s'| && stop <= |s| && TxClearedUpTo(s, s', stop) && OnlyTxCleared(s, s')
    ensures pos == 2 + |EncodeVectors(vs)|
  {
  }

  /** The run at `stop` is encoded as the next vector, or the encoder fails. */
  method EmitNext(list: List<Attr>, buf: array<Byte>, pos: nat, flag: bool, attrib: Node<Attr>,
                  ghost s: seq<Attr>, ghost lva: bool, ghost vs: seq<Vector>, ghost stop: nat)
    returns (ok: bool, end: nat)
    requires list.Valid() && stop < |list.nodes| && list.nodes[stop] == attrib && buf.Length == FRAME
    requires Emitting(s, list.Contents(), buf[..], lva, vs, stop, pos) && flag == (lva && vs == [])
             && 2 <= pos < ROOM - 8
    requires attrib.value.app.tx && !attrib.value.app.optional
    modifies buf, list.nodes`value
    ensures list.Valid() && OnlyTxCleared(s, list.Contents()) && buf[..BODY + pos] == old(buf[..BODY + pos])
    ensures stop < |s| && if !ok then Emit(TxItems(s), 0, 2, lva).Oops?
            else && 2 <= end <= ROOM - 2
                 && Emitting(s, list.Contents(), buf[..], lva, vs + [RunVector(TxItems(s), stop, flag)],
                             RunEnd(TxItems(s), stop + 1), end)
  {
    hide Emitting, TxClearedUpTo, RunFits, RunEnd, RunVector, ClearedBetween, OnlyTxCleared, List.Contents, List.Valid;
    ghost var s', b := list.Contents(), buf[..];
    EmittingCleared(s, s', b, lva, vs, stop, pos);
    SuffixUntouched(s, s', stop, pos, flag);
    ok, end := EmitVector(list, buf, pos, flag, attrib, stop);
    ClearedTwice(s, s', list.Contents(), stop);
    if ok {
      EmittingRun(s, s', list.Contents(), b, buf[..], lva, vs, stop, pos);
    } else {
      EmittingFails(s, s', b, lva, vs, stop, pos);
    }
  }

  lemma EmittingFails(s: seq<Attr>, s': seq<Attr>, b: seq<Byte>, lva: bool, vs: seq<Vector>, stop: nat, pos: nat)
    requires Emitting(s, s', b, lva, vs, stop, pos) && stop < |s| && pos < ROOM - 8
    requires s[stop].app.tx && !s[stop].app.optional && !RunFits(TxItems(s), stop, pos)
    ensures Emit(TxItems(s), 0, 2, lva).Oops?
  {
    EmitFails(TxItems(s), vs, stop, pos, lva && vs == []);
  }

  lemma EmittingStarts(s: seq<Attr>, b: seq<Byte>, lva: bool)
    requires BODY + 2 <= |b| && b[BODY] == VID_TYPE && b[BODY + 1] == 2
    ensures Emitting(s, s, b, lva, [], 0, 2)
  {
    assert b[BODY..BODY + 2] == [VID_TYPE, 2] + EncodeVectors([]);
  }

  lemma EmittingEnds(s: seq<Attr>, s': seq<Attr>, b: seq<Byte>, lva: bool, vs: seq<Vector>, stop: nat, pos: nat)
    requires Emitting(s, s', b, lva, vs, stop, pos) && (stop == |s| || pos >= ROOM - 8)
    ensures Emit(TxItems(s), 0, 2, lva) == Emitted(vs, stop)
    ensures BODY + pos <= |b| && b[BODY..BODY + pos] == [VID_TYPE, 2] + EncodeVectors(vs)
  {
  }

  /** The walk of mvrp_emit_vidvectors over the list.  An attribute that a vector
      has already taken up is met again with its tx flag cleared. */
  method EmitAll(list: List<Attr>, buf: array<Byte>, lva: bool)
    returns (ok: bool, pos: nat, ghost vs: seq<Vector>, ghost stop: nat)
    requires list.Valid() && buf.Length == FRAME && buf[BODY] == VID_TYPE && buf[BODY + 1] == 2
    modifies buf, list.nodes`value
    ensures list.Valid() && OnlyTxCleared(old(list.Contents()), list.Contents()) && buf[..BODY] == old(buf[..BODY])
    ensures var s := old(list.Contents());
            if !ok then Emit(TxItems(s), 0, 2, lva).Oops?
            else && Emit(TxItems(s), 0, 2, lva) == Emitted(vs, stop)
                 && TxClearedUpTo(s, list.Contents(), stop)
                 && 2 <= pos <= ROOM - 2 && buf[BODY..BODY + pos] == [VID_TYPE, 2] + EncodeVectors(vs)
                 && (vs == [] ==> buf[..] == old(buf[..]))
  {
    hide Emitting, Emit, TxClearedUpTo, OnlyTxCleared, RunVector, RunEnd, EncodeVectors, List.Contents, List.Valid;
    ghost var s := list.Contents();
    EmittingStarts(s, buf[..], lva);
    list.Links(0);
    var flag, attrib := lva, list.head;
    ghost var i := 0;
    ok, pos, vs, stop := true, 2, [], 0;
    while pos < ROOM - 8 && attrib != null
      invariant i <= stop <= |s| == |list.nodes| && attrib == list.At(i) && list.Valid()
      invariant Emitting(s, list.Contents(), buf[..], lva, vs, stop, pos)
      invariant flag == (lva && vs == []) && 2 <= pos <= ROOM - 2
      invariant buf[..BODY] == old(buf[..BODY]) && (vs == [] ==> buf[..] == old(buf[..]))
      decreases |s| - i
    {
      EmittingCleared(s, list.Contents(), buf[..], lva, vs, stop, pos);
      EmittingAt(s, list.Contents(), stop, i);
      list.Links(i);
      if attrib.value.app.tx && !attrib.value.app.optional {
        ok, pos := EmitNext(list, buf, pos, flag, attrib, s, lva, vs, stop);
        if !ok {
          return;
        }
        flag := false;
        vs, stop := vs + [RunVector(TxItems(s), stop, lva && vs == [])], RunEnd(TxItems(s), stop + 1);
      } else {
        if i == stop {
          EmittingSkips(s, list.Contents(), buf[..], lva, vs, stop, pos);
          stop := stop + 1;
        }
        list.Set(attrib, i, ClearTx(attrib.value));
      }
      attrib := attrib.next;
      i := i + 1;
    }
    EmittingCleared(s, list.Contents(), buf[..], lva, vs, stop, pos);
    EmittingEnds(s, list.Contents(), buf[..], lva, vs, stop, pos);
  }

  /** What the walk finds at the i-th attribute. */
  lemma EmittingAt(s: seq<Attr>, s': seq<Attr>, stop: nat, i: nat)
    requires TxClearedUpTo(s, s', stop) && i <= stop <= |s| && i < |s|
    ensures s'[i].app.tx && !s'[i].app.optional ==> i == stop
    ensures i == stop ==> s'[i] == s[i]
    ensures i < stop ==> s'[i := ClearTx(s'[i])] == s'
    ensures !s'[i].app.tx ==> ClearTx(s'[i]) == s'[i]
  {
  }

  /** mvrp_emit_vidvectors. */
  method EmitVidVectors(list: List<Attr>, buf: array<Byte>, lva: bool, sendEmpty: bool) returns (rc: int, used: nat)
    requires list.Valid() && buf.Length == FRAME && forall k :: BODY <= k < FRAME ==> buf[k] == 0
    modifies buf, list.nodes`value
    ensures list.Valid() && OnlyTxCleared(old(list.Contents()), list.Contents()) && buf[..BODY] == old(buf[..BODY])
    ensures var s := old(list.Contents());
            match Message(TxItems(s), lva, sendEmpty)
            case None => rc == -1 && used == 0
            case Some(m) =>
              && rc == 0 && used == |m| <= ROOM && buf[BODY..BODY + used] == m
              && TxClearedUpTo(s, list.Contents(), Emit(TxItems(s), 0, 2, lva).stop)
  {
    hide Emit, TxClearedUpTo, OnlyTxCleared, EncodeVectors, List.Contents, List.Valid;
    buf[BODY], buf[BODY + 1] := VID_TYPE, 2;
    assert buf[..BODY] == old(buf[..BODY]);
    ghost var b := buf[..];
    var ok, pos;
    ghost var vs, stop;
    ok, pos, vs, stop := EmitAll(list, buf, lva);
    if !ok {
      return -1, 0;
    }
    EncodeVectorsNonEmpty(vs);
    used := EndMessage(buf, pos, sendEmpty);
    rc := 0;
  }

  /** Behind the walk: the empty LeaveAll if nothing was found, and the end mark. */
  method EndMessage(buf: array<Byte>, end: nat, sendEmpty: bool) returns (used: nat)
    requires buf.Length == FRAME && 2 <= end <= ROOM - 2
    requires buf[BODY] == VID_TYPE && buf[BODY + 1] == 2 && (end == 2 ==> buf[BODY + 4] == 0 && buf[BODY + 5] == 0)
    modifies buf
    ensures buf[..BODY] == old(buf[..BODY]) && used <= ROOM
    ensures buf[BODY..BODY + used]
         == if end > 2 then old(buf[BODY..BODY + end]) + [0, 0] else if sendEmpty then EMPTY_LEAVEALL else []
  {
    var pos := end;
    if end == 2 && sendEmpty {
      buf[BODY + 2], buf[BODY + 3] := 0x20, 0;
      pos := 6;
      EmptyMessage(buf);
    } else if end == 2 {
      return 0;
    }
    ghost var m := buf[BODY..BODY + pos];
    buf[BODY + pos], buf[BODY + pos + 1] := 0, 0;
    assert buf[BODY..BODY + pos] == m;
    assert buf[BODY..BODY + pos + 2] == m + [0, 0];
    used := pos + 2;
  }

  lemma EmptyMessage(buf: array<Byte>)
    requires buf.Length == FRAME && buf[BODY] == VID_TYPE && buf[BODY + 1] == 2
    requires buf[BODY + 2] == 0x20 && buf[BODY + 3] == 0 && buf[BODY + 4] == 0 && buf[BODY + 5] == 0
    ensures buf[BODY..BODY + 6] == [VID_TYPE, 2, 0x20, 0, 0, 0]
  {
    var m := buf[BODY..BODY + 6];
    assert |m| == 6 && forall k :: 0 <= k < 6 ==> m[k] == buf[BODY + k];
  }

  lemma EncodeVectorsNonEmpty(vs: seq<Vector>)
    ensures vs == [] <==> |EncodeVectors(vs)| == 0
  {
  }
}
