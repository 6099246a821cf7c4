/** Decoding an MVRP frame gives back exactly what was encoded, and the encoder
    leaves out nothing it had to send unless the frame is full. */
module VidRoundTrip {
  import opened Mrp
  import opened MrpPdu
  import opened VidCodec

  // ---------------------------------------------------------------------
  // One vector
  // ---------------------------------------------------------------------

  /** The events a vector stands for. */
  function Expand(v: Vector, k: nat): seq<Rx>
    requires k <= |v.codes|
    decreases |v.codes| - k
  {
    if k == |v.codes| then [] else RxOf(v.first + k, v.codes[k]) + Expand(v, k + 1)
  }

  lemma {:induction false} ValuesOfPacked(buf: seq<Byte>, p: nat, v: Vector, k: nat)
    requires k <= |v.codes| && p + Packed3(|v.codes|) <= |buf|
    requires buf[p..p + Packed3(|v.codes|)] == Pack3(v.codes)
    ensures Values(buf, p, v.first, k, |v.codes|) == Expand(v, k)
    decreases |v.codes| - k
  {
    hide Unpack, Pack3;
    if k == |v.codes| {
    } else {
      UnpackPacked(v.codes, k);
      assert buf[p + k / 3] == buf[p..p + Packed3(|v.codes|)][k / 3];
      ValuesOfPacked(buf, p, v, k + 1);
    }
  }

  // ---------------------------------------------------------------------
  // A list of vectors
  // ---------------------------------------------------------------------

  ghost predicate Encodable(v: Vector) {
    1 <= |v.codes| < 0x2000 && v.first < 0x1_0000
  }

  function Decoded(vs: seq<Vector>, saw: bool): seq<Rx> {
    if vs == [] then []
    else
      (if vs[0].lva && !saw then [RxLeaveAll] else []) + Expand(vs[0], 0) + Decoded(vs[1..], saw || vs[0].lva)
  }

  function SawAfter(vs: seq<Vector>, saw: bool): bool {
    if vs == [] then saw else SawAfter(vs[1..], saw || vs[0].lva)
  }

  lemma HeaderRoundTrip(buf: seq<Byte>, pos: nat, v: Vector)
    requires Encodable(v) && Holds(buf, pos, EncodeVector(v))
    ensures !(buf[pos] == 0 && buf[pos + 1] == 0)
    ensures Word(buf, pos) % 0x2000 == |v.codes| && (Word(buf, pos) / 0x2000 == 1 <==> v.lva)
    ensures Word(buf, pos + 2) == v.first
    ensures Holds(buf, pos + 4, Pack3(v.codes))
  {
    var e := EncodeVector(v);
    var h := Header(|v.codes|, v.lva);
    HoldsSplit(buf, pos, [h / 256, h % 256, v.first / 256 % 256, v.first % 256], Pack3(v.codes));
    var w := buf[pos..pos + |e|];
    assert w[0] == buf[pos] && w[1] == buf[pos + 1] && w[2] == buf[pos + 2] && w[3] == buf[pos + 3];
    assert Word(buf, pos) == h;
  }

  /** One turn of the vector loop on an encoded vector. */
  lemma ParseOne(buf: seq<Byte>, eof: nat, pos: nat, v: Vector, saw: bool)
    requires Encodable(v) && Holds(buf, pos, EncodeVector(v)) && pos + |EncodeVector(v)| + 2 <= eof <= |buf|
    ensures ParseVectors(buf, eof, pos, saw)
         == Prepend((if v.lva && !saw then [RxLeaveAll] else []) + Expand(v, 0),
                    ParseVectors(buf, eof, pos + |EncodeVector(v)|, saw || v.lva))
  {
    hide EncodeVector, Pack3, Values, Expand, Word;
    HeaderRoundTrip(buf, pos, v);
    ValuesOfPacked(buf, pos + 4, v, 0);
  }

  lemma ParseEndMark(buf: seq<Byte>, eof: nat, pos: nat, saw: bool)
    requires Holds(buf, pos, [0, 0])
    ensures ParseVectors(buf, eof, pos, saw) == Parsed([], pos, saw, Good)
  {
    var w := buf[pos..pos + 2];
    assert w[0] == buf[pos] && w[1] == buf[pos + 1];
  }

  lemma {:induction false} ParseEncoded(buf: seq<Byte>, eof: nat, pos: nat, vs: seq<Vector>, saw: bool)
    requires forall v :: v in vs ==> Encodable(v)
    requires Holds(buf, pos, EncodeVectors(vs) + [0, 0]) && pos + |EncodeVectors(vs)| + 2 <= eof <= |buf|
    ensures ParseVectors(buf, eof, pos, saw)
         == Parsed(Decoded(vs, saw), pos + |EncodeVectors(vs)|, SawAfter(vs, saw), Good)
    decreases |vs|
  {
    hide EncodeVector, Expand, ParseVectors;
    if vs == [] {
      assert EncodeVectors(vs) + [0, 0] == [0, 0];
      ParseEndMark(buf, eof, pos, saw);
    } else {
      var v, rest := vs[0], vs[1..];
      var tail := EncodeVectors(rest) + [0, 0];
      assert EncodeVectors(vs) + [0, 0] == EncodeVector(v) + tail;
      HoldsSplit(buf, pos, EncodeVector(v), tail);
      ParseOne(buf, eof, pos, v, saw);
      ParseEncoded(buf, eof, pos + |EncodeVector(v)|, rest, saw || v.lva);
    }
  }

  // ---------------------------------------------------------------------
  // Which attributes the encoder picks
  // ---------------------------------------------------------------------

  ghost predicate Ascending(xs: seq<TxItem>) {
    && (forall i, j :: 0 <= i < j < |xs| ==> xs[i].vid < xs[j].vid)
    && (forall i :: 0 <= i < |xs| ==> xs[i].vid < 0x1_0000)
  }

  /** The attributes that go into the message, in order. */
  function Picked(xs: seq<TxItem>, i: nat, pos: nat): seq<TxItem>
    requires i <= |xs|
    decreases |xs| - i
  {
    if i == |xs| || pos >= ROOM - 8 then []
    else if !xs[i].tx || xs[i].optional then Picked(xs, i + 1, pos)
    else
      var j := RunEnd(xs, i + 1);
      xs[i..j] + Picked(xs, j, pos + 4 + Packed3(j - i))
  }

  /** The event each picked attribute stands for. */
  function RxItem(t: TxItem): seq<Rx> {
    if Sendable(t.sndmsg) then RxOf(t.vid, CodeOf(t)) else []
  }

  function RxItems(ts: seq<TxItem>): seq<Rx> {
    if ts == [] then [] else RxItem(ts[0]) + RxItems(ts[1..])
  }

  lemma {:induction false} RxItemsConcat(a: seq<TxItem>, b: seq<TxItem>)
    ensures RxItems(a + b) == RxItems(a) + RxItems(b)
  {
    if a == [] {
      assert a + b == b;
    } else {
      assert (a + b)[1..] == a[1..] + b;
      RxItemsConcat(a[1..], b);
    }
  }

  lemma {:induction false} RunIsConsecutive(xs: seq<TxItem>, i: nat, j: nat)
    requires Ascending(xs) && i < j <= |xs|
    requires forall k :: i <= k < j ==> xs[k].vid == xs[i].vid + (k - i)
    requires forall k :: i <= k < j ==> xs[k].tx
    ensures var e := RunEnd(xs, j);
            forall k :: i <= k < e ==> xs[k].vid == xs[i].vid + (k - i) && xs[k].tx
    decreases |xs| - j
  {
    if j < |xs| && xs[j].tx && xs[j].vid == (xs[j - 1].vid + 1) % 0x1_0000 {
      assert xs[j - 1].vid < xs[j].vid;
      RunIsConsecutive(xs, i, j + 1);
    }
  }

  lemma {:induction false} ExpandRun(v: Vector, ts: seq<TxItem>, k: nat)
    requires AllSendable(ts) && v.codes == Codes(ts) && k <= |ts|
    requires forall m :: 0 <= m < |ts| ==> ts[m].vid == v.first + m
    ensures Expand(v, k) == RxItems(ts[k..])
    decreases |ts| - k
  {
    if k == |ts| {
    } else {
      assert ts[k..][1..] == ts[k + 1..];
      ExpandRun(v, ts, k + 1);
    }
  }

  /** The LeaveAll flag, if any, is on the first vector and on no other. */
  ghost predicate FlagFirst(vs: seq<Vector>, lva: bool) {
    forall k :: 0 <= k < |vs| ==> (vs[k].lva <==> lva && k == 0)
  }

  /** The vectors lie inside the message, can be told apart from an end mark,
      carry the flag where it belongs, and stand for the attributes in ts. */
  ghost predicate StandsFor(vs: seq<Vector>, pos: nat, lva: bool, ts: seq<TxItem>) {
    && pos + |EncodeVectors(vs)| <= ROOM - 2
    && (forall v :: v in vs ==> Encodable(v))
    && FlagFirst(vs, lva)
    && Decoded(vs, true) == RxItems(ts)
    && (vs == [] <==> ts == [])
  }

  lemma StandsForCons(v: Vector, rest: seq<Vector>, pos: nat, run: seq<TxItem>, ts: seq<TxItem>)
    requires run != [] && AllSendable(run) && v.codes == Codes(run) && v.first < 0x1_0000
    requires forall m :: 0 <= m < |run| ==> run[m].vid == v.first + m
    requires StandsFor(rest, pos + 4 + Packed3(|run|), false, ts)
    ensures StandsFor([v] + rest, pos, v.lva, run + ts)
  {
    ExpandRun(v, run, 0);
    assert run[0..] == run;
    RxItemsConcat(run, ts);
    hide Expand, RxItems, Codes, EncodeVector;
    var vs := [v] + rest;
    assert vs[1..] == rest && vs[0] == v;
    assert Decoded(vs, true) == Expand(v, 0) + Decoded(rest, true);
    assert FlagFirst(vs, v.lva) by {
      forall k | 0 < k < |vs| ensures !vs[k].lva { assert vs[k] == rest[k - 1]; }
    }
  }

  /** The encoder is at a vector: it has room and something that must be sent. */
  ghost predicate StartsRun(xs: seq<TxItem>, i: nat, pos: nat) {
    i < |xs| && pos < ROOM - 8 && xs[i].tx && !xs[i].optional
  }

  /** One turn of the vector loop that succeeds. */
  lemma EmitTurn(xs: seq<TxItem>, i: nat, pos: nat, lva: bool)
    requires StartsRun(xs, i, pos) && Emit(xs, i, pos, lva).Emitted?
    ensures var j := RunEnd(xs, i + 1);
            var end := pos + 4 + Packed3(j - i);
            var rest := Emit(xs, j, end, false);
            && AllSendable(xs[i..j]) && end <= ROOM - 2 && rest.Emitted?
            && Emit(xs, i, pos, lva) == Emitted([Vector(lva, xs[i].vid, Codes(xs[i..j]))] + rest.vectors, rest.stop)
            && Picked(xs, i, pos) == xs[i..j] + Picked(xs, j, end)
  {
    hide Codes, AllSendable, RunEnd;
  }

  lemma NoTurn(xs: seq<TxItem>, i: nat, pos: nat, lva: bool)
    requires i <= |xs| && !StartsRun(xs, i, pos) && Emit(xs, i, pos, lva).Emitted?
    ensures if i == |xs| || pos >= ROOM - 8
            then Emit(xs, i, pos, lva) == Emitted([], i) && Picked(xs, i, pos) == []
            else Emit(xs, i, pos, lva) == Emit(xs, i + 1, pos, lva) && Picked(xs, i, pos) == Picked(xs, i + 1, pos)
  {
  }

  lemma {:induction false} EmitSound(xs: seq<TxItem>, i: nat, pos: nat, lva: bool)
    requires Ascending(xs) && i <= |xs| && 2 <= pos <= ROOM - 2
    requires Emit(xs, i, pos, lva).Emitted?
    ensures StandsFor(Emit(xs, i, pos, lva).vectors, pos, lva, Picked(xs, i, pos))
    decreases |xs| - i
  {
    hide Codes, AllSendable, RunEnd, Emit, Picked;
    if !StartsRun(xs, i, pos) {
      NoTurn(xs, i, pos, lva);
      if i < |xs| && pos < ROOM - 8 {
        EmitSound(xs, i + 1, pos, lva);
      }
    } else {
      hide StandsFor;
      EmitTurn(xs, i, pos, lva);
      RunIsConsecutive(xs, i, i + 1);
      var j := RunEnd(xs, i + 1);
      var end := pos + 4 + Packed3(j - i);
      EmitSound(xs, j, end, false);
      StandsForCons(Vector(lva, xs[i].vid, Codes(xs[i..j])), Emit(xs, j, end, false).vectors, pos, xs[i..j],
                    Picked(xs, j, end));
    }
  }

  lemma {:induction false} DecodedFlag(vs: seq<Vector>, lva: bool)
    requires FlagFirst(vs, lva)
    ensures Decoded(vs, false) == (if lva && vs != [] then [RxLeaveAll] else []) + Decoded(vs, true)
  {
    if vs == [] {
    } else {
      var rest := vs[1..];
      assert FlagFirst(rest, false) by {
        forall k | 0 <= k < |rest| ensures rest[k].lva <==> false { assert rest[k] == vs[k + 1]; }
      }
      DecodedFlag(rest, false);
    }
  }

  /** The message loop on a message of encoded vectors and its two end marks. */
  lemma ParseWholeMessage(buf: seq<Byte>, eof: nat, vs: seq<Vector>)
    requires forall v :: v in vs ==> Encodable(v)
    requires Holds(buf, BODY, [VID_TYPE, 2] + (EncodeVectors(vs) + [0, 0] + [0, 0]))
    requires eof == BODY + 2 + |EncodeVectors(vs)| + 4 <= |buf|
    ensures ParseMessages(buf, 0, eof, BODY, 0, false) == Parsed(Decoded(vs, false), eof - 2, SawAfter(vs, false), Good)
  {
    var body := EncodeVectors(vs) + [0, 0];
    HoldsSplit(buf, BODY, [VID_TYPE, 2], body + [0, 0]);
    HoldsSplit(buf, BODY + 2, body, [0, 0]);
    ParseEncoded(buf, eof, BODY + 2, vs, false);
    var p := BODY + 2 + |EncodeVectors(vs)|;
    HoldsSplit(buf, BODY + 2, EncodeVectors(vs), [0, 0]);
    var w, w0 := buf[p..p + 2], buf[BODY..BODY + 2];
    assert w[0] == buf[p] && w[1] == buf[p + 1] && w0[0] == buf[BODY] && w0[1] == buf[BODY + 1];
    assert ParseMessages(buf, 0, eof, p, 0, SawAfter(vs, false)) == Parsed([], p + 2, SawAfter(vs, false), Good);
  }

  /** mvrp_recv_msg passes its header checks on a frame of mvrp_txpdu. */
  lemma FrameIsForMvrp(src: Mac, m: seq<Byte>, tail: seq<Byte>)
    requires |m| >= 2
    ensures var frame := MVRP_ADDR + src + [0x88, 0xF5, 0] + m + [0, 0];
            && ParseFrame(frame + tail, |frame|) == ParseMessages(frame + tail, 0, |frame|, BODY, 0, false)
            && Holds(frame + tail, BODY, m + [0, 0]) && |frame| == BODY + |m| + 2
  {
    var frame := MVRP_ADDR + src + [0x88, 0xF5, 0] + m + [0, 0];
    var buf := frame + tail;
    assert buf[0..6] == MVRP_ADDR;
    assert buf[12] == 0x88 && buf[13] == 0xF5 && buf[14] == 0;
    assert buf[BODY..BODY + |m| + 2] == m + [0, 0];
  }

  /** mvrp_recv_msg applied to what mvrp_txpdu sent, with anything behind it in
      the buffer: a LeaveAll if one was asked for, then the event of each picked
      attribute in order. */
  lemma RoundTrip(xs: seq<TxItem>, lva: bool, sendEmpty: bool, src: Mac, tail: seq<Byte>)
    requires Ascending(xs) && (sendEmpty ==> lva)
    requires Pdu(xs, lva, sendEmpty, src).Some?
    ensures var frame := Pdu(xs, lva, sendEmpty, src).value;
            var r := ParseFrame(frame + tail, |frame|);
            && |frame| <= FRAME
            && r.rx == (if lva then [RxLeaveAll] else []) + RxItems(Picked(xs, 0, 2))
            && r.status == (if Picked(xs, 0, 2) == [] then Malformed else Good)
  {
    hide Emit, Picked, EncodeVectors, Decoded, ParseFrame, ParseMessages;
    var frame := Pdu(xs, lva, sendEmpty, src).value;
    var m := Message(xs, lva, sendEmpty).value;
    var vs := Emit(xs, 0, 2, lva).vectors;
    EmitSound(xs, 0, 2, lva);
    FrameIsForMvrp(src, m, tail);
    if vs == [] {
      EmptyLeaveAllParses(frame + tail, |frame|);
    } else {
      assert m + [0, 0] == [VID_TYPE, 2] + (EncodeVectors(vs) + [0, 0] + [0, 0]);
      ParseWholeMessage(frame + tail, |frame|, vs);
      DecodedFlag(vs, lva);
    }
  }

  lemma EmptyLeaveAllParses(buf: seq<Byte>, eof: nat)
    requires Holds(buf, BODY, EMPTY_LEAVEALL + [0, 0]) && eof == BODY + 10 <= |buf|
    ensures ParseMessages(buf, 0, eof, BODY, 0, false).rx == [RxLeaveAll]
    ensures ParseMessages(buf, 0, eof, BODY, 0, false).status == Malformed
  {
    var w := buf[BODY..BODY + 10];
    assert w[0] == buf[BODY] && w[1] == buf[BODY + 1] && w[2] == buf[BODY + 2] && w[3] == buf[BODY + 3];
    assert Word(buf, BODY + 2) == 0x2000;
    assert ParseVectors(buf, eof, BODY + 2, false) == Parsed([RxLeaveAll], BODY + 2, true, Malformed);
  }

  // ---------------------------------------------------------------------
  // Nothing that must be sent is left out
  // ---------------------------------------------------------------------

  /** Between i and stop, ts holds the attributes sent: each had tx set, VIDs
      ascend, so none is sent twice, and whatever had to be sent is there. */
  ghost predicate SendsExactly(xs: seq<TxItem>, i: nat, stop: nat, ts: seq<TxItem>)
    requires i <= stop <= |xs|
  {
    && (forall t :: t in ts ==> t in xs[i..stop] && t.tx && Sendable(t.sndmsg))
    && (forall a, b :: 0 <= a < b < |ts| ==> ts[a].vid < ts[b].vid)
    && (forall k :: i <= k < stop && xs[k].tx && !xs[k].optional ==> xs[k] in ts)
  }

  lemma SendsExactlySkip(xs: seq<TxItem>, i: nat, stop: nat, ts: seq<TxItem>)
    requires i < stop <= |xs| && (!xs[i].tx || xs[i].optional) && SendsExactly(xs, i + 1, stop, ts)
    ensures SendsExactly(xs, i, stop, ts)
  {
    assert xs[i..stop] == [xs[i]] + xs[i + 1..stop];
  }

  lemma SendsExactlyRun(xs: seq<TxItem>, i: nat, j: nat, stop: nat, rest: seq<TxItem>)
    requires Ascending(xs) && i < j <= stop <= |xs| && SendsExactly(xs, j, stop, rest)
    requires forall k :: i <= k < j ==> xs[k].tx && Sendable(xs[k].sndmsg)
    ensures SendsExactly(xs, i, stop, xs[i..j] + rest)
  {
    var run := xs[i..j];
    var ts := run + rest;
    assert xs[i..stop] == run + xs[j..stop];
    forall a, b | 0 <= a < b < |ts| ensures ts[a].vid < ts[b].vid {
      if a < |run| <= b {
        assert ts[b] == rest[b - |run|] && ts[b] in xs[j..stop];
        assert ts[a] == xs[i + a];
      }
    }
    forall k | i <= k < stop && xs[k].tx && !xs[k].optional ensures xs[k] in ts {
      if k < j {
        assert xs[k] == run[k - i] == ts[k - i];
      }
    }
  }

  lemma {:induction false} PickedExactly(xs: seq<TxItem>, i: nat, pos: nat, lva: bool)
    requires Ascending(xs) && i <= |xs| && Emit(xs, i, pos, lva).Emitted?
    ensures SendsExactly(xs, i, Emit(xs, i, pos, lva).stop, Picked(xs, i, pos))
    decreases |xs| - i
  {
    hide RunEnd, Codes, Emit, Picked;
    if !StartsRun(xs, i, pos) {
      NoTurn(xs, i, pos, lva);
      if i < |xs| && pos < ROOM - 8 {
        PickedExactly(xs, i + 1, pos, lva);
        SendsExactlySkip(xs, i, Emit(xs, i, pos, lva).stop, Picked(xs, i, pos));
      }
    } else {
      hide SendsExactly;
      EmitTurn(xs, i, pos, lva);
      RunIsConsecutive(xs, i, i + 1);
      var j := RunEnd(xs, i + 1);
      var end := pos + 4 + Packed3(j - i);
      PickedExactly(xs, j, end, false);
      assert forall k :: i <= k < j ==> xs[k] == xs[i..j][k - i];
      SendsExactlyRun(xs, i, j, Emit(xs, i, pos, lva).stop, Picked(xs, j, end));
    }
  }

  /** So an attribute the encoder did not get to is not sent. */
  lemma NotSentBehindStop(xs: seq<TxItem>, stop: nat, ts: seq<TxItem>, k: nat)
    requires Ascending(xs) && stop <= k < |xs| && SendsExactly(xs, 0, stop, ts)
    ensures xs[k] !in ts
  {
  }

  // ---------------------------------------------------------------------
  // What a frame says about one VID
  // ---------------------------------------------------------------------

  /** None of the events is a LeaveAll or concerns v. */
  ghost predicate Silent(rx: seq<Rx>, v: nat) {
    forall r :: r in rx ==> r.RxValue? && r.vid != v
  }

  lemma {:induction false} SilentAbout(ts: seq<TxItem>, v: nat)
    requires forall t :: t in ts ==> t.vid != v
    ensures Silent(RxItems(ts), v)
  {
    if ts == [] {
    } else {
      SilentAbout(ts[1..], v);
    }
  }

  /** A list of attributes with distinct VIDs mentions each VID once, with the
      code of its attribute. */
  lemma MentionedOnce(a: seq<TxItem>, t: TxItem, b: seq<TxItem>)
    requires t.vid <= 0xFFF && Sendable(t.sndmsg)
    requires forall x :: x in a || x in b ==> x.vid != t.vid
    ensures Silent(RxItems(a), t.vid) && Silent(RxItems(b), t.vid)
    ensures RxItems(a + [t] + b) == RxItems(a) + [RxValue(t.vid, CodeEvent(CodeOf(t)).value)] + RxItems(b)
  {
    SilentAbout(a, t.vid);
    SilentAbout(b, t.vid);
    RxItemsConcat(a + [t], b);
    RxItemsConcat(a, [t]);
    assert RxItems([t]) == RxItem(t);
  }

  lemma OthersDiffer(ts: seq<TxItem>, k: nat)
    requires k < |ts|
    requires forall a, b :: 0 <= a < b < |ts| ==> ts[a].vid < ts[b].vid
    ensures ts == ts[..k] + [ts[k]] + ts[k + 1..]
    ensures forall x :: x in ts[..k] || x in ts[k + 1..] ==> x.vid != ts[k].vid
  {
  }
}
