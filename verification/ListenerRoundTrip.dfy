/** Decoding a Listener message gives back exactly what was encoded, for runs of any
    length and across the wrap of the stream ID. */
module ListenerRoundTrip {
  import opened Mrp
  import opened MrpPdu
  import opened Seqs
  import opened ListenerCodec

  // ---------------------------------------------------------------------
  // The increment
  // ---------------------------------------------------------------------

  /** Bytes 1 .. i as a number, most significant first. */
  function Number(s: StreamId, i: nat): nat
    requires i < 8
  {
    if i == 0 then 0 else 256 * Number(s, i - 1) + s[i]
  }

  lemma {:induction false} NumberBelow(s: StreamId, i: nat)
    requires i < 8
    ensures Number(s, i) < Power256(i)
  {
    if i == 0 {
    } else {
      NumberBelow(s, i - 1);
    }
  }

  lemma {:induction false} NumberFrame(s: StreamId, t: StreamId, i: nat)
    requires i < 8 && forall k :: 1 <= k <= i ==> s[k] == t[k]
    ensures Number(s, i) == Number(t, i)
  {
    if i == 0 {
    } else {
      NumberFrame(s, t, i - 1);
    }
  }

  lemma {:induction false} IncFromCounts(s: StreamId, i: nat)
    requires i < 8
    ensures var t := IncFrom(s, i);
            && Number(t, i) == (if Number(s, i) + 1 == Power256(i) then 0 else Number(s, i) + 1)
            && t[0] == s[0] && (forall k :: i < k < 8 ==> t[k] == s[k])
    decreases i
  {
    if i == 0 {
    } else {
      NumberBelow(s, i - 1);
      if s[i] != 255 {
        NumberFrame(s, s[i := s[i] + 1], i - 1);
      } else {
        var z := s[i := 0];
        NumberFrame(s, z, i - 1);
        IncFromCounts(z, i - 1);
      }
    }
  }

  /** The increment counts modulo 2^56: it never carries into byte 0. */
  lemma IncCounts(s: StreamId)
    ensures Inc(s)[0] == s[0] && Number(Inc(s), 7) == (Number(s, 7) + 1) % 0x100_0000_0000_0000
  {
    IncFromCounts(s, 7);
    NumberBelow(s, 7);
  }

  /** In place, as msrp_increment_streamid does it. */
  method IncrementStreamId(id: array<Byte>)
    requires id.Length == 8
    modifies id
    ensures id[..] == Inc(old(id[..]))
  {
    var i := 7;
    while i > 0
      invariant 0 <= i < 8
      invariant IncFrom(id[..], i) == Inc(old(id[..]))
    {
      ghost var before: StreamId := id[..];
      if id[i] != 255 {
        id[i] := id[i] + 1;
        assert id[..] == before[i := before[i] + 1];
        return;
      }
      id[i] := 0;
      assert id[..] == before[i := 0];
      i := i - 1;
    }
  }

  // ---------------------------------------------------------------------
  // One vector
  // ---------------------------------------------------------------------

  /** The events that codes and substates stand for, from stream ID id on. */
  function Expand(id: StreamId, codes: seq<Code>, subs: seq<Substate>): seq<Rx>
    requires |codes| == |subs|
    decreases |codes|
  {
    if codes == [] then [] else RxOf(id, codes[0], subs[0]) + Expand(Inc(id), codes[1..], subs[1..])
  }

  lemma UnpackPackFour(w: Substate, x: Substate, y: Substate, z: Substate)
    ensures var b := PackFour(w, x, y, z);
            Unpack4(b, 0) == w && Unpack4(b, 1) == x && Unpack4(b, 2) == y && Unpack4(b, 3) == z
  {
    var b := PackFour(w, x, y, z);
    assert b / 64 == w && b / 16 == 4 * w + x && b / 4 == 16 * w + 4 * x + y;
  }

  lemma UnpackPacked4(subs: seq<Substate>, k: nat)
    requires k < |subs|
    ensures k / 4 < |Pack4(subs)| && Unpack4(Pack4(subs)[k / 4], k % 4) == subs[k]
  {
    hide Unpack4;
    var j := k / 4;
    UnpackPackFour(SubAt(subs, 4 * j), SubAt(subs, 4 * j + 1), SubAt(subs, 4 * j + 2), SubAt(subs, 4 * j + 3));
  }

  lemma SubstatesOfPacked(buf: seq<Byte>, p: nat, subs: seq<Substate>)
    requires Holds(buf, p, Pack4(subs))
    ensures Substates(buf, p, |subs|) == subs
  {
    hide Pack4, Unpack4;
    forall k | 0 <= k < |subs| ensures Unpack4(buf[p + k / 4], k % 4) == subs[k] {
      UnpackPacked4(subs, k);
      assert buf[p + k / 4] == buf[p..p + Packed4(|subs|)][k / 4];
    }
  }

  lemma {:induction false} OneByteExpands(b: Byte, k: nat, m: nat, id: StreamId, codes: seq<Code>, subs: seq<Substate>)
    requires |codes| == |subs| && k <= m && m - k <= |codes|
    requires forall i :: k <= i < m ==> Unpack(b, i) == codes[i - k]
    ensures Expand(id, codes, subs)
         == OneByte(b, k, m, id, subs) + Expand(Advance(id, m - k), codes[m - k..], subs[m - k..])
    decreases m - k
  {
    hide Unpack, RxOf, Inc;
    if k == m {
      assert codes[0..] == codes && subs[0..] == subs;
    } else {
      assert codes[1..][m - k - 1..] == codes[m - k..] && subs[1..][m - k - 1..] == subs[m - k..];
      OneByteExpands(b, k + 1, m, Inc(id), codes[1..], subs[1..]);
    }
  }

  /** The packed bytes of all but the first three events. */
  lemma Pack3Tail(codes: seq<Code>)
    requires codes != []
    ensures var m := if |codes| > 3 then 3 else |codes|;
            && Pack3(codes)[1..] == Pack3(codes[m..])
            && (forall i :: 0 <= i < m ==> Unpack(Pack3(codes)[0], i) == codes[i])
  {
    hide Unpack, Pack;
    var m := if |codes| > 3 then 3 else |codes|;
    var a, b := Pack3(codes)[1..], Pack3(codes[m..]);
    forall j | 0 <= j < |b| ensures a[j] == b[j] {
      Pack3Shift(codes, m, j);
    }
    assert a == b;
    forall i | 0 <= i < m ensures Unpack(Pack3(codes)[0], i) == codes[i] {
      UnpackPacked(codes, i);
    }
  }

  lemma Pack3Shift(codes: seq<Code>, m: nat, j: nat)
    requires m == (if |codes| > 3 then 3 else |codes|) && j < Packed3(|codes| - m)
    ensures Pack3(codes)[j + 1] == Pack3(codes[m..])[j]
  {
    hide Pack;
    var k := 3 * j;
    assert At(codes, k + 3) == At(codes[m..], k);
    assert At(codes, k + 4) == At(codes[m..], k + 1);
    assert At(codes, k + 5) == At(codes[m..], k + 2);
    assert 3 * (j + 1) == k + 3;
  }

  lemma {:induction false} ValuesOfPacked(buf: seq<Byte>, p: nat, id: StreamId, codes: seq<Code>, subs: seq<Substate>)
    requires |codes| == |subs| && Holds(buf, p, Pack3(codes))
    ensures Values(buf, p, |codes|, id, subs) == Expand(id, codes, subs)
    decreases |codes|
  {
    hide Pack3, Unpack, OneByte;
    if codes != [] {
      var m := if |codes| > 3 then 3 else |codes|;
      Pack3Tail(codes);
      var packed := Pack3(codes);
      assert packed == [packed[0]] + packed[1..];
      HoldsSplit(buf, p, [packed[0]], packed[1..]);
      assert buf[p] == buf[p..p + 1][0] == packed[0];
      OneByteExpands(buf[p], 0, m, id, codes, subs);
      ValuesOfPacked(buf, p + 1, Advance(id, m), codes[m..], subs[m..]);
    } else {
      assert Expand(id, codes, subs) == [];
    }
  }

  ghost predicate Encodable(v: Vector) {
    1 <= |v.codes| == |v.subs| < 0x2000
  }

  ghost predicate AllEncodable(vs: seq<Vector>) {
    forall i :: 0 <= i < |vs| ==> Encodable(vs[i])
  }

  lemma HeaderRoundTrip(buf: seq<Byte>, pos: nat, n: nat, lva: bool)
    requires n < 0x2000 && (n > 0 || lva)
    requires var h := Header(n, lva); Holds(buf, pos, [h / 256, h % 256])
    ensures !(buf[pos] == 0 && buf[pos + 1] == 0)
    ensures Word(buf, pos) % 0x2000 == n && (Word(buf, pos) / 0x2000 == 1 <==> lva)
  {
    var h := Header(n, lva);
    var w := buf[pos..pos + 2];
    assert buf[pos] == w[0] == h / 256 && buf[pos + 1] == w[1] == h % 256;
    assert Word(buf, pos) == h;
  }

  lemma VectorParts(buf: seq<Byte>, pos: nat, v: Vector)
    requires Encodable(v) && Holds(buf, pos, EncodeVector(v))
    ensures var h := Header(|v.codes|, v.lva); Holds(buf, pos, [h / 256, h % 256])
    ensures Holds(buf, pos + 2, v.first) && Holds(buf, pos + 10, Pack3(v.codes))
    ensures Holds(buf, pos + 10 + Packed3(|v.codes|), Pack4(v.subs))
  {
    hide Pack3, Pack4, Header;
    var h := Header(|v.codes|, v.lva);
    HoldsSplit(buf, pos, [h / 256, h % 256] + v.first + Pack3(v.codes), Pack4(v.subs));
    HoldsSplit(buf, pos, [h / 256, h % 256] + v.first, Pack3(v.codes));
    HoldsSplit(buf, pos, [h / 256, h % 256], v.first);
  }

  /** One turn of the vector loop on an encoded vector. */
  lemma ParseOne(buf: seq<Byte>, eof: nat, pos: nat, v: Vector, saw: bool)
    requires Encodable(v) && Holds(buf, pos, EncodeVector(v)) && pos + |EncodeVector(v)| < eof <= |buf|
    ensures ParseVectors(buf, eof, pos, saw)
         == Prepend((if v.lva && !saw then [RxLeaveAll] else []) + Expand(v.first, v.codes, v.subs),
                    ParseVectors(buf, eof, pos + |EncodeVector(v)|, saw || v.lva))
  {
    hide EncodeVector, Pack3, Pack4, Values, Substates, Expand, Word, Header;
    var n := |v.codes|;
    VectorParts(buf, pos, v);
    HeaderRoundTrip(buf, pos, n, v.lva);
    SubstatesOfPacked(buf, pos + 10 + Packed3(n), v.subs);
    ValuesOfPacked(buf, pos + 10, v.first, v.codes, v.subs);
  }

  // ---------------------------------------------------------------------
  // A list of vectors
  // ---------------------------------------------------------------------

  function Decoded(vs: seq<Vector>, saw: bool): seq<Rx>
    requires AllEncodable(vs)
  {
    if vs == [] then []
    else
      (if vs[0].lva && !saw then [RxLeaveAll] else []) + Expand(vs[0].first, vs[0].codes, vs[0].subs)
      + Decoded(vs[1..], saw || vs[0].lva)
  }

  function SawAfter(vs: seq<Vector>, saw: bool): bool {
    if vs == [] then saw else SawAfter(vs[1..], saw || vs[0].lva)
  }

  lemma ParseEndMark(buf: seq<Byte>, eof: nat, pos: nat, saw: bool)
    requires Holds(buf, pos, [0, 0]) && eof <= |buf|
    ensures ParseVectors(buf, eof, pos, saw) == Parsed([], pos, saw, Good)
  {
    var w := buf[pos..pos + 2];
    assert w[0] == buf[pos] && w[1] == buf[pos + 1];
  }

  lemma {:induction false} ParseEncoded(buf: seq<Byte>, eof: nat, pos: nat, vs: seq<Vector>, saw: bool)
    requires AllEncodable(vs)
    requires Holds(buf, pos, EncodeVectors(vs) + [0, 0]) && pos + |EncodeVectors(vs)| + 2 <= eof <= |buf|
    ensures ParseVectors(buf, eof, pos, saw)
         == Parsed(Decoded(vs, saw), pos + |EncodeVectors(vs)|, SawAfter(vs, saw), Good)
    decreases |vs|
  {
    hide EncodeVector, Expand, ParseVectors;
    if vs == [] {
      assert EncodeVectors(vs) + [0, 0] == [0, 0];
      ParseEndMark(buf, eof, pos, saw);
    } else {
      var v, rest := vs[0], vs[1..];
      var tail := EncodeVectors(rest) + [0, 0];
      assert EncodeVectors(vs) + [0, 0] == EncodeVector(v) + tail;
      HoldsSplit(buf, pos, EncodeVector(v), tail);
      ParseOne(buf, eof, pos, v, saw);
      ParseEncoded(buf, eof, pos + |EncodeVector(v)|, rest, saw || v.lva);
    }
  }

  // ---------------------------------------------------------------------
  // Which attributes the encoder picks
  // ---------------------------------------------------------------------

  /** The indices i .. j-1. */
  function Range(i: nat, j: nat): (r: seq<nat>)
    requires i <= j
    ensures |r| == j - i && forall k :: 0 <= k < |r| ==> r[k] == i + k
  {
    seq(j - i, k requires 0 <= k => i + k)
  }

  predicate Within(ks: seq<nat>, n: nat) {
    forall i :: 0 <= i < |ks| ==> ks[i] < n
  }

  ghost predicate StartsRun(xs: seq<TxListener>, i: nat, at: nat, room: nat) {
    i < |xs| && at + 15 < room && xs[i].listener && !xs[i].optional
  }

  /** The positions of the attributes that go into the message, in order. */
  ghost function Picked(xs: seq<TxListener>, i: nat, at: nat, room: nat): (r: seq<nat>)
    requires i <= |xs|
    ensures Within(r, |xs|)
    decreases |xs| - i
  {
    if i == |xs| || at + 15 >= room then []
    else if !StartsRun(xs, i, at, room) then Picked(xs, i + 1, at, room)
    else
      var j := RunEnd(xs, i + 1);
      Range(i, j) + Picked(xs, j, VectorStart(at) + Size(j - i), room)
  }

  /** The event a listener stands for; the receiver skips those with substate IGNORE. */
  function RxItem(t: TxListener): seq<Rx> { RxOf(t.id, CodeOf(t), t.sub) }

  function RxItems(xs: seq<TxListener>, ks: seq<nat>): seq<Rx>
    requires Within(ks, |xs|)
  {
    if ks == [] then [] else RxItem(xs[ks[0]]) + RxItems(xs, ks[1..])
  }

  lemma {:induction false} RxItemsConcat(xs: seq<TxListener>, a: seq<nat>, b: seq<nat>)
    requires Within(a, |xs|) && Within(b, |xs|)
    ensures RxItems(xs, a + b) == RxItems(xs, a) + RxItems(xs, b)
  {
    if a == [] {
      assert a + b == b;
    } else {
      assert (a + b)[1..] == a[1..] + b;
      RxItemsConcat(xs, a[1..], b);
    }
  }

  lemma {:induction false} RunIsConsecutive(xs: seq<TxListener>, i: nat, j: nat)
    requires i < j <= |xs|
    requires forall k :: i <= k < j ==> xs[k].listener
    requires forall k :: i < k < j ==> xs[k].id == Inc(xs[k - 1].id)
    ensures var e := RunEnd(xs, j);
            && (forall k :: i <= k < e ==> xs[k].listener)
            && (forall k :: i < k < e ==> xs[k].id == Inc(xs[k - 1].id))
    decreases |xs| - j
  {
    hide Inc;
    if j < |xs| && xs[j].listener && xs[j].id == Inc(xs[j - 1].id) {
      RunIsConsecutive(xs, i, j + 1);
    }
  }

  /** A run of the list stands for its attributes' own events. */
  lemma {:induction false} ExpandRun(xs: seq<TxListener>, i: nat, j: nat)
    requires i < j <= |xs| && forall k :: i < k < j ==> xs[k].id == Inc(xs[k - 1].id)
    ensures Expand(xs[i].id, Codes(xs[i..j]), Subs(xs[i..j])) == RxItems(xs, Range(i, j))
    decreases j - i
  {
    hide Inc, RxOf;
    var codes, subs := Codes(xs[i..j]), Subs(xs[i..j]);
    assert codes[0] == CodeOf(xs[i]) && subs[0] == xs[i].sub;
    if i + 1 < j {
      assert codes[1..] == Codes(xs[i + 1..j]) && subs[1..] == Subs(xs[i + 1..j]);
      assert Range(i, j)[1..] == Range(i + 1, j);
      assert xs[i + 1].id == Inc(xs[i].id);
      ExpandRun(xs, i + 1, j);
    } else {
      assert Expand(Inc(xs[i].id), codes[1..], subs[1..]) == [];
    }
  }

  /** One turn of the vector loop that succeeds. */
  lemma EmitTurn(xs: seq<TxListener>, i: nat, at: nat, lva: bool, room: nat)
    requires StartsRun(xs, i, at, room) && Emit(xs, i, at, lva, room).Emitted?
    ensures var j := RunEnd(xs, i + 1);
            var end := VectorStart(at) + Size(j - i);
            var rest := Emit(xs, j, end, false, room);
            && AllSendable(xs[i..j]) && end + 2 <= room && rest.Emitted?
            && Emit(xs, i, at, lva, room)
               == Emitted([Vector(lva, xs[i].id, Codes(xs[i..j]), Subs(xs[i..j]))] + rest.vectors, rest.stop)
            && Picked(xs, i, at, room) == Range(i, j) + Picked(xs, j, end, room)
  {
    hide Codes, Subs, AllSendable, RunEnd;
  }

  lemma NoTurn(xs: seq<TxListener>, i: nat, at: nat, lva: bool, room: nat)
    requires i <= |xs| && !StartsRun(xs, i, at, room) && Emit(xs, i, at, lva, room).Emitted?
    ensures if i == |xs| || at + 15 >= room
            then Emit(xs, i, at, lva, room) == Emitted([], i) && Picked(xs, i, at, room) == []
            else && Emit(xs, i, at, lva, room) == Emit(xs, i + 1, at, lva, room)
                 && Picked(xs, i, at, room) == Picked(xs, i + 1, at, room)
  {
  }

  ghost predicate FlagFirst(vs: seq<Vector>, lva: bool) {
    forall k :: 0 <= k < |vs| ==> (vs[k].lva <==> lva && k == 0)
  }

  /** The vectors fit behind offset at, carry the flag where it belongs, and stand
      for the attributes at the positions ks. */
  ghost predicate StandsFor(vs: seq<Vector>, at: nat, room: nat, lva: bool, xs: seq<TxListener>, ks: seq<nat>) {
    && (vs != [] ==> VectorStart(at) + |EncodeVectors(vs)| + 2 <= room)
    && AllEncodable(vs)
    && FlagFirst(vs, lva)
    && Within(ks, |xs|)
    && Decoded(vs, true) == RxItems(xs, ks)
    && (vs == [] <==> ks == [])
  }

  lemma StandsForNothing(at: nat, room: nat, lva: bool, xs: seq<TxListener>)
    ensures StandsFor([], at, room, lva, xs, [])
  {
  }

  lemma StandsForCons(v: Vector, rest: seq<Vector>, at: nat, room: nat, xs: seq<TxListener>, i: nat, j: nat,
                      ks: seq<nat>)
    requires i < j <= |xs| && j - i < 0x2000 && forall k :: i < k < j ==> xs[k].id == Inc(xs[k - 1].id)
    requires v.first == xs[i].id && v.codes == Codes(xs[i..j]) && v.subs == Subs(xs[i..j])
    requires StandsFor(rest, VectorStart(at) + Size(j - i), room, false, xs, ks)
             && VectorStart(at) + Size(j - i) + 2 <= room
    ensures StandsFor([v] + rest, at, room, v.lva, xs, Range(i, j) + ks)
  {
    hide Inc, Expand, RxItems, Codes, Subs, EncodeVector, RxItem;
    ExpandRun(xs, i, j);
    RxItemsConcat(xs, Range(i, j), ks);
    var vs := [v] + rest;
    assert vs[1..] == rest && vs[0] == v;
    assert AllEncodable(vs) by {
      forall k | 0 <= k < |vs| ensures Encodable(vs[k]) { if k > 0 { assert vs[k] == rest[k - 1]; } }
    }
    assert Decoded(vs, true) == Expand(v.first, v.codes, v.subs) + Decoded(rest, true);
    assert FlagFirst(vs, v.lva) by {
      forall k | 0 < k < |vs| ensures !vs[k].lva { assert vs[k] == rest[k - 1]; }
    }
  }

  lemma {:induction false} EmitSound(xs: seq<TxListener>, i: nat, at: nat, lva: bool, room: nat)
    requires i <= |xs| && room <= ROOM && Emit(xs, i, at, lva, room).Emitted?
    ensures StandsFor(Emit(xs, i, at, lva, room).vectors, at, room, lva, xs, Picked(xs, i, at, room))
    decreases |xs| - i
  {
    hide Codes, Subs, AllSendable, RunEnd, Emit, Picked, StandsFor;
    if !StartsRun(xs, i, at, room) {
      NoTurn(xs, i, at, lva, room);
      StandsForNothing(at, room, lva, xs);
      if i < |xs| && at + 15 < room {
        EmitSound(xs, i + 1, at, lva, room);
      }
    } else {
      EmitTurn(xs, i, at, lva, room);
      RunIsConsecutive(xs, i, i + 1);
      var j := RunEnd(xs, i + 1);
      var end := VectorStart(at) + Size(j - i);
      EmitSound(xs, j, end, false, room);
      StandsForCons(Vector(lva, xs[i].id, Codes(xs[i..j]), Subs(xs[i..j])), Emit(xs, j, end, false, room).vectors,
                    at, room, xs, i, j, Picked(xs, j, end, room));
    }
  }

  lemma {:induction false} DecodedFlag(vs: seq<Vector>, lva: bool)
    requires FlagFirst(vs, lva) && AllEncodable(vs)
    ensures Decoded(vs, false) == (if lva && vs != [] then [RxLeaveAll] else []) + Decoded(vs, true)
  {
    if vs == [] {
    } else {
      var rest := vs[1..];
      assert FlagFirst(rest, false) by {
        forall k | 0 <= k < |rest| ensures rest[k].lva <==> false { assert rest[k] == vs[k + 1]; }
      }
      DecodedFlag(rest, false);
    }
  }

  /** The receiver's test of the list length passes on a message of the encoder. */
  lemma WrappedListIsOk(buf: seq<Byte>, eof: nat, pos: nat, list: seq<Byte>)
    requires 10 <= |list| < 0xF000 && Holds(buf, pos, Wrap(list)) && pos + |list| + 6 <= eof <= |buf|
    ensures buf[pos + 1] == LISTENER_LENGTH && ListLengthOk(buf, eof, pos + 2) == Some(true)
    ensures Holds(buf, pos + 4, list + [0, 0])
  {
    var n := |list| + 2;
    var head := [LISTENER_TYPE, LISTENER_LENGTH, n / 256 % 256, n % 256];
    assert Wrap(list) == head + (list + [0, 0]);
    HoldsSplit(buf, pos, head, list + [0, 0]);
    HoldsSplit(buf, pos + 4, list, [0, 0]);
    var w, e := buf[pos..pos + 4], buf[pos + 4 + |list|..pos + 6 + |list|];
    assert w[1] == buf[pos + 1] && w[2] == buf[pos + 2] && w[3] == buf[pos + 3];
    assert e[0] == buf[pos + 4 + |list|] && e[1] == buf[pos + 5 + |list|];
    assert Word(buf, pos + 2) == n;
  }

  lemma EmptyLeaveAllParses(buf: seq<Byte>, eof: nat, pos: nat)
    requires Holds(buf, pos, EMPTY_LEAVEALL + [0, 0]) && eof <= |buf|
    ensures ParseVectors(buf, eof, pos, false) == Parsed([RxLeaveAll], pos + 10, true, Good)
  {
    HoldsSplit(buf, pos, EMPTY_LEAVEALL, [0, 0]);
    ParseEndMark(buf, eof, pos + 10, true);
    var w := buf[pos..pos + 10];
    assert w[0] == buf[pos] && w[1] == buf[pos + 1];
    assert Word(buf, pos) == 0x2000;
    assert ParseVectors(buf, eof, pos, false) == Prepend([RxLeaveAll], ParseVectors(buf, eof, pos + 10, true));
  }

  /** msrp_recv_msg applied to a message of msrp_emit_listenvectors, wherever it
      stands in a frame: the list-length and end-mark tests pass, a LeaveAll is seen
      if one was asked for, and then each picked listener's stream ID, event and
      substate, except those with substate IGNORE. */
  lemma RoundTrip(xs: seq<TxListener>, lva: bool, sendEmpty: bool, room: nat, buf: seq<Byte>, eof: nat, pos: nat)
    requires room <= ROOM && (sendEmpty ==> lva)
    requires var m := Message(xs, lva, sendEmpty, room);
             m.Some? && m.value != [] && Holds(buf, pos, m.value) && pos + |m.value| <= eof <= |buf|
    ensures var m := Message(xs, lva, sendEmpty, room).value;
            var r := ParseListener(buf, eof, pos, false);
            && r.status == Good && r.pos == pos + |m| - 2
            && r.rx == (if lva then [RxLeaveAll] else []) + RxItems(xs, Picked(xs, 0, 0, room))
  {
    hide Emit, Picked, EncodeVectors, Decoded, ParseVectors, ListLengthOk, Wrap;
    var vs := Emit(xs, 0, 0, lva, room).vectors;
    EmitSound(xs, 0, 0, lva, room);
    if vs == [] {
      WrappedListIsOk(buf, eof, pos, EMPTY_LEAVEALL);
      EmptyLeaveAllParses(buf, eof, pos + 4);
    } else {
      SomeBytes(vs);
      WrappedListIsOk(buf, eof, pos, EncodeVectors(vs));
      ParseEncoded(buf, eof, pos + 4, vs, false);
      DecodedFlag(vs, lva);
    }
  }

  // ---------------------------------------------------------------------
  // Nothing that must be sent is left out
  // ---------------------------------------------------------------------

  /** Between i and stop, ks holds the positions of the listeners sent, each once and
      in order, and whatever had to be sent is among them. */
  ghost predicate SendsExactly(xs: seq<TxListener>, i: nat, stop: nat, ks: seq<nat>)
    requires i <= stop <= |xs|
  {
    && (forall k :: k in ks ==> i <= k < stop && xs[k].listener && Sendable(xs[k].sndmsg))
    && (forall a, b :: 0 <= a < b < |ks| ==> ks[a] < ks[b])
    && (forall k :: i <= k < stop && xs[k].listener && !xs[k].optional ==> k in ks)
  }

  lemma SendsExactlyRun(xs: seq<TxListener>, i: nat, j: nat, stop: nat, rest: seq<nat>)
    requires i < j <= stop <= |xs| && SendsExactly(xs, j, stop, rest)
    requires forall k :: i <= k < j ==> xs[k].listener && Sendable(xs[k].sndmsg)
    ensures SendsExactly(xs, i, stop, Range(i, j) + rest)
  {
    var run := Range(i, j);
    var ks := run + rest;
    forall a, b | 0 <= a < b < |ks| ensures ks[a] < ks[b] {
      if a < |run| <= b {
        assert ks[b] == rest[b - |run|] && rest[b - |run|] in rest;
      }
    }
    forall k | i <= k < stop && xs[k].listener && !xs[k].optional ensures k in ks {
      if k < j {
        assert ks[k - i] == k;
      }
    }
  }

  lemma {:induction false} PickedExactly(xs: seq<TxListener>, i: nat, at: nat, lva: bool, room: nat)
    requires i <= |xs| && Emit(xs, i, at, lva, room).Emitted?
    ensures SendsExactly(xs, i, Emit(xs, i, at, lva, room).stop, Picked(xs, i, at, room))
    decreases |xs| - i
  {
    hide RunEnd, Codes, Subs, Emit, Picked, Inc;
    if !StartsRun(xs, i, at, room) {
      NoTurn(xs, i, at, lva, room);
      if i < |xs| && at + 15 < room {
        PickedExactly(xs, i + 1, at, lva, room);
      }
    } else {
      hide SendsExactly;
      EmitTurn(xs, i, at, lva, room);
      RunIsConsecutive(xs, i, i + 1);
      var j := RunEnd(xs, i + 1);
      var end := VectorStart(at) + Size(j - i);
      PickedExactly(xs, j, end, false, room);
      assert forall k :: i <= k < j ==> xs[k] == xs[i..j][k - i];
      SendsExactlyRun(xs, i, j, Emit(xs, i, at, lva, room).stop, Picked(xs, j, end, room));
    }
  }

  /** The message keeps inside the room it is given, except that the empty LeaveAll
      takes 16 bytes where 13 were asked for. */
  lemma FitsRoom(xs: seq<TxListener>, lva: bool, sendEmpty: bool, room: nat)
    requires room <= ROOM && Message(xs, lva, sendEmpty, room).Some?
    ensures |Message(xs, lva, sendEmpty, room).value| <= room <==> !(sendEmpty && room < 16)
  {
    hide Picked, EncodeVectors, Decoded, RxItems;
    EmitSound(xs, 0, 0, lva, room);
  }

  /** With substates 1 to 3 the receiver reports one triple for each listener sent. */
  lemma {:induction false} Triples(xs: seq<TxListener>, ks: seq<nat>)
    requires Within(ks, |xs|) && forall i :: 0 <= i < |ks| ==> xs[ks[i]].sub != IGNORE
    ensures |RxItems(xs, ks)| == |ks|
    ensures forall i :: 0 <= i < |ks| ==>
              var t := xs[ks[i]];
              RxItems(xs, ks)[i] == RxListener(t.id, CodeEvent(CodeOf(t)).value, t.sub)
  {
    if ks == [] {
    } else {
      Triples(xs, ks[1..]);
      assert forall i :: 0 < i < |ks| ==> ks[i] == ks[1..][i - 1];
    }
  }
}
