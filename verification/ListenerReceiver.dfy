/** The Listener case of msrp_recv_msg as it runs: substates are collected first, then
    the events are reported one by one.  The events passed to msrp_event are recorded
    in order. */
module ListenerReceiver {
  import opened Mrp
  import opened MrpPdu
  import opened ListenerCodec
  import opened RxBounds
  import opened Seqs

  /** The 4-packed bytes of a vector of n values. */
  method ReadSubstates(buf: seq<Byte>, p: nat, n: nat) returns (subs: seq<Substate>)
    requires p + Packed4(n) <= |buf|
    ensures subs == Substates(buf, p, n)
  {
    hide Unpack4;
    var left, j := n, 0;
    subs := [];
    while j < Packed4(n)
      invariant j <= Packed4(n) && left == (if 4 * j <= n then n - 4 * j else 0)
      invariant |subs| == n - left
      invariant forall k :: 0 <= k < |subs| ==> subs[k] == Unpack4(buf[p + k / 4], k % 4)
    {
      var b := buf[p + j];
      var m := if left > 4 then 4 else left;
      ghost var before := subs;
      subs := subs + [Unpack4(b, 0), Unpack4(b, 1), Unpack4(b, 2), Unpack4(b, 3)][..m];
      forall k | 0 <= k < |subs| ensures subs[k] == Unpack4(buf[p + k / 4], k % 4) {
        if k >= |before| {
          assert k / 4 == j && k % 4 == k - 4 * j;
        } else {
          assert subs[k] == before[k];
        }
      }
      left, j := left - m, j + 1;
    }
  }

  /** The m values of one 3-packed byte. */
  method ReadByte(b: Byte, m: nat, id: StreamId, subs: seq<Substate>) returns (rx: seq<Rx>, id': StreamId)
    requires m <= 3 && m <= |subs|
    ensures rx == OneByte(b, 0, m, id, subs) && id' == Advance(id, m)
  {
    hide Inc, Unpack, CodeEvent;
    rx, id' := [], id;
    var k := 0;
    while k < m
      invariant k <= m && Advance(id', m - k) == Advance(id, m)
      invariant rx + OneByte(b, k, m, id', subs[k..]) == OneByte(b, 0, m, id, subs)
    {
      assert subs[k..][1..] == subs[k + 1..];
      Associative(rx, RxOf(id', Unpack(b, k), subs[k]), OneByte(b, k + 1, m, Inc(id'), subs[k + 1..]));
      if subs[k] != IGNORE && CodeEvent(Unpack(b, k)).Some? {
        rx := rx + [RxListener(id', CodeEvent(Unpack(b, k)).value, subs[k])];
      } else {
        assert rx + [] == rx;
      }
      id', k := Inc(id'), k + 1;
    }
  }

  /** What the rest of the 3-packed bytes stands for. */
  ghost function Remaining(buf: seq<Byte>, p: nat, left: nat, id: StreamId, subs: seq<Substate>): seq<Rx>
    requires left <= |subs| && (left > 0 ==> p + Packed3(left) <= |buf|)
  {
    if left == 0 then [] else Values(buf, p, left, id, subs)
  }

  lemma RemainingStep(buf: seq<Byte>, p: nat, left: nat, id: StreamId, subs: seq<Substate>)
    requires left <= |subs| && p < |buf| && (left > 0 ==> p + Packed3(left) <= |buf|)
    ensures var m := if left > 3 then 3 else left;
            Remaining(buf, p, left, id, subs)
            == if Unpack(buf[p], 0) > CODE_LV then Remaining(buf, p + 1, left - m, id, subs)
               else OneByte(buf[p], 0, m, id, subs) + Remaining(buf, p + 1, left - m, Advance(id, m), subs[m..])
  {
    hide Inc, Unpack, Advance;
  }

  /** The 3-packed bytes of a vector of n values.  The loop reads one byte more than
      there are, the first byte of substates, and makes nothing of it. */
  method ReadValues(buf: seq<Byte>, p: nat, n: nat, first: StreamId, subs: seq<Substate>) returns (rx: seq<Rx>)
    requires 0 < n == |subs| && p + Packed3(n) < |buf|
    ensures rx == Values(buf, p, n, first, subs)
  {
    hide Inc, Unpack, OneByte, Advance, Remaining, Values;
    RemainingStarts(buf, p, n, first, subs);
    var left, j, id, rest := n, 0, first, subs;
    rx := [];
    while j <= Packed3(n)
      invariant j <= Packed3(n) + 1 && left == (if 3 * j <= n then n - 3 * j else 0) && left <= |rest|
      invariant rx + Remaining(buf, p + j, left, id, rest) == Values(buf, p, n, first, subs)
    {
      var b := buf[p + j];
      var m := if left > 3 then 3 else left;
      RemainingStep(buf, p + j, left, id, rest);
      if Unpack(b, 0) <= CODE_LV {
        Associative(rx, OneByte(b, 0, m, id, rest), Remaining(buf, p + j + 1, left - m, Advance(id, m), rest[m..]));
        var more, id' := ReadByte(b, m, id, rest);
        rx, id, rest := rx + more, id', rest[m..];
      }
      left, j := left - m, j + 1;
    }
    RemainingEnds(buf, p + j, id, rest);
  }

  lemma RemainingStarts(buf: seq<Byte>, p: nat, n: nat, id: StreamId, subs: seq<Substate>)
    requires 0 < n == |subs| && p + Packed3(n) <= |buf|
    ensures Remaining(buf, p, n, id, subs) == Values(buf, p, n, id, subs)
  {
  }

  lemma RemainingEnds(buf: seq<Byte>, p: nat, id: StreamId, subs: seq<Substate>)
    ensures Remaining(buf, p, 0, id, subs) == []
  {
  }

  /** One turn of the vector loop; `more` tells whether another follows. */
  method RecvVector(buf: seq<Byte>, eof: nat, pos: nat, saw: bool)
    returns (rx: seq<Rx>, pos': nat, saw': bool, status: Status, more: bool)
    requires eof <= |buf|
    ensures ParseVectors(buf, eof, pos, saw)
         == if more then Prepend(rx, ParseVectors(buf, eof, pos', saw')) else Parsed(rx, pos', saw', status)
    ensures more ==> pos < pos' && pos < |buf|
  {
    hide Values, Substates;
    rx, pos', saw', status, more := [], pos, saw, Good, false;
    if pos + 1 >= |buf| {
      status := Overrun;
      return;
    }
    if buf[pos] == 0 && buf[pos + 1] == 0 {
      return;
    }
    var n := Word(buf, pos) % 0x2000;
    if Word(buf, pos) / 0x2000 == 1 && !saw {
      rx, saw' := [RxLeaveAll], true;
    }
    if n == 0 {
      pos', more := pos + 10, true;
      return;
    }
    if pos + 2 + n / 3 + n / 4 >= eof {
      status := Malformed;
      return;
    }
    if pos + 10 + Packed3(n) + Packed4(n) >= eof {
      status := Malformed;
      return;
    }
    var subs := ReadSubstates(buf, pos + 10 + Packed3(n), n);
    var values := ReadValues(buf, pos + 10, n, buf[pos + 2..pos + 10], subs);
    rx, pos', more := rx + values, pos + 10 + Packed3(n) + Packed4(n), true;
  }

  /** The vectors up to the end mark. */
  method RecvVectors(buf: seq<Byte>, eof: nat, start: nat, saw: bool) returns (r: Parsed<Rx>)
    requires eof <= |buf|
    ensures r == ParseVectors(buf, eof, start, saw)
  {
    hide ParseVectors;
    r := Parsed([], start, saw, Good);
    var more := true;
    PrependNothing(ParseVectors(buf, eof, start, saw));
    while more
      invariant ParseVectors(buf, eof, start, saw)
             == if more then Prepend(r.rx, ParseVectors(buf, eof, r.pos, r.saw)) else r
      decreases more, |buf| - r.pos
    {
      var rx, pos', saw', status;
      rx, pos', saw', status, more := RecvVector(buf, eof, r.pos, r.saw);
      Associative(r.rx, rx, ParseVectors(buf, eof, pos', saw').rx);
      r := Parsed(r.rx + rx, pos', saw', status);
    }
  }

  /** The Listener case of the message loop. */
  method RecvListener(buf: seq<Byte>, eof: nat, pos: nat, saw: bool) returns (r: Parsed<Rx>)
    requires eof <= |buf|
    ensures r == ParseListener(buf, eof, pos, saw)
    ensures ZeroFrom(buf, eof) && eof + 11 <= |buf| && pos + 2 < eof ==> r.status != Overrun
  {
    hide ParseVectors;
    if ZeroFrom(buf, eof) && eof + 11 <= |buf| && pos + 2 < eof {
      ListenerInside(buf, eof, pos, saw);
    }
    r := Parsed([], pos, saw, Good);
    if pos + 5 >= |buf| {
      r := r.(status := Overrun);
    } else if buf[pos + 1] != LISTENER_LENGTH {
      r := r.(status := Malformed);
    } else {
      var ok := CheckListLength(buf, eof, pos + 2);
      if ok.None? {
        r := r.(status := Overrun);
      } else if ok.value {
        r := RecvVectors(buf, eof, pos + 4, saw);
      } else {
        var n := Word(buf, pos + 4) % 0x2000;
        r := r.(pos := pos + 4 + 10 + (n + 2) / 3 + (n + 3) / 4);
      }
    }
  }

  /** msrp_recv_msg_check_attrib_list_len. */
  method CheckListLength(buf: seq<Byte>, eof: nat, p: nat) returns (ok: Option<bool>)
    requires 1 <= p && p + 1 < |buf|
    ensures ok == ListLengthOk(buf, eof, p)
  {
    var n := Word(buf, p);
    if n < buf[p - 1] as int + 2 + 1 {
      return Some(false);
    }
    if p + n >= eof {
      return Some(false);
    }
    if p + n + 1 >= |buf| {
      return None;
    }
    ok := Some(!(buf[p + n] != 0 || buf[p + n + 1] != 0));
  }
}
