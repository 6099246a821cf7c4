/** mvrp_recv_msg: parse a received buffer and hand each event to mvrp_event. */
module MvrpReceiver {
  import opened Mrp
  import opened Seqs
  import opened MrpPdu
  import opened VidCodec
  import opened RxBounds
  import opened AttribList
  import opened MvrpSpec
  import opened MvrpEncoder
  import opened MvrpDatabase

  /** The database has taken the events rx since it was in state m with notes n,
      and has sent nothing. */
  ghost predicate Taken(db: Database, m: Mad, n: seq<Note>, w: seq<seq<Byte>>, rx: seq<Rx>)
    reads db, db.list, db.list.repr, db.list.nodes
  {
    var o := Deliver(m, rx, db.port);
    db.Valid() && db.View() == o.mad && db.notes == n + o.notes && db.wire == w
  }

  lemma DeliverGrows(m: Mad, rx: seq<Rx>, r: Rx, port: Port)
    ensures var o := Deliver(m, rx, port);
            var o' := HandleRx(o.mad, r, port);
            Deliver(m, rx + [r], port) == Outcome(o'.mad, None, o.notes + o'.notes)
  {
    hide HandleRx;
    assert (rx + [r])[..|rx + [r]| - 1] == rx;
  }

  /** One event. */
  method TakeEvent(db: Database, r: Rx, ghost m: Mad, ghost n: seq<Note>, ghost w: seq<seq<Byte>>, ghost rx: seq<Rx>)
    requires Taken(db, m, n, w, rx) && (r.RxLeaveAll? || AttributeEvent(r.e))
    modifies db, db.list, db.list.repr
    ensures Taken(db, m, n, w, rx + [r])
    ensures fresh(db.list.repr - old(db.list.repr))
  {
    hide Handle, Deliver, Alloc, List.Valid, List.Contents, Items, NothingPending;
    DeliverGrows(m, rx, r, db.port);
    SendsNothing(Deliver(m, rx, db.port).mad, if r.RxLeaveAll? then RLA else r.e,
                 if r.RxLeaveAll? then None else Some(r.vid), db.port);
    Associative(n, Deliver(m, rx, db.port).notes, HandleRx(Deliver(m, rx, db.port).mad, r, db.port).notes);
    match r {
      case RxLeaveAll =>
        var rc := db.Event(RLA, null);
      case RxValue(vid, e) =>
        var attrib := new Node(Alloc(vid));
        AllocVid(vid);
        var rc := db.Event(e, attrib);
    }
  }

  lemma AllocVid(vid: nat)
    ensures Alloc(vid).vid == vid
  {
  }

  /** One value of a vector: VIDs above 0xFFF are dropped and not counted up. */
  method RecvValue(db: Database, vid: nat, code: int, ghost m: Mad, ghost n: seq<Note>, ghost w: seq<seq<Byte>>,
                   ghost rx: seq<Rx>)
    returns (vid': nat)
    requires Taken(db, m, n, w, rx)
    modifies db, db.list, db.list.repr
    ensures Taken(db, m, n, w, rx + RxOf(vid, code))
    ensures vid' == if vid <= 0xFFF then vid + 1 else vid
    ensures fresh(db.list.repr - old(db.list.repr))
  {
    hide Taken, Deliver;
    if vid > 0xFFF {
      assert rx + RxOf(vid, code) == rx;
      return vid;
    }
    if CodeEvent(code).None? {
      assert rx + RxOf(vid, code) == rx;
    } else {
      TakeEvent(db, RxValue(vid, CodeEvent(code).value), m, n, w, rx);
    }
    vid' := vid + 1;
  }

  /** The first k of the values have been decoded to `done`, and vid is the next VID, or
      any above 0xFFF. */
  ghost predicate Decoding(buf: seq<Byte>, p: nat, first: nat, n: nat, k: nat, vid: nat, done: seq<Rx>) {
    && k <= n && p + Packed3(n) <= |buf|
    && (vid <= 0xFFF <==> first + k <= 0xFFF) && (vid <= 0xFFF ==> vid == first + k)
    && done + Values(buf, p, first, k, n) == Values(buf, p, first, 0, n)
  }

  lemma DecodingStarts(buf: seq<Byte>, p: nat, first: nat, n: nat)
    requires p + Packed3(n) <= |buf|
    ensures Decoding(buf, p, first, n, 0, first, [])
  {
    hide Values;
  }

  lemma DecodingGoesOn(buf: seq<Byte>, p: nat, first: nat, n: nat, idx: nat, j: nat, vid: nat, done: seq<Rx>)
    requires j < 3 && 3 * idx + j < n && Decoding(buf, p, first, n, 3 * idx + j, vid, done)
    ensures p + idx < |buf|
    ensures Decoding(buf, p, first, n, 3 * idx + j + 1, if vid <= 0xFFF then vid + 1 else vid,
                     done + RxOf(vid, Unpack(buf[p + idx], j)))
  {
    hide Unpack, RxOf;
    var k := 3 * idx + j;
    assert k / 3 == idx && k % 3 == j;
    RxOfSame(vid, first + k, Unpack(buf[p + idx], j));
    Associative(done, RxOf(vid, Unpack(buf[p + idx], j)), Values(buf, p, first, k + 1, n));
  }

  lemma DecodingEnds(buf: seq<Byte>, p: nat, first: nat, n: nat, vid: nat, done: seq<Rx>)
    requires Decoding(buf, p, first, n, n, vid, done)
    ensures p + Packed3(n) <= |buf| && done == Values(buf, p, first, 0, n)
  {
    assert done + [] == done;
  }

  /** The values of one packed byte. */
  method RecvByte(db: Database, buf: seq<Byte>, ghost p: nat, ghost first: nat, ghost numvalues: nat,
                  ghost idx: nat, b: Byte, processed: nat, vid: nat,
                  ghost m: Mad, ghost n: seq<Note>, ghost w: seq<seq<Byte>>, ghost rx: seq<Rx>, ghost done: seq<Rx>)
    returns (vid': nat, ghost done': seq<Rx>)
    requires Taken(db, m, n, w, rx + done) && processed <= 3 && 3 * idx + processed <= numvalues
    requires Decoding(buf, p, first, numvalues, 3 * idx, vid, done) && p + idx < |buf| && b == buf[p + idx]
    modifies db, db.list, db.list.repr
    ensures Taken(db, m, n, w, rx + done') && fresh(db.list.repr - old(db.list.repr))
    ensures Decoding(buf, p, first, numvalues, 3 * idx + processed, vid', done')
  {
    hide Taken, Decoding, Unpack, RxOf;
    vid', done' := vid, done;
    for j := 0 to processed
      invariant Decoding(buf, p, first, numvalues, 3 * idx + j, vid', done')
      invariant Taken(db, m, n, w, rx + done') && fresh(db.list.repr - old(db.list.repr))
    {
      DecodingGoesOn(buf, p, first, numvalues, idx, j, vid', done');
      ghost var r := RxOf(vid', Unpack(b, j));
      Associative(rx, done', r);
      vid' := RecvValue(db, vid', Unpack(b, j), m, n, w, rx + done');
      done' := done' + r;
    }
  }

  /** The values of one vector, three to a byte.  The loop reads one byte more than there
      are and makes nothing of it. */
  method RecvValues(db: Database, buf: seq<Byte>, p: nat, first: nat, numvalues: nat,
                    ghost m: Mad, ghost n: seq<Note>, ghost w: seq<seq<Byte>>, ghost rx: seq<Rx>)
    requires Taken(db, m, n, w, rx) && p + Packed3(numvalues) < |buf|
    modifies db, db.list, db.list.repr
    ensures Taken(db, m, n, w, rx + Values(buf, p, first, 0, numvalues))
    ensures fresh(db.list.repr - old(db.list.repr))
  {
    hide Taken, Decoding, Values;
    var vid, left, idx := first, numvalues, 0;
    ghost var done := [];
    DecodingStarts(buf, p, first, numvalues);
    assert rx + done == rx;
    while idx <= Packed3(numvalues)
      invariant idx <= Packed3(numvalues) + 1 && left == if 3 * idx < numvalues then numvalues - 3 * idx else 0
      invariant Decoding(buf, p, first, numvalues, numvalues - left, vid, done)
      invariant Taken(db, m, n, w, rx + done) && fresh(db.list.repr - old(db.list.repr))
    {
      var b := buf[p + idx];
      var processed := if left > 3 then 3 else left;
      if processed > 0 {
        vid, done := RecvByte(db, buf, p, first, numvalues, idx, b, processed, vid, m, n, w, rx, done);
      }
      left, idx := left - processed, idx + 1;
    }
    DecodingEnds(buf, p, first, numvalues, vid, done);
  }

  lemma RxOfSame(vid: nat, vid': nat, c: int)
    requires (vid <= 0xFFF <==> vid' <= 0xFFF) && (vid <= 0xFFF ==> vid == vid')
    ensures RxOf(vid, c) == RxOf(vid', c)
  {
  }

  /** One turn of the vector loop. */
  method RecvVector(db: Database, buf: seq<Byte>, eof: nat, pos: nat, saw: bool,
                    ghost m: Mad, ghost n: seq<Note>, ghost w: seq<seq<Byte>>, ghost rx: seq<Rx>)
    returns (more: bool, pos': nat, saw': bool, status: Status, ghost r: seq<Rx>)
    requires Taken(db, m, n, w, rx)
    modifies db, db.list, db.list.repr
    ensures Taken(db, m, n, w, rx + r) && fresh(db.list.repr - old(db.list.repr))
    ensures more ==> pos < pos' && pos < |buf|
    ensures ParseVectors(buf, eof, pos, saw)
         == if more then Prepend(r, ParseVectors(buf, eof, pos', saw')) else Parsed(r, pos', saw', status)
  {
    hide Taken, Values;
    more, pos', saw', status, r := false, pos, saw, Good, [];
    assert rx + [] == rx;
    if pos + 1 >= |buf| {
      return false, pos, saw, Overrun, [];
    }
    if buf[pos] == 0 && buf[pos + 1] == 0 {
      return;
    }
    var numvalues := Word(buf, pos) % 0x2000;
    if Word(buf, pos) / 0x2000 == 1 && !saw {
      TakeEvent(db, RxLeaveAll, m, n, w, rx);
      saw', r := true, [RxLeaveAll];
    }
    if numvalues == 0 || pos + 2 + numvalues / 3 >= eof {
      status := Malformed;
      return;
    }
    if pos + 4 + Packed3(numvalues) >= |buf| {
      status := Overrun;
      return;
    }
    ghost var values := Values(buf, pos + 4, Word(buf, pos + 2), 0, numvalues);
    Associative(rx, r, values);
    RecvValues(db, buf, pos + 4, Word(buf, pos + 2), numvalues, m, n, w, rx + r);
    more, pos', r := true, pos + 4 + Packed3(numvalues), r + values;
  }

  /** The vector loop. */
  method RecvVectors(db: Database, buf: seq<Byte>, eof: nat, start: nat, saw: bool,
                     ghost m: Mad, ghost n: seq<Note>, ghost w: seq<seq<Byte>>, ghost rx: seq<Rx>)
    returns (pos: nat, saw': bool, status: Status)
    requires Taken(db, m, n, w, rx)
    modifies db, db.list, db.list.repr
    ensures var v := ParseVectors(buf, eof, start, saw);
            Taken(db, m, n, w, rx + v.rx) && pos == v.pos && saw' == v.saw && status == v.status
    ensures fresh(db.list.repr - old(db.list.repr))
  {
    hide Taken, ParseVectors;
    pos, saw', status := start, saw, Good;
    ghost var done := [];
    assert rx + done == rx;
    PrependNothing(ParseVectors(buf, eof, start, saw));
    var more := true;
    while more
      invariant more ==> ParseVectors(buf, eof, start, saw) == Prepend(done, ParseVectors(buf, eof, pos, saw'))
      invariant !more ==> ParseVectors(buf, eof, start, saw) == Parsed(done, pos, saw', status)
      invariant Taken(db, m, n, w, rx + done) && fresh(db.list.repr - old(db.list.repr))
      decreases more, |buf| - pos
    {
      ghost var r;
      more, pos, saw', status, r := RecvVector(db, buf, eof, pos, saw', m, n, w, rx + done);
      Associative(rx, done, r);
      if more {
        Associative(done, r, ParseVectors(buf, eof, pos, saw').rx);
      }
      done := done + r;
    }
  }

  /** One turn of the message loop. */
  method RecvMessage(db: Database, buf: seq<Byte>, version: Byte, eof: nat, pos: nat, endmarks: nat, saw: bool,
                     ghost m: Mad, ghost n: seq<Note>, ghost w: seq<seq<Byte>>, ghost rx: seq<Rx>)
    returns (more: bool, pos': nat, endmarks': nat, saw': bool, status: Status, ghost r: seq<Rx>)
    requires Taken(db, m, n, w, rx) && eof <= |buf|
    modifies db, db.list, db.list.repr
    ensures Taken(db, m, n, w, rx + r) && fresh(db.list.repr - old(db.list.repr))
    ensures more ==> pos < pos' && pos < |buf|
    ensures ParseMessages(buf, version, eof, pos, endmarks, saw)
         == if more then Prepend(r, ParseMessages(buf, version, eof, pos', endmarks', saw'))
            else Parsed(r, pos', saw', status)
  {
    hide Taken, ParseVectors;
    more, pos', endmarks', saw', status, r := false, pos, 0, saw, Good, [];
    assert rx + [] == rx;
    if pos + 2 >= eof {
      return;
    }
    if buf[pos] == 0 && buf[pos + 1] == 0 {
      pos', endmarks', more := pos + 2, endmarks + 1, endmarks + 1 < 2;
      PrependNothing(ParseMessages(buf, version, eof, pos + 2, endmarks + 1, saw));
      return;
    }
    if buf[pos] == VID_TYPE {
      if buf[pos + 1] != 2 {
        status := Malformed;
        return;
      }
      r := ParseVectors(buf, eof, pos + 2, saw).rx;
      pos', saw', status := RecvVectors(db, buf, eof, pos + 2, saw, m, n, w, rx);
      more := status.Good?;
      return;
    }
    if version == 0 {
      status := Malformed;
      return;
    }
    if pos + 3 >= |buf| {
      status := Overrun;
      return;
    }
    more, pos' := true, pos + 4 + buf[pos + 1] + Packed3(Word(buf, pos + 2) % 0x2000);
    PrependNothing(ParseMessages(buf, version, eof, pos', 0, saw));
  }

  /** mvrp_recv_msg on a buffer of which the first `bytes` bytes were received. */
  method RecvMsg(db: Database, buf: seq<Byte>, bytes: nat) returns (status: Status)
    requires db.Valid() && bytes <= |buf|
    modifies db, db.list, db.list.repr
    ensures var p := ParseFrame(buf, bytes);
            var o := Deliver(old(db.View()), p.rx, db.port);
            && status == p.status
            && db.Valid() && db.View() == o.mad && db.notes == old(db.notes) + o.notes && db.wire == old(db.wire)
    ensures ZeroFrom(buf, bytes) && bytes + 4 <= |buf| ==> status != Overrun
    ensures fresh(db.list.repr - old(db.list.repr))
  {
    if ZeroFrom(buf, bytes) && bytes + 4 <= |buf| {
      VidInside(buf, bytes);
    }
    ghost var m, n, w := db.View(), db.notes, db.wire;
    assert Taken(db, m, n, w, []) by {
      assert n + [] == n;
    }
    if bytes < 17 || Word(buf, 12) != 0x88F5 || buf[0..6] != MVRP_ADDR {
      return Malformed;
    }
    status := RecvMessages(db, buf, bytes, m, n, w);
  }

  /** The message loop. */
  method RecvMessages(db: Database, buf: seq<Byte>, eof: nat, ghost m: Mad, ghost n: seq<Note>, ghost w: seq<seq<Byte>>)
    returns (status: Status)
    requires Taken(db, m, n, w, []) && 17 <= eof <= |buf|
    modifies db, db.list, db.list.repr
    ensures var p := ParseMessages(buf, buf[14], eof, BODY, 0, false);
            Taken(db, m, n, w, p.rx) && status == p.status
    ensures fresh(db.list.repr - old(db.list.repr))
  {
    hide Taken, ParseMessages;
    var version := buf[14];
    var pos, endmarks, saw, more := BODY, 0, false, true;
    ghost var done := [];
    status := Good;
    PrependNothing(ParseMessages(buf, version, eof, BODY, 0, false));
    while more
      invariant more ==>
                  ParseMessages(buf, version, eof, BODY, 0, false)
                  == Prepend(done, ParseMessages(buf, version, eof, pos, endmarks, saw))
      invariant !more ==> ParseMessages(buf, version, eof, BODY, 0, false) == Parsed(done, pos, saw, status)
      invariant Taken(db, m, n, w, done) && fresh(db.list.repr - old(db.list.repr))
      decreases more, |buf| - pos
    {
      ghost var r;
      more, pos, endmarks, saw, status, r := RecvMessage(db, buf, version, eof, pos, endmarks, saw, m, n, w, done);
      if more {
        Associative(done, r, ParseMessages(buf, version, eof, pos, endmarks, saw).rx);
      }
      done := done + r;
    }
  }
}
