/** msrp_emit_listenvectors as it runs: one walk over the linked list that clears tx
    flags and stores packed bytes in the frame, each before the bounds test that may
    reject it. */
module ListenerEncoder {
  import opened Mrp
  import opened MrpPdu
  import opened MrpPacking
  import opened AttribList
  import opened ListenerCodec

  /** What the encoder sees of an attribute, and its tx flag. */
  datatype Attr = Attr(t: TxListener, tx: bool)

  function Listeners(s: seq<Attr>): (r: seq<TxListener>)
    ensures |r| == |s|
    ensures forall i :: 0 <= i < |s| ==> r[i] == s[i].t
  {
    seq(|s|, i requires 0 <= i < |s| => s[i].t)
  }

  /** Only tx flags differ. */
  ghost predicate OnlyTx(s: seq<Attr>, s': seq<Attr>) {
    |s'| == |s| && forall k :: 0 <= k < |s| ==> s'[k].t == s[k].t
  }

  /** Among the listeners, those before stop have their flag cleared and the others
      have it set; the other attributes are untouched. */
  ghost predicate ClearedTo(s: seq<Attr>, s': seq<Attr>, stop: nat) {
    && OnlyTx(s, s')
    && (forall k :: 0 <= k < |s| ==> s'[k].tx == if s[k].t.listener then k >= stop else s[k].tx)
  }

  lemma ClearedOneMore(s: seq<Attr>, s': seq<Attr>, j: nat)
    requires ClearedTo(s, s', j) && j < |s|
    ensures s'[j].t == s[j].t && (s[j].t.listener ==> s'[j].tx)
    ensures s[j].t.listener ==> ClearedTo(s, s'[j := Attr(s[j].t, false)], j + 1)
    ensures !s[j].t.listener ==> ClearedTo(s, s', j + 1)
  {
  }

  // ---------------------------------------------------------------------
  // One run
  // ---------------------------------------------------------------------

  /** The attributes i .. j-1 of a run have been taken into a vector. */
  ghost predicate Scanned(xs: seq<TxListener>, i: nat, j: nat, subs: seq<Substate>) {
    i < j <= |xs| && RunEnd(xs, j) == RunEnd(xs, i + 1) && AllSendable(xs[i..j]) && subs == Subs(xs[i..j])
  }

  lemma ScannedGrows(xs: seq<TxListener>, i: nat, j: nat, subs: seq<Substate>)
    requires Scanned(xs, i, j, subs) && j < |xs| && xs[j].listener && xs[j].id == Inc(xs[j - 1].id)
    ensures j < RunEnd(xs, i + 1) && xs[j] in xs[i..RunEnd(xs, i + 1)]
    ensures Sendable(xs[j].sndmsg) ==> Scanned(xs, i, j + 1, subs + [xs[j].sub])
    ensures Codes(xs[i..j + 1]) == Codes(xs[i..j]) + [CodeOf(xs[j])]
  {
    hide Inc;
    assert xs[i..j + 1] == xs[i..j] + [xs[j]];
    assert xs[i..RunEnd(xs, i + 1)][j - i] == xs[j];
  }

  lemma ScannedEnds(xs: seq<TxListener>, i: nat, j: nat, subs: seq<Substate>)
    requires Scanned(xs, i, j, subs) && !(j < |xs| && xs[j].listener && xs[j].id == Inc(xs[j - 1].id))
    ensures j == RunEnd(xs, i + 1)
  {
  }

  lemma ScannedMeans(xs: seq<TxListener>, i: nat, j: nat, subs: seq<Substate>)
    requires Scanned(xs, i, j, subs)
    ensures i < j <= |xs| && j <= RunEnd(xs, i + 1) && AllSendable(xs[i..j]) && subs == Subs(xs[i..j])
  {
  }

  /** Whether the run that starts at i can be sent. */
  ghost predicate RunFits(xs: seq<TxListener>, i: nat, start: nat, room: nat)
    requires i < |xs|
  {
    var j := RunEnd(xs, i + 1);
    AllSendable(xs[i..j]) && FitsAt(j - i, start + Size(j - i), room)
  }

  lemma TooLong(xs: seq<TxListener>, i: nat, j: nat, start: nat, room: nat)
    requires i < j <= |xs| && j <= RunEnd(xs, i + 1) && start + 10 + (j - i) / 3 + 2 > room
    ensures !RunFits(xs, i, start, room)
  {
    hide RunEnd, AllSendable;
  }

  lemma NotSendable(xs: seq<TxListener>, i: nat, j: nat, start: nat, room: nat)
    requires i < |xs| && j < |xs| && xs[j] in xs[i..RunEnd(xs, i + 1)] && !Sendable(xs[j].sndmsg)
    ensures !RunFits(xs, i, start, room)
  {
  }

  /** What the encoder finds at the next attribute. */
  datatype Scan = RunOver | Huh | Got(code: Code, sub: Substate)

  method NextInRun(list: List<Attr>, vattrib: Node?<Attr>, id: StreamId, ghost s: seq<Attr>,
                   ghost i: nat, ghost j: nat, ghost subs: seq<Substate>)
    returns (r: Scan)
    requires list.Valid() && vattrib == list.At(j) && ClearedTo(s, list.Contents(), j)
    requires Scanned(Listeners(s), i, j, subs) && id == Listeners(s)[j - 1].id
    modifies list.nodes`value
    ensures list.Valid() && OnlyTx(s, list.Contents())
    ensures var xs := Listeners(s);
            match r
            case RunOver => list.Contents() == old(list.Contents()) && j == RunEnd(xs, i + 1)
            case Huh => j < |xs| && xs[j] in xs[i..RunEnd(xs, i + 1)] && !Sendable(xs[j].sndmsg)
            case Got(c, sub) =>
              && vattrib != null && vattrib.next == list.At(j + 1) && j < |xs| && xs[j].id == Inc(id)
              && ClearedTo(s, list.Contents(), j + 1) && Scanned(xs, i, j + 1, subs + [sub])
              && Codes(xs[i..j + 1]) == Codes(xs[i..j]) + [c]
  {
    hide Inc, Scanned, RunEnd, AllSendable, ClearedTo, List.Valid;
    ghost var xs := Listeners(s);
    ScannedMeans(xs, i, j, subs);
    ClearedLength(s, list.Contents(), j);
    if vattrib == null {
      ScannedEnds(xs, i, j, subs);
      return RunOver;
    }
    list.Links(j);
    ClearedOneMore(s, list.Contents(), j);
    var t := vattrib.value.t;
    if !t.listener || !vattrib.value.tx || t.id != Inc(id) {
      ScannedEnds(xs, i, j, subs);
      return RunOver;
    }
    ScannedGrows(xs, i, j, subs);
    list.Set(vattrib, j, Attr(t, false));
    ClearedLength(s, list.Contents(), j + 1);
    if !Sendable(t.sndmsg) {
      return Huh;
    }
    r := Got(CodeOf(t), t.sub);
  }

  lemma ClearedLength(s: seq<Attr>, s': seq<Attr>, j: nat)
    requires ClearedTo(s, s', j)
    ensures |s'| == |s| && OnlyTx(s, s')
  {
  }

  /** A run has been taken up to j, and its packed events lie behind offset start + 10. */
  ghost predicate Taking(s: seq<Attr>, s': seq<Attr>, b: seq<Byte>, start: nat, i: nat, j: nat,
                         subs: seq<Substate>, evt: seq<Code>) {
    && Scanned(Listeners(s), i, j, subs) && ClearedTo(s, s', j) && |evt| == 3 && |subs| == j - i
    && start + 10 + |subs| / 3 + 2 <= |b|
    && Stored(b, start + 10, Codes(Listeners(s)[i..j]), evt)
  }

  lemma TakingMeans(s: seq<Attr>, s': seq<Attr>, b: seq<Byte>, start: nat, i: nat, j: nat,
                    subs: seq<Substate>, evt: seq<Code>)
    requires Taking(s, s', b, start, i, j, subs, evt)
    ensures i < j <= |s| == |s'| && j <= RunEnd(Listeners(s), i + 1) && AllSendable(Listeners(s)[i..j])
    ensures OnlyTx(s, s') && ClearedTo(s, s', j) && subs == Subs(Listeners(s)[i..j]) && |subs| == j - i && |evt| == 3
    ensures Scanned(Listeners(s), i, j, subs) && Stored(b, start + 10, Codes(Listeners(s)[i..j]), evt)
    ensures start + 10 + |subs| / 3 + 2 <= |b|
  {
    ScannedMeans(Listeners(s), i, j, subs);
  }

  /** One turn of the inner loop; RunOver ends it, Huh makes the encoder fail. */
  method TakeNext(list: List<Attr>, buf: array<Byte>, start: nat, vattrib: Node?<Attr>, id: StreamId,
                  subs: seq<Substate>, evt: seq<Code>, ghost s: seq<Attr>, ghost i: nat, ghost j: nat)
    returns (r: Scan, evt': seq<Code>)
    requires list.Valid() && vattrib == list.At(j)
    requires Taking(s, list.Contents(), buf[..], start, i, j, subs, evt) && id == Listeners(s)[j - 1].id
    modifies buf, list.nodes`value
    ensures list.Valid() && OnlyTx(s, list.Contents()) && buf[..start + 10] == old(buf[..start + 10])
    ensures var xs := Listeners(s);
            match r
            case RunOver =>
              evt' == evt && j == RunEnd(xs, i + 1) && Taking(s, list.Contents(), buf[..], start, i, j, subs, evt)
            case Huh => !RunFits(xs, i, start, buf.Length)
            case Got(_, sub) =>
              && vattrib != null && vattrib.next == list.At(j + 1) && j < |xs| && xs[j].id == Inc(id)
              && start + 10 + (|subs| + 1) / 3 + 2 <= buf.Length
              && Taking(s, list.Contents(), buf[..], start, i, j + 1, subs + [sub], evt')
  {
    hide Inc, Stored, RunFits, Scanned, Taking, RunEnd, AllSendable, ClearedTo, OnlyTx, Codes, List.Contents,
         List.Valid;
    ghost var xs := Listeners(s);
    TakingMeans(s, list.Contents(), buf[..], start, i, j, subs, evt);
    evt' := evt;
    r := NextInRun(list, vattrib, id, s, i, j, subs);
    if r.Huh? {
      NotSendable(xs, i, j, start, buf.Length);
    } else if r.Got? {
      ghost var s1 := list.Contents();
      evt' := StoreCode(buf, start + 10, evt, |subs|, r.code, Codes(xs[i..j]));
      assert list.Valid() && list.Contents() == s1;
      if start + 10 + (|subs| + 1) / 3 + 2 > buf.Length {
        ScannedMeans(xs, i, j + 1, subs + [r.sub]);
        TooLong(xs, i, j + 1, start, buf.Length);
        r := Huh;
        return;
      }
      TakingIs(s, list.Contents(), buf[..], start, i, j + 1, subs + [r.sub], evt');
    }
  }

  lemma TakingIs(s: seq<Attr>, s': seq<Attr>, b: seq<Byte>, start: nat, i: nat, j: nat,
                 subs: seq<Substate>, evt: seq<Code>)
    requires Scanned(Listeners(s), i, j, subs) && ClearedTo(s, s', j) && |evt| == 3
    requires start + 10 + |subs| / 3 + 2 <= |b| && Stored(b, start + 10, Codes(Listeners(s)[i..j]), evt)
    ensures Taking(s, s', b, start, i, j, subs, evt)
  {
  }

  /** The inner loop: the rest of the run behind its first attribute. */
  method ScanRun(list: List<Attr>, buf: array<Byte>, start: nat, attrib: Node<Attr>, ghost s: seq<Attr>, ghost i: nat)
    returns (ok: bool, subs: seq<Substate>)
    requires list.Valid() && i < |list.nodes| && list.nodes[i] == attrib && attrib.next == list.At(i + 1)
    requires ClearedTo(s, list.Contents(), i + 1) && i < |s| && attrib.value.t == s[i].t && Sendable(s[i].t.sndmsg)
    requires start + 12 <= buf.Length
    modifies buf, list.nodes`value
    ensures list.Valid() && OnlyTx(s, list.Contents()) && buf[..start + 10] == old(buf[..start + 10])
    ensures var xs, room := Listeners(s), buf.Length;
            var j := RunEnd(xs, i + 1);
            if !ok then !RunFits(xs, i, start, room)
            else && subs == Subs(xs[i..j]) && AllSendable(xs[i..j]) && ClearedTo(s, list.Contents(), j)
                 && start + 10 + Packed3(j - i) < room
                 && buf[start + 10..start + 10 + Packed3(j - i)] == Pack3(Codes(xs[i..j]))
  {
    hide Inc, Taking, Stored, RunFits, Scanned, Pack3, RunEnd, AllSendable, CodeOf, ClearedTo, OnlyTx;
    hide List.Contents, List.Valid;
    ghost var xs, j := Listeners(s), i + 1;
    RunStarts(xs, i);
    var t, vattrib := attrib.value.t, attrib.next;
    var id, evt: seq<Code> := t.id, [CodeOf(t), 0, 0];
    StoredStarts(buf[..], start + 10, CodeOf(t));
    ok, subs := false, [t.sub];
    TakingIs(s, list.Contents(), buf[..], start, i, j, subs, evt);
    while true
      invariant j <= |xs| && vattrib == list.At(j) && list.Valid() && i < j && id == xs[j - 1].id
      invariant Taking(s, list.Contents(), buf[..], start, i, j, subs, evt)
      invariant buf[..start + 10] == old(buf[..start + 10])
      decreases |xs| - j
    {
      var r;
      r, evt := TakeNext(list, buf, start, vattrib, id, subs, evt, s, i, j);
      if r.RunOver? {
        break;
      } else if r.Huh? {
        return;
      }
      id, subs, j, vattrib := Inc(id), subs + [r.sub], j + 1, vattrib.next;
    }
    TakingMeans(s, list.Contents(), buf[..], start, i, j, subs, evt);
    StoreTrailer(buf, start + 10, evt, |subs|, Codes(xs[i..j]));
    ok := true;
  }

  lemma RunStarts(xs: seq<TxListener>, i: nat)
    requires i < |xs| && Sendable(xs[i].sndmsg)
    ensures Scanned(xs, i, i + 1, [xs[i].sub]) && Codes(xs[i..i + 1]) == [CodeOf(xs[i])]
  {
  }

  // ---------------------------------------------------------------------
  // Substates, four to a byte
  // ---------------------------------------------------------------------

  /** Stores the substates from offset pos on, with a bounds test before and after each
      full byte, and one at the end. */
  method PackSubstates(buf: array<Byte>, subs: seq<Substate>, pos: nat) returns (ok: bool)
    requires subs != [] && pos < buf.Length
    modifies buf
    ensures buf[..pos] == old(buf[..pos])
    ensures ok <==> FitsAt(|subs|, pos + Packed4(|subs|), buf.Length)
    ensures ok ==> buf[pos..pos + Packed4(|subs|)] == Pack4(subs)
  {
    hide Pack4;
    var n, k := |subs| / 4, 0;
    ok := false;
    while k < n
      invariant 4 * k <= 4 * n && k <= n && pos + k < buf.Length && buf[..pos] == old(buf[..pos])
      invariant buf[pos..pos + k] == Pack4(subs)[..k]
      invariant k > 0 ==> pos + k + 3 <= buf.Length
    {
      if pos + k + 2 > buf.Length {
        return;
      }
      StoreFour(buf, pos, k, subs);
      k := k + 1;
      if pos + k + 3 > buf.Length {
        return;
      }
    }
    if 4 * k < |subs| {
      StoreFour(buf, pos, k, subs);
    }
    ok := pos + Packed4(|subs|) + 2 <= buf.Length;
    assert Pack4(subs)[..Packed4(|subs|)] == Pack4(subs);
  }

  /** Stores the k-th byte of substates, filled up with zeros. */
  method StoreFour(buf: array<Byte>, pos: nat, k: nat, subs: seq<Substate>)
    requires 4 * k < |subs| && pos + k < buf.Length && buf[pos..pos + k] == Pack4(subs)[..k]
    modifies buf
    ensures buf[..pos] == old(buf[..pos]) && buf[pos..pos + k + 1] == Pack4(subs)[..k + 1]
  {
    hide PackFour;
    buf[pos + k] := PackFour(SubAt(subs, 4 * k), SubAt(subs, 4 * k + 1), SubAt(subs, 4 * k + 2),
                             SubAt(subs, 4 * k + 3));
    assert Pack4(subs)[..k + 1] == Pack4(subs)[..k] + [Pack4(subs)[k]];
    assert buf[pos..pos + k] == old(buf[pos..pos + k]);
    assert buf[pos..pos + k + 1] == buf[pos..pos + k] + [buf[pos + k]];
  }

  // ---------------------------------------------------------------------
  // One vector
  // ---------------------------------------------------------------------

  /** The run at i as a vector. */
  function RunVector(xs: seq<TxListener>, i: nat, lva: bool): Vector
    requires i < |xs|
  {
    var run := xs[i..RunEnd(xs, i + 1)];
    Vector(lva, xs[i].id, Codes(run), Subs(run))
  }

  /** The parts of a vector behind its header. */
  lemma Parts(b: seq<Byte>, p: nat, id: StreamId, events: seq<Byte>, packed: seq<Byte>)
    requires p + 8 + |events| + |packed| <= |b| && b[p..p + 8] == id
    requires b[p + 8..p + 8 + |events|] == events
    requires b[p + 8 + |events|..p + 8 + |events| + |packed|] == packed
    ensures b[p..p + 8 + |events| + |packed|] == id + events + packed
  {
    var q := p + 8 + |events|;
    assert b[p..q + |packed|] == b[p..p + 8] + b[p + 8..q] + b[q..q + |packed|];
  }

  /** Takes up the first attribute of a run: its flag is cleared and its stream ID is
      the first value. */
  method StartRun(list: List<Attr>, buf: array<Byte>, start: nat, attrib: Node<Attr>, ghost s: seq<Attr>, ghost i: nat)
    requires list.Valid() && i < |list.nodes| && list.nodes[i] == attrib && ClearedTo(s, list.Contents(), i)
    requires i < |s| && s[i].t.listener && start + 12 <= buf.Length
    modifies buf, attrib`value
    ensures list.Valid() && OnlyTx(s, list.Contents()) && ClearedTo(s, list.Contents(), i + 1)
            && attrib.value.t == s[i].t
    ensures buf[..start] == old(buf[..start]) && buf[start + 2..start + 10] == s[i].t.id
  {
    hide ClearedTo, OnlyTx, List.Contents, List.Valid;
    ClearedLength(s, list.Contents(), i);
    ClearedOneMore(s, list.Contents(), i);
    list.Set(attrib, i, Attr(attrib.value.t, false));
    ClearedLength(s, list.Contents(), i + 1);
    ghost var b := buf[..];
    Write(buf, start + 2, attrib.value.t.id);
    SliceKept(b, buf[..], start + 2, 0, start);
  }

  /** The first value, the events and the substates of the run at i. */
  method EmitRun(list: List<Attr>, buf: array<Byte>, start: nat, attrib: Node<Attr>, ghost s: seq<Attr>, ghost i: nat)
    returns (ok: bool, n: nat)
    requires list.Valid() && i < |list.nodes| && list.nodes[i] == attrib && ClearedTo(s, list.Contents(), i)
    requires i < |s| && s[i].t.listener && start + 12 <= buf.Length
    modifies buf, list.nodes`value
    ensures list.Valid() && OnlyTx(s, list.Contents()) && buf[..start] == old(buf[..start])
    ensures ok <==> RunFits(Listeners(s), i, start, buf.Length)
    ensures ok ==>
              var xs := Listeners(s);
              var j := RunEnd(xs, i + 1);
              && n == j - i && ClearedTo(s, list.Contents(), j) && start + Size(n) + 2 <= buf.Length
              && buf[start + 2..start + Size(n)] == xs[i].id + Pack3(Codes(xs[i..j])) + Pack4(Subs(xs[i..j]))
  {
    hide ClearedTo, OnlyTx, RunEnd, AllSendable, RunFits, FitsAt, Size, Pack3, Pack4, Codes, Subs;
    hide List.Contents, List.Valid;
    ghost var xs := Listeners(s);
    ok, n := false, 0;
    StartRun(list, buf, start, attrib, s, i);
    if !Sendable(attrib.value.t.sndmsg) {
      FirstNotSendable(xs, i, start, buf.Length);
      return;
    }
    list.Links(i);
    ghost var b := buf[..];
    var subs;
    ok, subs := ScanRun(list, buf, start, attrib, s, i);
    SliceKept(b, buf[..], start + 10, 0, start);
    if ok {
      SliceKept(b, buf[..], start + 10, start + 2, start + 10);
      n := |subs|;
      ghost var s1 := list.Contents();
      ok := EmitSubstates(buf, start, subs, xs[i].id, Pack3(Codes(xs[i..i + n])));
      assert list.Valid() && list.Contents() == s1;
      RunFitsIs(xs, i, start, buf.Length);
    }
  }

  /** The substates behind first value and events. */
  method EmitSubstates(buf: array<Byte>, start: nat, subs: seq<Substate>, ghost id: StreamId, ghost events: seq<Byte>)
    returns (ok: bool)
    requires var mid := start + 10 + |events|;
             && subs != [] && |events| == Packed3(|subs|) && mid < buf.Length
             && buf[start + 2..start + 10] == id && buf[start + 10..mid] == events
    modifies buf
    ensures buf[..start] == old(buf[..start])
    ensures ok <==> FitsAt(|subs|, start + Size(|subs|), buf.Length)
    ensures ok ==> buf[start + 2..start + Size(|subs|)] == id + events + Pack4(subs)
  {
    hide Pack4;
    var mid := start + 10 + Packed3(|subs|);
    ghost var c := buf[..];
    ok := PackSubstates(buf, subs, mid);
    SliceKept(c, buf[..], mid, 0, start);
    if ok {
      SliceKept(c, buf[..], mid, start + 2, start + 10);
      SliceKept(c, buf[..], mid, start + 10, mid);
      Parts(buf[..], start + 2, id, events, Pack4(subs));
    }
  }

  lemma FirstNotSendable(xs: seq<TxListener>, i: nat, start: nat, room: nat)
    requires i < |xs| && !Sendable(xs[i].sndmsg)
    ensures !RunFits(xs, i, start, room)
  {
    assert xs[i..RunEnd(xs, i + 1)][0] == xs[i];
  }

  lemma RunFitsIs(xs: seq<TxListener>, i: nat, start: nat, room: nat)
    requires i < |xs| && AllSendable(xs[i..RunEnd(xs, i + 1)])
    ensures var n := RunEnd(xs, i + 1) - i; RunFits(xs, i, start, room) <==> FitsAt(n, start + Size(n), room)
    ensures var n := RunEnd(xs, i + 1) - i; FitsAt(n, start + Size(n), room) ==> start + Size(n) + 2 <= room
  {
  }

  lemma VectorIs(xs: seq<TxListener>, i: nat, lva: bool, n: nat)
    requires i < |xs| && n == RunEnd(xs, i + 1) - i
    ensures var h, run := Header(n, lva), xs[i..i + n];
            EncodeVector(RunVector(xs, i, lva))
            == [h / 256, h % 256] + (xs[i].id + Pack3(Codes(run)) + Pack4(Subs(run)))
  {
    hide EncodeVector, Pack3, Pack4, Codes, Subs, RunEnd, Header;
    EncodedIs(RunVector(xs, i, lva));
  }

  lemma EncodedIs(v: Vector)
    ensures var h := Header(|v.codes|, v.lva);
            EncodeVector(v) == [h / 256, h % 256] + (v.first + Pack3(v.codes) + Pack4(v.subs))
  {
    hide Pack3, Pack4, Header;
  }

  /** A whole vector; its header comes last. */
  method EmitVector(list: List<Attr>, buf: array<Byte>, start: nat, lva: bool, attrib: Node<Attr>,
                    ghost s: seq<Attr>, ghost i: nat)
    returns (ok: bool, end: nat)
    requires list.Valid() && i < |list.nodes| && list.nodes[i] == attrib && ClearedTo(s, list.Contents(), i)
    requires i < |s| && s[i].t.listener && start + 12 <= buf.Length
    modifies buf, list.nodes`value
    ensures list.Valid() && OnlyTx(s, list.Contents()) && buf[..start] == old(buf[..start])
    ensures ok <==> RunFits(Listeners(s), i, start, buf.Length)
    ensures ok ==>
              var xs := Listeners(s);
              var j := RunEnd(xs, i + 1);
              && end == start + Size(j - i) && end + 2 <= buf.Length && ClearedTo(s, list.Contents(), j)
              && buf[start..end] == EncodeVector(RunVector(xs, i, lva))
  {
    hide ClearedTo, OnlyTx, RunEnd, RunFits, Pack3, Pack4, Codes, Subs, Header, EncodeVector, RunVector;
    hide List.Contents, List.Valid;
    var n;
    end := 0;
    ok, n := EmitRun(list, buf, start, attrib, s, i);
    if ok {
      end := start + Size(n);
      ghost var s1 := list.Contents();
      PutHeader(buf, start, Header(n, lva), end, buf[start + 2..end]);
      assert list.Valid() && list.Contents() == s1;
      VectorIs(Listeners(s), i, lva, n);
    }
  }

  // ---------------------------------------------------------------------
  // The whole message
  // ---------------------------------------------------------------------

  lemma {:induction false} EncodeVectorsAppend(vs: seq<Vector>, v: Vector)
    ensures EncodeVectors(vs + [v]) == EncodeVectors(vs) + EncodeVector(v)
  {
    hide EncodeVector;
    if vs == [] {
      assert vs + [v] == [v] && [v][1..] == [];
    } else {
      assert (vs + [v])[1..] == vs[1..] + [v];
      EncodeVectorsAppend(vs[1..], v);
    }
  }

  /** The vectors vs lie in the frame behind the message header, the attributes before
      stop are dealt with, and the rest of the emission is to follow. */
  ghost predicate Emitting(xs: seq<TxListener>, lva: bool, b: seq<Byte>, vs: seq<Vector>, stop: nat, at: nat) {
    && stop <= |xs|
    && at == (if vs == [] then 0 else 4 + |EncodeVectors(vs)|)
    && VectorStart(at) <= |b| && b[4..VectorStart(at)] == EncodeVectors(vs)
    && Emit(xs, 0, 0, lva, |b|) == Continue(vs, Emit(xs, stop, at, lva && vs == [], |b|))
  }

  lemma EmittingStarts(xs: seq<TxListener>, lva: bool, b: seq<Byte>)
    requires |b| >= 4
    ensures Emitting(xs, lva, b, [], 0, 0)
  {
  }

  lemma EmittingBound(xs: seq<TxListener>, lva: bool, b: seq<Byte>, vs: seq<Vector>, stop: nat, at: nat)
    requires Emitting(xs, lva, b, vs, stop, at)
    ensures stop <= |xs| && (at == 0 <==> vs == []) && 4 <= VectorStart(at) <= |b|
  {
    SomeBytes(vs);
  }

  lemma EmittingSkips(xs: seq<TxListener>, lva: bool, b: seq<Byte>, vs: seq<Vector>, stop: nat, at: nat)
    requires Emitting(xs, lva, b, vs, stop, at) && stop < |xs| && at + 15 < |b|
    requires !xs[stop].listener || xs[stop].optional
    ensures Emitting(xs, lva, b, vs, stop + 1, at)
  {
    hide EncodeVectors, RunEnd, AllSendable, Codes, Subs;
  }

  /** One more vector, in the emission. */
  lemma EmitTurn(xs: seq<TxListener>, vs: seq<Vector>, i: nat, at: nat, lva: bool, room: nat)
    requires i < |xs| && at + 15 < room && xs[i].listener && !xs[i].optional
    ensures !RunFits(xs, i, VectorStart(at), room) ==> Continue(vs, Emit(xs, i, at, lva, room)).Oops?
    ensures RunFits(xs, i, VectorStart(at), room) ==>
              var v, j := RunVector(xs, i, lva), RunEnd(xs, i + 1);
              Continue(vs, Emit(xs, i, at, lva, room))
              == Continue(vs + [v], Emit(xs, j, VectorStart(at) + Size(j - i), false, room))
  {
    hide RunEnd, AllSendable, Codes, Subs, FitsAt;
    var v, j := RunVector(xs, i, lva), RunEnd(xs, i + 1);
    var rest := Emit(xs, j, VectorStart(at) + Size(j - i), false, room);
    if rest.Emitted? {
      assert vs + ([v] + rest.vectors) == vs + [v] + rest.vectors;
    }
  }

  lemma EmittingRun(xs: seq<TxListener>, lva: bool, b: seq<Byte>, b': seq<Byte>, vs: seq<Vector>, stop: nat, at: nat,
                    end: nat)
    requires Emitting(xs, lva, b, vs, stop, at) && stop < |xs| && RunFits(xs, stop, VectorStart(at), |b|)
    requires at + 15 < |b| == |b'| && xs[stop].listener && !xs[stop].optional
    requires end == VectorStart(at) + Size(RunEnd(xs, stop + 1) - stop) <= |b|
    requires b'[..VectorStart(at)] == b[..VectorStart(at)]
    requires b'[VectorStart(at)..end] == EncodeVector(RunVector(xs, stop, lva && vs == []))
    ensures Emitting(xs, lva, b', vs + [RunVector(xs, stop, lva && vs == [])], RunEnd(xs, stop + 1), end)
  {
    hide Emit, RunEnd, RunFits, EncodeVectors, EncodeVector, RunVector, Size;
    var v, start := RunVector(xs, stop, lva && vs == []), VectorStart(at);
    EmitTurn(xs, vs, stop, at, lva && vs == [], |b|);
    EncodeVectorsAppend(vs, v);
    SliceKept(b, b', start, 4, start);
    assert b'[4..end] == b'[4..start] + b'[start..end];
    assert |b'[4..end]| == end - 4;
    SizeIsPositive(RunEnd(xs, stop + 1) - stop);
  }

  lemma SizeIsPositive(n: nat)
    ensures Size(n) >= 10
  {
  }

  lemma EmittingFails(xs: seq<TxListener>, lva: bool, b: seq<Byte>, vs: seq<Vector>, stop: nat, at: nat)
    requires Emitting(xs, lva, b, vs, stop, at) && stop < |xs| && !RunFits(xs, stop, VectorStart(at), |b|)
    requires at + 15 < |b| && xs[stop].listener && !xs[stop].optional
    ensures Emit(xs, 0, 0, lva, |b|).Oops?
  {
    hide Emit, RunFits, RunVector, RunEnd;
    EmitTurn(xs, vs, stop, at, lva && vs == [], |b|);
  }

  lemma EmittingEnds(xs: seq<TxListener>, lva: bool, b: seq<Byte>, vs: seq<Vector>, stop: nat, at: nat)
    requires Emitting(xs, lva, b, vs, stop, at) && (stop == |xs| || at + 15 >= |b|)
    ensures Emit(xs, 0, 0, lva, |b|) == Emitted(vs, stop)
    ensures VectorStart(at) <= |b| && b[4..VectorStart(at)] == EncodeVectors(vs)
  {
  }

  /** The run at stop becomes the next vector, or the encoder fails. */
  method EmitNext(list: List<Attr>, buf: array<Byte>, at: nat, flag: bool, attrib: Node<Attr>,
                  ghost s: seq<Attr>, ghost lva: bool, ghost vs: seq<Vector>, ghost stop: nat)
    returns (ok: bool, end: nat)
    requires list.Valid() && stop < |list.nodes| && list.nodes[stop] == attrib && ClearedTo(s, list.Contents(), stop)
    requires Emitting(Listeners(s), lva, buf[..], vs, stop, at) && flag == (lva && vs == []) && at + 15 < buf.Length
    requires stop < |s| && s[stop].t.listener && !s[stop].t.optional
    modifies buf, list.nodes`value
    ensures list.Valid() && OnlyTx(s, list.Contents()) && buf[..4] == old(buf[..4])
    ensures var xs := Listeners(s);
            if !ok then Emit(xs, 0, 0, lva, buf.Length).Oops?
            else && ClearedTo(s, list.Contents(), RunEnd(xs, stop + 1)) && 0 < end <= buf.Length - 2
                 && Emitting(xs, lva, buf[..], vs + [RunVector(xs, stop, flag)], RunEnd(xs, stop + 1), end)
  {
    hide Emitting, Emit, ClearedTo, OnlyTx, RunFits, RunEnd, RunVector, EncodeVector, Size, List.Contents, List.Valid;
    ghost var xs, b := Listeners(s), buf[..];
    EmittingBound(xs, lva, b, vs, stop, at);
    ok, end := EmitVector(list, buf, VectorStart(at), flag, attrib, s, stop);
    SliceKept(b, buf[..], VectorStart(at), 0, 4);
    if ok {
      EmittingRun(xs, lva, b, buf[..], vs, stop, at, end);
      SizeIsPositive(RunEnd(xs, stop + 1) - stop);
    } else {
      EmittingFails(xs, lva, b, vs, stop, at);
    }
  }

  /** The walk over the list.  A listener that a vector has already taken up is met
      again with its flag cleared. */
  method EmitAll(list: List<Attr>, buf: array<Byte>, lva: bool, ghost s: seq<Attr>)
    returns (ok: bool, at: nat, ghost vs: seq<Vector>, ghost stop: nat)
    requires list.Valid() && ClearedTo(s, list.Contents(), 0) && buf.Length >= 4
    modifies buf, list.nodes`value
    ensures list.Valid() && OnlyTx(s, list.Contents()) && buf[..4] == old(buf[..4])
    ensures var xs := Listeners(s);
            if !ok then Emit(xs, 0, 0, lva, buf.Length).Oops?
            else && Emit(xs, 0, 0, lva, buf.Length) == Emitted(vs, stop) && ClearedTo(s, list.Contents(), stop)
                 && (at == 0 <==> vs == []) && (at > 0 ==> at + 2 <= buf.Length)
                 && 4 <= VectorStart(at) <= buf.Length && buf[4..VectorStart(at)] == EncodeVectors(vs)
                 && (vs == [] ==> buf[..] == old(buf[..]))
  {
    hide Emitting, Emit, EncodeVectors, ClearedTo, OnlyTx, RunEnd, RunVector, List.Contents, List.Valid;
    ghost var xs, i := Listeners(s), 0;
    EmittingStarts(xs, lva, buf[..]);
    ClearedLength(s, list.Contents(), 0);
    list.Links(0);
    var flag, attrib := lva, list.head;
    ok, at, vs, stop := true, 0, [], 0;
    while at + 15 < buf.Length && attrib != null
      invariant i <= stop <= |s| == |list.nodes| && attrib == list.At(i) && list.Valid()
      invariant ClearedTo(s, list.Contents(), stop) && Emitting(xs, lva, buf[..], vs, stop, at)
      invariant flag == (lva && vs == []) && buf[..4] == old(buf[..4]) && (at > 0 ==> at + 2 <= buf.Length)
      invariant vs == [] ==> buf[..] == old(buf[..])
      decreases |s| - i
    {
      list.Links(i);
      ClearedAt(s, list.Contents(), stop, i);
      var t := attrib.value.t;
      if t.listener && attrib.value.tx && !t.optional {
        ok, at := EmitNext(list, buf, at, flag, attrib, s, lva, vs, stop);
        if !ok {
          return;
        }
        flag := false;
        vs, stop := vs + [RunVector(xs, stop, lva && vs == [])], RunEnd(xs, stop + 1);
      } else {
        if i == stop {
          EmittingSkips(xs, lva, buf[..], vs, stop, at);
          ClearedOneMore(s, list.Contents(), stop);
          stop := stop + 1;
        }
        if t.listener {
          list.Set(attrib, i, Attr(t, false));
        }
      }
      attrib := attrib.next;
      i := i + 1;
    }
    ClearedLength(s, list.Contents(), stop);
    EmittingBound(xs, lva, buf[..], vs, stop, at);
    EmittingEnds(xs, lva, buf[..], vs, stop, at);
  }

  /** What the walk finds at the i-th attribute. */
  lemma ClearedAt(s: seq<Attr>, s': seq<Attr>, stop: nat, i: nat)
    requires ClearedTo(s, s', stop) && i <= stop <= |s| && i < |s|
    ensures |s'| == |s| && s'[i].t == s[i].t
    ensures s[i].t.listener ==> (s'[i].tx <==> i == stop)
    ensures s[i].t.listener && i < stop ==> s'[i := Attr(s[i].t, false)] == s'
  {
  }

  /** Every listener is marked for transmission. */
  method Mark(list: List<Attr>)
    requires list.Valid()
    modifies list.nodes`value
    ensures list.Valid() && ClearedTo(old(list.Contents()), list.Contents(), 0)
  {
    hide Marked, ClearedTo, List.Contents, List.Valid;
    ghost var s, i := list.Contents(), 0;
    MarkedStarts(s);
    list.Links(0);
    var attrib := list.head;
    while attrib != null
      invariant 0 <= i <= |s| == |list.nodes| && attrib == list.At(i) && list.Valid()
      invariant Marked(s, list.Contents(), i)
      decreases |s| - i
    {
      list.Links(i);
      MarkedGoesOn(s, list.Contents(), i);
      if attrib.value.t.listener {
        list.Set(attrib, i, Attr(attrib.value.t, true));
      }
      attrib := attrib.next;
      i := i + 1;
    }
    MarkedEnds(s, list.Contents());
  }

  /** The listeners among the first i attributes are marked. */
  ghost predicate Marked(s: seq<Attr>, s': seq<Attr>, i: nat) {
    && i <= |s| == |s'|
    && (forall k :: 0 <= k < |s| ==> s'[k] == if k < i && s[k].t.listener then Attr(s[k].t, true) else s[k])
  }

  lemma MarkedStarts(s: seq<Attr>)
    ensures Marked(s, s, 0)
  {
  }

  lemma MarkedGoesOn(s: seq<Attr>, s': seq<Attr>, i: nat)
    requires Marked(s, s', i) && i < |s|
    ensures s'[i] == s[i]
    ensures Marked(s, if s[i].t.listener then s'[i := Attr(s[i].t, true)] else s', i + 1)
  {
  }

  lemma MarkedEnds(s: seq<Attr>, s': seq<Attr>)
    requires Marked(s, s', |s|)
    ensures ClearedTo(s, s', 0)
  {
  }

  /** msrp_emit_listenvectors, with a zeroed buffer that ends where the frame does.  All
      stores lie inside it; where the source would store the empty LeaveAll past its end,
      the model stops with `overrun`. */
  method EmitListeners(list: List<Attr>, buf: array<Byte>, lva: bool, sendEmpty: bool)
    returns (rc: int, used: nat, overrun: bool)
    requires list.Valid() && buf.Length <= ROOM && forall k :: 0 <= k < buf.Length ==> buf[k] == 0
    modifies buf, list.nodes`value
    ensures list.Valid() && OnlyTx(old(list.Contents()), list.Contents())
    ensures overrun <==> sendEmpty && 13 <= buf.Length < 16
    ensures var s := old(list.Contents());
            var m := Message(Listeners(s), lva, sendEmpty, buf.Length);
            !overrun ==>
              match m
              case None => rc == -1 && used == 0
              case Some(bytes) =>
                && rc == 0 && used == |bytes| <= buf.Length && buf[..used] == bytes
                && ClearedTo(s, list.Contents(), Emit(Listeners(s), 0, 0, lva, buf.Length).stop)
  {
    hide Emit, EncodeVectors, Wrap, ClearedTo, OnlyTx, List.Contents, List.Valid;
    ghost var s, room := list.Contents(), buf.Length;
    rc, used, overrun := -1, 0, false;
    OnlyTxSelf(s);
    if buf.Length < 13 {
      return;
    }
    buf[0], buf[1] := LISTENER_TYPE, LISTENER_LENGTH;
    ghost var b := buf[..];
    Mark(list);
    var ok, at;
    ghost var vs, stop;
    NothingBegins(Listeners(s), lva, room);
    ok, at, vs, stop := EmitAll(list, buf, lva, s);
    if !ok {
      return;
    }
    ghost var s1 := list.Contents();
    if at == 0 && sendEmpty && buf.Length < 16 {
      overrun := true;
      return;
    }
    used := EndMessage(buf, at, sendEmpty, EncodeVectors(vs));
    assert list.Valid() && list.Contents() == s1;
    rc := 0;
  }

  lemma OnlyTxSelf(s: seq<Attr>)
    ensures OnlyTx(s, s)
  {
  }

  /** In fewer than 16 bytes no vector is begun. */
  lemma NothingBegins(xs: seq<TxListener>, lva: bool, room: nat)
    ensures room < 16 ==> Emit(xs, 0, 0, lva, room) == Emitted([], 0)
  {
  }

  /** Behind the walk: the empty LeaveAll if there is no vector, the end mark, and the
      length of the list. */
  method EndMessage(buf: array<Byte>, at: nat, sendEmpty: bool, ghost list: seq<Byte>) returns (used: nat)
    requires 13 <= buf.Length <= ROOM && buf[0] == LISTENER_TYPE && buf[1] == LISTENER_LENGTH
    requires 4 <= VectorStart(at) <= buf.Length && buf[4..VectorStart(at)] == list && (at > 0 ==> at + 2 <= buf.Length)
    requires at == 0 ==> (forall k :: 2 <= k < buf.Length ==> buf[k] == 0) && (sendEmpty ==> buf.Length >= 16)
    modifies buf
    ensures used <= buf.Length
    ensures buf[..used] == if at > 0 then Wrap(list) else if sendEmpty then Wrap(EMPTY_LEAVEALL) else []
  {
    if at == 0 && !sendEmpty {
      return 0;
    }
    ghost var body := if at > 0 then list else EMPTY_LEAVEALL;
    var end := at;
    if at == 0 {
      end := 14;
      buf[4], buf[5] := 0x20, 0;
      assert buf[4..14] == EMPTY_LEAVEALL;
    }
    Close(buf, end, body);
    used := end + 2;
  }

  method Close(buf: array<Byte>, end: nat, ghost list: seq<Byte>)
    requires 4 <= end && end + 2 <= buf.Length <= ROOM && buf[4..end] == list
    requires buf[0] == LISTENER_TYPE && buf[1] == LISTENER_LENGTH
    modifies buf
    ensures buf[..end + 2] == Wrap(list)
  {
    buf[end], buf[end + 1] := 0, 0;
    var n := end - 2;
    buf[2], buf[3] := n / 256 % 256, n % 256;
    assert buf[4..end] == list;
    assert buf[..end + 2] == buf[..4] + buf[4..end] + buf[end..end + 2];
    assert buf[..4] == [LISTENER_TYPE, LISTENER_LENGTH, n / 256 % 256, n % 256];
    assert buf[end..end + 2] == [0, 0];
  }
}
