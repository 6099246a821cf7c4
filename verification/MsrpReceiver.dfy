/** The Listener case of msrp_recv_msg on the database itself: every decoded event is
    handed to msrp_event, which works on the linked list. */
module MsrpReceiver {
  import opened Mrp
  import opened MrpPdu
  import opened AttribList
  import opened ListenerCodec
  import opened RxBounds
  import opened MsrpInvariants
  import opened ListenerReceiver
  import opened MsrpSpec
  import opened MsrpDatabase
  import opened MsrpLink

  /** The event and the attribute that msrp_recv_msg makes for a decoded item. */
  method TakeOne(db: Database, r: Rx)
    requires db.list.Valid()
    modifies db`mrp, db.list, db.list.repr
    ensures db.list.Valid() && fresh(db.list.repr - old(db.list.repr))
    ensures db.View() == HandleRx(old(db.View()), r, db.p2p)
  {
    hide Handle, Allocated, List.Valid, List.Contents;
    var q := if r.RxLeaveAll? then Announced(NO_STREAM, IGNORE) else Announced(r.id, r.sub);
    AllocatedIs(q);
    var n := new Node(Allocated(q));
    var rc := db.Event(if r.RxLeaveAll? then RLA else r.e, n);
  }

  lemma AllocatedIs(q: Request)
    ensures Allocated(q).subject == q.subject && Allocated(q).op == q.op
  {
  }

  /** Decodes a Listener message at pos and runs the database through its events. */
  method Receive(db: Database, buf: seq<Byte>, eof: nat, pos: nat, saw: bool) returns (r: Parsed<Rx>)
    requires db.list.Valid() && eof <= |buf|
    modifies db`mrp, db.list, db.list.repr
    ensures db.list.Valid() && r == ParseListener(buf, eof, pos, saw)
    ensures db.View() == Deliver(old(db.View()), r.rx, db.p2p)
    ensures ZeroFrom(buf, eof) && eof + 11 <= |buf| && pos + 2 < eof ==> r.status != Overrun
  {
    hide ParseListener, HandleRx, Deliver, List.Valid, List.Contents;
    ghost var m := db.View();
    r := RecvListener(buf, eof, pos, saw);
    DeliverNothing(m, db.p2p);
    for i := 0 to |r.rx|
      invariant db.list.Valid() && fresh(db.list.repr - old(db.list.repr))
      invariant db.View() == Deliver(m, r.rx[..i], db.p2p)
    {
      DeliverNext(m, r.rx, i, db.p2p);
      TakeOne(db, r.rx[i]);
    }
    assert r.rx[..|r.rx|] == r.rx;
  }

  lemma DeliverNothing(m: Mad, p2p: bool)
    ensures Deliver(m, [], p2p) == m
  {
  }

  lemma DeliverNext(m: Mad, rx: seq<Rx>, i: nat, p2p: bool)
    requires i < |rx|
    ensures Deliver(m, rx[..i + 1], p2p) == HandleRx(Deliver(m, rx[..i], p2p), rx[i], p2p)
  {
    assert rx[..i + 1][..i] == rx[..i];
  }
}
