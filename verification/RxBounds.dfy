/** How much zeroed room behind a received frame keeps the parsers inside their buffer. */
module RxBounds {
  import opened Mrp
  import opened MrpPdu
  import V = VidCodec
  import L = ListenerCodec

  /** mrpd_recvmsgbuf clears its buffer, so all is zero behind the bytes received. */
  predicate ZeroFrom(buf: seq<Byte>, eof: nat) {
    forall i :: eof <= i < |buf| ==> buf[i] == 0
  }

  function Zeros(n: nat): (r: seq<Byte>)
    ensures |r| == n && forall i :: 0 <= i < n ==> r[i] == 0
  {
    seq(n, _ => 0)
  }

  // ---------------------------------------------------------------------
  // MVRP
  // ---------------------------------------------------------------------

  /** A vector starts at most two bytes behind the frame, and there it is an end mark. */
  lemma {:induction false} VidVectorsInside(buf: seq<Byte>, eof: nat, pos: nat, saw: bool)
    requires ZeroFrom(buf, eof) && eof + 4 <= |buf| && pos <= eof + 2
    ensures !V.ParseVectors(buf, eof, pos, saw).status.Overrun?
    decreases |buf| - pos
  {
    hide V.Values;
    if buf[pos] == 0 && buf[pos + 1] == 0 {
    } else {
      var n := Word(buf, pos) % 0x2000;
      if n > 0 && pos + 2 + n / 3 < eof {
        VidVectorsInside(buf, eof, pos + 4 + Packed3(n), saw || Word(buf, pos) / 0x2000 == 1);
      }
    }
  }

  lemma {:induction false} VidMessagesInside(buf: seq<Byte>, version: Byte, eof: nat, pos: nat, marks: nat, saw: bool)
    requires ZeroFrom(buf, eof) && eof + 4 <= |buf|
    ensures !V.ParseMessages(buf, version, eof, pos, marks, saw).status.Overrun?
    decreases |buf| - pos
  {
    hide V.ParseVectors;
    if pos + 2 >= eof {
    } else if buf[pos] == 0 && buf[pos + 1] == 0 {
      VidMessagesInside(buf, version, eof, pos + 2, marks + 1, saw);
    } else if buf[pos] == V.VID_TYPE {
      VidVectorsInside(buf, eof, pos + 2, saw);
      var v := V.ParseVectors(buf, eof, pos + 2, saw);
      if v.status.Good? {
        VidMessagesInside(buf, version, eof, v.pos, 0, v.saw);
      }
    } else {
      var next := pos + 4 + buf[pos + 1] + Packed3(Word(buf, pos + 2) % 0x2000);
      VidMessagesInside(buf, version, eof, next, 0, saw);
    }
  }

  /** Four zeroed bytes behind the frame are enough. */
  lemma VidInside(buf: seq<Byte>, bytes: nat)
    requires ZeroFrom(buf, bytes) && bytes + 4 <= |buf|
    ensures !V.ParseFrame(buf, bytes).status.Overrun?
  {
    if bytes >= 17 {
      VidMessagesInside(buf, buf[14], bytes, BODY, 0, false);
    }
  }

  /** A frame whose one vector claims one packed byte more than was received. */
  function CutVector(bytes: nat, size: nat): (r: seq<Byte>)
    requires 20 <= bytes <= FRAME && bytes <= size
    ensures |r| == size && ZeroFrom(r, bytes)
  {
    var n := 3 * (bytes - 20) + 1;
    V.MVRP_ADDR + Zeros(6) + [0x88, 0xF5, 0] + [V.VID_TYPE, 2, n / 256, n % 256] + Zeros(size - 19)
  }

  lemma CutVectorOverruns(bytes: nat, size: nat)
    requires 20 <= bytes <= FRAME && bytes <= size < bytes + 4
    ensures V.ParseFrame(CutVector(bytes, size), bytes).status.Overrun?
  {
    hide V.Values;
    var buf, n := CutVector(bytes, size), 3 * (bytes - 20) + 1;
    assert buf[0..6] == V.MVRP_ADDR && Word(buf, 12) == 0x88F5;
    assert buf[15] == V.VID_TYPE && buf[16] == 2 && buf[17] == n / 256 && buf[18] == n % 256;
    assert Word(buf, 17) == n && n % 0x2000 == n && n / 3 == bytes - 20 && Packed3(n) == bytes - 19;
    assert V.ParseVectors(buf, bytes, 17, false).status.Overrun?;
  }

  /** And no fewer will do, for any length a frame can have. */
  lemma VidInsideIff(bytes: nat, size: nat)
    requires 20 <= bytes <= FRAME && bytes <= size
    ensures (forall buf :: |buf| == size && ZeroFrom(buf, bytes) ==> !V.ParseFrame(buf, bytes).status.Overrun?)
       <==> bytes + 4 <= size
  {
    hide V.ParseFrame;
    if bytes + 4 <= size {
      forall buf | |buf| == size && ZeroFrom(buf, bytes) ensures !V.ParseFrame(buf, bytes).status.Overrun? {
        VidInside(buf, bytes);
      }
    } else {
      CutVectorOverruns(bytes, size);
      assert V.ParseFrame(CutVector(bytes, size), bytes).status.Overrun?;
    }
  }

  // ---------------------------------------------------------------------
  // The Listener message of MSRP
  // ---------------------------------------------------------------------

  /** A vector without values is stepped over with its first value, unseen. */
  lemma {:induction false} ListenerVectorsInside(buf: seq<Byte>, eof: nat, pos: nat, saw: bool)
    requires ZeroFrom(buf, eof) && eof + 11 <= |buf| && pos <= eof + 9
    ensures !L.ParseVectors(buf, eof, pos, saw).status.Overrun?
    decreases |buf| - pos
  {
    hide L.Values, L.Substates;
    if buf[pos] == 0 && buf[pos + 1] == 0 {
    } else {
      var n, saw' := Word(buf, pos) % 0x2000, saw || Word(buf, pos) / 0x2000 == 1;
      if n == 0 {
        ListenerVectorsInside(buf, eof, pos + 10, saw');
      } else if pos + L.Size(n) < eof {
        ListenerVectorsInside(buf, eof, pos + L.Size(n), saw');
      }
    }
  }

  /** Eleven zeroed bytes behind the frame are enough. */
  lemma ListenerInside(buf: seq<Byte>, eof: nat, pos: nat, saw: bool)
    requires ZeroFrom(buf, eof) && eof + 11 <= |buf| && pos + 2 < eof
    ensures !L.ParseListener(buf, eof, pos, saw).status.Overrun?
  {
    hide L.ParseVectors;
    ListenerVectorsInside(buf, eof, pos + 4, saw);
  }

  /** A message of one listener, and behind it the first byte of a LeaveAll without
      values.  The end mark that the length test wants lies inside the listener. */
  const CUT_MESSAGE: seq<Byte> := [L.LISTENER_TYPE, L.LISTENER_LENGTH, 0, 11, 0, 1] + Zeros(10) + [0x20]

  function CutListener(eof: nat, size: nat): (r: seq<Byte>)
    requires 17 <= eof <= size
    ensures |r| == size && ZeroFrom(r, eof)
  {
    Zeros(eof - 17) + CUT_MESSAGE + Zeros(size - eof)
  }

  lemma CutVectorsOverrun(buf: seq<Byte>, eof: nat, saw: bool)
    requires 17 <= eof <= |buf| < eof + 11 && ZeroFrom(buf, eof)
    requires buf[eof - 13] == 0 && buf[eof - 12] == 1 && buf[eof - 1] == 0x20
    ensures L.ParseVectors(buf, eof, eof - 13, saw).status.Overrun?
  {
    hide L.Values, L.Substates;
    assert Word(buf, eof - 13) == 1;
    assert L.ParseVectors(buf, eof, eof + 9, true).status.Overrun?;
    assert L.ParseVectors(buf, eof, eof + 9, saw).status.Overrun?;
    assert L.ParseVectors(buf, eof, eof - 1, saw).status.Overrun?;
  }

  lemma CutListenerOverruns(eof: nat, size: nat, saw: bool)
    requires 17 <= eof <= size < eof + 11
    ensures L.ParseListener(CutListener(eof, size), eof, eof - 17, saw).status.Overrun?
  {
    hide L.Values, L.Substates;
    var buf, pos := CutListener(eof, size), eof - 17;
    assert forall k :: 0 <= k < 17 ==> buf[pos + k] == CUT_MESSAGE[k];
    assert Word(buf, pos + 2) == 11 && Word(buf, pos + 4) == 1 && buf[pos + 13] == 0 && buf[pos + 14] == 0;
    assert L.ListLengthOk(buf, eof, pos + 2) == Some(true);
    CutVectorsOverrun(buf, eof, saw);
  }

  /** And no fewer will do. */
  lemma ListenerInsideIff(eof: nat, size: nat, saw: bool)
    requires 17 <= eof <= size
    ensures (forall buf, pos: nat :: |buf| == size && ZeroFrom(buf, eof) && pos + 2 < eof ==>
               !L.ParseListener(buf, eof, pos, saw).status.Overrun?)
       <==> eof + 11 <= size
  {
    hide L.ParseListener;
    if eof + 11 <= size {
      forall buf, pos: nat | |buf| == size && ZeroFrom(buf, eof) && pos + 2 < eof
        ensures !L.ParseListener(buf, eof, pos, saw).status.Overrun?
      {
        ListenerInside(buf, eof, pos, saw);
      }
    } else {
      CutListenerOverruns(eof, size, saw);
    }
  }
}
