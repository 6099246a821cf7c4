/** MVRP's MRPDU coding (mvrp_emit_vidvectors, mvrp_txpdu and the parser of
    mvrp_recv_msg) as functions from and to bytes. */
module VidCodec {
  import opened Mrp
  import opened MrpPdu

  // ---------------------------------------------------------------------
  // Sending
  // ---------------------------------------------------------------------

  /** What the encoder reads of an attribute. */
  datatype TxItem = TxItem(vid: nat, tx: bool, optional: bool, sndmsg: Send, regIn: bool)

  function CodeOf(t: TxItem): Code { CodeFor(t.sndmsg, t.regIn) }

  /** One vector attribute: the LeaveAll flag, the first VID and one code for
      each of the consecutive VIDs that follow. */
  datatype Vector = Vector(lva: bool, first: nat, codes: seq<Code>)

  /** The end of the run of consecutive VIDs with tx set that holds index j - 1. */
  function RunEnd(xs: seq<TxItem>, j: nat): (r: nat)
    requires 0 < j <= |xs|
    ensures j <= r <= |xs|
    decreases |xs| - j
  {
    if j < |xs| && xs[j].tx && xs[j].vid == (xs[j - 1].vid + 1) % 0x1_0000 then RunEnd(xs, j + 1) else j
  }

  predicate AllSendable(xs: seq<TxItem>) {
    forall t :: t in xs ==> Sendable(t.sndmsg)
  }

  function Codes(xs: seq<TxItem>): (r: seq<Code>)
    ensures |r| == |xs|
    ensures forall k :: 0 <= k < |xs| ==> r[k] == CodeOf(xs[k])
  {
    seq(|xs|, k requires 0 <= k < |xs| => CodeOf(xs[k]))
  }

  /** The vector loop from attribute i on, with the next vector to go to offset
      pos of the message. */
  function Emit(xs: seq<TxItem>, i: nat, pos: nat, lva: bool): (r: Emission<Vector>)
    requires i <= |xs|
    ensures r.Emitted? ==> i <= r.stop <= |xs|
    decreases |xs| - i
  {
    if i == |xs| || pos >= ROOM - 8 then Emitted([], i)
    else if !xs[i].tx || xs[i].optional then Emit(xs, i + 1, pos, lva)
    else
      var j := RunEnd(xs, i + 1);
      var end := pos + 4 + Packed3(j - i);
      if !AllSendable(xs[i..j]) || end > ROOM - 2 then Oops
      else match Emit(xs, j, end, false)
        case Oops => Oops
        case Emitted(vs, stop) => Emitted([Vector(lva, xs[i].vid, Codes(xs[i..j]))] + vs, stop)
  }

  /** Header, first value and packed events, in network order. */
  function VectorBytes(h: nat, first: nat, events: seq<Byte>): (r: seq<Byte>)
    requires h < 0x1_0000
    ensures |r| == 4 + |events|
  {
    [h / 256, h % 256, first / 256 % 256, first % 256] + events
  }

  function EncodeVector(v: Vector): (r: seq<Byte>)
    ensures |r| == 4 + Packed3(|v.codes|)
  {
    VectorBytes(Header(|v.codes|, v.lva), v.first, Pack3(v.codes))
  }

  function EncodeVectors(vs: seq<Vector>): seq<Byte> {
    if vs == [] then [] else EncodeVector(vs[0]) + EncodeVectors(vs[1..])
  }

  const VID_TYPE: Byte := 1
  const EMPTY_LEAVEALL: seq<Byte> := [VID_TYPE, 2, 0x20, 0, 0, 0, 0, 0]

  /** mvrp_emit_vidvectors: None for -1, otherwise the bytes of the message. */
  function Message(xs: seq<TxItem>, lva: bool, sendEmpty: bool): Option<seq<Byte>> {
    match Emit(xs, 0, 2, lva)
    case Oops => None
    case Emitted(vs, _) =>
      if vs != [] then Some([VID_TYPE, 2] + EncodeVectors(vs) + [0, 0])
      else if sendEmpty then Some(EMPTY_LEAVEALL)
      else Some([])
  }

  type Mac = m: seq<Byte> | |m| == 6 witness [0, 0, 0, 0, 0, 0]

  const MVRP_ADDR: Mac := [0x01, 0x80, 0xC2, 0x00, 0x00, 0x21]

  /** The frame mvrp_txpdu hands to send(), if any. */
  function Pdu(xs: seq<TxItem>, lva: bool, sendEmpty: bool, src: Mac): Option<seq<Byte>> {
    match Message(xs, lva, sendEmpty)
    case None => None
    case Some(m) =>
      if m == [] || BODY + |m| >= FRAME - 2 then None
      else Some(MVRP_ADDR + src + [0x88, 0xF5, 0] + m + [0, 0])
  }

  // ---------------------------------------------------------------------
  // Receiving
  // ---------------------------------------------------------------------

  /** What the parser reports to mvrp_event. */
  datatype Rx = RxLeaveAll | RxValue(vid: nat, e: Event)

  /** The event for one decoded value; VIDs above 0xFFF and unknown codes are dropped. */
  function RxOf(vid: nat, c: int): seq<Rx> {
    if vid <= 0xFFF && CodeEvent(c).Some? then [RxValue(vid, CodeEvent(c).value)] else []
  }

  /** Values k .. n-1 of a vector whose packed events start at buf[p]. */
  function Values(buf: seq<Byte>, p: nat, first: nat, k: nat, n: nat): seq<Rx>
    requires k <= n && p + Packed3(n) <= |buf|
    decreases n - k
  {
    if k == n then []
    else RxOf(first + k, Unpack(buf[p + k / 3], k % 3)) + Values(buf, p, first, k + 1, n)
  }

  /** The vector loop: from offset pos to the end mark. */
  function ParseVectors(buf: seq<Byte>, eof: nat, pos: nat, saw: bool): (r: Parsed<Rx>)
    ensures r.status.Good? ==> r.pos >= pos
    decreases |buf| - pos
  {
    if pos + 1 >= |buf| then Parsed([], pos, saw, Overrun)
    else if buf[pos] == 0 && buf[pos + 1] == 0 then Parsed([], pos, saw, Good)
    else
      var n := Word(buf, pos) % 0x2000;
      var lva := Word(buf, pos) / 0x2000 == 1 && !saw;
      var rx := if lva then [RxLeaveAll] else [];
      if n == 0 || pos + 2 + n / 3 >= eof then Parsed(rx, pos, saw || lva, Malformed)
      else if pos + 4 + Packed3(n) >= |buf| then Parsed(rx, pos, saw || lva, Overrun)
      else
        var values := Values(buf, pos + 4, Word(buf, pos + 2), 0, n);
        Prepend(rx + values, ParseVectors(buf, eof, pos + 4 + Packed3(n), saw || lva))
  }

  /** The message loop. */
  function ParseMessages(buf: seq<Byte>, version: Byte, eof: nat, pos: nat, endmarks: nat, saw: bool): Parsed<Rx>
    requires eof <= |buf|
    decreases |buf| - pos
  {
    if pos + 2 >= eof then Parsed([], pos, saw, Good)
    else if buf[pos] == 0 && buf[pos + 1] == 0 then
      if endmarks + 1 < 2 then ParseMessages(buf, version, eof, pos + 2, endmarks + 1, saw)
      else Parsed([], pos + 2, saw, Good)
    else if buf[pos] == VID_TYPE then
      if buf[pos + 1] != 2 then Parsed([], pos, saw, Malformed)
      else
        var v := ParseVectors(buf, eof, pos + 2, saw);
        if !v.status.Good? then v
        else Prepend(v.rx, ParseMessages(buf, version, eof, v.pos, 0, v.saw))
    else if version == 0 then Parsed([], pos, saw, Malformed)
    else if pos + 3 >= |buf| then Parsed([], pos, saw, Overrun)
    else ParseMessages(buf, version, eof, pos + 4 + buf[pos + 1] + Packed3(Word(buf, pos + 2) % 0x2000), 0, saw)
  }

  /** mvrp_recv_msg on a buffer of which the first `bytes` bytes were received. */
  function ParseFrame(buf: seq<Byte>, bytes: nat): Parsed<Rx>
    requires bytes <= |buf|
  {
    if bytes < 17 || Word(buf, 12) != 0x88F5 || buf[0..6] != MVRP_ADDR then Parsed([], 0, false, Malformed)
    else ParseMessages(buf, buf[14], bytes, BODY, 0, false)
  }
}
