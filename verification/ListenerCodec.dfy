/** MSRP's Listener message (msrp_emit_listenvectors and the Listener case of
    msrp_recv_msg) as functions from and to bytes.  A vector carries its events
    three to a byte and the four-valued substates of the same run four to a byte. */
module ListenerCodec {
  import opened Mrp
  import opened MrpPdu

  type StreamId = s: seq<Byte> | |s| == 8 witness [0, 0, 0, 0, 0, 0, 0, 0]

  /** msrp_increment_streamid from byte i down; byte 0 is never touched. */
  function IncFrom(s: StreamId, i: nat): StreamId
    requires i < 8
    decreases i
  {
    if i == 0 then s
    else if s[i] != 255 then s[i := s[i] + 1]
    else IncFrom(s[i := 0], i - 1)
  }

  function Inc(s: StreamId): StreamId { IncFrom(s, 7) }

  /** MSRP_LISTENER_IGNORE .. MSRP_LISTENER_READYFAIL. */
  type Substate = x: int | 0 <= x < 4

  const IGNORE: Substate := 0

  // ---------------------------------------------------------------------
  // Sending
  // ---------------------------------------------------------------------

  /** What the encoder reads of an attribute; only listeners are its business. */
  datatype TxListener = TxListener(listener: bool, id: StreamId, optional: bool, sndmsg: Send, regIn: bool,
                                   sub: Substate)

  function CodeOf(t: TxListener): Code { CodeFor(t.sndmsg, t.regIn) }

  datatype Vector = Vector(lva: bool, first: StreamId, codes: seq<Code>, subs: seq<Substate>)

  function Packed4(n: nat): nat { (n + 3) / 4 }

  /** The bytes of a vector of n values. */
  function Size(n: nat): nat { 10 + Packed3(n) + Packed4(n) }

  /** The end of the run of listeners with consecutive stream IDs that holds
      index j - 1.  All listeners were marked for transmission beforehand. */
  function RunEnd(xs: seq<TxListener>, j: nat): (r: nat)
    requires 0 < j <= |xs|
    ensures j <= r <= |xs|
    decreases |xs| - j
  {
    if j < |xs| && xs[j].listener && xs[j].id == Inc(xs[j - 1].id) then RunEnd(xs, j + 1) else j
  }

  predicate AllSendable(xs: seq<TxListener>) {
    forall t :: t in xs ==> Sendable(t.sndmsg)
  }

  function Codes(xs: seq<TxListener>): (r: seq<Code>)
    ensures |r| == |xs|
    ensures forall k :: 0 <= k < |xs| ==> r[k] == CodeOf(xs[k])
  {
    seq(|xs|, k requires 0 <= k < |xs| => CodeOf(xs[k]))
  }

  function Subs(xs: seq<TxListener>): (r: seq<Substate>)
    ensures |r| == |xs|
    ensures forall k :: 0 <= k < |xs| ==> r[k] == xs[k].sub
  {
    seq(|xs|, k requires 0 <= k < |xs| => xs[k].sub)
  }

  /** What the bounds tests along the way amount to for a vector of n values that
      ends at offset end: a whole number of substate bytes must leave three bytes. */
  predicate FitsAt(n: nat, end: nat, room: nat) {
    end + (if n % 4 == 0 then 3 else 2) <= room
  }

  /** Where the vector after offset `at` starts: the write pointer is set behind the
      four bytes of message header only once a vector has been written. */
  function VectorStart(at: nat): nat { if at == 0 then 4 else at }

  /** The vector loop from attribute i on, with the write pointer at offset `at` of
      a message that may take `room` bytes. */
  function Emit(xs: seq<TxListener>, i: nat, at: nat, lva: bool, room: nat): (r: Emission<Vector>)
    requires i <= |xs|
    ensures r.Emitted? ==> i <= r.stop <= |xs|
    decreases |xs| - i
  {
    if i == |xs| || at + 15 >= room then Emitted([], i)
    else if !xs[i].listener || xs[i].optional then Emit(xs, i + 1, at, lva, room)
    else
      var j := RunEnd(xs, i + 1);
      var end := VectorStart(at) + Size(j - i);
      if !AllSendable(xs[i..j]) || !FitsAt(j - i, end, room) then Oops
      else match Emit(xs, j, end, false, room)
        case Oops => Oops
        case Emitted(vs, stop) => Emitted([Vector(lva, xs[i].id, Codes(xs[i..j]), Subs(xs[i..j]))] + vs, stop)
  }

  function SubAt(subs: seq<Substate>, k: nat): Substate {
    if k < |subs| then subs[k] else 0
  }

  /** MRPDU_4PACK_ENCODE. */
  function PackFour(w: Substate, x: Substate, y: Substate, z: Substate): Byte {
    64 * (w as int) + 16 * (x as int) + 4 * (y as int) + z
  }

  function Pack4(subs: seq<Substate>): (r: seq<Byte>)
    ensures |r| == Packed4(|subs|)
  {
    seq(Packed4(|subs|), j requires 0 <= j =>
      PackFour(SubAt(subs, 4 * j), SubAt(subs, 4 * j + 1), SubAt(subs, 4 * j + 2), SubAt(subs, 4 * j + 3)))
  }

  function EncodeVector(v: Vector): (r: seq<Byte>)
    ensures |r| == 10 + Packed3(|v.codes|) + Packed4(|v.subs|)
  {
    var h := Header(|v.codes|, v.lva);
    [h / 256, h % 256] + v.first + Pack3(v.codes) + Pack4(v.subs)
  }

  function EncodeVectors(vs: seq<Vector>): seq<Byte> {
    if vs == [] then [] else EncodeVector(vs[0]) + EncodeVectors(vs[1..])
  }

  const LISTENER_TYPE: Byte := 3
  const LISTENER_LENGTH: Byte := 8
  const EMPTY_LEAVEALL: seq<Byte> := [0x20, 0, 0, 0, 0, 0, 0, 0, 0, 0]

  /** Message header with the length of the attribute list, the list, end mark. */
  function Wrap(list: seq<Byte>): (r: seq<Byte>)
    ensures |r| == |list| + 6
  {
    var n := |list| + 2;
    [LISTENER_TYPE, LISTENER_LENGTH, n / 256 % 256, n % 256] + list + [0, 0]
  }

  lemma SomeBytes(vs: seq<Vector>)
    ensures if vs == [] then EncodeVectors(vs) == [] else |EncodeVectors(vs)| >= 10
  {
  }

  /** msrp_emit_listenvectors: None for -1, otherwise the bytes of the message. */
  function Message(xs: seq<TxListener>, lva: bool, sendEmpty: bool, room: nat): Option<seq<Byte>> {
    if room < 13 then None
    else match Emit(xs, 0, 0, lva, room)
      case Oops => None
      case Emitted(vs, _) =>
        if vs != [] then Some(Wrap(EncodeVectors(vs)))
        else if sendEmpty then Some(Wrap(EMPTY_LEAVEALL))
        else Some([])
  }

  // ---------------------------------------------------------------------
  // Receiving
  // ---------------------------------------------------------------------

  /** What the parser reports to msrp_event. */
  datatype Rx = RxLeaveAll | RxListener(id: StreamId, e: Event, sub: Substate)

  function Unpack4(b: Byte, i: nat): Substate {
    if i == 0 then b / 64 else if i == 1 then b / 16 % 4 else if i == 2 then b / 4 % 4 else b % 4
  }

  /** The substates of a vector of n values, read before its events. */
  function Substates(buf: seq<Byte>, p: nat, n: nat): (r: seq<Substate>)
    requires p + Packed4(n) <= |buf|
    ensures |r| == n
  {
    seq(n, k requires 0 <= k < n => Unpack4(buf[p + k / 4], k % 4))
  }

  function RxOf(id: StreamId, c: int, sub: Substate): seq<Rx> {
    if sub == IGNORE || CodeEvent(c).None? then [] else [RxListener(id, CodeEvent(c).value, sub)]
  }

  /** Values k .. m-1 of the packed byte b. */
  function OneByte(b: Byte, k: nat, m: nat, id: StreamId, subs: seq<Substate>): seq<Rx>
    requires k <= m && m - k <= |subs|
    decreases m - k
  {
    if k == m then [] else RxOf(id, Unpack(b, k), subs[0]) + OneByte(b, k + 1, m, Inc(id), subs[1..])
  }

  function Advance(id: StreamId, k: nat): StreamId
    decreases k
  {
    if k == 0 then id else Advance(Inc(id), k - 1)
  }

  /** The last n values of a vector, in the packed bytes from buf[p] on.  A byte that
      cannot be a packed triple is discarded without moving on the stream ID. */
  function Values(buf: seq<Byte>, p: nat, n: nat, id: StreamId, subs: seq<Substate>): seq<Rx>
    requires n <= |subs| && p + Packed3(n) <= |buf|
    decreases n
  {
    if n == 0 then []
    else
      var m := if n > 3 then 3 else n;
      if Unpack(buf[p], 0) > CODE_LV then Values(buf, p + 1, n - m, id, subs)
      else OneByte(buf[p], 0, m, id, subs) + Values(buf, p + 1, n - m, Advance(id, m), subs[m..])
  }

  /** The vector loop: from offset pos to the end mark. */
  function ParseVectors(buf: seq<Byte>, eof: nat, pos: nat, saw: bool): (r: Parsed<Rx>)
    requires eof <= |buf|
    ensures r.status.Good? ==> r.pos >= pos
    decreases |buf| - pos
  {
    if pos + 1 >= |buf| then Parsed([], pos, saw, Overrun)
    else if buf[pos] == 0 && buf[pos + 1] == 0 then Parsed([], pos, saw, Good)
    else
      var n := Word(buf, pos) % 0x2000;
      var lva := Word(buf, pos) / 0x2000 == 1 && !saw;
      var rx := if lva then [RxLeaveAll] else [];
      if n == 0 then Prepend(rx, ParseVectors(buf, eof, pos + 10, saw || lva))
      else if pos + 2 + n / 3 + n / 4 >= eof || pos + Size(n) >= eof then Parsed(rx, pos, saw || lva, Malformed)
      else
        var p3, p4 := pos + 10, pos + 10 + Packed3(n);
        var values := Values(buf, p3, n, buf[pos + 2..pos + 10], Substates(buf, p4, n));
        Prepend(rx + values, ParseVectors(buf, eof, pos + Size(n), saw || lva))
  }

  /** msrp_recv_msg_check_attrib_list_len, with the length field at offset p; None
      if the end mark it looks for lies outside the buffer. */
  function ListLengthOk(buf: seq<Byte>, eof: nat, p: nat): Option<bool>
    requires 1 <= p && p + 1 < |buf|
  {
    var n := Word(buf, p);
    if n < buf[p - 1] as int + 3 || p + n >= eof then Some(false)
    else if p + n + 1 >= |buf| then None
    else Some(buf[p + n] == 0 && buf[p + n + 1] == 0)
  }

  /** The Listener case: the message at offset pos, up to where the message loop
      takes over again.  A list with an implausible length is stepped over. */
  function ParseListener(buf: seq<Byte>, eof: nat, pos: nat, saw: bool): Parsed<Rx>
    requires eof <= |buf|
  {
    if pos + 5 >= |buf| then Parsed([], pos, saw, Overrun)
    else if buf[pos + 1] != LISTENER_LENGTH then Parsed([], pos, saw, Malformed)
    else match ListLengthOk(buf, eof, pos + 2)
      case None => Parsed([], pos, saw, Overrun)
      case Some(true) => ParseVectors(buf, eof, pos + 4, saw)
      case Some(false) => Parsed([], pos + 4 + Size(Word(buf, pos + 4) % 0x2000), saw, Good)
  }
}
