/** The parts of the MRPDU format that every application shares: event codes, three
    to a byte, and vector headers. */
module MrpPdu {
  import opened Mrp

  /** MRPDU_NEW .. MRPDU_LV. */
  type Code = x: int | 0 <= x < 6

  const CODE_NEW: Code := 0
  const CODE_JOININ: Code := 1
  const CODE_IN: Code := 2
  const CODE_JOINMT: Code := 3
  const CODE_MT: Code := 4
  const CODE_LV: Code := 5

  predicate Sendable(s: Send) {
    s in {SndIn, SndNew, SndLv, SndJoin}
  }

  /** The code for a message to send; an encoder fails on what is not Sendable. */
  function CodeFor(s: Send, regIn: bool): Code {
    match s
    case SndIn => if regIn then CODE_IN else CODE_MT
    case SndNew => CODE_NEW
    case SndLv => CODE_LV
    case SndJoin => if regIn then CODE_JOININ else CODE_JOINMT
    case _ => 0
  }

  /** Room for one message: the frame of MAX_FRAME_SIZE bytes less the Ethernet
      header and the protocol version. */
  const FRAME: nat := 2000
  const BODY: nat := 15
  const ROOM: nat := FRAME - BODY

  function Packed3(n: nat): nat { (n + 2) / 3 }

  /** Oops, or the vectors written and the index of the first attribute that the
      encoder did not get to. */
  datatype Emission<V> = Oops | Emitted(vectors: seq<V>, stop: nat)

  function At(codes: seq<Code>, k: nat): Code {
    if k < |codes| then codes[k] else 0
  }

  /** MRPDU_3PACK_ENCODE. */
  function Pack(x: Code, y: Code, z: Code): Byte {
    36 * (x as int) + 6 * (y as int) + z
  }

  /** The packed events of a whole run, padded with zeros. */
  function Pack3(codes: seq<Code>): (r: seq<Byte>)
    ensures |r| == Packed3(|codes|)
  {
    seq(Packed3(|codes|), j requires 0 <= j => Pack(At(codes, 3 * j), At(codes, 3 * j + 1), At(codes, 3 * j + 2)))
  }

  function Header(n: nat, lva: bool): (r: nat)
    ensures r < 0x1_0000
  {
    n % 0x2000 + (if lva then 0x2000 else 0)
  }

  /** How parsing ends: return 0, return -1, or a read past the buffer, where the
      model stops. */
  datatype Status = Good | Malformed | Overrun

  function Unpack(b: Byte, i: nat): int {
    if i == 0 then b / 36
    else if i == 1 then (b - b / 36 * 36) / 6
    else b - 36 * (b / 36) - 6 * ((b - b / 36 * 36) / 6)
  }

  function CodeEvent(c: int): Option<Event> {
    if c == CODE_NEW then Some(RNew)
    else if c == CODE_JOININ then Some(RJoinIn)
    else if c == CODE_IN then Some(RIn)
    else if c == CODE_JOINMT then Some(RJoinMt)
    else if c == CODE_MT then Some(RMt)
    else if c == CODE_LV then Some(RLv)
    else None
  }

  function Word(buf: seq<Byte>, p: nat): nat
    requires p + 1 < |buf|
  {
    (buf[p] as int) * 256 + buf[p + 1]
  }

  datatype Parsed<R> = Parsed(rx: seq<R>, pos: nat, saw: bool, status: Status)

  function Prepend<R>(rx: seq<R>, r: Parsed<R>): Parsed<R> { r.(rx := rx + r.rx) }

  lemma PrependNothing<R>(r: Parsed<R>)
    ensures Prepend([], r) == r
  {
    assert [] + r.rx == r.rx;
  }

  lemma UnpackPack(a: Code, b: Code, c: Code)
    ensures var x := Pack(a, b, c);
            Unpack(x, 0) == a && Unpack(x, 1) == b && Unpack(x, 2) == c
  {
    var x := Pack(a, b, c);
    assert x / 36 == a;
    assert (x - 36 * a) / 6 == b;
  }

  lemma UnpackPacked(codes: seq<Code>, k: nat)
    requires k < |codes|
    ensures k / 3 < |Pack3(codes)| && Unpack(Pack3(codes)[k / 3], k % 3) == codes[k]
  {
    var j := k / 3;
    UnpackPack(At(codes, 3 * j), At(codes, 3 * j + 1), At(codes, 3 * j + 2));
  }

  /** The bytes at buf[pos..] are the given ones. */
  ghost predicate Holds(buf: seq<Byte>, pos: nat, bytes: seq<Byte>) {
    pos + |bytes| <= |buf| && buf[pos..pos + |bytes|] == bytes
  }

  lemma HoldsSplit(buf: seq<Byte>, pos: nat, a: seq<Byte>, b: seq<Byte>)
    requires Holds(buf, pos, a + b)
    ensures Holds(buf, pos, a) && Holds(buf, pos + |a|, b)
  {
    var w := buf[pos..pos + |a + b|];
    assert buf[pos..pos + |a|] == w[..|a|] == a;
    assert buf[pos + |a|..pos + |a| + |b|] == w[|a|..] == b;
  }

  /** Vectors written so far, followed by the rest of the emission. */
  function Continue<V>(vs: seq<V>, r: Emission<V>): Emission<V> {
    if r.Oops? then Oops else Emitted(vs + r.vectors, r.stop)
  }
}
