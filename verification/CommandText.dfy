/** The text commands between a client and the daemon: what mrp_advertise_stream prints
    (tools/mrp_client.c) and what parse makes of it (daemons/common/parse.c).  sprintf
    and sscanf are written out for the conversions in use. */
module CommandText {
  import opened Mrp
  import opened Eui64Set

  // ---------------------------------------------------------------------
  // sprintf
  // ---------------------------------------------------------------------

  const DIGITS := "0123456789abcdef"

  function DigitChar(d: nat): char
    requires d < 16
  {
    DIGITS[d]
  }

  /** %0nx of a value that fits n digits. */
  function Hex(v: nat, n: nat): (t: string)
    ensures |t| == n
  {
    if n == 0 then "" else Hex(v / 16, n - 1) + [DigitChar(v % 16)]
  }

  /** %02x of each byte. */
  function HexBytes(b: seq<Byte>): (t: string)
    ensures |t| == 2 * |b|
  {
    if b == [] then "" else HexBytes(b[..|b| - 1]) + Hex(b[|b| - 1], 2)
  }

  /** %d of a non-negative value. */
  function Decimal(n: nat): (t: string)
    ensures t != ""
  {
    if n < 10 then [DigitChar(n)] else Decimal(n / 10) + [DigitChar(n % 10)]
  }

  // ---------------------------------------------------------------------
  // sscanf
  // ---------------------------------------------------------------------

  function DigitOf(c: char): Option<nat> {
    if '0' <= c <= '9' then Some((c - '0') as nat)
    else if 'a' <= c <= 'f' then Some((c - 'a') as nat + 10)
    else if 'A' <= c <= 'F' then Some((c - 'A') as nat + 10)
    else None
  }

  predicate IsDigit(c: char, base: nat) { DigitOf(c).Some? && DigitOf(c).value < base }

  predicate AllDigits(t: string, base: nat) {
    forall i :: 0 <= i < |t| ==> IsDigit(t[i], base)
  }

  function Value(t: string, base: nat): nat
    requires AllDigits(t, base)
  {
    if t == "" then 0 else base * Value(t[..|t| - 1], base) + DigitOf(t[|t| - 1]).value
  }

  predicate IsSpace(c: char) { c in " \t\n\r" }

  function SkipSpace(t: string): string {
    if t != "" && IsSpace(t[0]) then SkipSpace(t[1..]) else t
  }

  /** How many digits t starts with, at most `width` of them. */
  function DigitRun(t: string, base: nat, width: nat): (n: nat)
    ensures n <= |t| && n <= width && AllDigits(t[..n], base)
    decreases width
  {
    if width == 0 || t == "" || !IsDigit(t[0], base) then 0
    else
      var n := DigitRun(t[1..], base, width - 1);
      assert t[..n + 1] == [t[0]] + t[1..][..n];
      n + 1
  }

  /** %u, %x and %04x. */
  function Scan(t: string, base: nat, width: nat): Option<nat> {
    var u := SkipSpace(t);
    var n := DigitRun(u, base, width);
    if n == 0 then None else Some(Value(u[..n], base))
  }

  // ---------------------------------------------------------------------
  // parse
  // ---------------------------------------------------------------------

  datatype Kind = U8 | U16 | U16Hex | U32 | C64 | MacAddr

  datatype Spec = Spec(name: string, kind: Kind)

  datatype Field = Num(n: nat) | Octets(b: seq<Byte>)

  /** What a parameter's text stands for, truncated to the width of its variable. */
  function Convert(kind: Kind, t: string): Option<Field> {
    match kind
    case U8 => (match Scan(t, 10, |t|) case None => None case Some(v) => Some(Num(v % 0x100)))
    case U16 => (match Scan(t, 10, |t|) case None => None case Some(v) => Some(Num(v % 0x1_0000)))
    case U16Hex => (match Scan(t, 16, 4) case None => None case Some(v) => Some(Num(v % 0x1_0000)))
    case U32 => (match Scan(t, 10, |t|) case None => None case Some(v) => Some(Num(v % 0x1_0000_0000)))
    case C64 => (match Scan(t, 16, |t|) case None => None case Some(v) => Some(Octets(Write(v, 8))))
    case MacAddr => (match Scan(t, 16, |t|) case None => None case Some(v) => Some(Octets(Write(v, 6))))
  }

  /** strstr: where name first occurs in t from i on, or the length. */
  function Strstr(t: string, name: string, i: nat): (p: nat)
    requires i <= |t|
    ensures i <= p <= |t| && (p < |t| ==> p + |name| <= |t|)
    decreases |t| - i
  {
    if i == |t| then i
    else if i + |name| <= |t| && t[i..i + |name|] == name then i
    else Strstr(t, name, i + 1)
  }

  /** Where the parameter that starts at i ends: at the next comma, or with t. */
  function Delimiter(t: string, i: nat): (e: nat)
    requires i <= |t|
    ensures i <= e <= |t| && (e < |t| ==> t[e] == ',')
    ensures forall k :: i <= k < e ==> t[k] != ','
    decreases |t| - i
  {
    if i == |t| || t[i] == ',' then i else Delimiter(t, i + 1)
  }

  /** How a parse ends: with its fields, at a name it could not find, or at a text it
      could not convert.  In the last case the text stays cut where it was cut. */
  datatype Outcome = Fields(fs: seq<Field>) | NoName(index: nat) | BadText(index: nat, cut: nat)

  function Cons(f: Field, o: Outcome): Outcome {
    if o.Fields? then Fields([f] + o.fs) else o
  }

  /** The loop of parse over the parameters from the index-th on, at position i. */
  function ParseFrom(t: string, i: nat, specs: seq<Spec>, index: nat): Outcome
    requires i <= |t|
    decreases |specs|
  {
    if specs == [] then Fields([])
    else
      var p := Strstr(t, specs[0].name, i);
      if p == |t| then NoName(index + 1)
      else
        var d := p + |specs[0].name|;
        var e := Delimiter(t, d);
        match Convert(specs[0].kind, t[d..e])
        case None => BadText(index + 1, e)
        case Some(f) => Cons(f, ParseFrom(t, if e < |t| then e + 1 else i, specs[1..], index + 1))
  }

  // ---------------------------------------------------------------------
  // Numbers survive printing and scanning
  // ---------------------------------------------------------------------

  lemma DigitsScan(d: nat)
    requires d < 16
    ensures DigitOf(DigitChar(d)) == Some(d) && DigitChar(d) in DIGITS && DigitChar(d) !in "BALSVZIP:+,= \t\n\r\0"
  {
  }

  /** Lower-case digits only: what all the printers produce. */
  predicate Plain(t: string, base: nat) {
    forall i :: 0 <= i < |t| ==> IsDigit(t[i], base) && t[i] in DIGITS
  }

  /** Printing one more digit. */
  lemma AppendDigit(t: string, d: nat, base: nat)
    requires Plain(t, base) && AllDigits(t, base) && d < base <= 16
    ensures var u := t + [DigitChar(d)];
            Plain(u, base) && AllDigits(u, base) && Value(u, base) == base * Value(t, base) + d
  {
    DigitsScan(d);
    hide DigitOf, DigitChar;
    assert (t + [DigitChar(d)])[..|t|] == t;
  }

  lemma NoDigits(base: nat)
    ensures Plain("", base) && AllDigits("", base) && Value("", base) == 0
  {
  }

  function Power16(n: nat): nat { if n == 0 then 1 else 16 * Power16(n - 1) }

  lemma {:induction false} HexValue(v: nat, n: nat)
    requires v < Power16(n)
    ensures var t := Hex(v, n); Plain(t, 16) && AllDigits(t, 16) && Value(t, 16) == v
    decreases n
  {
    hide Plain, AllDigits, Value, DigitChar;
    NoDigits(16);
    if n == 0 {
    } else {
      HexValue(v / 16, n - 1);
      AppendDigit(Hex(v / 16, n - 1), v % 16, 16);
    }
  }

  lemma {:induction false} DecimalValue(n: nat)
    ensures var t := Decimal(n); Plain(t, 10) && AllDigits(t, 10) && Value(t, 10) == n
  {
    hide Plain, AllDigits, Value, DigitChar;
    if n >= 10 {
      DecimalValue(n / 10);
      AppendDigit(Decimal(n / 10), n % 10, 10);
    } else {
      NoDigits(10);
      AppendDigit("", n, 10);
      assert "" + [DigitChar(n)] == [DigitChar(n)];
    }
  }

  lemma HexByte(t: string, x: Byte)
    ensures t + Hex(x, 2) == t + [DigitChar(x / 16)] + [DigitChar(x % 16)]
  {
    hide DigitChar;
    assert Hex(x, 2) == Hex(x / 16, 1) + [DigitChar(x % 16)];
    assert Hex(x / 16, 1) == Hex(x / 16 / 16, 0) + [DigitChar(x / 16 % 16)];
  }

  lemma {:induction false} HexBytesValue(b: seq<Byte>)
    ensures var t := HexBytes(b); Plain(t, 16) && AllDigits(t, 16) && Value(t, 16) == Read(b)
  {
    hide Plain, AllDigits, Value, DigitChar, Hex;
    if b == [] {
      NoDigits(16);
    } else {
      var t, x := HexBytes(b[..|b| - 1]), b[|b| - 1];
      HexBytesValue(b[..|b| - 1]);
      HexByte(t, x);
      AppendDigit(t, x / 16, 16);
      AppendDigit(t + [DigitChar(x / 16)], x % 16, 16);
    }
  }

  lemma {:induction false} RunOfDigits(t: string, base: nat, width: nat)
    requires AllDigits(t, base) && |t| <= width
    ensures DigitRun(t, base, width) == |t|
    decreases |t|
  {
    if t == "" {
    } else {
      RunOfDigits(t[1..], base, width - 1);
    }
  }

  lemma ScanPlain(t: string, base: nat, width: nat)
    requires Plain(t, base) && AllDigits(t, base) && 0 < |t| <= width
    ensures Scan(t, base, width) == Some(Value(t, base))
  {
    RunOfDigits(t, base, width);
    assert t[0] in DIGITS;
    assert !IsSpace(t[0]);
    assert t[..|t|] == t;
  }

  // ---------------------------------------------------------------------
  // Parameter lists
  // ---------------------------------------------------------------------

  datatype Param = Param(name: string, text: string)

  function Show(p: Param): string { p.name + p.text }

  /** Parameters separated by commas. */
  function Join(ps: seq<Param>): string {
    if ps == [] then "" else if |ps| == 1 then Show(ps[0]) else Show(ps[0]) + "," + Join(ps[1..])
  }

  ghost predicate NoComma(t: string) { ',' !in t }

  /** A parameter with its specification and the field it stands for. */
  ghost predicate Matches(p: Param, spec: Spec, f: Field) {
    p.name == spec.name && p.name != "" && NoComma(p.text) && Convert(spec.kind, p.text) == Some(f)
  }

  ghost predicate AllMatch(ps: seq<Param>, specs: seq<Spec>, fs: seq<Field>) {
    |ps| == |specs| == |fs| && forall k :: 0 <= k < |ps| ==> Matches(ps[k], specs[k], fs[k])
  }

  /** Where the parts of a parameter at position i of t lie. */
  lemma Located(t: string, i: nat, p: Param, tail: string)
    requires i <= |t| && t[i..] == Show(p) + tail && (tail == "" || tail[0] == ',') && p.name != "" && NoComma(p.text)
    ensures var d, e := i + |p.name|, i + |Show(p)|;
            && e <= |t| && (e < |t| <==> tail != "") && (e < |t| ==> t[e + 1..] == tail[1..])
            && Strstr(t, p.name, i) == i && Delimiter(t, d) == e && t[d..e] == p.text
  {
    var u := t[i..];
    var d, e := i + |p.name|, i + |Show(p)|;
    assert t[i..d] == u[..|p.name|] == p.name;
    assert t[d..e] == u[|p.name|..|Show(p)|] == p.text;
    Ends(t, d, e, p.text, tail, i);
  }

  lemma Ends(t: string, d: nat, e: nat, text: string, tail: string, i: nat)
    requires i <= d <= e <= |t| && t[d..e] == text && t[e..] == tail && NoComma(text) && (tail == "" || tail[0] == ',')
    ensures Delimiter(t, d) == e && (e < |t| ==> t[e + 1..] == tail[1..])
  {
    forall k | d <= k < e ensures t[k] != ',' {
      assert t[k] == t[d..e][k - d];
    }
    assert e < |t| ==> t[e] == t[e..][0];
  }

  /** One parameter at position i of t. */
  lemma ParseOne(t: string, i: nat, p: Param, tail: string, specs: seq<Spec>, f: Field, index: nat)
    requires i <= |t| && t[i..] == Show(p) + tail && (tail == "" || tail[0] == ',')
    requires specs != [] && Matches(p, specs[0], f)
    ensures var i' := if tail == "" then i else i + |Show(p)| + 1;
            && i' <= |t| && (tail != "" ==> t[i'..] == tail[1..])
            && ParseFrom(t, i, specs, index) == Cons(f, ParseFrom(t, i', specs[1..], index + 1))
  {
    hide Convert, Strstr, Delimiter, NoComma;
    Located(t, i, p, tail);
  }

  lemma {:induction false} ParseJoined(t: string, i: nat, ps: seq<Param>, specs: seq<Spec>, fs: seq<Field>, index: nat)
    requires i <= |t| && ps != [] && t[i..] == Join(ps) && AllMatch(ps, specs, fs)
    ensures ParseFrom(t, i, specs, index) == Fields(fs)
    decreases |ps|
  {
    hide Show, Matches, ParseFrom, AllMatch, Join, Cons;
    var tail := if |ps| == 1 then "" else "," + Join(ps[1..]);
    JoinSplits(ps, tail);
    MatchTail(ps, specs, fs);
    ParseOne(t, i, ps[0], tail, specs, fs[0], index);
    ConsHead(fs);
    if |ps| > 1 {
      ParseJoined(t, i + |Show(ps[0])| + 1, ps[1..], specs[1..], fs[1..], index + 1);
    } else {
      ParseNothing(t, i, index + 1);
      assert specs[1..] == [] && fs[1..] == [];
    }
  }

  lemma ConsHead(fs: seq<Field>)
    requires fs != []
    ensures Cons(fs[0], Fields(fs[1..])) == Fields(fs)
  {
  }

  lemma MatchTail(ps: seq<Param>, specs: seq<Spec>, fs: seq<Field>)
    requires ps != [] && AllMatch(ps, specs, fs)
    ensures |specs| == |ps| == |fs| && Matches(ps[0], specs[0], fs[0]) && AllMatch(ps[1..], specs[1..], fs[1..])
  {
    hide Matches;
  }

  lemma JoinSplits(ps: seq<Param>, tail: string)
    requires ps != [] && tail == if |ps| == 1 then "" else "," + Join(ps[1..])
    ensures Join(ps) == Show(ps[0]) + tail && (tail != "" ==> tail[1..] == Join(ps[1..]))
  {
    hide Show;
  }

  lemma ParseNothing(t: string, i: nat, index: nat)
    requires i <= |t|
    ensures ParseFrom(t, i, [], index) == Fields([])
  {
  }

  // ---------------------------------------------------------------------
  // Talker Advertise
  // ---------------------------------------------------------------------

  /** The arguments of mrp_advertise_stream. */
  datatype Stream = Stream(id: seq<Byte>, dest: seq<Byte>, vid: nat, frameSize: nat, interval: nat, priority: nat,
                           latency: nat)

  ghost predicate InRange(s: Stream) {
    && |s.id| == 8 && |s.dest| == 6 && s.vid < 0x1_0000 && s.frameSize < 0x1_0000 && s.interval < 0x1_0000
    && s.priority < 8 && s.latency < 0x8000_0000
  }

  function Params(s: Stream): seq<Param> {
    [Param("S=", HexBytes(s.id)), Param("A=", HexBytes(s.dest)), Param("V=", Hex(s.vid, 4)),
     Param("Z=", Decimal(s.frameSize)), Param("I=", Decimal(s.interval)),
     Param("P=", Decimal(s.priority * 32 + 16)), Param("L=", Decimal(s.latency))]
  }

  /** The text mrp_advertise_stream sends. */
  function Command(s: Stream): string { "S++:" + Join(Params(s)) }

  const ADVERTISE_SPECS: seq<Spec> :=
    [Spec("S=", C64), Spec("A=", MacAddr), Spec("V=", U16Hex), Spec("Z=", U16), Spec("I=", U16), Spec("P=", U8),
     Spec("L=", U32)]

  function FieldsOf(s: Stream): seq<Field> {
    [Octets(s.id), Octets(s.dest), Num(s.vid), Num(s.frameSize), Num(s.interval), Num(s.priority * 32 + 16),
     Num(s.latency)]
  }

  /** msrp_recv_cmd takes a command as Talker Failed if "B=" occurs in it. */
  predicate IsAdvertise(t: string) { |t| >= 3 && t[..3] == "S++" && Strstr(t, "B=", 0) == |t| }

  lemma PlainHasNo(t: string, base: nat, c: char)
    requires Plain(t, base) && c in "B,\0"
    ensures c !in t
  {
  }

  lemma OctetsMatch(name: string, b: seq<Byte>, kind: Kind)
    requires name != "" && |b| == (if kind == C64 then 8 else 6) && kind in {C64, MacAddr}
    ensures Matches(Param(name, HexBytes(b)), Spec(name, kind), Octets(b))
  {
    hide Plain, Value, Scan;
    var t := HexBytes(b);
    HexBytesValue(b);
    PlainHasNo(t, 16, ',');
    ScanPlain(t, 16, |t|);
    WriteRead(b);
  }

  lemma NumberMatches(name: string, n: nat, kind: Kind)
    requires name != "" && kind in {U8, U16, U32}
    requires n < (if kind == U8 then 0x100 else if kind == U16 then 0x1_0000 else 0x1_0000_0000)
    ensures Matches(Param(name, Decimal(n)), Spec(name, kind), Num(n))
  {
    hide Plain, Value, Scan, Decimal;
    var t := Decimal(n);
    DecimalValue(n);
    PlainHasNo(t, 10, ',');
    ScanPlain(t, 10, |t|);
  }

  lemma VidMatches(name: string, v: nat)
    requires name != "" && v < 0x1_0000
    ensures Matches(Param(name, Hex(v, 4)), Spec(name, U16Hex), Num(v))
  {
    hide Plain, Value, Scan, Hex;
    assert Power16(4) == 0x1_0000;
    var t := Hex(v, 4);
    HexValue(v, 4);
    PlainHasNo(t, 16, ',');
    ScanPlain(t, 16, 4);
  }

  /** The printed parameters parse back to the arguments, for all of them in range. */
  lemma CommandRoundTrip(s: Stream)
    requires InRange(s)
    ensures ParseFrom(Command(s)[4..], 0, ADVERTISE_SPECS, 0) == Fields(FieldsOf(s))
  {
    hide Matches, HexBytes, Hex, Decimal, Join;
    OctetsMatch("S=", s.id, C64);
    OctetsMatch("A=", s.dest, MacAddr);
    VidMatches("V=", s.vid);
    NumberMatches("Z=", s.frameSize, U16);
    NumberMatches("I=", s.interval, U16);
    NumberMatches("P=", s.priority * 32 + 16, U8);
    NumberMatches("L=", s.latency, U32);
    assert AllMatch(Params(s), ADVERTISE_SPECS, FieldsOf(s));
    var t := Command(s)[4..];
    assert t == Join(Params(s)) && t[0..] == t;
    ParseJoined(t, 0, Params(s), ADVERTISE_SPECS, FieldsOf(s), 0);
  }

  lemma {:induction false} Absent(t: string, name: string, i: nat)
    requires name != "" && name[0] !in t && i <= |t|
    ensures Strstr(t, name, i) == |t|
    decreases |t| - i
  {
    if i == |t| {
    } else {
      assert i + |name| <= |t| ==> t[i..i + |name|][0] == t[i];
      Absent(t, name, i + 1);
    }
  }

  lemma {:induction false} JoinLacks(ps: seq<Param>, c: char)
    requires c != ',' && forall k :: 0 <= k < |ps| ==> c !in ps[k].name && c !in ps[k].text
    ensures c !in Join(ps)
  {
    if |ps| <= 1 {
    } else {
      JoinLacks(ps[1..], c);
    }
  }

  lemma ParamsLack(s: Stream, c: char)
    requires InRange(s) && c in "B\0"
    ensures c !in Join(Params(s))
  {
    hide Plain, HexBytes, Hex, Decimal, Join, Value;
    HexBytesValue(s.id);
    PlainHasNo(HexBytes(s.id), 16, c);
    HexBytesValue(s.dest);
    PlainHasNo(HexBytes(s.dest), 16, c);
    assert Power16(4) == 0x1_0000;
    HexValue(s.vid, 4);
    PlainHasNo(Hex(s.vid, 4), 16, c);
    DecimalLacks(s.frameSize, c);
    DecimalLacks(s.interval, c);
    DecimalLacks(s.priority * 32 + 16, c);
    DecimalLacks(s.latency, c);
    JoinLacks(Params(s), c);
  }

  lemma DecimalLacks(n: nat, c: char)
    requires c in "B\0"
    ensures c !in Decimal(n)
  {
    DecimalValue(n);
    PlainHasNo(Decimal(n), 10, c);
  }

  /** The command is taken as a Talker Advertise. */
  lemma CommandIsAdvertise(s: Stream)
    requires InRange(s)
    ensures IsAdvertise(Command(s)) && '\0' !in Command(s)
  {
    hide Join, Params, Strstr;
    ParamsLack(s, 'B');
    ParamsLack(s, '\0');
    var t := Command(s);
    assert t[..3] == "S++";
    Absent(t, "B=", 0);
  }

  // ---------------------------------------------------------------------
  // parse on a buffer
  // ---------------------------------------------------------------------

  /** The C string at p: up to the next NUL. */
  function CString(b: seq<char>, p: nat): (t: string)
    requires p <= |b|
    ensures p + |t| <= |b| && t == b[p..p + |t|] && '\0' !in t
    ensures p + |t| < |b| ==> b[p + |t|] == '\0'
    decreases |b| - p
  {
    if p == |b| || b[p] == '\0' then ""
    else
      var t := CString(b, p + 1);
      assert b[p..p + 1 + |t|] == [b[p]] + b[p + 1..p + 1 + |t|];
      [b[p]] + t
  }

  lemma {:induction false} StringIs(b: seq<char>, p: nat, t: string)
    requires p + |t| < |b| && b[p..p + |t|] == t && '\0' !in t && b[p + |t|] == '\0'
    ensures CString(b, p) == t
    decreases |t|
  {
    if t == "" {
    } else {
      assert b[p] == b[p..p + |t|][0] == t[0] && t[0] in t;
      assert b[p + 1..p + |t|] == b[p..p + |t|][1..] == t[1..];
      StringIs(b, p + 1, t[1..]);
    }
  }

  /** The command in its zeroed message buffer, as msrp_recv_cmd hands it to parse. */
  lemma BufferRoundTrip(s: Stream, pad: seq<char>)
    requires InRange(s) && pad != [] && pad[0] == '\0'
    ensures var t := CString(Command(s) + pad, 4);
            t == Command(s)[4..] && ParseFrom(t, 0, ADVERTISE_SPECS, 0) == Fields(FieldsOf(s))
  {
    hide Join, Params, FieldsOf, ADVERTISE_SPECS, ParseFrom;
    CommandIsAdvertise(s);
    CommandRoundTrip(s);
    var c := Command(s);
    var b := c + pad;
    assert b[4..4 + |c[4..]|] == c[4..];
    StringIs(b, 4, c[4..]);
  }

  /** With a NUL put at e, the string from d on is what lay between. */
  lemma CutString(b: seq<char>, start: nat, t: string, d: nat, e: nat)
    requires start <= |b| && t == CString(b, start) && start + |t| < |b| && d <= e <= |t|
    ensures CString(b[start + e := '\0'], start + d) == t[d..e]
  {
    var b' := b[start + e := '\0'];
    assert b'[start + d..start + e] == b[start..start + |t|][d..e];
    assert '\0' !in t[d..e];
    StringIs(b', start + d, t[d..e]);
  }

  /** Converts the parameter text at d, with the buffer cut behind it meanwhile.  The
      cut is undone if the conversion succeeds. */
  method ParseParam(buf: array<char>, start: nat, t: string, d: nat, kind: Kind) returns (e: nat, f: Option<Field>)
    requires start <= buf.Length && t == CString(buf[..], start) && start + |t| < buf.Length && d <= |t|
    modifies buf
    ensures e == Delimiter(t, d) && f == Convert(kind, t[d..e])
    ensures buf[..] == if f.None? && e < |t| then old(buf[..])[start + e := '\0'] else old(buf[..])
  {
    hide Convert, Delimiter, CString;
    ghost var b := buf[..];
    e := Delimiter(t, d);
    CutString(b, start, t, d, e);
    assert b[start..start + |t|] == t;
    if e < |t| {
      assert b[start + e] == t[e];
      buf[start + e] := '\0';
    }
    assert buf[..] == b[start + e := '\0'];
    f := Convert(kind, CString(buf[..], start + d));
    if f.Some? && e < |t| {
      buf[start + e] := ',';
      assert buf[..] == b;
    }
  }

  /** parse: err is the index it reports; the fields are stored as they are found. */
  method Parse(buf: array<char>, start: nat, specs: seq<Spec>) returns (rc: int, err: nat, fs: seq<Field>)
    requires start <= buf.Length
    modifies buf
    ensures var t := CString(old(buf[..]), start);
            var o := ParseFrom(t, 0, specs, 0);
            if start + |t| == buf.Length then rc == -1 && buf[..] == old(buf[..])
            else && rc == (if o.Fields? then 0 else -1)
                 && (o.Fields? ==> err == 0 && fs == o.fs)
                 && (o.NoName? ==> err == o.index) && (o.BadText? ==> err == o.index)
                 && buf[..] == if o.BadText? && o.cut < |t| then old(buf[..])[start + o.cut := '\0'] else old(buf[..])
  {
    hide ParseFrom, Convert, Strstr, Delimiter, CString;
    ghost var b := buf[..];
    var t := CString(buf[..], start);
    rc, err, fs := -1, 0, [];
    if start + |t| == buf.Length {
      return;
    }
    var i: nat, n: nat := 0, 0;
    NothingBefore(ParseFrom(t, 0, specs, 0));
    assert specs[0..] == specs;
    while n < |specs|
      invariant i <= |t| && n <= |specs| && buf[..] == b
      invariant ParseFrom(t, 0, specs, 0) == Before(fs, ParseFrom(t, i, specs[n..], n))
    {
      ParseStep(t, i, specs, n);
      var p := Strstr(t, specs[n].name, i);
      if p == |t| {
        err := n + 1;
        return;
      }
      var e, f := ParseParam(buf, start, t, p + |specs[n].name|, specs[n].kind);
      if f.None? {
        err := n + 1;
        return;
      }
      if e < |t| {
        i := e + 1;
      }
      OneMore(fs, f.value, ParseFrom(t, i, specs[n + 1..], n + 1));
      fs, n := fs + [f.value], n + 1;
    }
    ParseNothing(t, i, n);
    assert specs[n..] == [] && fs + [] == fs;
    rc, err := 0, 0;
  }

  /** Fields found so far, then the rest. */
  function Before(fs: seq<Field>, o: Outcome): Outcome {
    if o.Fields? then Fields(fs + o.fs) else o
  }

  lemma NothingBefore(o: Outcome)
    ensures Before([], o) == o
  {
  }

  lemma OneMore(fs: seq<Field>, f: Field, o: Outcome)
    ensures Before(fs, Cons(f, o)) == Before(fs + [f], o)
  {
    if o.Fields? {
      assert fs + ([f] + o.fs) == fs + [f] + o.fs;
    }
  }

  lemma ParseStep(t: string, i: nat, specs: seq<Spec>, n: nat)
    requires i <= |t| && n < |specs|
    ensures var p := Strstr(t, specs[n].name, i);
            var r := ParseFrom(t, i, specs[n..], n);
            if p == |t| then r == NoName(n + 1)
            else
              var d := p + |specs[n].name|;
              var e := Delimiter(t, d);
              match Convert(specs[n].kind, t[d..e])
              case None => r == BadText(n + 1, e)
              case Some(f) => r == Cons(f, ParseFrom(t, if e < |t| then e + 1 else i, specs[n + 1..], n + 1))
  {
    hide Convert, Strstr, Delimiter;
    assert specs[n..][1..] == specs[n + 1..];
  }
}
