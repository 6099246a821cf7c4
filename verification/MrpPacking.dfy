/** How the encoders store packed events: byte by byte into the frame, as they go. */
module MrpPacking {
  import opened Mrp
  import opened MrpPdu

  /** Of the codes so far, bytes holds the full triples and evt the rest. */
  ghost predicate Packing(codes: seq<Code>, bytes: seq<Byte>, evt: seq<Code>) {
    && |evt| == 3 && bytes == Pack3(codes)[..|codes| / 3]
    && (forall m :: 0 <= m < 3 ==> evt[m] == At(codes, 3 * (|codes| / 3) + m))
  }

  lemma Pack3Prefix(codes: seq<Code>, c: Code)
    ensures Pack3(codes + [c])[..|codes| / 3] == Pack3(codes)[..|codes| / 3]
  {
    var n := |codes| / 3;
    forall j | 0 <= j < n ensures Pack3(codes + [c])[j] == Pack3(codes)[j] {
      assert 3 * j + 2 < |codes|;
    }
  }

  /** The full triples of the codes so far lie in the frame from base on. */
  ghost predicate Stored(b: seq<Byte>, base: nat, codes: seq<Code>, evt: seq<Code>) {
    base + |codes| / 3 <= |b| && Packing(codes, b[base..base + |codes| / 3], evt)
  }

  lemma StoredStarts(b: seq<Byte>, base: nat, c: Code)
    requires base <= |b|
    ensures Stored(b, base, [c], [c, 0, 0])
  {
  }

  lemma StoredGrows(b: seq<Byte>, base: nat, codes: seq<Code>, evt: seq<Code>, c: Code)
    requires Stored(b, base, codes, evt) && base + |codes| / 3 < |b|
    ensures var n := |codes|;
            var evt' := evt[n % 3 := c];
            if n % 3 == 2 then
              Stored(b[base + n / 3 := Pack(evt'[0], evt'[1], evt'[2])], base, codes + [c], [0, 0, 0])
            else Stored(b, base, codes + [c], evt')
  {
    Pack3Prefix(codes, c);
    var n := |codes|;
    if n % 3 == 2 {
      var evt' := evt[2 := c];
      var x := Pack(evt'[0], evt'[1], evt'[2]);
      assert Pack3(codes + [c])[n / 3] == x;
      assert b[base + n / 3 := x][base..base + n / 3 + 1] == b[base..base + n / 3] + [x];
    }
  }

  lemma StoredEnds(b: seq<Byte>, base: nat, codes: seq<Code>, evt: seq<Code>)
    requires Stored(b, base, codes, evt) && (|codes| % 3 > 0 ==> base + |codes| / 3 < |b|)
    ensures var n := |codes|;
            if n % 3 > 0 then b[base + n / 3 := Pack(evt[0], evt[1], evt[2])][base..base + Packed3(n)] == Pack3(codes)
            else b[base..base + Packed3(n)] == Pack3(codes)
  {
    var n := |codes|;
    if n % 3 > 0 {
      var x := Pack(evt[0], evt[1], evt[2]);
      assert Pack3(codes)[n / 3] == x;
      assert b[base + n / 3 := x][base..base + n / 3 + 1] == b[base..base + n / 3] + [x];
    }
  }

  /** Adds a code behind the n so far, and stores a byte when that completes a triple. */
  method StoreCode(buf: array<Byte>, base: nat, evt: seq<Code>, n: nat, c: Code, ghost codes: seq<Code>)
    returns (evt': seq<Code>)
    requires n == |codes| && Stored(buf[..], base, codes, evt) && |evt| == 3 && base + n / 3 < buf.Length
    modifies buf
    ensures |evt'| == 3 && Stored(buf[..], base, codes + [c], evt')
    ensures buf[..base] == old(buf[..base])
  {
    hide Stored, Pack;
    StoredGrows(buf[..], base, codes, evt, c);
    ghost var b := buf[..];
    evt' := evt[n % 3 := c];
    if n % 3 == 2 {
      buf[base + n / 3] := Pack(evt'[0], evt'[1], evt'[2]);
      assert buf[..] == b[base + n / 3 := buf[base + n / 3]];
      evt' := [0, 0, 0];
    }
  }

  /** Stores the last, incomplete triple. */
  method StoreTrailer(buf: array<Byte>, base: nat, evt: seq<Code>, n: nat, ghost codes: seq<Code>)
    requires n == |codes| && Stored(buf[..], base, codes, evt) && |evt| == 3
             && (n % 3 > 0 ==> base + n / 3 < buf.Length)
    modifies buf
    ensures base + Packed3(n) <= buf.Length && buf[base..base + Packed3(n)] == Pack3(codes)
    ensures buf[..base] == old(buf[..base])
  {
    hide Stored, Pack, Pack3;
    StoredRoom(buf[..], base, codes, evt);
    StoredEnds(buf[..], base, codes, evt);
    ghost var b := buf[..];
    if n % 3 > 0 {
      buf[base + n / 3] := Pack(evt[0], evt[1], evt[2]);
      assert buf[..] == b[base + n / 3 := buf[base + n / 3]];
    }
    assert buf[base..base + Packed3(n)] == buf[..][base..base + Packed3(n)];
  }

  lemma StoredRoom(b: seq<Byte>, base: nat, codes: seq<Code>, evt: seq<Code>)
    requires Stored(b, base, codes, evt)
    ensures base + |codes| / 3 <= |b|
  {
  }

  /** Copies bytes into the frame. */
  method Write(buf: array<Byte>, at: nat, bytes: seq<Byte>)
    requires at + |bytes| <= buf.Length
    modifies buf
    ensures buf[at..at + |bytes|] == bytes
    ensures buf[..at] == old(buf[..at]) && buf[at + |bytes|..] == old(buf[at + |bytes|..])
  {
    forall k | 0 <= k < |bytes| {
      buf[at + k] := bytes[k];
    }
  }

  /** What lies before m is the same in both frames. */
  lemma SliceKept(b: seq<Byte>, b': seq<Byte>, m: nat, p: nat, q: nat)
    requires p <= q <= m <= |b| && m <= |b'| && b[..m] == b'[..m]
    ensures b'[p..q] == b[p..q]
  {
    assert b'[p..q] == b'[..m][p..q] && b[p..q] == b[..m][p..q];
  }

  /** Stores a vector's header in front of the rest of the vector. */
  method PutHeader(buf: array<Byte>, at: nat, h: nat, end: nat, ghost rest: seq<Byte>)
    requires at + 2 <= end <= buf.Length && h < 0x1_0000 && buf[at + 2..end] == rest
    modifies buf
    ensures buf[..at] == old(buf[..at]) && buf[at..end] == [h / 256, h % 256] + rest
  {
    ghost var b := buf[..];
    Write(buf, at, [h / 256, h % 256]);
    assert b[at + 2..end] == b[at + 2..][..end - at - 2];
    assert buf[at + 2..end] == buf[at + 2..][..end - at - 2];
    assert buf[at..end] == buf[at..at + 2] + buf[at + 2..end];
  }
}
