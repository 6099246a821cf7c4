/** The NVM checksums of e1000_82575.c: four regions of 64 words, each of which must sum
    to 0xBABA modulo 2^16. */
module Nvm {

  type Word = w: int | 0 <= w < 0x1_0000

  const SUM: Word := 0xBABA
  const CHECKSUM_REG := 0x3F
  const COMPATIBILITY_REG_3 := 3
  const COMPATIBILITY_BIT := 0x8000

  /** Words that the four regions reach. */
  const SIZE := 0x140

  /** NVM_82580_LAN_FUNC_OFFSET. */
  function Offset(port: nat): nat {
    if port > 0 then 0x40 + 0x40 * port else 0
  }

  // ---------------------------------------------------------------------
  // Contents as values
  // ---------------------------------------------------------------------

  function Total(s: seq<Word>, lo: nat, hi: nat): nat
    requires lo <= hi <= |s|
  {
    if lo == hi then 0 else Total(s, lo, hi - 1) + s[hi - 1]
  }

  predicate RegionOk(s: seq<Word>, offset: nat)
    requires offset + CHECKSUM_REG < |s|
  {
    Total(s, offset, offset + CHECKSUM_REG + 1) % 0x1_0000 == SUM
  }

  function WithChecksum(s: seq<Word>, offset: nat): (r: seq<Word>)
    requires offset + CHECKSUM_REG < |s|
    ensures |r| == |s|
  {
    s[offset + CHECKSUM_REG := (SUM - Total(s, offset, offset + CHECKSUM_REG)) % 0x1_0000]
  }

  /** The first n regions with their checksums, in the order of the ports. */
  function WithChecksums(s: seq<Word>, n: nat): (r: seq<Word>)
    requires n <= 4 && |s| >= SIZE
    ensures |r| == |s|
  {
    if n == 0 then s else WithChecksum(WithChecksums(s, n - 1), Offset(n - 1))
  }

  predicate Compatible(s: seq<Word>)
    requires |s| >= SIZE
  {
    s[COMPATIBILITY_REG_3] >= COMPATIBILITY_BIT
  }

  function MadeCompatible(s: seq<Word>): (r: seq<Word>)
    requires |s| >= SIZE
    ensures |r| == |s|
  {
    if Compatible(s) then s else s[COMPATIBILITY_REG_3 := s[COMPATIBILITY_REG_3] + COMPATIBILITY_BIT]
  }

  predicate RegionsOk(s: seq<Word>, n: nat)
    requires n <= 4 && |s| >= SIZE
  {
    forall j :: 0 <= j < n ==> RegionOk(s, Offset(j))
  }

  /** What e1000_validate_nvm_checksum_82580 accepts. */
  predicate Valid82580(s: seq<Word>)
    requires |s| >= SIZE
  {
    RegionsOk(s, if Compatible(s) then 4 else 1)
  }

  lemma {:induction false} TotalFrame(s: seq<Word>, t: seq<Word>, lo: nat, hi: nat)
    requires |s| == |t| && lo <= hi <= |s| && forall k :: lo <= k < hi ==> s[k] == t[k]
    ensures Total(s, lo, hi) == Total(t, lo, hi)
    decreases hi
  {
    if lo == hi {
    } else {
      TotalFrame(s, t, lo, hi - 1);
    }
  }

  lemma ChecksumMakesOk(s: seq<Word>, offset: nat)
    requires offset + CHECKSUM_REG < |s|
    ensures RegionOk(WithChecksum(s, offset), offset)
  {
    var r, hi := WithChecksum(s, offset), offset + CHECKSUM_REG;
    TotalFrame(s, r, offset, hi);
    var t := Total(s, offset, hi);
    assert Total(r, offset, hi + 1) == t + r[hi];
    assert (t + (SUM - t) % 0x1_0000) % 0x1_0000 == SUM;
  }

  /** One region's checksum disturbs no other region and not the compatibility word. */
  lemma ChecksumKeepsOthers(s: seq<Word>, j: nat, k: nat)
    requires |s| >= SIZE && j < 4 && k < 4 && j != k
    ensures RegionOk(WithChecksum(s, Offset(j)), Offset(k)) == RegionOk(s, Offset(k))
  {
    TotalFrame(s, WithChecksum(s, Offset(j)), Offset(k), Offset(k) + CHECKSUM_REG + 1);
  }

  lemma {:induction false} ChecksumsMakeOk(s: seq<Word>, n: nat)
    requires n <= 4 && |s| >= SIZE
    ensures RegionsOk(WithChecksums(s, n), n)
    ensures WithChecksums(s, n)[COMPATIBILITY_REG_3] == s[COMPATIBILITY_REG_3]
  {
    hide RegionOk, WithChecksum;
    if n == 0 {
    } else {
      ChecksumsMakeOk(s, n - 1);
      var t := WithChecksums(s, n - 1);
      ChecksumMakesOk(t, Offset(n - 1));
      ChecksumElsewhere(t, n - 1);
      forall j | 0 <= j < n - 1 ensures RegionOk(WithChecksum(t, Offset(n - 1)), Offset(j)) {
        ChecksumKeepsOthers(t, n - 1, j);
      }
    }
  }

  lemma ChecksumElsewhere(s: seq<Word>, j: nat)
    requires |s| >= SIZE && j < 4
    ensures WithChecksum(s, Offset(j))[COMPATIBILITY_REG_3] == s[COMPATIBILITY_REG_3]
  {
  }

  /** An update makes the matching validation succeed, for every content. */
  lemma UpdateThenValid(s: seq<Word>)
    requires |s| >= SIZE
    ensures Valid82580(WithChecksums(MadeCompatible(s), 4)) && Compatible(WithChecksums(MadeCompatible(s), 4))
    ensures RegionsOk(WithChecksums(s, 4), 4)
  {
    hide WithChecksums, RegionOk;
    ChecksumsMakeOk(MadeCompatible(s), 4);
    ChecksumsMakeOk(s, 4);
  }

  /** The update changes the compatibility word and the four checksums, nothing else. */
  lemma UpdateTouchesOnly(s: seq<Word>, n: nat, k: nat)
    requires |s| >= SIZE && n <= 4 && k < |s|
    requires forall j :: 0 <= j < n ==> k != Offset(j) + CHECKSUM_REG
    ensures WithChecksums(s, n)[k] == s[k]
  {
    if n == 0 {
    } else {
      UpdateTouchesOnly(s, n - 1, k);
    }
  }

  // ---------------------------------------------------------------------
  // The functions themselves
  // ---------------------------------------------------------------------

  const SUCCESS := 0
  const ERR_NVM := -1
  const FAULT := -2

  /** The part of struct e1000_hw in play.  Any access may fail: the k-th one does if
      faults(k). */
  class Hw {
    const words: array<Word>
    const faults: nat -> bool
    var accesses: nat

    constructor (words: array<Word>, faults: nat -> bool)
      requires words.Length >= SIZE
      ensures this.words == words && this.faults == faults && accesses == 0
    {
      this.words := words;
      this.faults := faults;
      accesses := 0;
    }

    /** No access from the n-th on up to now has failed. */
    ghost predicate Faultless(n: nat)
      reads this
    {
      forall k :: n <= k < accesses ==> !faults(k)
    }

    /** nvm.ops.read of one word. */
    method Read(i: nat) returns (rc: int, w: Word)
      requires i < words.Length
      modifies this`accesses
      ensures accesses == old(accesses) + 1 && rc == (if faults(old(accesses)) then FAULT else SUCCESS)
      ensures rc == SUCCESS ==> w == words[i]
    {
      rc, w := if faults(accesses) then FAULT else SUCCESS, words[i];
      accesses := accesses + 1;
    }

    /** nvm.ops.write of one word. */
    method Write(i: nat, w: Word) returns (rc: int)
      requires i < words.Length
      modifies this`accesses, words
      ensures accesses == old(accesses) + 1 && rc == (if faults(old(accesses)) then FAULT else SUCCESS)
      ensures words[..] == if rc == SUCCESS then old(words[..])[i := w] else old(words[..])
    {
      rc := if faults(accesses) then FAULT else SUCCESS;
      accesses := accesses + 1;
      if rc == SUCCESS {
        words[i] := w;
      }
    }

    /** Adds up n words from offset on. */
    method AddUp(offset: nat, n: nat) returns (rc: int, checksum: Word)
      requires offset + n <= words.Length
      modifies this`accesses
      ensures accesses >= old(accesses) && rc == (if Faultless(old(accesses)) then SUCCESS else FAULT)
      ensures rc == SUCCESS ==> checksum == Total(words[..], offset, offset + n) % 0x1_0000
    {
      rc, checksum := SUCCESS, 0;
      var i := offset;
      while i < offset + n
        invariant offset <= i <= offset + n && rc == SUCCESS
        invariant accesses >= old(accesses) && Faultless(old(accesses))
        invariant checksum == Total(words[..], offset, i) % 0x1_0000
      {
        var data;
        rc, data := Read(i);
        if rc != SUCCESS {
          assert faults(accesses - 1);
          return;
        }
        AddWord(Total(words[..], offset, i), data);
        checksum := (checksum + data) % 0x1_0000;
        i := i + 1;
      }
    }

    lemma AddWord(t: nat, w: Word)
      ensures (t % 0x1_0000 + w) % 0x1_0000 == (t + w) % 0x1_0000
    {
    }

    /** e1000_validate_nvm_checksum_with_offset. */
    method ValidateWithOffset(offset: nat) returns (rc: int)
      requires offset + CHECKSUM_REG < words.Length
      modifies this`accesses
      ensures accesses >= old(accesses)
      ensures rc == if !Faultless(old(accesses)) then FAULT
                    else if RegionOk(words[..], offset) then SUCCESS else ERR_NVM
    {
      var checksum;
      rc, checksum := AddUp(offset, CHECKSUM_REG + 1);
      if rc == SUCCESS && checksum != SUM {
        rc := ERR_NVM;
      }
    }

    /** e1000_update_nvm_checksum_with_offset. */
    method UpdateWithOffset(offset: nat) returns (rc: int)
      requires offset + CHECKSUM_REG < words.Length
      modifies this`accesses, words
      ensures accesses >= old(accesses) && rc == (if Faultless(old(accesses)) then SUCCESS else FAULT)
      ensures words[..] == if rc == SUCCESS then WithChecksum(old(words[..]), offset) else old(words[..])
    {
      var checksum;
      rc, checksum := AddUp(offset, CHECKSUM_REG);
      if rc != SUCCESS {
        return;
      }
      Negated(Total(words[..], offset, offset + CHECKSUM_REG));
      checksum := (SUM - checksum) % 0x1_0000;
      rc := Write(offset + CHECKSUM_REG, checksum);
      assert rc != SUCCESS ==> faults(accesses - 1);
    }

    lemma Negated(t: nat)
      ensures (SUM - t % 0x1_0000) % 0x1_0000 == (SUM - t) % 0x1_0000
    {
    }

    /** The loop of the update functions; e1000_update_nvm_checksum_i350 is this loop. */
    method UpdateRegions() returns (rc: int)
      requires words.Length >= SIZE
      modifies this`accesses, words
      ensures accesses >= old(accesses) && rc == (if Faultless(old(accesses)) then SUCCESS else FAULT)
      ensures rc == SUCCESS ==> words[..] == WithChecksums(old(words[..]), 4)
      ensures rc != SUCCESS ==> exists n :: 0 <= n < 4 && words[..] == WithChecksums(old(words[..]), n)
    {
      hide WithChecksum;
      rc := SUCCESS;
      for j := 0 to 4
        invariant rc == SUCCESS && accesses >= old(accesses) && Faultless(old(accesses))
        invariant words[..] == WithChecksums(old(words[..]), j)
      {
        rc := UpdateWithOffset(Offset(j));
        if rc != SUCCESS {
          return;
        }
      }
    }

    /** The loop of the validate functions; with n == 4 it is
        e1000_validate_nvm_checksum_i350. */
    method ValidateRegions(n: nat) returns (rc: int)
      requires words.Length >= SIZE && n <= 4
      modifies this`accesses
      ensures accesses >= old(accesses)
      ensures Faultless(old(accesses)) ==> rc == if RegionsOk(words[..], n) then SUCCESS else ERR_NVM
      ensures !Faultless(old(accesses)) ==> rc == FAULT
    {
      hide RegionOk;
      rc := SUCCESS;
      for j := 0 to n
        invariant rc == SUCCESS && accesses >= old(accesses) && Faultless(old(accesses))
        invariant RegionsOk(words[..], j)
      {
        rc := ValidateWithOffset(Offset(j));
        if rc != SUCCESS {
          return;
        }
      }
    }

    /** e1000_update_nvm_checksum_82580. */
    method Update82580() returns (rc: int)
      requires words.Length >= SIZE
      modifies this`accesses, words
      ensures accesses >= old(accesses) && rc == (if Faultless(old(accesses)) then SUCCESS else FAULT)
      ensures rc == SUCCESS ==> words[..] == WithChecksums(MadeCompatible(old(words[..])), 4)
      ensures rc == SUCCESS ==> Valid82580(words[..])
    {
      hide WithChecksums, Valid82580;
      UpdateThenValid(words[..]);
      var data;
      rc, data := Read(COMPATIBILITY_REG_3);
      if rc != SUCCESS {
        assert faults(accesses - 1);
        return;
      }
      if data < COMPATIBILITY_BIT {
        rc := Write(COMPATIBILITY_REG_3, data + COMPATIBILITY_BIT);
        if rc != SUCCESS {
          assert faults(accesses - 1);
          return;
        }
      }
      rc := UpdateRegions();
    }

    /** e1000_validate_nvm_checksum_82580. */
    method Validate82580() returns (rc: int)
      requires words.Length >= SIZE
      modifies this`accesses
      ensures accesses >= old(accesses)
      ensures rc == if !Faultless(old(accesses)) then FAULT else if Valid82580(words[..]) then SUCCESS else ERR_NVM
    {
      hide RegionsOk;
      var data;
      rc, data := Read(COMPATIBILITY_REG_3);
      if rc != SUCCESS {
        assert faults(accesses - 1);
        return;
      }
      rc := ValidateRegions(if data >= COMPATIBILITY_BIT then 4 else 1);
    }
  }
}
