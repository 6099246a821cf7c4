/** eui64set.c: a bounded set of EUI-64 keys in a sorted array.  qsort and bsearch are
    taken at their C contracts: Qsort below is one function that meets the first, and
    Bsearch one loop that meets the second. */
module Eui64Set {
  import opened Mrp
  import opened Seqs

  const LIMIT: nat := 0x1_0000_0000_0000_0000

  type Key = k: int | 0 <= k < 0x1_0000_0000_0000_0000

  /** ~0, which removal uses as its sentinel. */
  const LAST: Key := 0xFFFF_FFFF_FFFF_FFFF

  // ---------------------------------------------------------------------
  // Network order
  // ---------------------------------------------------------------------

  /** eui64_read, for a buffer of any length. */
  function Read(b: seq<Byte>): (v: nat) {
    if b == [] then 0 else 256 * Read(b[..|b| - 1]) + b[|b| - 1]
  }

  /** eui64_write into n bytes. */
  function Write(v: nat, n: nat): (b: seq<Byte>)
    ensures |b| == n
  {
    if n == 0 then [] else Write(v / 256, n - 1) + [v % 256]
  }

  lemma {:induction false} ReadBelow(b: seq<Byte>)
    ensures Read(b) < Power256(|b|)
  {
    if b == [] {
    } else {
      ReadBelow(b[..|b| - 1]);
    }
  }

  lemma {:induction false} ReadWrite(v: nat, n: nat)
    requires v < Power256(n)
    ensures Read(Write(v, n)) == v
    decreases n
  {
    if n == 0 {
    } else {
      ReadWrite(v / 256, n - 1);
      assert Write(v, n)[..n - 1] == Write(v / 256, n - 1);
    }
  }

  lemma {:induction false} WriteRead(b: seq<Byte>)
    ensures Write(Read(b), |b|) == b
  {
    if b == [] {
    } else {
      WriteRead(b[..|b| - 1]);
      assert b == b[..|b| - 1] + [b[|b| - 1]];
      assert Read(b) / 256 == Read(b[..|b| - 1]) && Read(b) % 256 == b[|b| - 1];
    }
  }

  /** Eight bytes in network order and 64-bit keys correspond one to one. */
  lemma EuiRoundTrip(b: seq<Byte>, v: Key)
    requires |b| == 8
    ensures Read(b) < LIMIT && Write(Read(b), 8) == b && Read(Write(v, 8)) == v
  {
    assert Power256(8) == LIMIT by {
      assert Power256(4) == 0x1_0000_0000;
      assert Power256(8) == 0x1_0000_0000 * Power256(4);
    }
    ReadBelow(b);
    WriteRead(b);
    ReadWrite(v, 8);
  }

  // ---------------------------------------------------------------------
  // Sorting
  // ---------------------------------------------------------------------

  ghost predicate Ascending(s: seq<Key>) {
    forall i, j :: 0 <= i < j < |s| ==> s[i] <= s[j]
  }

  ghost predicate Strict(s: seq<Key>) {
    forall i, j :: 0 <= i < j < |s| ==> s[i] < s[j]
  }

  function Insert(s: seq<Key>, x: Key): (r: seq<Key>)
    ensures |r| == |s| + 1 && multiset(r) == multiset(s) + multiset{x}
  {
    if s == [] then [x]
    else
      var n := |s| - 1;
      assert s == s[..n] + [s[n]];
      if s[n] <= x then s + [x] else Insert(s[..n], x) + [s[n]]
  }

  lemma {:induction false} InsertBelow(s: seq<Key>, x: Key, top: Key)
    requires x <= top && forall i :: 0 <= i < |s| ==> s[i] <= top
    ensures forall i :: 0 <= i < |Insert(s, x)| ==> Insert(s, x)[i] <= top
  {
    if s == [] {
    } else {
      InsertBelow(s[..|s| - 1], x, top);
    }
  }

  lemma {:induction false} InsertAscending(s: seq<Key>, x: Key)
    requires Ascending(s)
    ensures Ascending(Insert(s, x))
  {
    if s == [] {
    } else {
      var n := |s| - 1;
      if s[n] > x {
        InsertAscending(s[..n], x);
        InsertBelow(s[..n], x, s[n]);
      }
    }
  }

  function Qsort(s: seq<Key>): (r: seq<Key>)
    ensures Ascending(r) && multiset(r) == multiset(s) && |r| == |s|
  {
    if s == [] then []
    else
      var n := |s| - 1;
      assert s == s[..n] + [s[n]];
      InsertAscending(Qsort(s[..n]), s[n]);
      Insert(Qsort(s[..n]), s[n])
  }

  /** Keys without repetition, in order, ascend strictly; and conversely. */
  lemma StrictIffDistinct(s: seq<Key>)
    requires Ascending(s)
    ensures Strict(s) <==> forall x :: x in s ==> multiset(s)[x] == 1
  {
    if Strict(s) {
      forall x | x in s ensures multiset(s)[x] == 1 {
        OccursOnce(s, x);
      }
    } else {
      var i, j :| 0 <= i < j < |s| && s[i] == s[j];
      assert s == s[..j] + [s[j]] + s[j + 1..];
      assert s[i] in s[..j];
      assert s[j] in s;
    }
  }

  lemma {:induction false} OccursOnce(s: seq<Key>, x: Key)
    requires Strict(s) && x in s
    ensures multiset(s)[x] == 1
  {
    var n := |s| - 1;
    assert s == s[..n] + [s[n]];
    if x == s[n] {
      assert x !in s[..n];
    } else {
      OccursOnce(s[..n], x);
    }
  }

  // ---------------------------------------------------------------------
  // The set
  // ---------------------------------------------------------------------

  ghost function Elements(s: seq<Key>): set<Key> { set k | k in s }

  lemma {:induction false} StrictCardinality(s: seq<Key>)
    requires Strict(s)
    ensures |Elements(s)| == |s|
  {
    if s == [] {
    } else {
      var n := |s| - 1;
      StrictCardinality(s[..n]);
      assert s == s[..n] + [s[n]];
      assert Elements(s) == Elements(s[..n]) + {s[n]};
      assert s[n] !in s[..n];
    }
  }

  /** Sorting a strict list with one new key at its end. */
  lemma SortedInsert(s: seq<Key>, x: Key)
    requires Strict(s) && x !in s
    ensures Strict(Qsort(s + [x])) && Elements(Qsort(s + [x])) == Elements(s) + {x}
  {
    var t := s + [x];
    var r := Qsort(t);
    forall k ensures k in r <==> k in t { assert k in multiset(r) <==> k in r; assert k in multiset(t) <==> k in t; }
    forall k | k in r ensures multiset(r)[k] == 1 {
      if k == x {
        assert multiset(s)[x] == 0;
      } else {
        OccursOnce(s, k);
      }
    }
    StrictIffDistinct(r);
  }

  /** Removal: the key at i becomes the sentinel, and after sorting the last entry is
      dropped.  That holds for every key, the sentinel itself included. */
  lemma SentinelRemoves(s: seq<Key>, i: nat)
    requires Strict(s) && i < |s|
    ensures var r := Qsort(s[i := LAST]);
            |r| == |s| && Strict(r[..|s| - 1]) && Elements(r[..|s| - 1]) == Elements(s) - {s[i]}
  {
    hide Strict, Qsort, Elements;
    var n := |s| - 1;
    var t := s[i := LAST];
    var r := Qsort(t);
    SentinelLast(t, i);
    Exchanged(s, i, r);
    AscendingPrefix(r, n);
    Remaining(s, i, r[..n]);
  }

  lemma Exchanged(s: seq<Key>, i: nat, r: seq<Key>)
    requires i < |s| == |r| && r[|s| - 1] == LAST && multiset(r) == multiset(s[i := LAST])
    ensures multiset(s) == multiset(r[..|s| - 1]) + multiset{s[i]}
  {
    assert r == r[..|s| - 1] + [LAST];
    assert s[i] in multiset(s);
  }

  lemma AscendingPrefix(s: seq<Key>, n: nat)
    requires Ascending(s) && n <= |s|
    ensures Ascending(s[..n])
  {
  }

  lemma SentinelLast(t: seq<Key>, i: nat)
    requires i < |t| && t[i] == LAST
    ensures Qsort(t)[|t| - 1] == LAST
  {
    var r := Qsort(t);
    assert LAST in multiset(t);
    assert LAST in r;
  }

  lemma Remaining(s: seq<Key>, i: nat, u: seq<Key>)
    requires Strict(s) && i < |s| && Ascending(u) && multiset(s) == multiset(u) + multiset{s[i]}
    ensures Strict(u) && Elements(u) == Elements(s) - {s[i]}
  {
    forall k ensures k in u <==> k in s && k != s[i] {
      assert (k in u <==> multiset(u)[k] > 0) && (k in s <==> multiset(s)[k] > 0);
      if k in s {
        OccursOnce(s, k);
      }
    }
    forall k | k in u ensures multiset(u)[k] == 1 {
      OccursOnce(s, k);
    }
    StrictIffDistinct(u);
  }

  lemma Listed(s: seq<Key>)
    ensures forall k :: k in Elements(s) <==> k in s
  {
  }

  class Set {
    const storage: array<Key>
    var entries: nat

    ghost predicate Valid()
      reads this, storage
    {
      entries <= storage.Length && Strict(storage[..entries])
    }

    ghost function Members(): set<Key>
      requires Valid()
      reads this, storage
    {
      Elements(storage[..entries])
    }

    /** eui64set_init. */
    constructor (max: nat)
      ensures Valid() && Members() == {} && storage.Length == max && fresh(storage)
    {
      storage := new Key[max](_ => 0);
      entries := 0;
    }

    /** bsearch: the index of the key, or -1. */
    method Bsearch(value: Key) returns (i: int)
      requires Valid()
      ensures if value in Members() then 0 <= i < entries && storage[i] == value else i == -1
    {
      var lo, hi := 0, entries;
      while lo < hi
        invariant 0 <= lo <= hi <= entries
        invariant forall k :: 0 <= k < lo ==> storage[k] < value
        invariant forall k :: hi <= k < entries ==> value < storage[k]
      {
        var mid := (lo + hi) / 2;
        assert forall k :: 0 <= k < mid ==> storage[..entries][k] < storage[..entries][mid];
        assert forall k :: mid < k < entries ==> storage[..entries][mid] < storage[..entries][k];
        if storage[mid] < value {
          lo := mid + 1;
        } else if value < storage[mid] {
          hi := mid;
        } else {
          assert storage[..entries][mid] == value;
          return mid;
        }
      }
      i := -1;
    }

    /** eui64set_find. */
    method Find(value: Key) returns (found: bool)
      requires Valid()
      ensures found <==> value in Members()
    {
      var i := Bsearch(value);
      found := i >= 0;
    }

    /** eui64set_sort. */
    method Sort()
      requires entries <= storage.Length
      modifies storage
      ensures storage[..entries] == Qsort(old(storage[..entries]))
    {
      var r := Qsort(storage[..entries]);
      forall i | 0 <= i < entries {
        storage[i] := r[i];
      }
      assert storage[..entries] == r;
    }

    /** The I+S command: find, then eui64set_insert_and_sort. */
    method Add(value: Key) returns (ok: bool)
      requires Valid()
      modifies this`entries, storage
      ensures Valid()
      ensures ok <==> value !in old(Members()) && |old(Members())| < storage.Length
      ensures Members() == if ok then old(Members()) + {value} else old(Members())
    {
      hide Strict, Qsort, Elements;
      ok := false;
      var found := Find(value);
      if found {
        return;
      }
      ghost var s := storage[..entries];
      Listed(s);
      StrictCardinality(s);
      if entries < storage.Length {
        SortedInsert(s, value);
        storage[entries] := value;
        entries := entries + 1;
        assert storage[..entries] == s + [value];
        Sort();
        ok := true;
      }
    }

    /** The entry at i becomes the sentinel, and the array is sorted again. */
    method Replace(i: nat)
      requires i < entries <= storage.Length
      modifies storage
      ensures storage[..entries] == Qsort(old(storage[..entries])[i := LAST])
    {
      hide Qsort;
      storage[i] := LAST;
      assert storage[..entries] == old(storage[..entries])[i := LAST];
      Sort();
    }

    /** eui64set_remove_and_sort. */
    method Remove(value: Key) returns (ok: bool)
      requires Valid()
      modifies this`entries, storage
      ensures Valid()
      ensures ok <==> value in old(Members())
      ensures Members() == old(Members()) - {value}
    {
      hide Strict, Qsort, Elements;
      ok := false;
      ghost var s := storage[..entries];
      Listed(s);
      var i := Bsearch(value);
      if i >= 0 {
        SentinelRemoves(s, i);
        Replace(i);
        entries := entries - 1;
        assert storage[..entries] == storage[..entries + 1][..entries];
        ok := true;
      } else {
        assert Elements(s) - {value} == Elements(s);
      }
    }

    /** eui64set_clear. */
    method Clear()
      modifies this`entries
      ensures Valid() && Members() == {}
    {
      entries := 0;
    }
  }
}
