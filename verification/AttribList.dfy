/** The doubly linked attribute list that mvrp.c, msrp.c and mmrp.c each keep:
    lookup by walking, sorted insertion within the block of a type, and unlinking
    of the node under the walk. */
module AttribList {
  import opened Seqs

  class Node<T> {
    var prev: Node?<T>
    var next: Node?<T>
    var value: T

    constructor (value: T)
      ensures this.value == value && prev == null && next == null
    {
      this.value := value;
      prev := null;
      next := null;
    }
  }

  /** Where the add functions insert x.  Walking from i: the first attribute of
      x's type that is not below x is followed by x; if the whole block of x's
      type is below x, x ends the block; without a block x ends the list. */
  function InsertIndex<T>(s: seq<T>, x: T, same: (T, T) -> bool, below: (T, T) -> bool, i: nat): (k: nat)
    requires i <= |s|
    ensures i <= k <= |s|
    decreases |s| - i
  {
    if i == |s| then i
    else if !same(x, s[i]) then InsertIndex(s, x, same, below, i + 1)
    else if !below(s[i], x) then i
    else if i + 1 < |s| && same(s[i], s[i + 1]) then InsertIndex(s, x, same, below, i + 1)
    else i + 1
  }

  /** A walk that updates each value by f and then unlinks it if it goes.  After d
      values of s, those before k are what is left of them. */
  ghost predicate Purging<T>(f: T -> T, goes: T -> bool, s: seq<T>, s': seq<T>, d: nat, k: nat) {
    d <= |s| && k == |Without(goes, Map(f, s[..d]))| && s' == Without(goes, Map(f, s[..d])) + s[d..]
  }

  lemma PurgingStarts<T>(f: T -> T, goes: T -> bool, s: seq<T>)
    ensures Purging(f, goes, s, s, 0, 0)
  {
    assert s[..0] == [];
  }

  lemma PurgingGoesOn<T>(f: T -> T, goes: T -> bool, s: seq<T>, s': seq<T>, d: nat, k: nat)
    requires Purging(f, goes, s, s', d, k) && k < |s'|
    ensures d < |s| && s'[k] == s[d]
    ensures var x := f(s[d]);
            if goes(x) then Purging(f, goes, s, RemoveAt(s'[k := x], k), d + 1, k)
            else Purging(f, goes, s, s'[k := x], d + 1, k + 1)
  {
    assert Map(f, s[..d + 1])[..d] == Map(f, s[..d]);
    assert s[d..] == [s[d]] + s[d + 1..];
  }

  lemma PurgingEnds<T>(f: T -> T, goes: T -> bool, s: seq<T>, s': seq<T>, d: nat, k: nat)
    requires Purging(f, goes, s, s', d, k) && k == |s'|
    ensures d == |s| && s' == Without(goes, Map(f, s))
  {
    assert s[..|s|] == s;
  }

  class List<T> {
    var head: Node?<T>
    ghost var nodes: seq<Node<T>>
    ghost var repr: set<Node<T>>

    /** The nodes are distinct and linked both ways in the order of `nodes`; repr
        holds them and those that have been unlinked. */
    ghost predicate Valid()
      reads this, repr
    {
      && (forall i :: 0 <= i < |nodes| ==> nodes[i] in repr)
      && Distinct(nodes)
      && head == At(0)
      && (forall i {:trigger nodes[i].prev} :: 0 <= i < |nodes| ==> nodes[i].prev == At(i - 1))
      && (forall i {:trigger nodes[i].next} :: 0 <= i < |nodes| ==> nodes[i].next == At(i + 1))
    }

    ghost function At(i: int): Node?<T>
      reads this
    {
      if 0 <= i < |nodes| then nodes[i] else null
    }

    ghost function Contents(): (r: seq<T>)
      reads this, nodes
      ensures |r| == |nodes|
      ensures forall i :: 0 <= i < |nodes| ==> r[i] == nodes[i].value
    {
      seq(|nodes|, i requires 0 <= i < |nodes| reads this, nodes => nodes[i].value)
    }

    constructor ()
      ensures Valid() && nodes == [] && repr == {}
    {
      head := null;
      nodes := [];
      repr := {};
    }

    /** What a walk that has come to index i needs of the links. */
    lemma Links(i: nat)
      requires Valid()
      ensures head == At(0)
      ensures i < |nodes| ==> nodes[i] in repr && nodes[i].next == At(i + 1)
    {
    }

    lemma ListedInRepr()
      requires Valid()
      ensures forall n :: n in nodes ==> n in repr
    {
    }

    /** Overwrites the value of the k-th node. */
    method Set(n: Node<T>, ghost k: nat, x: T)
      requires Valid() && k < |nodes| && nodes[k] == n
      modifies n`value
      ensures Valid()
      ensures Contents() == old(Contents())[k := x]
    {
      n.value := x;
    }

    /** "Head insertion": r goes in front of the k-th node. */
    method InsertBefore(at: Node<T>, ghost k: nat, r: Node<T>)
      requires Valid() && k < |nodes| && nodes[k] == at && r !in nodes
      modifies this, repr`prev, repr`next, r`prev, r`next
      ensures Valid() && nodes == InsertAt(old(nodes), k, r) && repr == old(repr) + {r}
    {
      ghost var o := nodes;
      r.next := at;
      r.prev := at.prev;
      at.prev := r;
      if r.prev != null {
        r.prev.next := r;
      } else {
        head := r;
      }
      InsertDistinct(nodes, k, r);
      nodes := InsertAt(nodes, k, r);
      repr := repr + {r};
      forall i | 0 <= i < |o| ensures o[i].prev == if i == k then r else if i > 0 then o[i - 1] else null {}
      forall i | 0 <= i < |o| ensures o[i].next == if i + 1 == k then r else if i + 1 < |o| then o[i + 1] else null {}
      Linked(o, k, r);
    }

    /** "Tail insertion": r goes behind the k-th node. */
    method InsertAfter(at: Node<T>, ghost k: nat, r: Node<T>)
      requires Valid() && k < |nodes| && nodes[k] == at && r !in nodes
      modifies this, repr`prev, repr`next, r`prev, r`next
      ensures Valid() && nodes == InsertAt(old(nodes), k + 1, r) && repr == old(repr) + {r}
    {
      ghost var o := nodes;
      assert at.next == At(k + 1);
      r.next := at.next;
      r.prev := at;
      at.next := r;
      if r.next != null {
        r.next.prev := r;
      }
      InsertDistinct(nodes, k + 1, r);
      nodes := InsertAt(nodes, k + 1, r);
      repr := repr + {r};
      forall i | 0 <= i < |o| ensures o[i].prev == if i == k + 1 then r else if i > 0 then o[i - 1] else null {}
      forall i | 0 <= i < |o| ensures o[i].next == if i == k then r else if i + 1 < |o| then o[i + 1] else null {}
      Linked(o, k + 1, r);
    }

    /** The links of o, with r linked in at k, are those of InsertAt(o, k, r). */
    lemma Linked(o: seq<Node<T>>, k: nat, r: Node<T>)
      requires k <= |o| && nodes == InsertAt(o, k, r) && Distinct(nodes) && head == nodes[0]
      requires r in repr && forall i :: 0 <= i < |o| ==> o[i] in repr
      requires r.prev == (if k > 0 then o[k - 1] else null) && r.next == (if k < |o| then o[k] else null)
      requires forall i {:trigger o[i].prev} :: 0 <= i < |o| ==>
                 o[i].prev == if i == k then r else if i > 0 then o[i - 1] else null
      requires forall i {:trigger o[i].next} :: 0 <= i < |o| ==>
                 o[i].next == if i + 1 == k then r else if i + 1 < |o| then o[i + 1] else null
      ensures Valid()
    {
      forall i | 0 <= i < |nodes| ensures nodes[i].prev == At(i - 1) && nodes[i].next == At(i + 1) {
        assert nodes[i] == if i < k then o[i] else if i == k then r else o[i - 1];
      }
    }

    method InsertOnly(r: Node<T>)
      requires Valid() && nodes == []
      modifies this, r`prev, r`next
      ensures Valid() && nodes == [r] && repr == old(repr) + {r}
    {
      r.next := null;
      r.prev := null;
      head := r;
      nodes := [r];
      repr := repr + {r};
    }

    /** Takes the k-th node out of the list and returns the one behind it. */
    method Unlink(n: Node<T>, ghost k: nat) returns (next: Node?<T>)
      requires Valid() && k < |nodes| && nodes[k] == n
      modifies this, repr`prev, repr`next
      ensures Valid() && nodes == RemoveAt(old(nodes), k) && repr == old(repr)
      ensures next == At(k)
    {
      ghost var o := nodes;
      if n.prev != null {
        n.prev.next := n.next;
      } else {
        head := n.next;
      }
      if n.next != null {
        n.next.prev := n.prev;
      }
      next := n.next;
      RemoveDistinct(nodes, k);
      nodes := RemoveAt(nodes, k);
      forall i | 0 <= i < |o| && i != k
        ensures o[i].prev == if i == k + 1 then (if k > 0 then o[k - 1] else null)
                             else if i > 0 then o[i - 1] else null {}
      forall i | 0 <= i < |o| && i != k
        ensures o[i].next == if i + 1 == k then (if k + 1 < |o| then o[k + 1] else null)
                             else if i + 1 < |o| then o[i + 1] else null {}
      Relinked(o, k);
    }

    /** The links of o, with its k-th node bypassed, are those of RemoveAt(o, k). */
    lemma Relinked(o: seq<Node<T>>, k: nat)
      requires k < |o| && nodes == RemoveAt(o, k) && Distinct(nodes) && head == At(0)
      requires forall i :: 0 <= i < |o| ==> o[i] in repr
      requires forall i {:trigger o[i].prev} :: 0 <= i < |o| && i != k ==>
                 o[i].prev == if i == k + 1 then (if k > 0 then o[k - 1] else null)
                              else if i > 0 then o[i - 1] else null
      requires forall i {:trigger o[i].next} :: 0 <= i < |o| && i != k ==>
                 o[i].next == if i + 1 == k then (if k + 1 < |o| then o[k + 1] else null)
                              else if i + 1 < |o| then o[i + 1] else null
      ensures Valid()
    {
      forall i | 0 <= i < |nodes| ensures nodes[i].prev == At(i - 1) && nodes[i].next == At(i + 1) {
        assert nodes[i] == if i < k then o[i] else o[i + 1];
      }
    }

    /** mvrp_add, msrp_add and mmrp_add: `same` compares types and `below` the
        values within a type. */
    method AddNode(r: Node<T>, same: (T, T) -> bool, below: (T, T) -> bool)
      requires Valid() && r !in nodes
      modifies this, repr`prev, repr`next, r`prev, r`next
      ensures Valid() && repr == old(repr) + {r}
      ensures var k := InsertIndex(old(Contents()), r.value, same, below, 0);
              nodes == InsertAt(old(nodes), k, r)
    {
      ghost var s := Contents();
      var attrib, tail := head, head;
      ghost var i := 0;
      while attrib != null
        invariant 0 <= i <= |nodes| && attrib == At(i)
        invariant tail == if i > 0 then nodes[i - 1] else head
        invariant Valid() && nodes == old(nodes) && head == old(head) && repr == old(repr)
        invariant Contents() == s
        invariant InsertIndex(s, r.value, same, below, i) == InsertIndex(s, r.value, same, below, 0)
        decreases |nodes| - i
      {
        if same(r.value, attrib.value) {
          if below(attrib.value, r.value) {
            if attrib.next != null && same(attrib.value, attrib.next.value) {
              tail := attrib;
              attrib := attrib.next;
              i := i + 1;
              continue;
            }
            InsertAfter(attrib, i, r);
            return;
          } else {
            InsertBefore(attrib, i, r);
            return;
          }
        }
        tail := attrib;
        attrib := attrib.next;
        i := i + 1;
      }
      if tail == null {
        InsertOnly(r);
      } else {
        InsertAfter(tail, i - 1, r);
      }
    }

    method Add(r: Node<T>, same: (T, T) -> bool, below: (T, T) -> bool)
      requires Valid() && r !in nodes
      modifies this, repr`prev, repr`next, r`prev, r`next
      ensures Valid() && repr == old(repr) + {r}
      ensures var k := InsertIndex(old(Contents()), r.value, same, below, 0);
              nodes == InsertAt(old(nodes), k, r) && Contents() == InsertAt(old(Contents()), k, r.value)
    {
      hide Valid, InsertIndex;
      AddNode(r, same, below);
    }

    /** Unlinks the k-th node if it has to go, and returns the next one. */
    method Delete(n: Node<T>, ghost k: nat, goes: bool) returns (next: Node?<T>)
      requires Valid() && k < |nodes| && nodes[k] == n
      modifies this, repr`prev, repr`next
      ensures Valid() && repr == old(repr)
      ensures if goes then Contents() == RemoveAt(old(Contents()), k) && next == At(k)
              else Contents() == old(Contents()) && next == At(k + 1)
    {
      if goes {
        next := Unlink(n, k);
      } else {
        next := n.next;
      }
    }

    /** A walk over s has come to n, the k-th node, after d values. */
    ghost predicate Walking(f: T -> T, goes: T -> bool, s: seq<T>, n: Node?<T>, d: nat, k: nat)
      reads this, repr
    {
      Valid() && k <= |nodes| && n == At(k) && Purging(f, goes, s, Contents(), d, k)
    }

    lemma WalkStarts(f: T -> T, goes: T -> bool)
      requires Valid()
      ensures Walking(f, goes, Contents(), head, 0, 0)
    {
      hide Purging;
      PurgingStarts(f, goes, Contents());
    }

    method WalkStep(f: T -> T, goes: T -> bool, ghost s: seq<T>, n: Node<T>, ghost d: nat, ghost k: nat)
      returns (next: Node?<T>, ghost k': nat)
      requires Walking(f, goes, s, n, d, k)
      modifies this, repr
      ensures repr == old(repr) && d < |s| && Walking(f, goes, s, next, d + 1, k')
    {
      hide Purging, Contents, Valid;
      PurgingGoesOn(f, goes, s, Contents(), d, k);
      Links(k);
      var x := f(n.value);
      Set(n, k, x);
      next := Delete(n, k, goes(x));
      k' := if goes(x) then k else k + 1;
    }

    lemma WalkEnds(f: T -> T, goes: T -> bool, s: seq<T>, d: nat, k: nat)
      requires Walking(f, goes, s, null, d, k)
      ensures Valid() && Contents() == Without(goes, Map(f, s))
    {
      hide Purging, Without, Map;
      PurgingEnds(f, goes, s, Contents(), d, k);
    }

    /** Walks the whole list, updating every value and unlinking those that go. */
    method Walk(f: T -> T, goes: T -> bool)
      requires Valid()
      modifies this, repr
      ensures Valid() && repr == old(repr) && Contents() == Without(goes, Map(f, old(Contents())))
    {
      hide Walking, Without, Map, Contents, Valid;
      ghost var s, d: nat, k: nat := Contents(), 0, 0;
      WalkStarts(f, goes);
      var n := head;
      while n != null
        invariant repr == old(repr) && Walking(f, goes, s, n, d, k)
        decreases |s| - d
      {
        n, k := WalkStep(f, goes, s, n, d, k);
        d := d + 1;
      }
      WalkEnds(f, goes, s, d, k);
    }
  }
}
