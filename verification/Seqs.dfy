/** Sequence operations shared by the lists of the model. */
module Seqs {

  ghost predicate Distinct<A>(s: seq<A>) {
    forall i, j :: 0 <= i < j < |s| ==> s[i] != s[j]
  }

  function Map<A, B>(f: A -> B, s: seq<A>): (r: seq<B>)
    ensures |r| == |s|
    ensures forall i :: 0 <= i < |s| ==> r[i] == f(s[i])
  {
    seq(|s|, i requires 0 <= i < |s| => f(s[i]))
  }

  function Unchanged<A>(x: A): A { x }

  lemma MapUnchanged<A>(s: seq<A>)
    ensures Map(Unchanged, s) == s
  {
  }

  function InsertAt<A>(s: seq<A>, k: nat, x: A): (r: seq<A>)
    requires k <= |s|
    ensures |r| == |s| + 1
    ensures forall i :: 0 <= i < |r| ==> r[i] == if i < k then s[i] else if i == k then x else s[i - 1]
  {
    s[..k] + [x] + s[k..]
  }

  function RemoveAt<A>(s: seq<A>, k: nat): (r: seq<A>)
    requires k < |s|
    ensures |r| == |s| - 1
    ensures forall i :: 0 <= i < |r| ==> r[i] == if i < k then s[i] else s[i + 1]
  {
    s[..k] + s[k + 1..]
  }

  /** What is left of s, in order, when those that go are gone. */
  function Without<A>(goes: A -> bool, s: seq<A>): seq<A> {
    if s == [] then [] else Without(goes, s[..|s| - 1]) + Unless(goes, s[|s| - 1])
  }

  function Unless<A>(goes: A -> bool, x: A): seq<A> {
    if goes(x) then [] else [x]
  }

  lemma {:induction false} WithoutMembers<A>(goes: A -> bool, s: seq<A>)
    ensures forall x :: x in Without(goes, s) <==> x in s && !goes(x)
  {
    if s == [] {
    } else {
      var n := |s| - 1;
      WithoutMembers(goes, s[..n]);
      assert s == s[..n] + [s[n]];
    }
  }

  lemma Associative<A>(a: seq<A>, b: seq<A>, c: seq<A>)
    ensures a + b + c == a + (b + c)
  {
  }

  lemma InsertDistinct<A>(s: seq<A>, k: nat, x: A)
    requires Distinct(s) && k <= |s| && x !in s
    ensures Distinct(InsertAt(s, k, x))
  {
  }

  lemma RemoveDistinct<A>(s: seq<A>, k: nat)
    requires Distinct(s) && k < |s|
    ensures Distinct(RemoveAt(s, k))
  {
  }

  /** memcmp(a, b) < 0 for byte strings of one length. */
  predicate LexBelow(a: seq<int>, b: seq<int>)
    decreases |a|
  {
    a != [] && b != [] && (a[0] < b[0] || (a[0] == b[0] && LexBelow(a[1..], b[1..])))
  }

  lemma {:induction false} LexTransitive(a: seq<int>, b: seq<int>, c: seq<int>)
    requires LexBelow(a, b) && LexBelow(b, c)
    ensures LexBelow(a, c)
    decreases |a|
  {
    if a[0] == b[0] == c[0] {
      LexTransitive(a[1..], b[1..], c[1..]);
    }
  }

  lemma {:induction false} LexTotal(a: seq<int>, b: seq<int>)
    requires |a| == |b|
    ensures a != b ==> LexBelow(a, b) || LexBelow(b, a)
    ensures !(LexBelow(a, b) && (a == b || LexBelow(b, a)))
    decreases |a|
  {
    if a == [] {
    } else {
      LexTotal(a[1..], b[1..]);
      assert a == [a[0]] + a[1..] && b == [b[0]] + b[1..];
    }
  }

  function Power256(n: nat): nat { if n == 0 then 1 else 256 * Power256(n - 1) }

  lemma SliceWithin<A>(s: seq<A>, i: nat, j: nat)
    requires i <= j <= |s|
    ensures forall x :: x in s[i..j] ==> x in s
  {
  }
}
