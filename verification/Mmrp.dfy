/** The attribute list of mmrp.c: lookup, sorted insertion by type and value, and
    reclaim. */
module Mmrp {
  import opened Mrp
  import opened MrpRuns
  import opened Seqs
  import opened AttribList

  type MacAddr = m: seq<Byte> | |m| == 6 witness [0, 0, 0, 0, 0, 0]

  /** A service requirement or a MAC address. */
  datatype Value = Service(req: Byte) | Mac(addr: MacAddr)

  datatype Attr = Attr(value: Value, app: AppState, reg: RegState)

  predicate Same(a: Attr, b: Attr) { a.value.Service? == b.value.Service? }

  /** The order within a type. */
  predicate Below(a: Attr, b: Attr) {
    match a.value
    case Service(x) => b.value.Service? && x < b.value.req
    case Mac(x) => b.value.Mac? && LexBelow(x, b.value.addr)
  }

  lemma BelowTransitive(a: Attr, b: Attr, c: Attr)
    requires Below(a, b) && Below(b, c)
    ensures Below(a, c)
  {
    if a.value.Mac? {
      LexTransitive(a.value.addr, b.value.addr, c.value.addr);
    }
  }

  lemma BelowTotal(a: Attr, b: Attr)
    requires Same(a, b)
    ensures a.value != b.value ==> Below(a, b) || Below(b, a)
    ensures Below(a, b) ==> a.value != b.value && !Below(b, a)
  {
    if a.value.Mac? {
      LexTotal(a.value.addr, b.value.addr);
    }
  }

  // ---------------------------------------------------------------------
  // The list as a value
  // ---------------------------------------------------------------------

  function FindFrom(s: seq<Attr>, v: Value, i: nat): (k: nat)
    requires i <= |s|
    ensures i <= k <= |s|
    ensures k < |s| ==> s[k].value == v
    ensures forall m :: i <= m < k ==> s[m].value != v
    decreases |s| - i
  {
    if i == |s| || s[i].value == v then i else FindFrom(s, v, i + 1)
  }

  function Find(s: seq<Attr>, v: Value): nat { FindFrom(s, v, 0) }

  function Allocated(v: Value): Attr { Attr(v, VO, MT) }

  /** The list when event e about v has found or added its attribute; a received Empty
      adds none. */
  function Touched(s: seq<Attr>, v: Value, e: Event): seq<Attr> {
    if Find(s, v) < |s| || e == RMt then s
    else InsertAt(s, InsertIndex(s, Allocated(v), Same, Below, 0), Allocated(v))
  }

  predicate Dead(a: Attr) { Reclaimable(a.app, a.reg) }

  /** mmrp_reclaim. */
  function Collected(s: seq<Attr>): seq<Attr> { Without(Dead, s) }

  /** An attribute's value never changes; its machines may move anyhow. */
  datatype Action = Touch(v: Value, e: Event) | Move(k: nat, app: AppState, reg: RegState) | Collect

  function Act(s: seq<Attr>, a: Action): seq<Attr> {
    match a
    case Touch(v, e) => Touched(s, v, e)
    case Move(k, app, reg) => if k < |s| then s[k := Attr(s[k].value, app, reg)] else s
    case Collect => Collected(s)
  }

  function Run(acts: seq<Action>): seq<Attr> {
    if acts == [] then [] else Act(Run(acts[..|acts| - 1]), acts[|acts| - 1])
  }

  // ---------------------------------------------------------------------
  // Two sorted blocks
  // ---------------------------------------------------------------------

  /** Attributes of one type stand together and ascend strictly. */
  ghost predicate Blocks(s: seq<Attr>) {
    && (forall i, j :: 0 <= i < j < |s| && Same(s[i], s[j]) ==> Below(s[i], s[j]))
    && (forall i, j, k :: 0 <= i < j < k < |s| && Same(s[i], s[k]) ==> Same(s[i], s[j]))
  }

  /** k divides the attributes of x's type into those below x and the others, and
      lies in or next to their block if there is one. */
  ghost predicate Place(s: seq<Attr>, x: Attr, k: nat) {
    && k <= |s|
    && (forall j :: 0 <= j < k && Same(x, s[j]) ==> Below(s[j], x))
    && (forall j :: k <= j < |s| && Same(x, s[j]) ==> !Below(s[j], x))
    && (k < |s| ==> (k > 0 && Same(x, s[k - 1])) || Same(x, s[k]))
    && (k == |s| > 0 && !Same(x, s[k - 1]) ==> forall j :: 0 <= j < |s| ==> !Same(x, s[j]))
  }

  lemma {:induction false} InsertIndexIsPlace(s: seq<Attr>, x: Attr, i: nat)
    requires Blocks(s) && i <= |s|
    requires forall j :: 0 <= j < i && Same(x, s[j]) ==> Below(s[j], x)
    requires (exists j :: 0 <= j < i && Same(x, s[j])) ==> i < |s| && Same(x, s[i])
    ensures Place(s, x, InsertIndex(s, x, Same, Below, i))
    decreases |s| - i
  {
    hide Below;
    if i == |s| {
    } else {
      if !Same(x, s[i]) {
        InsertIndexIsPlace(s, x, i + 1);
      } else if !Below(s[i], x) {
        forall j | i < j < |s| && Same(x, s[j]) ensures !Below(s[j], x) {
          assert Below(s[i], s[j]);
          if Below(s[j], x) {
            BelowTransitive(s[i], s[j], x);
          }
        }
      } else if i + 1 < |s| && Same(s[i], s[i + 1]) {
        InsertIndexIsPlace(s, x, i + 1);
      }
    }
  }

  lemma InsertKeepsBlocks(s: seq<Attr>, x: Attr, k: nat)
    requires Blocks(s) && Place(s, x, k) && forall j :: 0 <= j < |s| ==> s[j].value != x.value
    ensures Blocks(InsertAt(s, k, x))
  {
    hide Below;
    var t := InsertAt(s, k, x);
    forall i, j | 0 <= i < j < |t| && Same(t[i], t[j]) ensures Below(t[i], t[j]) {
      if i == k {
        BelowTotal(x, s[j - 1]);
      } else if j == k {
        assert t[i] == s[i];
      }
    }
    forall i, j, m | 0 <= i < j < m < |t| && Same(t[i], t[m]) ensures Same(t[i], t[j]) {
      Between(s, x, k, i, j, m);
    }
  }

  lemma Between(s: seq<Attr>, x: Attr, k: nat, i: nat, j: nat, m: nat)
    requires Blocks(s) && Place(s, x, k) && i < j < m <= |s|
    requires var t := InsertAt(s, k, x); Same(t[i], t[m])
    ensures var t := InsertAt(s, k, x); Same(t[i], t[j])
  {
    hide Below;
    var t := InsertAt(s, k, x);
    if i == k {
      assert t[m] == s[m - 1] && t[j] == s[j - 1];
    } else if m == k {
      assert t[i] == s[i] && t[j] == s[j];
    } else if j == k {
      assert t[i] == s[i] && t[m] == s[m - 1];
    }
  }

  lemma TouchKeepsBlocks(s: seq<Attr>, v: Value, e: Event)
    requires Blocks(s)
    ensures Blocks(Touched(s, v, e))
  {
    hide Blocks, InsertIndex;
    if Find(s, v) == |s| {
      InsertIndexIsPlace(s, Allocated(v), 0);
      InsertKeepsBlocks(s, Allocated(v), InsertIndex(s, Allocated(v), Same, Below, 0));
    }
  }

  /** Where in s the attributes that stay come from, in order. */
  lemma {:induction false} Origins(s: seq<Attr>) returns (ix: seq<nat>)
    ensures var t := Collected(s);
            && |ix| == |t| && (forall i :: 0 <= i < |t| ==> ix[i] < |s| && t[i] == s[ix[i]])
            && (forall i, j :: 0 <= i < j < |t| ==> ix[i] < ix[j])
  {
    hide Dead;
    ix := [];
    if s == [] {
    } else {
      var n := |s| - 1;
      ix := Origins(s[..n]);
      if !Dead(s[n]) {
        ix := ix + [n];
      }
    }
  }

  lemma CollectKeepsBlocks(s: seq<Attr>)
    requires Blocks(s)
    ensures Blocks(Collected(s))
  {
    hide Below, Without;
    var ix := Origins(s);
    var t := Collected(s);
    forall i, j | 0 <= i < j < |t| && Same(t[i], t[j]) ensures Below(t[i], t[j]) {
      assert ix[i] < ix[j];
    }
    forall i, j, k | 0 <= i < j < k < |t| && Same(t[i], t[k]) ensures Same(t[i], t[j]) {
      assert ix[i] < ix[j] < ix[k];
    }
  }

  /** In every run the list is at most two blocks, one of each type, strictly sorted. */
  lemma {:induction false} RunKeepsBlocks(acts: seq<Action>)
    ensures Blocks(Run(acts))
  {
    hide Blocks, Touched, Collected;
    if acts == [] {
      NothingIsBlocks();
    } else {
      var s := Run(acts[..|acts| - 1]);
      RunKeepsBlocks(acts[..|acts| - 1]);
      match acts[|acts| - 1]
      case Touch(v, e) => TouchKeepsBlocks(s, v, e);
      case Move(k, app, reg) =>
        if k < |s| {
          MoveKeepsBlocks(s, k, Attr(s[k].value, app, reg));
        }
      case Collect => CollectKeepsBlocks(s);
    }
  }

  lemma NothingIsBlocks()
    ensures Blocks([])
  {
  }

  lemma MoveKeepsBlocks(s: seq<Attr>, k: nat, a: Attr)
    requires Blocks(s) && k < |s| && a.value == s[k].value
    ensures Blocks(s[k := a])
  {
  }

  /** So values are unique, and there is one border between the types. */
  lemma BlocksMeans(s: seq<Attr>)
    requires Blocks(s)
    ensures forall i, j :: 0 <= i < j < |s| ==> s[i].value != s[j].value
    ensures forall i, j :: 0 <= i < j < |s| && !Same(s[i], s[i + 1]) && i + 1 <= j ==> !Same(s[i], s[j])
  {
    forall i, j | 0 <= i < j < |s| ensures s[i].value != s[j].value {
      if Same(s[i], s[j]) {
        BelowTotal(s[i], s[j]);
      }
    }
  }

  // ---------------------------------------------------------------------
  // The list itself
  // ---------------------------------------------------------------------

  class Database {
    const list: List<Attr>

    constructor ()
      ensures list.Valid() && list.Contents() == [] && fresh(list)
    {
      list := new List<Attr>();
    }

    /** mmrp_lookup. */
    method Lookup(v: Value) returns (n: Node?<Attr>, ghost k: nat)
      requires list.Valid()
      ensures k == Find(list.Contents(), v) && n == list.At(k)
    {
      hide List.Valid;
      list.Links(0);
      n, k := list.head, 0;
      while n != null
        invariant k <= |list.nodes| && n == list.At(k)
        invariant FindFrom(list.Contents(), v, k) == Find(list.Contents(), v)
        decreases |list.nodes| - k
      {
        if n.value.value == v {
          return;
        }
        list.Links(k);
        n, k := n.next, k + 1;
      }
    }

    /** mmrp_event looks the attribute up and adds it if it is new, except on a received
        Empty. */
    method Touch(v: Value, e: Event)
      requires list.Valid()
      modifies list, list.repr
      ensures list.Valid() && list.Contents() == Touched(old(list.Contents()), v, e)
    {
      hide InsertIndex, Find, List.Valid, List.Contents;
      var n, k := Lookup(v);
      list.ListedInRepr();
      if n == null && e != RMt {
        var r := new Node(Allocated(v));
        list.Add(r, Same, Below);
      }
    }

    /** mmrp_reclaim. */
    method Reclaim()
      requires list.Valid()
      modifies list, list.repr
      ensures list.Valid() && list.Contents() == Collected(old(list.Contents()))
    {
      MapUnchanged(list.Contents());
      list.Walk(Unchanged, Dead);
    }
  }
}
