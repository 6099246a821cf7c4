/** que.c: a bounded queue between threads, made of a ring buffer, a mutex and two
    counting semaphores.  Threads are modelled step by step, in any interleaving. */
module Queue {
  import opened Mrp

  // ---------------------------------------------------------------------
  // Positions modulo the size
  // ---------------------------------------------------------------------

  lemma Multiple(n: nat, k: nat)
    requires k > 0
    ensures n * k >= n
  {
  }

  lemma Distribute(n: nat, q: nat, q': nat)
    requires q <= q'
    ensures n * q' == n * q + n * (q' - q)
  {
  }

  lemma UniqueQuotient(n: nat, q: nat, r: nat, q': nat, r': nat)
    requires r < n && r' < n && n * q + r == n * q' + r'
    ensures q == q' && r == r'
  {
    if q < q' {
      Distribute(n, q, q');
      Multiple(n, q' - q);
    } else if q' < q {
      Distribute(n, q', q);
      Multiple(n, q - q');
    }
  }

  lemma Remainder(x: nat, n: nat, q: nat, r: nat)
    requires r < n && x == n * q + r
    ensures x % n == r
  {
    UniqueQuotient(n, x / n, x % n, q, r);
  }

  lemma NextPosition(p: nat, n: nat)
    requires n > 0
    ensures (p % n + 1) % n == (p + 1) % n
  {
    var q, r := p / n, p % n;
    if r + 1 < n {
      Remainder(r + 1, n, 0, r + 1);
      Remainder(p + 1, n, q, r + 1);
    } else {
      Distribute(n, q, q + 1);
      Remainder(r + 1, n, 1, 0);
      Remainder(p + 1, n, q + 1, 0);
    }
  }

  lemma DistinctPositions(a: nat, b: nat, n: nat)
    requires a < b < a + n
    ensures a % n != b % n
  {
    var q, q' := a / n, b / n;
    assert a == n * q + a % n && b == n * q' + b % n;
    if q < q' {
      Distribute(n, q, q');
      Multiple(n, q' - q);
    } else {
      Distribute(n, q', q);
    }
  }

  // ---------------------------------------------------------------------
  // Threads
  // ---------------------------------------------------------------------

  /** Where a thread is in que_push or in que_pop_wait. */
  datatype Pc<T> =
    | Idle
    | HasSpace(d: T)      // took a permit of space_avail
    | PushLocked(d: T)    // entered the critical section
    | PushCopied(d: T)    // copied the item into the ring
    | PushAdvanced        // moved in_pos on
    | PushLeft            // left the critical section; data_avail not yet released
    | HasData             // took a permit of data_avail
    | PopLocked
    | PopCopied(v: T)
    | PopAdvanced(v: T)
    | PopLeft(v: T)       // space_avail not yet released

  /** The queue, its threads, and the items pushed and popped so far, in the order in
      which the positions moved. */
  datatype State<T> = State(
    buffer: seq<T>, inPos: nat, outPos: nat, space: nat, data: nat, owner: Option<nat>,
    threads: seq<Pc<T>>, pushed: seq<T>, popped: seq<T>)

  /** What an idle thread calls next. */
  datatype Call<T> = Push(d: T) | Pop

  function At<T>(s: State<T>, i: nat, pc: Pc<T>): State<T>
    requires i < |s.threads|
  {
    s.(threads := s.threads[i := pc])
  }

  /** One step of thread i.  A thread that has to wait stays where it is. */
  function Step<T>(s: State<T>, i: nat, call: Call<T>): State<T>
    requires i < |s.threads| && s.inPos < |s.buffer| && s.outPos < |s.buffer|
  {
    match s.threads[i]
    case Idle =>
      (match call
       case Push(d) => if s.space > 0 then At(s.(space := s.space - 1), i, HasSpace(d)) else s
       case Pop => if s.data > 0 then At(s.(data := s.data - 1), i, HasData) else s)
    case HasSpace(d) => if s.owner.None? then At(s.(owner := Some(i)), i, PushLocked(d)) else s
    case PushLocked(d) => At(s.(buffer := s.buffer[s.inPos := d]), i, PushCopied(d))
    case PushCopied(d) =>
      At(s.(inPos := (s.inPos + 1) % |s.buffer|, pushed := s.pushed + [d]), i, PushAdvanced)
    case PushAdvanced => At(s.(owner := None), i, PushLeft)
    case PushLeft => At(s.(data := s.data + 1), i, Idle)
    case HasData => if s.owner.None? then At(s.(owner := Some(i)), i, PopLocked) else s
    case PopLocked => At(s, i, PopCopied(s.buffer[s.outPos]))
    case PopCopied(v) =>
      At(s.(outPos := (s.outPos + 1) % |s.buffer|, popped := s.popped + [v]), i, PopAdvanced(v))
    case PopAdvanced(v) => At(s.(owner := None), i, PopLeft(v))
    case PopLeft(_) => At(s.(space := s.space + 1), i, Idle)
  }

  // ---------------------------------------------------------------------
  // Counting threads
  // ---------------------------------------------------------------------

  /** A thread that took a space permit and has not filled its slot. */
  predicate Filling<T>(pc: Pc<T>) { pc.HasSpace? || pc.PushLocked? || pc.PushCopied? }

  /** A thread that took a data permit and has not emptied its slot. */
  predicate Emptying<T>(pc: Pc<T>) { pc.HasData? || pc.PopLocked? || pc.PopCopied? }

  predicate Filled<T>(pc: Pc<T>) { pc.PushAdvanced? || pc.PushLeft? }

  predicate Emptied<T>(pc: Pc<T>) { pc.PopAdvanced? || pc.PopLeft? }

  predicate Inside<T>(pc: Pc<T>) {
    pc.PushLocked? || pc.PushCopied? || pc.PushAdvanced? || pc.PopLocked? || pc.PopCopied? || pc.PopAdvanced?
  }

  datatype Phase = InFilling | InEmptying | InFilled | InEmptied

  predicate IsIn<T>(pc: Pc<T>, ph: Phase) {
    match ph
    case InFilling => Filling(pc)
    case InEmptying => Emptying(pc)
    case InFilled => Filled(pc)
    case InEmptied => Emptied(pc)
  }

  function One(b: bool): nat { if b then 1 else 0 }

  function Count<T>(ts: seq<Pc<T>>, ph: Phase): nat {
    if ts == [] then 0 else Count(ts[..|ts| - 1], ph) + One(IsIn(ts[|ts| - 1], ph))
  }

  lemma {:induction false} CountUpdate<T>(ts: seq<Pc<T>>, i: nat, pc: Pc<T>, ph: Phase)
    requires i < |ts|
    ensures Count(ts[i := pc], ph) + One(IsIn(ts[i], ph)) == Count(ts, ph) + One(IsIn(pc, ph))
    decreases |ts|
  {
    hide IsIn;
    var n := |ts| - 1;
    if i == n {
      assert ts[i := pc][..n] == ts[..n];
    } else {
      assert ts[i := pc][..n] == ts[..n][i := pc];
      CountUpdate(ts[..n], i, pc, ph);
    }
  }

  lemma {:induction false} CountAtLeast<T>(ts: seq<Pc<T>>, i: nat, ph: Phase)
    requires i < |ts| && IsIn(ts[i], ph)
    ensures Count(ts, ph) >= 1
    decreases |ts|
  {
    hide IsIn;
    if i == |ts| - 1 {
    } else {
      CountAtLeast(ts[..|ts| - 1], i, ph);
    }
  }

  // ---------------------------------------------------------------------
  // The invariant
  // ---------------------------------------------------------------------

  /** How many items have been pushed and popped, and who holds the permits. */
  ghost predicate Balanced<T>(s: State<T>) {
    var held := |s.pushed| - |s.popped|;
    && held == s.data + Count(s.threads, InEmptying) + Count(s.threads, InFilled)
    && |s.buffer| == s.space + Count(s.threads, InFilling) + held + Count(s.threads, InEmptied)
  }

  ghost predicate Exclusive<T>(s: State<T>) {
    && (s.owner.Some? ==> s.owner.value < |s.threads| && Inside(s.threads[s.owner.value]))
    && (forall i :: 0 <= i < |s.threads| && Inside(s.threads[i]) ==> s.owner == Some(i))
  }

  /** The ring holds the unread items, in order, from out_pos on. */
  ghost predicate Stored<T>(s: State<T>) {
    && |s.buffer| > 0
    && s.inPos == |s.pushed| % |s.buffer| && s.outPos == |s.popped| % |s.buffer|
    && |s.popped| <= |s.pushed| && s.popped == s.pushed[..|s.popped|]
    && (forall k :: |s.popped| <= k < |s.pushed| ==> s.buffer[k % |s.buffer|] == s.pushed[k])
  }

  /** What the thread in the critical section has just copied. */
  ghost predicate Copied<T>(s: State<T>, pc: Pc<T>) {
    match pc
    case PushCopied(d) => s.inPos < |s.buffer| && s.buffer[s.inPos] == d
    case PopCopied(v) => |s.popped| < |s.pushed| && s.pushed[|s.popped|] == v
    case _ => true
  }

  ghost predicate Inv<T>(s: State<T>) {
    && Balanced(s) && Exclusive(s) && Stored(s)
    && (forall i :: 0 <= i < |s.threads| ==> Copied(s, s.threads[i]))
  }

  /** Permits bound the ring: a thread about to fill a slot finds one free, and one
      about to empty a slot finds an item. */
  lemma Permitted<T>(s: State<T>, i: nat)
    requires Balanced(s) && i < |s.threads|
    ensures Filling(s.threads[i]) ==> |s.pushed| - |s.popped| < |s.buffer|
    ensures Emptying(s.threads[i]) ==> |s.popped| < |s.pushed|
    ensures |s.popped| <= |s.pushed|
  {
    if Filling(s.threads[i]) {
      CountAtLeast(s.threads, i, InFilling);
    }
    if Emptying(s.threads[i]) {
      CountAtLeast(s.threads, i, InEmptying);
    }
  }

  lemma StepBalanced<T>(s: State<T>, i: nat, call: Call<T>)
    requires i < |s.threads| && s.inPos < |s.buffer| && s.outPos < |s.buffer| && Balanced(s)
    ensures Balanced(Step(s, i, call))
  {
    hide Count;
    var pc := Step(s, i, call).threads[i];
    CountUpdate(s.threads, i, pc, InFilling);
    CountUpdate(s.threads, i, pc, InEmptying);
    CountUpdate(s.threads, i, pc, InFilled);
    CountUpdate(s.threads, i, pc, InEmptied);
    assert s.threads[i := s.threads[i]] == s.threads;
  }

  lemma StepExclusive<T>(s: State<T>, i: nat, call: Call<T>)
    requires i < |s.threads| && s.inPos < |s.buffer| && s.outPos < |s.buffer| && Exclusive(s)
    ensures Exclusive(Step(s, i, call))
  {
  }

  /** The copy into the ring overwrites no unread item. */
  lemma FillKeepsUnread<T>(s: State<T>, d: T)
    requires Stored(s) && |s.pushed| - |s.popped| < |s.buffer|
    ensures Stored(s.(buffer := s.buffer[s.inPos := d]))
  {
    var b := s.buffer[s.inPos := d];
    forall k | |s.popped| <= k < |s.pushed| ensures b[k % |b|] == s.pushed[k] {
      DistinctPositions(k, |s.pushed|, |b|);
    }
  }

  lemma FillAdvances<T>(s: State<T>, d: T)
    requires Stored(s) && s.buffer[s.inPos] == d
    ensures Stored(s.(inPos := (s.inPos + 1) % |s.buffer|, pushed := s.pushed + [d]))
  {
    NextPosition(|s.pushed|, |s.buffer|);
    var p := s.pushed + [d];
    assert p[..|s.popped|] == s.pushed[..|s.popped|];
  }

  lemma EmptyAdvances<T>(s: State<T>, v: T)
    requires Stored(s) && |s.popped| < |s.pushed| && s.pushed[|s.popped|] == v
    ensures Stored(s.(outPos := (s.outPos + 1) % |s.buffer|, popped := s.popped + [v]))
  {
    NextPosition(|s.popped|, |s.buffer|);
    assert s.pushed[..|s.popped| + 1] == s.pushed[..|s.popped|] + [v];
  }

  lemma StepStored<T>(s: State<T>, i: nat, call: Call<T>)
    requires Inv(s) && i < |s.threads|
    ensures Stored(Step(s, i, call))
  {
    hide Count, Balanced, Exclusive;
    Permitted(s, i);
    match s.threads[i]
    case PushLocked(d) => FillKeepsUnread(s, d);
    case PushCopied(d) => FillAdvances(s, d);
    case PopCopied(v) => EmptyAdvances(s, v);
    case _ =>
  }

  lemma StepCopied<T>(s: State<T>, i: nat, call: Call<T>)
    requires Inv(s) && i < |s.threads|
    ensures var s' := Step(s, i, call);
            forall j :: 0 <= j < |s'.threads| ==> Copied(s', s'.threads[j])
  {
    hide Count, Balanced;
    Permitted(s, i);
  }

  lemma StepInv<T>(s: State<T>, i: nat, call: Call<T>)
    requires Inv(s) && i < |s.threads|
    ensures Inv(Step(s, i, call))
  {
    hide Balanced, Exclusive, Step, Copied;
    StepBalanced(s, i, call);
    StepExclusive(s, i, call);
    StepStored(s, i, call);
    StepCopied(s, i, call);
  }

  // ---------------------------------------------------------------------
  // Every run
  // ---------------------------------------------------------------------

  /** que_new, with a zeroed buffer of n > 0 entries. */
  function Start<T>(buffer: seq<T>, threads: nat): State<T> {
    State(buffer, 0, 0, |buffer|, 0, None, seq(threads, _ => Idle), [], [])
  }

  /** A schedule: which thread moves, and what it calls if it is idle. */
  datatype Turn<T> = Turn(thread: nat, call: Call<T>)

  ghost predicate Follows<T>(s: State<T>, turns: seq<Turn<T>>, s': State<T>)
    decreases |turns|
  {
    if turns == [] then s' == s
    else
      var t := turns[0];
      && t.thread < |s.threads| && s.inPos < |s.buffer| && s.outPos < |s.buffer|
      && Follows(Step(s, t.thread, t.call), turns[1..], s')
  }

  lemma {:induction false} RunInv<T>(s: State<T>, turns: seq<Turn<T>>, s': State<T>)
    requires Inv(s) && Follows(s, turns, s')
    ensures Inv(s') && |s'.buffer| == |s.buffer|
    decreases |turns|
  {
    hide Inv;
    if turns == [] {
    } else {
      StepInv(s, turns[0].thread, turns[0].call);
      RunInv(Step(s, turns[0].thread, turns[0].call), turns[1..], s');
    }
  }

  lemma {:induction false} NobodyCounted<T>(ts: seq<Pc<T>>, ph: Phase)
    requires forall i :: 0 <= i < |ts| ==> ts[i] == Idle
    ensures Count(ts, ph) == 0
  {
    if ts == [] {
    } else {
      NobodyCounted(ts[..|ts| - 1], ph);
    }
  }

  lemma StartInv<T>(buffer: seq<T>, threads: nat)
    requires buffer != []
    ensures Inv(Start(buffer, threads))
  {
    var ts := Start(buffer, threads).threads;
    NobodyCounted(ts, InFilling);
    NobodyCounted(ts, InEmptying);
    NobodyCounted(ts, InFilled);
    NobodyCounted(ts, InEmptied);
    hide Count;
    assert 0 % |buffer| == 0;
  }

  /** In every interleaving: items come out in the order in which they went in, every
      unread item is still in its slot, the positions are the counts modulo the size,
      and no semaphore exceeds its maximum, so that no release fails. */
  lemma QueueIsFifo<T>(buffer: seq<T>, threads: nat, turns: seq<Turn<T>>, s: State<T>)
    requires buffer != [] && Follows(Start(buffer, threads), turns, s)
    ensures s.popped <= s.pushed && |s.pushed| - |s.popped| <= |buffer|
    ensures forall k :: |s.popped| <= k < |s.pushed| ==> |s.buffer| == |buffer| && s.buffer[k % |buffer|] == s.pushed[k]
    ensures s.inPos == |s.pushed| % |buffer| && s.outPos == |s.popped| % |buffer|
    ensures s.space <= |buffer| && s.data <= |buffer|
    ensures forall i :: 0 <= i < |s.threads| && Filled(s.threads[i]) ==> s.data < |buffer|
    ensures forall i :: 0 <= i < |s.threads| && Emptied(s.threads[i]) ==> s.space < |buffer|
  {
    StartInv(buffer, threads);
    RunInv(Start(buffer, threads), turns, s);
    hide Follows;
    forall i | 0 <= i < |s.threads|
      ensures (Filled(s.threads[i]) ==> s.data < |buffer|) && (Emptied(s.threads[i]) ==> s.space < |buffer|)
    {
      if Filled(s.threads[i]) {
        CountAtLeast(s.threads, i, InFilled);
      } else if Emptied(s.threads[i]) {
        CountAtLeast(s.threads, i, InEmptied);
      }
    }
  }

  /** Once all threads are idle again, every permit is back. */
  lemma QuietQueue<T>(s: State<T>)
    requires Inv(s) && forall i :: 0 <= i < |s.threads| ==> s.threads[i] == Idle
    ensures s.data == |s.pushed| - |s.popped| && s.space + s.data == |s.buffer| && s.owner == None
  {
    NobodyCounted(s.threads, InFilling);
    NobodyCounted(s.threads, InEmptying);
    NobodyCounted(s.threads, InFilled);
    NobodyCounted(s.threads, InEmptied);
  }

  /** A thread is blocked only for a reason: no permit, or another thread inside, and
      the thread inside is never blocked. */
  lemma SomebodyMoves<T>(s: State<T>, i: nat, call: Call<T>)
    requires Inv(s) && i < |s.threads| && Step(s, i, call) == s
    ensures s.owner.Some? || s.threads[i] == Idle
    ensures s.owner.Some? ==> Step(s, s.owner.value, call) != s
  {
    if s.owner.Some? {
      assert Step(s, s.owner.value, call).threads[s.owner.value] != s.threads[s.owner.value];
    }
  }

  // ---------------------------------------------------------------------
  // The critical sections themselves
  // ---------------------------------------------------------------------

  /** The ring of struct que_def. */
  class Ring<T(0)> {
    const buffer: array<T>
    var inPos: nat
    var outPos: nat
    ghost var pushed: seq<T>
    ghost var taken: nat

    ghost predicate Valid()
      reads this, buffer
    {
      && taken <= |pushed| && |pushed| - taken <= buffer.Length && buffer.Length > 0
      && inPos == |pushed| % buffer.Length && outPos == taken % buffer.Length
      && (forall k :: taken <= k < |pushed| ==> buffer[k % buffer.Length] == pushed[k])
    }

    /** que_new. */
    constructor (entries: nat)
      requires entries > 0
      ensures Valid() && pushed == [] && taken == 0 && buffer.Length == entries && fresh(buffer)
    {
      buffer := new T[entries];
      inPos := 0;
      outPos := 0;
      pushed := [];
      taken := 0;
    }

    /** The body of que_push between the waits; the permit guarantees a free slot. */
    method Put(d: T)
      requires Valid() && |pushed| - taken < buffer.Length
      modifies this`inPos, this`pushed, buffer
      ensures Valid() && pushed == old(pushed) + [d]
    {
      forall k | taken <= k < |pushed| ensures k % buffer.Length != |pushed| % buffer.Length {
        DistinctPositions(k, |pushed|, buffer.Length);
      }
      NextPosition(|pushed|, buffer.Length);
      buffer[inPos] := d;
      inPos := (inPos + 1) % buffer.Length;
      pushed := pushed + [d];
    }

    /** The body of que_pop_nowait; the permit guarantees an item. */
    method Take() returns (d: T)
      requires Valid() && taken < |pushed|
      modifies this`outPos, this`taken
      ensures Valid() && taken == old(taken) + 1 && d == pushed[old(taken)]
    {
      NextPosition(taken, buffer.Length);
      d := buffer[outPos];
      outPos := (outPos + 1) % buffer.Length;
      taken := taken + 1;
    }
  }
}
