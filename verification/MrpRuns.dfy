/** What the Applicant and Registrar tables guarantee over whole event sequences. */
module MrpRuns {
  import opened Mrp

  /** One input of the Applicant machine: the event and whether the attribute's
      registrar is IN when the event arrives. */
  datatype Input = Input(e: Event, regIn: bool)

  function Run(s: AppState, xs: seq<Input>, p2p: bool): AppState {
    if xs == [] then s
    else
      var x := xs[|xs| - 1];
      AppNext(Run(s, xs[..|xs| - 1], p2p), x.e, x.regIn, p2p)
  }

  // ---------------------------------------------------------------------
  // A second reading of the Applicant table
  // ---------------------------------------------------------------------

  /** How sure an applicant is that its peers heard it. */
  datatype Anxiety = Very | Anxious | Quiet | Leaving

  /** In which capacity it takes part: observing only, declaring without having
      sent anything yet, declaring actively, or declaring a New. */
  datatype Role = Observer | Passive | Active | Fresh

  function Split(s: AppState): (Anxiety, Role) {
    match s
    case VO => (Very, Observer)
    case AO => (Anxious, Observer)
    case QO => (Quiet, Observer)
    case LO => (Leaving, Observer)
    case VP => (Very, Passive)
    case AP => (Anxious, Passive)
    case QP => (Quiet, Passive)
    case AA => (Anxious, Active)
    case QA => (Quiet, Active)
    case LA => (Leaving, Active)
    case VN => (Very, Fresh)
    case AN => (Anxious, Fresh)
  }

  predicate Declared(s: AppState) {
    s in {VP, VN, AN, AA, QA, AP, QP}
  }

  /** The transition in terms of anxiety and role alone. */
  function Transition(a: Anxiety, r: Role, e: Event, regIn: bool, p2p: bool): (Anxiety, Role) {
    match e
    case Begin => (Very, Observer)
    // a local request changes the role
    case New => if r == Fresh then (a, r) else (Very, Fresh)
    case Join =>
      if a == Leaving then (if r == Active then (Anxious, Active) else (Very, Passive))
      else (a, if r == Observer then Passive else r)
    case Lv =>
      if r == Passive then (a, Observer)
      else if r == Observer then (a, r)
      else (Leaving, Active)
    // a transmission calms one step, and makes a passive applicant active
    case Tx =>
      if a == Leaving then (Very, Observer)
      else if r == Observer || a == Quiet then (a, r)
      else if r == Fresh then
        (if a == Very then (Anxious, Fresh) else if regIn then (Quiet, Active) else (Anxious, Active))
      else (if a == Very then Anxious else Quiet, Active)
    case TxLA =>
      if r == Observer || a == Leaving then (Leaving, Observer)
      else if a == Very then (Anxious, if r == Fresh then Fresh else Active)
      else (Quiet, Active)
    // a lost declaration starts again from the beginning
    case TxLAF | RLv | RLA | Redeclare =>
      if a == Leaving && r == Active then (if e == TxLAF then (Leaving, Observer) else (a, r))
      else if r == Observer then (Leaving, Observer)
      else (Very, if r == Fresh then Fresh else Passive)
    // what the peers say
    case RJoinIn =>
      if r == Fresh then (a, r)
      else if a == Very then (if p2p then a else Anxious, r)
      else if a == Anxious then (Quiet, r)
      else (a, r)
    case RIn => if p2p && a == Anxious && r == Active then (Quiet, Active) else (a, r)
    case RJoinMt | RMt =>
      if a == Quiet then (Anxious, r) else if a == Leaving && r == Observer then (Very, Observer) else (a, r)
    case Periodic => if a == Quiet && r != Observer then (Anxious, r) else (a, r)
    case _ => (a, r)
  }

  /** The table of mrp.c agrees with that reading on every state and event. */
  lemma TableIsTransition(s: AppState, e: Event, regIn: bool, p2p: bool)
    ensures Split(AppNext(s, e, regIn, p2p)) == Transition(Split(s).0, Split(s).1, e, regIn, p2p)
  {
    match e {
      case New => case Join => case Lv => case Tx => case TxLA => case TxLAF =>
      case RJoinIn => case RIn => case RJoinMt => case RMt =>
      case RLv => case RLA => case Redeclare => case Periodic =>
      case _ =>
    }
  }

  /** What a transmit opportunity says, again by anxiety and role: a New while fresh, a
      Leave while leaving actively, an In or Mt when observing or already joined by a
      peer, a Join otherwise; and it may be left out when nothing depends on it. */
  lemma RequestByRole(s: AppState)
    ensures var (a, r) := Split(s);
            AppRequest(s, Tx) == TxRequest(true, a == Quiet || (r == Observer && a != Leaving),
                                           if r == Fresh then SndNew
                                           else if a == Leaving && r == Active then SndLv
                                           else if r == Observer || (a == Quiet && r == Passive) then SndIn
                                           else SndJoin)
    ensures var (a, r) := Split(s);
            AppRequest(s, TxLA) == TxRequest(true, a == Leaving || r == Observer,
                                             if r == Fresh then SndNew
                                             else if a == Leaving || r == Observer || a == Very then SndIn
                                             else SndJoin)
  {
  }

  // ---------------------------------------------------------------------
  // Declared exactly when the last local request asked for it
  // ---------------------------------------------------------------------

  /** Whether the last New, Join or Lv since the last Begin is a New or a Join. */
  predicate Requested(xs: seq<Input>) {
    xs != [] &&
    match xs[|xs| - 1].e
    case New | Join => true
    case Begin | Lv => false
    case _ => Requested(xs[..|xs| - 1])
  }

  lemma {:induction false} DeclaredIffRequested(xs: seq<Input>, p2p: bool)
    ensures Declared(Run(VO, xs, p2p)) <==> Requested(xs)
  {
    if xs == [] {
    } else {
      DeclaredIffRequested(xs[..|xs| - 1], p2p);
    }
  }

  /** The guard of the reclaim functions on a pair of machine states. */
  predicate Reclaimable(s: AppState, r: RegState) {
    r == MT && s in {VO, AO, QO}
  }

  /** Reclaim, which spares what a peer has registered, never deletes an attribute that
      a local client has declared either, whatever happened before. */
  lemma ReclaimSparesRequested(xs: seq<Input>, p2p: bool, r: RegState)
    requires Reclaimable(Run(VO, xs, p2p), r)
    ensures !Requested(xs)
  {
    DeclaredIffRequested(xs, p2p);
  }

  // ---------------------------------------------------------------------
  // The two-message guarantee
  // ---------------------------------------------------------------------

  function Level(s: AppState): nat {
    match Split(s).0
    case Very | Leaving => 0
    case Anxious => 1
    case Quiet => 2
  }

  /** 1 when a step is a transmission that must be sent, a JoinIn from a peer,
      or an In from the only peer of a point-to-point link. */
  function Credit(s: AppState, e: Event, p2p: bool): nat {
    var req := AppRequest(s, e);
    if (req.tx && !req.optional) || e == RJoinIn || (e == RIn && p2p) then 1 else 0
  }

  function Credits(s: AppState, xs: seq<Input>, p2p: bool): nat {
    if xs == [] then 0
    else
      var pre := xs[..|xs| - 1];
      Credits(s, pre, p2p) + Credit(Run(s, pre, p2p), xs[|xs| - 1].e, p2p)
  }

  /** A step calms the applicant by more than it earned exactly when a client
      re-joins an attribute whose Leave has not been sent yet. */
  lemma UnearnedCalm(s: AppState, e: Event, regIn: bool, p2p: bool)
    ensures Level(AppNext(s, e, regIn, p2p)) > Level(s) + Credit(s, e, p2p) <==> s == LA && e == Join
  {
    TableIsTransition(s, e, regIn, p2p);
  }

  predicate NoLeave(xs: seq<Input>) {
    forall i :: 0 <= i < |xs| ==> xs[i].e != Lv
  }

  lemma {:induction false} NeverLeavingActive(s: AppState, xs: seq<Input>, p2p: bool)
    requires s != LA && NoLeave(xs)
    ensures Run(s, xs, p2p) != LA
  {
    if xs == [] {
    } else {
      NeverLeavingActive(s, xs[..|xs| - 1], p2p);
    }
  }

  /** From any point where the applicant is very anxious, and whatever happens
      next short of a local Leave, its level never exceeds what it has earned:
      it cannot be quiet before two messages have gone by. */
  lemma {:induction false} TwoMessages(s: AppState, xs: seq<Input>, p2p: bool)
    requires s in {VP, VN} && NoLeave(xs)
    ensures Level(Run(s, xs, p2p)) <= Credits(s, xs, p2p)
  {
    if xs == [] {
    } else {
      var pre := xs[..|xs| - 1];
      TwoMessages(s, pre, p2p);
      NeverLeavingActive(s, pre, p2p);
      UnearnedCalm(Run(s, pre, p2p), xs[|xs| - 1].e, xs[|xs| - 1].regIn, p2p);
    }
  }

  /** After a Leave or LeaveAll from a peer a declared applicant is very anxious,
      so the guarantee starts afresh. */
  lemma TwoMessagesAfterLeaveAll(s: AppState, e: Event, regIn: bool, xs: seq<Input>, p2p: bool)
    requires Declared(s) && e in {RLv, RLA} && NoLeave(xs)
    ensures var s' := AppNext(s, e, regIn, p2p);
            Level(Run(s', xs, p2p)) == 2 ==> Credits(s', xs, p2p) >= 2
  {
    TwoMessages(AppNext(s, e, regIn, p2p), xs, p2p);
  }

  /** The messages the header of mrp.h counts: New and Join messages sent, and
      JoinIns received. */
  function DocumentedCredit(s: AppState, e: Event): nat {
    var req := AppRequest(s, e);
    if (req.tx && !req.optional && req.sndmsg in {SndNew, SndJoin}) || e == RJoinIn then 1 else 0
  }

  /** Against that stricter count a step is unearned in exactly two more cases:
      the applicant's own LeaveAll in VP, which sends an In or Mt instead of a
      Join, and an In received on a point-to-point link. */
  lemma DocumentedCountFailsExactly(s: AppState, e: Event, regIn: bool, p2p: bool)
    ensures Level(AppNext(s, e, regIn, p2p)) > Level(s) + DocumentedCredit(s, e)
       <==> (s == LA && e == Join) || (s == VP && e == TxLA) || (s == AA && e == RIn && p2p)
  {
    TableIsTransition(s, e, regIn, p2p);
  }

  function DocumentedCredits(s: AppState, xs: seq<Input>, p2p: bool): nat {
    if xs == [] then 0
    else
      var pre := xs[..|xs| - 1];
      DocumentedCredits(s, pre, p2p) + DocumentedCredit(Run(s, pre, p2p), xs[|xs| - 1].e)
  }

  /** So after a peer's LeaveAll, one's own LeaveAll and a single Join the
      applicant is quiet: one Join sent, not two. */
  lemma OneJoinIsEnough(p2p: bool)
    ensures var xs := [Input(TxLA, false), Input(Tx, false)];
            AppNext(QA, RLA, false, p2p) == VP && Run(VP, xs, p2p) == QA && DocumentedCredits(VP, xs, p2p) == 1
  {
    var xs := [Input(TxLA, false), Input(Tx, false)];
    assert xs[..1] == [Input(TxLA, false)] && xs[..1][..0] == [];
  }

  /** The steps that calm the applicant and that the header does not count. */
  function Uncounted(s: AppState, xs: seq<Input>, p2p: bool): nat {
    if xs == [] then 0
    else
      var pre, e := xs[..|xs| - 1], xs[|xs| - 1].e;
      var s' := Run(s, pre, p2p);
      Uncounted(s, pre, p2p) + if (s' == VP && e == TxLA) || (s' == AA && e == RIn && p2p) then 1 else 0
  }

  /** With those steps added the documented count holds on every run. */
  lemma {:induction false} TwoDocumentedMessages(s: AppState, xs: seq<Input>, p2p: bool)
    requires s in {VP, VN} && NoLeave(xs)
    ensures Level(Run(s, xs, p2p)) <= DocumentedCredits(s, xs, p2p) + Uncounted(s, xs, p2p)
  {
    if xs == [] {
    } else {
      var pre, x := xs[..|xs| - 1], xs[|xs| - 1];
      TwoDocumentedMessages(s, pre, p2p);
      NeverLeavingActive(s, pre, p2p);
      OneDocumentedStep(Run(s, pre, p2p), x.e, x.regIn, p2p);
    }
  }

  lemma OneDocumentedStep(s: AppState, e: Event, regIn: bool, p2p: bool)
    requires s != LA
    ensures Level(AppNext(s, e, regIn, p2p))
         <= Level(s) + DocumentedCredit(s, e) + if (s == VP && e == TxLA) || (s == AA && e == RIn && p2p) then 1 else 0
  {
    DocumentedCountFailsExactly(s, e, regIn, p2p);
    TableIsTransition(s, e, regIn, p2p);
  }

  // ---------------------------------------------------------------------
  // Transmit opportunities run out
  // ---------------------------------------------------------------------

  /** How many transmit opportunities the applicant still uses. */
  function Rank(s: AppState): nat {
    match s
    case VN => 3
    case AN | VP => 2
    case AA | AP | LA | LO => 1
    case _ => 0
  }

  lemma TxLowersRank(s: AppState, regIn: bool, p2p: bool)
    ensures var s' := AppNext(s, Tx, regIn, p2p);
            && (Rank(s) > 0 ==> Rank(s') < Rank(s))
            && (Rank(s) == 0 ==> s' == s)
            && (WantsTx(s') ==> s' != s)
            && (Rank(s) == 0 <==> s in {VO, QA, AO, QO, QP})
  {
  }

  // ---------------------------------------------------------------------
  // What must be sent
  // ---------------------------------------------------------------------

  /** The attribute must be sent, with a New or a Join. */
  predicate MustDeclare(s: AppState, e: Event) {
    var q := AppRequest(s, e);
    q.tx && !q.optional && q.sndmsg in {SndNew, SndJoin}
  }

  /** An applicant that goes quiet by transmitting is one of these. */
  lemma QuietMustDeclare(s: AppState, e: Event, regIn: bool, p2p: bool)
    requires e in {Tx, TxLA} && AppNext(s, e, regIn, p2p) == QA && !(e == Tx && s == QA)
    ensures MustDeclare(s, e)
  {
  }

  /** Which applicants an own LeaveAll leaves with something to say. */
  lemma AnxiousAfterTxLA(s: AppState, regIn: bool, p2p: bool)
    ensures WantsTx(AppNext(s, TxLA, regIn, p2p)) <==> s in {VP, VN}
  {
  }

  /** The sweep that a transmitting event makes. */
  function SweepOf(e: Event): Event { if e == Tx then Tx else TxLA }

  /** The applicant follows what its peer says and declares nothing. */
  predicate Observes(s: AppState) { s in {VO, LO, AO, QO} }

  /** The applicant has not gone by a JoinIn of its peer. */
  predicate Unjoined(s: AppState) { s !in {AO, QO, AP, QP} }
}
