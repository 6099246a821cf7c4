/** The per-attribute Applicant and Registrar machines and the per-application
    LeaveAll machine of mrp.c, as transition functions (sections 10.7.7 to
    10.7.9 of IEEE 802.1Q-2011). */
module Mrp {

  datatype Option<+T> = None | Some(value: T)

  type Byte = x: int | 0 <= x < 256

  datatype AppState = VO | VP | VN | AN | AA | QA | LA | AO | QO | AP | QP | LO

  datatype RegState = IN | LV | MT

  datatype Event =
    | Begin | New | Join | Lv
    | Tx | TxLA | TxLAF
    | RNew | RJoinIn | RIn | RJoinMt | RMt | RLv | RLA
    | Flush | Redeclare
    | Periodic | PeriodicEnable | PeriodicDisable
    | LvTimer | LvaTimer

  datatype Send = SndNew | SndJoin | SndIn | SndLv | SndLva | SndNull | SndNone

  datatype Notify = NotifyNone | NotifyNew | NotifyJoin | NotifyLv

  /** mrp_applicant_attribute_t.  `previous` is None for the -1 that a freshly
      allocated attribute carries. */
  datatype Applicant = Applicant(state: AppState, tx: bool, sndmsg: Send, optional: bool, previous: Option<AppState>)

  /** mrp_registrar_attribute_t, without the diagnostic MAC address. */
  datatype Registrar = Registrar(state: RegState, notify: Notify)

  // ---------------------------------------------------------------------
  // Applicant
  // ---------------------------------------------------------------------

  /** The events mrp_applicant_fsm accepts; on the others it returns -1 and
      leaves the attribute alone. */
  predicate AppAccepts(e: Event) {
    e !in {Flush, PeriodicEnable, PeriodicDisable, LvTimer, LvaTimer}
  }

  function AppNext(s: AppState, e: Event, regIn: bool, p2p: bool): AppState {
    match e
    case Begin => VO
    case New => if s == VN || s == AN then s else VN
    case Join =>
      (match s
       case LO | VO => VP
       case LA => AA
       case AO => AP
       case QO => QP
       case _ => s)
    case Lv =>
      (match s
       case VN | AN | AA | QA => LA
       case VP => VO
       case AP => AO
       case QP => QO
       case _ => s)
    case TxLA =>
      (match s
       case VO | LA | AO | QO => LO
       case VP => AA
       case VN => AN
       case AN | QP | AP | AA => QA
       case _ => s)
    case TxLAF =>
      (match s
       case VO | QO | AO | LA => LO
       case AN => VN
       case QP | AP | AA | QA => VP
       case _ => s)
    case Tx =>
      (match s
       case VP => AA
       case VN => AN
       case AN => if regIn then QA else AA
       case AP | AA => QA
       case LA | LO => VO
       case _ => s)
    case RJoinIn =>
      (match s
       case VO => if p2p then VO else AO
       case VP => if p2p then VP else AP
       case AA => QA
       case AO => QO
       case AP => QP
       case _ => s)
    case RIn => if s == AA && p2p then QA else s
    case RJoinMt | RMt =>
      (match s
       case QA => AA
       case QO => AO
       case QP => AP
       case LO => VO
       case _ => s)
    case RLv | RLA | Redeclare =>
      (match s
       case VO | AO | QO => LO
       case AN => VN
       case QA | AA | AP | QP => VP
       case _ => s)
    case Periodic =>
      (match s
       case QA => AA
       case QP => AP
       case _ => s)
    case _ => s
  }

  /** What a transmit opportunity asks the encoder to send. */
  datatype TxRequest = TxRequest(tx: bool, optional: bool, sndmsg: Send)

  function AppRequest(s: AppState, e: Event): TxRequest {
    match e
    case TxLA =>
      (match s
       case VO | LA | AO | QO | LO => TxRequest(true, true, SndIn)
       case VP => TxRequest(true, false, SndIn)
       case VN | AN => TxRequest(true, false, SndNew)
       case QP | AP | AA | QA => TxRequest(true, false, SndJoin))
    case Tx =>
      (match s
       case VO | AO | QO | QP => TxRequest(true, true, SndIn)
       case VP | AP | AA => TxRequest(true, false, SndJoin)
       case VN | AN => TxRequest(true, false, SndNew)
       case QA => TxRequest(true, true, SndJoin)
       case LA => TxRequest(true, false, SndLv)
       case LO => TxRequest(true, false, SndIn))
    case _ => TxRequest(false, false, SndNull)
  }

  /** mrp_applicant_fsm. */
  function ApplicantFsm(a: Applicant, e: Event, regIn: bool, p2p: bool): Applicant {
    if !AppAccepts(e) then a else
    var req := AppRequest(a.state, e);
    Applicant(AppNext(a.state, e, regIn, p2p), req.tx, req.sndmsg, req.optional, Some(a.state))
  }

  /** The states in which an applicant wants another transmit opportunity. */
  predicate WantsTx(s: AppState) {
    s in {VP, VN, AN, AA, LA}
  }

  /** mrp_applicant_state_transition_implies_tx. */
  predicate TransitionImpliesTx(a: Applicant) {
    a.previous != Some(a.state) && WantsTx(a.state)
  }

  // ---------------------------------------------------------------------
  // Registrar
  // ---------------------------------------------------------------------

  predicate RegAccepts(e: Event) {
    e in {Begin, RLv, TxLA, RLA, Redeclare, RNew, RJoinIn, RJoinMt, LvTimer, Flush, RMt, RIn}
  }

  function RegNext(r: RegState, e: Event): RegState {
    match e
    case Begin | Flush => MT
    case RLv | TxLA | RLA | Redeclare => if r == IN then LV else r
    case RNew | RJoinIn | RJoinMt => IN
    case LvTimer => if r == LV then MT else r
    case _ => r
  }

  function RegNotify(r: RegState, e: Event): Notify {
    match e
    case RLv | Flush => NotifyLv
    case RNew => NotifyNew
    case RJoinIn | RJoinMt => if r == IN then NotifyNone else NotifyJoin
    case LvTimer => if r == LV then NotifyLv else NotifyNone
    case _ => NotifyNone
  }

  /** mrp_registrar_fsm. */
  function RegistrarFsm(r: Registrar, e: Event): Registrar {
    if !RegAccepts(e) then r else Registrar(RegNext(r.state, e), RegNotify(r.state, e))
  }

  /** The registrar moves that start the application's one shared leave timer. */
  predicate StartsLeaveTimer(r: RegState, e: Event) {
    r == IN && e in {RLv, TxLA, RLA, Redeclare}
  }

  /** The events that concern one attribute. */
  predicate AttributeEvent(e: Event) {
    e in {New, Join, RNew, RJoinIn, RJoinMt, Lv, RIn, RMt, RLv}
  }

  /** Local requests are remapped into registrar events. */
  function RegEvent(e: Event, r: RegState): Event {
    match e
    case New => Begin
    case Join => if r == IN then RJoinIn else RJoinMt
    case Lv => RLv
    case _ => e
  }

  // ---------------------------------------------------------------------
  // The application record: LeaveAll machine and timers
  // ---------------------------------------------------------------------

  datatype LeaveAll = LeaveAll(active: bool, tx: bool, sndmsg: Send)

  /** struct mrp_database: the LeaveAll machine and which timers run. */
  datatype MrpDb = MrpDb(lva: LeaveAll, join: bool, leave: bool, leaveAll: bool)

  /** mrp_lvatimer_fsm; unexpected events return -1 and change nothing. */
  function LeaveAllFsm(db: MrpDb, e: Event): MrpDb {
    match e
    case Begin | RLA => db.(lva := LeaveAll(false, false, SndNone), leaveAll := true)
    case Tx => db.(lva := if db.lva.active then LeaveAll(false, true, SndLva) else LeaveAll(false, false, SndNone))
    case LvaTimer => db.(lva := LeaveAll(true, false, SndNone), leaveAll := true)
    case _ => db
  }
}
