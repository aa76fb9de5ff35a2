/** The keyed-action journal of one action key (go/action_journal.go, go/act.go,
    go/action_key_index.go), as a state machine at the granularity of one file
    operation.  Any number of requests, in any number of processes, interleave
    freely; a request may die at every point; the machine may lose power, which
    drops directory entries nobody synced and tears bytes nobody synced. */
module Journal {
  import opened Wrappers

  const ATTEMPTS: nat := 16

  /** What a key's reservation is scoped to: an authenticated requester, or a
      delegation's subject, root actor and issuing host. */
  datatype Scope =
    | Requester(issuer: string, subject: string)
    | Delegation(subjectKind: string, subjectIssuer: string, subjectName: string, rootActor: string, host: string)

  type RequestId = nat
  type Content = string   // the fingerprint of the approved content

  /* ---------- What the store holds ---------- */

  /** A dispatch marker: bytes still partial, a dispatch, or a close.  `maker` names the
      request that created the name; it is history, no reader looks at it. */
  datatype MarkerKind = Torn | Dispatch | Close
  datatype Marker = Marker(kind: MarkerKind, maker: RequestId, bytesSynced: bool, nameSynced: bool)

  /** A not-dispatched answer, complete or partial. */
  datatype Answer = Answer(whole: bool, bytesSynced: bool, nameSynced: bool)

  datatype Outcome = Response | Uncertain
  datatype Record = Record(outcome: Outcome, nameSynced: bool)

  /** A reservation's directory.  `nameSynced` is its own entry in the journal directory. */
  datatype Reservation = Reservation(
    content: Content,
    nameSynced: bool,
    markers: map<nat, Marker>,
    answers: map<nat, Answer>,
    action: Option<Record>)

  /** The record of the key's first scope, in the index directory. */
  datatype Index = Index(scope: Scope, nameSynced: bool)

  /* History: a write program started, and an answer given to a caller. */
  datatype Start = Start(scope: Scope, attempt: nat, maker: RequestId, holds: bool)
  datatype Reply = NotDispatched(scope: Scope) | KeyClosed(scope: Scope)

  /** The shared store, and what has happened so far: the programs started, the attempts
      whose program was found never started, the answers given. */
  datatype Shared = Shared(
    index: Option<Index>,
    indexDirSynced: bool,
    entries: map<Scope, Reservation>,
    started: set<Start>,
    freed: set<(Scope, nat)>,
    replies: set<Reply>)

  predicate Closes(e: Reservation, n: nat) {
    n in e.markers && e.markers[n].kind.Close?
  }

  ghost predicate Closed(sh: Shared, s: Scope) {
    s in sh.entries && exists n :: Closes(sh.entries[s], n)
  }

  /* ---------- Requests ---------- */

  /** Who sends: a requester alone, a requester sending keyScope, a delegated run's actor,
      or another sender of a delegated scope (its subject, the host, an operator). */
  datatype Sender = Plain | KeyScoped | Actor | Other

  /** Where a hold of the first scope returns to. */
  datatype After = ToReserve | ToEvidence | ToAnswer

  datatype Verdict =
    | Refused | ScopeConflict | ActorOnly | OutcomeUnknown | KeyConflict | Exhausted
    | SaidNotDispatched | SaidClosed
    | Replayed(outcome: Outcome) | Recorded(outcome: Outcome) | SaidRetry

  datatype StartPoint = ReadIndex | ForeignHas | SenderHas | ReconcileHas
  datatype HoldPoint = Read | Link | Reread | SyncIndex | SyncParent
  datatype ReservePoint = LookEntry | PublishEntry | SyncRoot | OpenEntry
  datatype AttemptPoint = LookMarker | ReadMarker | ReadAnswer
  datatype ClosePoint = LookLater(later: nat) | LinkClose | SyncClose
  datatype ClaimPoint = CreateMarker | WriteMarker | SyncMarker | SyncClaim | RunSource
  datatype ReleasePoint = CreateAnswer | WriteAnswer | SyncAnswer | SyncRelease
  datatype RecordPoint = LinkAction | SyncAction

  /** The next file operation of a request, grouped by the journal operation it is part of. */
  datatype PC =
    | Starting(start: StartPoint)
    | ReserveClosed
    | Holding(hold: HoldPoint, after: After)
    | HoldForeignHas
    | Reserving(reserve: ReservePoint)
    | Scanning(k: nat)
    | ReadAction
    | Attempting(look: AttemptPoint, n: nat)
    | Closing(close: ClosePoint, n: nat)
    | ReadTaken(n: nat)
    | Claiming(claim: ClaimPoint, n: nat)
    | Releasing(release: ReleasePoint, n: nat)
    | Ran(n: nat)
    | Recording(record: RecordPoint, outcome: Outcome)
    | Rescanning(k: nat)
    | Answering(notDispatched: bool)
    | Done(verdict: Verdict)

  /** A request and its local flags.  `late` is history: the key was closed in the
      request's scope before the request began. */
  datatype Request = Request(
    scope: Scope, content: Content, sender: Sender, reconcile: bool,
    pc: PC, foreign: bool, indexed: bool, made: bool, late: bool)
  {
    predicate MayHold() { sender.KeyScoped? || sender.Actor? }

    /** A step moves a request and sets its flags; what was asked stays. */
    predicate SameAsked(r: Request) {
      r.scope == scope && r.content == content && r.sender == sender && r.reconcile == reconcile && r.late == late
    }
    function At(pc': PC): (r: Request)
      ensures SameAsked(r)
    {
      this.(pc := pc')
    }
  }

  /** The members a request sends about its key (parseActionKeyScope). */
  datatype Member = Absent | Given(valid: bool)

  function ParseKeyScope(keyScope: Member, reconcile: Member, hasKey: bool, delegated: bool): (r: Option<(bool, bool)>)
    ensures r.Some? <==>
      && (keyScope.Given? ==> keyScope.valid && hasKey && !delegated)
      && (reconcile.Given? ==> reconcile.valid && hasKey && (keyScope.Given? || delegated))
    ensures r.Some? ==> (r.value.0 <==> keyScope.Given?) && (r.value.1 <==> reconcile.Given?)
    ensures r.Some? && r.value.1 ==> r.value.0 || delegated
    ensures r.Some? && delegated ==> !r.value.0
    ensures r.Some? && !hasKey ==> r.value == (false, false)
  {
    if keyScope.Given? && !keyScope.valid then None
    else if reconcile.Given? && !reconcile.valid then None
    else
      var scoped, reconciles := keyScope.Given?, reconcile.Given?;
      if !scoped && !reconciles then Some((false, false))
      else if !hasKey then None
      else if scoped && delegated then None
      else if reconciles && !scoped && !delegated then None
      else Some((scoped, reconciles))
  }

  predicate Sends(r: Request, keyScope: Member, reconcile: Member) {
    ParseKeyScope(keyScope, reconcile, true, r.sender.Actor? || r.sender.Other?)
    == Some((r.sender.KeyScoped?, r.reconcile))
  }

  /** A request as it arrives, its members already read. */
  ghost predicate Arrives(sh: Shared, r: Request) {
    && (exists keyScope, reconcile :: Sends(r, keyScope, reconcile))
    && (r.scope.Delegation? <==> r.sender.Actor? || r.sender.Other?)
    && r.pc == Starting(ReadIndex) && !r.foreign && !r.indexed && !r.made
    && r.late == Closed(sh, r.scope)
  }

  /* ---------- File operations ---------- */

  function SyncRootDir(sh: Shared): Shared {
    sh.(indexDirSynced := sh.indexDirSynced || sh.index.Some?,
        entries := map s | s in sh.entries :: sh.entries[s].(nameSynced := true))
  }

  function SyncIndexDir(sh: Shared): Shared {
    match sh.index
    case None => sh
    case Some(ix) => sh.(index := Some(ix.(nameSynced := true)))
  }

  function SyncNames(e: Reservation): Reservation {
    e.(markers := map n | n in e.markers :: e.markers[n].(nameSynced := true),
       answers := map n | n in e.answers :: e.answers[n].(nameSynced := true),
       action := match e.action case None => None case Some(a) => Some(a.(nameSynced := true)))
  }

  function Put(sh: Shared, s: Scope, e: Reservation): Shared {
    sh.(entries := sh.entries[s := e])
  }

  function SyncEntryDir(sh: Shared, s: Scope): Shared {
    if s in sh.entries then Put(sh, s, SyncNames(sh.entries[s])) else sh
  }

  function SetMarker(sh: Shared, s: Scope, n: nat, m: Marker): Shared
    requires s in sh.entries
  {
    Put(sh, s, sh.entries[s].(markers := sh.entries[s].markers[n := m]))
  }

  function SetAnswer(sh: Shared, s: Scope, n: nat, a: Answer): Shared
    requires s in sh.entries
  {
    Put(sh, s, sh.entries[s].(answers := sh.entries[s].answers[n := a]))
  }

  /* ---------- One step of one request ---------- */

  /** What decides a step that the files do not: whether the program started, whether its
      result read as an envelope, whether an answer could be retained. */
  datatype Choice = Well | Ill

  /** The key is closed: what this request answers. */
  function ClosedKey(r: Request): (r': Request)
    ensures r.SameAsked(r')
  {
    if r.foreign then r.At(Done(ScopeConflict))
    else if r.reconcile then
      if r.sender.Other? && !r.indexed then r.At(Done(ActorOnly)) else r.At(Answering(true))
    else if r.sender.Other? then r.At(Done(ActorOnly))
    else r.At(Answering(false))
  }

  /** After the sender checks: hold the first scope, only open, or reserve. */
  function Proceed(r: Request): (r': Request)
    ensures r.SameAsked(r')
  {
    if r.MayHold() && !r.reconcile && !r.foreign then r.At(Holding(Read, ToReserve))
    else if r.reconcile || r.foreign then r.(made := false).At(Reserving(SyncRoot))
    else r.At(Reserving(LookEntry))
  }

  function ActStart(sh: Shared, r: Request): (r': Request)
    requires r.pc.Starting?
    ensures r.SameAsked(r')
  {
    match r.pc.start
    case ReadIndex =>
      if sh.index.None? then r.At(Starting(SenderHas))
      else if sh.index.value.scope == r.scope then r.(indexed := true).At(Starting(SenderHas))
      else r.(foreign := true).At(Starting(ForeignHas))
    case ForeignHas => r.At(if r.scope in sh.entries then Starting(SenderHas) else Done(ScopeConflict))
    case SenderHas =>
      r.At(if r.sender.Other? && r.scope !in sh.entries then Done(ActorOnly) else Starting(ReconcileHas))
    case ReconcileHas =>
      if !r.reconcile || r.scope in sh.entries then Proceed(r)
      else r.At(if r.indexed then Done(OutcomeUnknown) else ReserveClosed)
  }

  /** Intent and close appear together in one rename; their bytes and names were synced in
      the staging directory. */
  function ClosedEntry(id: RequestId, content: Content): Reservation {
    Reservation(content, false, map[1 := Marker(Close, id, true, true)], map[], None)
  }

  function ActReserveClosed(sh: Shared, id: RequestId, r: Request): (out: (Shared, Request))
    requires r.pc.ReserveClosed?
    ensures r.SameAsked(out.1)
  {
    (if r.scope in sh.entries then sh else Put(sh, r.scope, ClosedEntry(id, r.content)), Proceed(r))
  }

  function HoldForeign(r: Request, after: After): (r': Request)
    ensures r.SameAsked(r')
  {
    match after
    case ToReserve => r.At(HoldForeignHas)
    case ToEvidence => r.(foreign := true).At(ReadAction)
    case ToAnswer => r.At(Done(ScopeConflict))
  }

  function AfterHold(sh: Shared, r: Request, after: After): (out: (Shared, Request))
    ensures r.SameAsked(out.1)
  {
    match after
    case ToReserve => (sh, r.At(Reserving(LookEntry)))
    case ToEvidence => (sh, r.(indexed := true).At(ReadAction))
    case ToAnswer => (sh.(replies := sh.replies + {NotDispatched(r.scope)}), r.At(Done(SaidNotDispatched)))
  }

  /** holdKeyIndex: read, or link exclusively and read what won; then sync both directories. */
  function ActHold(sh: Shared, r: Request): (out: (Shared, Request))
    requires r.pc.Holding?
    ensures r.SameAsked(out.1)
  {
    var after := r.pc.after;
    match r.pc.hold
    case Read =>
      if sh.index.None? then (sh, r.At(Holding(Link, after)))
      else if sh.index.value.scope == r.scope then (sh, r.At(Holding(SyncIndex, after)))
      else (sh, HoldForeign(r, after))
    case Link =>
      if sh.index.None? then (sh.(index := Some(Index(r.scope, false))), r.At(Holding(SyncIndex, after)))
      else (sh, r.At(Holding(Reread, after)))
    case Reread =>
      if sh.index.Some? && sh.index.value.scope != r.scope then (sh, HoldForeign(r, after))
      else (sh, r.At(Holding(SyncIndex, after)))
    case SyncIndex => (SyncIndexDir(sh), r.At(Holding(SyncParent, after)))
    case SyncParent => AfterHold(SyncRootDir(sh), r, after)
  }

  function ActHoldForeign(sh: Shared, r: Request): (r': Request)
    requires r.pc.HoldForeignHas?
    ensures r.SameAsked(r')
  {
    if r.scope in sh.entries then r.(foreign := true, made := false).At(Reserving(SyncRoot))
    else r.At(Done(ScopeConflict))
  }

  /** reserveScoped and openReservation. */
  function ActReserve(sh: Shared, r: Request): (out: (Shared, Request))
    requires r.pc.Reserving?
    ensures r.SameAsked(out.1)
  {
    match r.pc.reserve
    case LookEntry =>
      (sh, if r.scope in sh.entries then r.(made := false).At(Reserving(SyncRoot)) else r.At(Reserving(PublishEntry)))
    case PublishEntry =>
      if r.scope in sh.entries then (sh, r.(made := false).At(Reserving(SyncRoot)))
      else (Put(sh, r.scope, Reservation(r.content, false, map[], map[], None)), r.(made := true).At(Reserving(SyncRoot)))
    case SyncRoot => (SyncRootDir(sh), r.At(Reserving(OpenEntry)))
    case OpenEntry =>
      if r.scope !in sh.entries then (sh, r.At(Done(Refused)))
      else if r.made then (sh, r.At(Attempting(LookMarker, 1)))
      else (sh, r.At(if sh.entries[r.scope].content != r.content then Done(KeyConflict) else Scanning(1)))
  }

  /** closed() before anything is answered from the reservation. */
  function ActScan(sh: Shared, r: Request): (r': Request)
    requires r.pc.Scanning?
    ensures r.SameAsked(r')
  {
    if r.scope in sh.entries && Closes(sh.entries[r.scope], r.pc.k) then ClosedKey(r)
    else if r.pc.k < ATTEMPTS then r.At(Scanning(r.pc.k + 1))
    else r.At(if r.reconcile && r.MayHold() && !r.foreign then Holding(Read, ToEvidence) else ReadAction)
  }

  function ActReadAction(sh: Shared, r: Request): (r': Request)
    requires r.pc.ReadAction?
    ensures r.SameAsked(r')
  {
    if r.scope in sh.entries && sh.entries[r.scope].action.Some?
    then r.At(Done(Replayed(sh.entries[r.scope].action.value.outcome)))
    else r.At(Attempting(LookMarker, 1))
  }

  /** attempt(), and what a free attempt is used for. */
  function ActAttempt(e: Reservation, r: Request): (r': Request)
    requires r.pc.Attempting?
    ensures r.SameAsked(r')
  {
    var n := r.pc.n;
    match r.pc.look
    case LookMarker =>
      if n > ATTEMPTS then r.At(Done(Exhausted))
      else if n in e.markers then r.At(Attempting(ReadMarker, n))
      else if r.foreign then r.At(Done(ScopeConflict))
      else if r.sender.Other? then r.At(Done(ActorOnly))
      else if r.reconcile then r.At(Closing(LookLater(n + 1), n))
      else r.At(Claiming(CreateMarker, n))
    case ReadMarker => if Closes(e, n) then ClosedKey(r) else r.At(Attempting(ReadAnswer, n))
    case ReadAnswer =>
      r.At(if n in e.answers && e.answers[n].whole then Attempting(LookMarker, n + 1) else Rescanning(1))
  }

  /** closeDispatch. */
  function ActClose(sh: Shared, id: RequestId, r: Request): (out: (Shared, Request))
    requires r.pc.Closing? && r.scope in sh.entries
    ensures r.SameAsked(out.1)
  {
    var e, n := sh.entries[r.scope], r.pc.n;
    match r.pc.close
    case LookLater(later) =>
      if later > ATTEMPTS then (sh, r.At(Closing(LinkClose, n)))
      else (sh, r.At(if later in e.markers then Rescanning(1) else Closing(LookLater(later + 1), n)))
    case LinkClose =>
      if n in e.markers then (sh, r.At(ReadTaken(n)))
      else (SetMarker(sh, r.scope, n, Marker(Close, id, true, false)), r.At(Closing(SyncClose, n)))
    case SyncClose => (SyncEntryDir(sh, r.scope), ClosedKey(r))
  }

  /** The name was taken: by a close, or by a dispatch that may have begun. */
  function ActReadTaken(e: Reservation, r: Request): (r': Request)
    requires r.pc.ReadTaken?
    ensures r.SameAsked(r')
  {
    if Closes(e, r.pc.n) then ClosedKey(r) else r.At(Rescanning(1))
  }

  /** The write program is started, or is found never to have started. */
  function ActRun(sh: Shared, id: RequestId, r: Request, c: Choice): (out: (Shared, Request))
    requires r.pc.Claiming?
    ensures r.SameAsked(out.1)
  {
    var n := r.pc.n;
    if c.Well?
    then (sh.(started := sh.started + {Start(r.scope, n, id, r.MayHold())}), r.At(Ran(n)))
    else (sh.(freed := sh.freed + {(r.scope, n)}), r.At(Releasing(CreateAnswer, n)))
  }

  /** claimDispatchUnder, then the program: under a delegation the marker appears whole. */
  function ActClaim(sh: Shared, id: RequestId, r: Request, c: Choice): (out: (Shared, Request))
    requires r.pc.Claiming? && r.scope in sh.entries
    ensures r.SameAsked(out.1)
  {
    var e, n := sh.entries[r.scope], r.pc.n;
    match r.pc.claim
    case CreateMarker =>
      if n in e.markers then (sh, r.At(ReadTaken(n)))
      else if r.sender.Actor?
      then (SetMarker(sh, r.scope, n, Marker(Dispatch, id, true, false)), r.At(Claiming(SyncClaim, n)))
      else (SetMarker(sh, r.scope, n, Marker(Torn, id, false, false)), r.At(Claiming(WriteMarker, n)))
    case WriteMarker =>
      if n !in e.markers then (sh, r.At(Done(Refused)))
      else (SetMarker(sh, r.scope, n, e.markers[n].(kind := Dispatch)), r.At(Claiming(SyncMarker, n)))
    case SyncMarker =>
      if n !in e.markers then (sh, r.At(Done(Refused)))
      else (SetMarker(sh, r.scope, n, e.markers[n].(bytesSynced := true)), r.At(Claiming(SyncClaim, n)))
    case SyncClaim => (SyncEntryDir(sh, r.scope), r.At(Claiming(RunSource, n)))
    case RunSource => ActRun(sh, id, r, c)
  }

  /** releaseDispatch: an answer that cannot be retained leaves uncertainty to record. */
  function ActRelease(sh: Shared, r: Request, c: Choice): (out: (Shared, Request))
    requires r.pc.Releasing? && r.scope in sh.entries
    ensures r.SameAsked(out.1)
  {
    var e, n := sh.entries[r.scope], r.pc.n;
    if c.Ill? then (sh, r.At(Recording(LinkAction, Uncertain)))
    else match r.pc.release
      case CreateAnswer =>
        if n in e.answers then (sh, r.At(Recording(LinkAction, Uncertain)))
        else (SetAnswer(sh, r.scope, n, Answer(false, false, false)), r.At(Releasing(WriteAnswer, n)))
      case WriteAnswer =>
        if n !in e.answers then (sh, r.At(Done(Refused)))
        else (SetAnswer(sh, r.scope, n, e.answers[n].(whole := true)), r.At(Releasing(SyncAnswer, n)))
      case SyncAnswer =>
        if n !in e.answers then (sh, r.At(Done(Refused)))
        else (SetAnswer(sh, r.scope, n, e.answers[n].(bytesSynced := true)), r.At(Releasing(SyncRelease, n)))
      case SyncRelease => (SyncEntryDir(sh, r.scope), r.At(Done(SaidRetry)))
  }

  /** closed() again, before uncertainty is recorded. */
  function ActRescan(e: Reservation, r: Request): (r': Request)
    requires r.pc.Rescanning?
    ensures r.SameAsked(r')
  {
    if Closes(e, r.pc.k) then ClosedKey(r)
    else r.At(if r.pc.k < ATTEMPTS then Rescanning(r.pc.k + 1) else Recording(LinkAction, Uncertain))
  }

  function ActRecord(sh: Shared, r: Request): (out: (Shared, Request))
    requires r.pc.Recording? && r.scope in sh.entries
    ensures r.SameAsked(out.1)
  {
    var e, outcome := sh.entries[r.scope], r.pc.outcome;
    match r.pc.record
    case LinkAction =>
      if e.action.Some? then (sh, r.At(Done(Refused)))
      else (Put(sh, r.scope, e.(action := Some(Record(outcome, false)))), r.At(Recording(SyncAction, outcome)))
    case SyncAction => (SyncEntryDir(sh, r.scope), r.At(Done(Recorded(outcome))))
  }

  /** A closed key's answer rests on a synced close. */
  function ActAnswer(sh: Shared, r: Request): (out: (Shared, Request))
    requires r.pc.Answering?
    ensures r.SameAsked(out.1)
  {
    var sh' := SyncEntryDir(sh, r.scope);
    if r.pc.notDispatched then (sh', r.At(Holding(Read, ToAnswer)))
    else (sh'.(replies := sh'.replies + {KeyClosed(r.scope)}), r.At(Done(SaidClosed)))
  }

  /** Points at which the request has opened its reservation. */
  predicate Opened(pc: PC) {
    pc.Attempting? || pc.Closing? || pc.ReadTaken? || pc.Claiming? || pc.Releasing? || pc.Ran?
    || pc.Rescanning? || pc.Recording? || pc.Answering?
  }

  /** One step of one request. */
  function Act(sh: Shared, id: RequestId, r: Request, c: Choice): (out: (Shared, Request))
    ensures r.SameAsked(out.1)
  {
    if Opened(r.pc) && r.scope !in sh.entries then (sh, r.At(Done(Refused)))
    else match r.pc
      case Starting(_) => (sh, ActStart(sh, r))
      case ReserveClosed => ActReserveClosed(sh, id, r)
      case Holding(_, _) => ActHold(sh, r)
      case HoldForeignHas => (sh, ActHoldForeign(sh, r))
      case Reserving(_) => ActReserve(sh, r)
      case Scanning(_) => (sh, ActScan(sh, r))
      case ReadAction => (sh, ActReadAction(sh, r))
      case Attempting(_, _) => (sh, ActAttempt(sh.entries[r.scope], r))
      case Closing(_, _) => ActClose(sh, id, r)
      case ReadTaken(_) => (sh, ActReadTaken(sh.entries[r.scope], r))
      case Claiming(_, _) => ActClaim(sh, id, r, c)
      case Releasing(_, _) => ActRelease(sh, r, c)
      case Ran(_) => (sh, r.At(Recording(LinkAction, if c.Well? then Response else Uncertain)))
      case Rescanning(_) => (sh, ActRescan(sh.entries[r.scope], r))
      case Recording(_, _) => ActRecord(sh, r)
      case Answering(_) => ActAnswer(sh, r)
      case Done(_) => (sh, r)
  }

  /* ---------- The whole machine ---------- */

  datatype State = State(sh: Shared, requests: map<RequestId, Request>, used: set<RequestId>)

  datatype Event = Arrive(id: RequestId, r: Request) | Die(id: RequestId) | Step(id: RequestId, c: Choice) | PowerLoss

  ghost predicate RecoversEntry(e: Reservation, e': Reservation) {
    && e'.content == e.content && e'.nameSynced
    && (forall n :: n in e'.markers ==> n in e.markers)
    && (forall n :: n in e.markers && e.markers[n].nameSynced ==> n in e'.markers)
    && (forall n :: n in e'.markers ==>
          var m, m' := e.markers[n], e'.markers[n];
          m'.maker == m.maker && m'.bytesSynced && m'.nameSynced
          && (m'.kind == m.kind || (!m.bytesSynced && m'.kind.Torn?)))
    && (forall n :: n in e'.answers ==> n in e.answers)
    && (forall n :: n in e.answers && e.answers[n].nameSynced ==> n in e'.answers)
    && (forall n :: n in e'.answers ==>
          var a, a' := e.answers[n], e'.answers[n];
          a'.bytesSynced && a'.nameSynced && (a'.whole == a.whole || (!a.bytesSynced && !a'.whole)))
    && (e'.action.Some? ==> e.action.Some? && e'.action.value == e.action.value.(nameSynced := true))
    && (e.action.Some? && e.action.value.nameSynced ==> e'.action.Some?)
  }

  /** What a loss of power may leave: every synced name, with every synced byte; of the
      rest, any part. */
  ghost predicate Recovers(sh: Shared, sh': Shared) {
    && sh'.started == sh.started && sh'.freed == sh.freed && sh'.replies == sh.replies
    && (sh'.index.Some? ==> sh.index.Some? && sh'.index.value == sh.index.value.(nameSynced := true) && sh'.indexDirSynced)
    && (sh.index.Some? && sh.index.value.nameSynced && sh.indexDirSynced ==> sh'.index.Some?)
    && (sh.indexDirSynced ==> sh'.indexDirSynced)
    && (forall s :: s in sh'.entries ==> s in sh.entries)
    && (forall s :: s in sh.entries && sh.entries[s].nameSynced ==> s in sh'.entries)
    && (forall s :: s in sh'.entries ==> RecoversEntry(sh.entries[s], sh'.entries[s]))
  }

  ghost predicate Next(s: State, ev: Event, s': State) {
    match ev
    case Arrive(id, r) =>
      id !in s.used && Arrives(s.sh, r)
      && s' == State(s.sh, s.requests[id := r], s.used + {id})
    case Die(id) =>
      s' == State(s.sh, s.requests - {id}, s.used)
    case Step(id, c) =>
      id in s.requests
      && var (sh', r') := Act(s.sh, id, s.requests[id], c);
      s' == State(sh', s.requests[id := r'], s.used)
    case PowerLoss =>
      Recovers(s.sh, s'.sh) && s'.requests == map[] && s'.used == s.used
  }

  ghost predicate Init(s: State) {
    s == State(Shared(None, false, map[], {}, {}, {}), map[], {})
  }

  /** A run: states joined by events, from an empty store. */
  ghost predicate IsRun(states: seq<State>, events: seq<Event>) {
    && |states| == |events| + 1
    && Init(states[0])
    && (forall i :: 0 <= i < |events| ==> NextAt(states, events, i))
  }

  ghost predicate NextAt(states: seq<State>, events: seq<Event>, i: nat)
    requires |states| == |events| + 1 && i < |events|
  {
    Next(states[i], events[i], states[i + 1])
  }
}
