/** The entropy driver as a concurrent protocol: thread callers, ISR callers, an
    asynchronous provider, the spinlock, the install mutex, the arrival
    semaphore and a clock (drivers/entropy/entropy_ipc_core.c).

    A section under the spinlock is one step; everything the C code does outside
    it, the unlocked reads and the library's instantiation included, is a step
    of its own, so any other thread, ISR or provider callback may run between
    two of them. */
module EntropyProtocol {
  import opened Wrappers
  import opened EntropyCore

  type Tid = nat

  datatype Config = Config(seedTimeoutMs: nat, reseedIntervalMs: nat)

  /** One thread's first-seed wait. The last four fields only count. */
  datatype Wait = Wait(start: int, deadline: int, rounds: nat, timeouts: nat, takes: nat, delivered0: nat)

  /** Who called `request_seed`, hence where it returns to. */
  datatype Caller = InWait(w: Wait) | ForReseed | AtStart

  datatype RequestPc = ReadClock | Locking(now: int) | Sending | Dropping(noDevice: bool)

  datatype InstallPc =
    | InstallLock | InstallCheck | InstallTake | InstallSeed | Instantiating(refused: bool)
    | InstallPublish | InstallSchedule | InstallUnlock

  datatype LoopPc = AwaitArrival(since: int) | LoopTest | LoopClock

  datatype ReseedPc = ReseedLock | ReseedTake | ReseedRun | ReseedSchedule | ReseedUnlock

  /** Where a thread or ISR is inside `mcuhome_entropy_core_get`, `_get_isr` or
      `_start`. */
  datatype Pc =
    | Idle
    | Entered
    | IsrEntered
    | WaitClock
    | FinalTest
    | CheckStaged
    | CheckInterval
    | Generating
    | Requesting(k: Caller, request: RequestPc)
    | Installing(w: Wait, install: InstallPc)
    | Waiting(w: Wait, loop: LoopPc)
    | Reseeding(reseed: ReseedPc)

  datatype Event =
    | Requested(at: int)
    | Cleared
    | Accepted(id: nat)
    | SeedBegin
    | SeedEnd(id: nat, ok: bool)
    | Reseeded(id: nat)
    | Generated(t: Tid, ok: bool)
    | Returned(t: Tid, success: bool)

  /** `responses` are the accepted deliveries in order; a response's id is its
      place in it. `delivered` counts the `stage` calls that have given the
      semaphore, `pending` those that have copied their bytes and not yet. */
  datatype State = State(
    core: Core,
    responses: seq<Seed>,
    stagedId: nat,
    feedId: nat,
    mutex: Option<Tid>,
    arrival: bool,
    pending: nat,
    delivered: nat,
    clock: int,
    pcs: map<Tid, Pc>,
    trace: Trace)

  function PcOf(s: State, t: Tid): Pc {
    if t in s.pcs then s.pcs[t] else Idle
  }

  function Goto(s: State, t: Tid, pc: Pc): State {
    s.(pcs := s.pcs[t := pc])
  }

  function Note(s: State, e: Event): State {
    s.(trace := Append(s.trace, e))
  }

  // ---- the history and its monitors ----------------------------------------

  /** The use of one DRBG context, as the library's contract allows it: an
      instantiation may be tried again after it failed, and once one has
      succeeded there is never another. */
  datatype Phase = Fresh | Busily | Installed | Broken

  /** Everything that happened, and four running judgements about it: the
      library's contract; the responses used and whether any was used twice;
      the response of the last use if that was a failed instantiation; the
      time of the request still open and whether every two were far apart. */
  datatype Trace = Trace(
    log: seq<Event>,
    phase: Phase,
    used: set<nat>,
    linear: bool,
    failed: Option<nat>,
    open: Option<int>,
    paced: bool)

  predicate IsUse(e: Event) {
    e.SeedEnd? || e.Reseeded?
  }

  function Obey(p: Phase, e: Event): Phase {
    match e
    case SeedBegin => if p.Fresh? then Busily else Broken
    case SeedEnd(_, ok) => if !p.Busily? then Broken else if ok then Installed else Fresh
    case Reseeded(_) => if p.Installed? then p else Broken
    case Generated(_, _) => if p.Installed? then p else Broken
    case _ => p
  }

  function Append(tr: Trace, e: Event): Trace {
    Trace(
      tr.log + [e],
      Obey(tr.phase, e),
      if IsUse(e) then tr.used + {e.id} else tr.used,
      tr.linear && (IsUse(e) ==> e.id !in tr.used),
      match e
      case SeedEnd(id, ok) => if ok then None else Some(id)
      case Reseeded(_) => None
      case _ => tr.failed,
      match e
      case Requested(at) => Some(at)
      case Cleared => None
      case _ => tr.open,
      tr.paced && (e.Requested? && tr.open.Some? ==> tr.open.value + SEED_REQUEST_TIMEOUT_MS <= e.at))
  }

  const NO_TRACE: Trace := Trace([], Fresh, {}, true, None, None, true)

  // ---- the steps ----------------------------------------------------------

  datatype Sent = SentOk | SentNoDevice | SentError

  /** What the environment decides in a thread's step. */
  datatype Choice =
    | Go
    | Send(sent: Sent)
    | Arrived
    | TimedOut
    | Callback(len: nat)
    | Finish(ok: bool)
    | Library(lens: seq<nat>)

  datatype Action =
    | Tick(ms: nat)
    | CallGet(t: Tid)
    | CallIsr(t: Tid)
    | CallStart(t: Tid)
    | Advances(t: Tid, choice: Choice)
    | ProviderCopies(bytes: Seed)
    | ProviderGives
    | ProviderFails

  function Initial(clock: int): State {
    State(INITIAL, [], 0, 0, None, false, 0, 0, clock, map[], NO_TRACE)
  }

  /** Where `request_seed` returns to when the caller goes on. */
  function Resume(s: State, t: Tid, k: Caller): State {
    Goto(s, t, match k
      case InWait(w) => Waiting(w, AwaitArrival(s.clock))
      case ForReseed => Generating
      case AtStart => Idle)
  }

  function Take(s: State, t: Tid, loaded: Pc, empty: Pc): State {
    var s' := Note(s.(core := AfterTake(s.core)), Cleared);
    if s.core.stagedLen == SEED_BYTES then Goto(s'.(feedId := s.stagedId), t, loaded)
    else Goto(s', t, empty)
  }

  function Return(s: State, t: Tid, success: bool): State {
    Goto(Note(s, Returned(t, success)), t, Idle)
  }

  function RequestStep(s: State, t: Tid, k: Caller, at: RequestPc, ch: Choice): Option<State> {
    match at
    case ReadClock => Some(Goto(s, t, Requesting(k, Locking(s.clock))))
    case Locking(now) =>
      if Busy(s.core, now) then Some(Resume(s, t, k))
      else Some(Goto(Note(s.(core := AfterRequest(s.core, now)), Requested(now)), t, Requesting(k, Sending)))
    case Sending =>
      if !ch.Send? then None
      else if ch.sent.SentOk? then Some(Resume(s, t, k))
      else Some(Goto(s, t, Requesting(k, Dropping(ch.sent.SentNoDevice?))))
    case Dropping(noDevice) => Some(DropStep(s, t, k, noDevice))
  }

  /** The provider would not send: only a waiting caller gives up, and only when
      the transport is not there yet. */
  function DropStep(s: State, t: Tid, k: Caller, noDevice: bool): State {
    var s' := Note(s.(core := RequestFailed(s.core)), Cleared);
    if noDevice && k.InWait? then Return(s', t, false) else Resume(s', t, k)
  }

  function InstallStep(cfg: Config, s: State, t: Tid, w: Wait, at: InstallPc, ch: Choice): Option<State> {
    match at
    case InstallLock =>
      if s.mutex.Some? then None else Some(Goto(s.(mutex := Some(t)), t, Installing(w, InstallCheck)))
    case InstallCheck =>
      Some(Goto(s, t, Installing(w, if s.core.seeded then InstallUnlock else InstallTake)))
    case InstallTake => Some(Take(s, t, Installing(w, InstallSeed), Installing(w, InstallUnlock)))
    case InstallSeed => Some(Goto(Note(s, SeedBegin), t, Installing(w, Instantiating(false))))
    case Instantiating(refused) => LibraryStep(s, t, w, refused, ch)
    case InstallPublish => Some(Goto(s.(core := AfterPublish(s.core)), t, Installing(w, InstallSchedule)))
    case InstallSchedule =>
      Some(Goto(s.(core := ScheduleReseed(s.core, s.clock, cfg.reseedIntervalMs)), t,
                Installing(w, InstallUnlock)))
    case InstallUnlock => Some(Goto(s.(mutex := None), t, Waiting(w, LoopTest)))
  }

  /** The library run is not under the spinlock: each read of the feed and the
      end of the run are steps of their own. A refused read ends in failure. */
  function LibraryStep(s: State, t: Tid, w: Wait, refused: bool, ch: Choice): Option<State> {
    match ch
    case Callback(len) =>
      if refused then None
      else if CallbackRefuses(s.core, len) then Some(Goto(s, t, Installing(w, Instantiating(true))))
      else Some(Goto(s.(core := Advance(s.core, len)), t, Installing(w, Instantiating(false))))
    case Finish(ok) =>
      if ok && refused then None
      else Some(Goto(Note(s, SeedEnd(s.feedId, ok)), t,
                     Installing(w, if ok then InstallPublish else InstallUnlock)))
    case _ => None
  }

  function LoopStep(s: State, t: Tid, w: Wait, at: LoopPc, ch: Choice): Option<State> {
    match at
    case AwaitArrival(since) => (
      match ch
      case Arrived =>
        if !s.arrival then None
        else Some(Goto(s.(arrival := false), t, Installing(w.(takes := w.takes + 1), InstallLock)))
      case TimedOut =>
        if s.clock < since + SEED_REQUEST_TIMEOUT_MS then None
        else Some(Goto(s, t, Waiting(w.(timeouts := w.timeouts + 1), LoopTest)))
      case _ => None)
    case LoopTest => Some(Goto(s, t, if s.core.seeded then FinalTest else Waiting(w, LoopClock)))
    case LoopClock =>
      if s.clock < w.deadline
      then Some(Goto(s, t, Requesting(InWait(w.(rounds := w.rounds + 1)), ReadClock)))
      else Some(Goto(s, t, FinalTest))
  }

  function ReseedStep(cfg: Config, s: State, t: Tid, at: ReseedPc, ch: Choice): Option<State>
    requires s.core.Valid()
  {
    match at
    case ReseedLock =>
      if s.mutex.Some? then None else Some(Goto(s.(mutex := Some(t)), t, Reseeding(ReseedTake)))
    case ReseedTake => Some(Take(s, t, Reseeding(ReseedRun), Reseeding(ReseedUnlock)))
    case ReseedRun =>
      if !ch.Library? then None
      else Some(Goto(Note(s.(core := ReseedSection(s.core, ch.lens)), Reseeded(s.feedId)), t,
                     Reseeding(ReseedSchedule)))
    case ReseedSchedule =>
      Some(Goto(s.(core := ScheduleReseed(s.core, s.clock, cfg.reseedIntervalMs)), t, Reseeding(ReseedUnlock)))
    case ReseedUnlock => Some(Goto(s.(mutex := None), t, Generating))
  }

  function GetStep(cfg: Config, s: State, t: Tid, pc: Pc): Option<State> {
    match pc
    case Entered => Some(Goto(s, t, if s.core.seeded then CheckStaged else WaitClock))
    case IsrEntered => Some(if s.core.seeded then Goto(s, t, Generating) else Return(s, t, false))
    case WaitClock =>
      var w := Wait(s.clock, s.clock + cfg.seedTimeoutMs, 1, 0, 0, s.delivered);
      Some(Goto(s, t, Requesting(InWait(w), ReadClock)))
    case FinalTest => Some(if s.core.seeded then Goto(s, t, CheckStaged) else Return(s, t, false))
    case CheckStaged => Some(Goto(s, t, if s.core.stagedLen > 0 then Reseeding(ReseedLock) else CheckInterval))
    case CheckInterval =>
      Some(Goto(s, t, if s.clock >= s.core.nextReseed then Requesting(ForReseed, ReadClock) else Generating))
    case _ => None
  }

  function GenerateStep(s: State, t: Tid, ch: Choice): Option<State> {
    if !s.core.seeded then Some(Return(s, t, false))
    else if !ch.Finish? then None
    else Some(Return(Note(s, Generated(t, ch.ok)), t, ch.ok))
  }

  function Act(cfg: Config, s: State, a: Action): Option<State>
    requires s.core.Valid()
  {
    match a
    case Tick(ms) => Some(s.(clock := s.clock + ms))
    case CallGet(t) => if PcOf(s, t).Idle? then Some(Goto(s, t, Entered)) else None
    case CallIsr(t) => if PcOf(s, t).Idle? then Some(Goto(s, t, IsrEntered)) else None
    case CallStart(t) => if PcOf(s, t).Idle? then Some(Goto(s, t, Requesting(AtStart, ReadClock))) else None
    case Advances(t, ch) => (
      match PcOf(s, t)
      case Requesting(k, at) => RequestStep(s, t, k, at, ch)
      case Installing(w, at) => InstallStep(cfg, s, t, w, at, ch)
      case Waiting(w, at) => LoopStep(s, t, w, at, ch)
      case Reseeding(at) => ReseedStep(cfg, s, t, at, ch)
      case Generating => GenerateStep(s, t, ch)
      case pc => GetStep(cfg, s, t, pc))
    case ProviderCopies(bytes) =>
      var id := |s.responses|;
      Some(Note(s.(core := StageBytes(s.core, bytes), responses := s.responses + [bytes],
                   stagedId := id, pending := s.pending + 1), Accepted(id)))
    case ProviderGives =>
      if s.pending == 0 then None
      else Some(s.(pending := s.pending - 1, arrival := true, delivered := s.delivered + 1))
    case ProviderFails => Some(Note(s.(core := RequestFailed(s.core)), Cleared))
  }

  // ---- the invariant -------------------------------------------------------

  predicate HoldsLock(pc: Pc) {
    || (pc.Installing? && !pc.install.InstallLock?)
    || (pc.Reseeding? && !pc.reseed.ReseedLock?)
  }

  predicate NeedsSeeded(pc: Pc) {
    || pc.CheckStaged? || pc.CheckInterval? || pc.Generating? || pc.Reseeding?
    || (pc.Requesting? && pc.k.ForReseed?)
    || (pc.Installing? && pc.install.InstallSchedule?)
  }

  predicate Publishing(pc: Pc) {
    pc.Installing? && pc.install.InstallPublish?
  }

  predicate InLibrary(pc: Pc) {
    pc.Installing? && pc.install.Instantiating?
  }

  predicate NeedsUnseeded(pc: Pc) {
    || Publishing(pc) || InLibrary(pc)
    || (pc.Installing? && (pc.install.InstallTake? || pc.install.InstallSeed?))
  }

  /** The feed holds material that is about to be used. */
  predicate Loaded(pc: Pc) {
    || InLibrary(pc) || (pc.Installing? && pc.install.InstallSeed?)
    || (pc.Reseeding? && pc.reseed.ReseedRun?)
  }

  function Holder(s: State): Pc {
    if s.mutex.Some? then PcOf(s, s.mutex.value) else Idle
  }

  function PhaseAt(seeded: bool, holder: Pc): Phase {
    if seeded || Publishing(holder) then Installed
    else if InLibrary(holder) then Busily
    else Fresh
  }

  ghost predicate LocksInv(s: State) {
    && (forall t: Tid :: HoldsLock(PcOf(s, t)) <==> s.mutex == Some(t))
    && (forall t: Tid :: NeedsSeeded(PcOf(s, t)) ==> s.core.seeded)
    && (forall t: Tid :: NeedsUnseeded(PcOf(s, t)) ==> !s.core.seeded)
    && s.trace.phase == PhaseAt(s.core.seeded, Holder(s))
  }

  predicate SeedInv(s: State) {
    && s.core.Valid()
    && s.trace.linear
    && (s.core.stagedLen > 0 ==> Unspent(s, s.stagedId, s.core.staged))
    && (Loaded(Holder(s)) ==>
          && Unspent(s, s.feedId, s.core.feed)
          && s.core.feedLen == SEED_BYTES
          && (s.core.stagedLen > 0 ==> s.stagedId != s.feedId))
    && (forall id <- s.trace.used :: id < |s.responses|)
    && (Publishing(Holder(s)) ==> s.trace.failed == None)
    && (!Loaded(Holder(s)) && !Publishing(Holder(s)) ==> FeedAtRest(s))
  }

  predicate Unspent(s: State, id: nat, bytes: Seed) {
    id < |s.responses| && s.responses[id] == bytes && id !in s.trace.used
  }

  /** Between uses the feed is wiped, except after a failed instantiation, which
      leaves the response it consumed in place. */
  predicate FeedAtRest(s: State) {
    match s.trace.failed
    case None => s.core.feed == Zeroes() && s.core.feedLen == 0
    case Some(id) => id < |s.responses| && s.core.feed == s.responses[id]
  }

  /** Requests are paced, and only a delivery gives the semaphore, once for each. */
  predicate RequestInv(s: State) {
    && s.trace.paced && (s.arrival ==> s.delivered > 0) && s.delivered + s.pending == |s.responses|
    && (s.trace.open.Some? ==>
          s.core.inFlight && s.trace.open.value + SEED_REQUEST_TIMEOUT_MS <= s.core.expiry)
  }

  predicate InRound(pc: Pc) {
    (pc.Requesting? && pc.k.InWait?) || (pc.Waiting? && pc.loop.AwaitArrival?)
  }

  predicate AfterRound(pc: Pc) {
    pc.Installing? || (pc.Waiting? && !pc.loop.AwaitArrival?)
  }

  function WaitOf(pc: Pc): Wait
    requires InRound(pc) || AfterRound(pc)
  {
    if pc.Requesting? then pc.k.w else pc.w
  }

  /** The arithmetic of one wait, `open` while the round is still running. */
  predicate WaitAdds(cfg: Config, s: State, w: Wait, open: bool) {
    && w.deadline == w.start + cfg.seedTimeoutMs
    && w.delivered0 <= s.delivered
    && w.takes + (if s.arrival then 1 else 0) <= s.delivered - w.delivered0 + (if w.delivered0 > 0 then 1 else 0)
    && w.start + SEED_REQUEST_TIMEOUT_MS * w.timeouts <= s.clock
    && w.rounds == w.timeouts + w.takes + (if open then 1 else 0)
    && (w.rounds > 1 ==> SEED_REQUEST_TIMEOUT_MS * w.timeouts
                           < cfg.seedTimeoutMs + (if open then 0 else SEED_REQUEST_TIMEOUT_MS))
  }

  predicate WaitInv(cfg: Config, s: State, pc: Pc) {
    (InRound(pc) || AfterRound(pc)) ==>
      && WaitAdds(cfg, s, WaitOf(pc), InRound(pc))
      && (pc.Waiting? && pc.loop.AwaitArrival? ==>
            pc.w.start + SEED_REQUEST_TIMEOUT_MS * pc.w.timeouts <= pc.loop.since <= s.clock)
  }

  ghost predicate Inv(cfg: Config, s: State) {
    && LocksInv(s)
    && SeedInv(s)
    && RequestInv(s)
    && forall t: Tid :: WaitInv(cfg, s, PcOf(s, t))
  }
}
