/** Every interleaving keeps the driver's invariant, and what follows from it. */
module EntropySafety {
  import opened Wrappers
  import opened EntropyCore
  import opened EntropyProtocol

  // ---- the mutex, the seeded flag and the library's contract ---------------

  /** What the stepping thread knows before its step ... */
  predicate LocksBefore(s: State, t: Tid) {
    var pc := PcOf(s, t);
    && (HoldsLock(pc) <==> s.mutex == Some(t))
    && (NeedsSeeded(pc) ==> s.core.seeded)
    && (NeedsUnseeded(pc) ==> !s.core.seeded)
    && s.trace.phase == PhaseAt(s.core.seeded, Holder(s))
  }

  /** ... and what its step does to the things other threads depend on. */
  predicate LocksAfter(s: State, t: Tid, s': State) {
    var pc, pc' := PcOf(s, t), PcOf(s', t);
    && s'.pcs == s.pcs[t := pc']
    && (HoldsLock(pc') ==> HoldsLock(pc) || s.mutex.None?)
    && s'.mutex == (if HoldsLock(pc') then Some(t) else if HoldsLock(pc) then None else s.mutex)
    && s'.core.seeded == (s.core.seeded || Publishing(pc))
    && (NeedsSeeded(pc') ==> s'.core.seeded)
    && (NeedsUnseeded(pc') ==> !s'.core.seeded)
    && s'.trace.phase == (if HoldsLock(pc') then PhaseAt(s'.core.seeded, pc')
                    else if HoldsLock(pc) then PhaseAt(s'.core.seeded, Idle)
                    else s.trace.phase)
  }

  lemma RequestLocks(s: State, t: Tid, k: Caller, at: RequestPc, ch: Choice, s': State)
    requires LocksBefore(s, t) && PcOf(s, t) == Requesting(k, at) && RequestStep(s, t, k, at, ch) == Some(s')
    ensures LocksAfter(s, t, s')
  {
    if at.Dropping? {
      DropLocks(s, t, k, at.noDevice);
    }
  }

  lemma DropLocks(s: State, t: Tid, k: Caller, noDevice: bool)
    requires LocksBefore(s, t) && PcOf(s, t) == Requesting(k, Dropping(noDevice))
    ensures LocksAfter(s, t, DropStep(s, t, k, noDevice))
  {
  }

  lemma InstallLocks(cfg: Config, s: State, t: Tid, w: Wait, at: InstallPc, ch: Choice, s': State)
    requires LocksBefore(s, t) && PcOf(s, t) == Installing(w, at)
    requires InstallStep(cfg, s, t, w, at, ch) == Some(s')
    ensures LocksAfter(s, t, s')
  {
  }

  lemma LoopLocks(s: State, t: Tid, w: Wait, at: LoopPc, ch: Choice, s': State)
    requires LocksBefore(s, t) && PcOf(s, t) == Waiting(w, at) && LoopStep(s, t, w, at, ch) == Some(s')
    ensures LocksAfter(s, t, s')
  {
  }

  lemma ReseedLocks(cfg: Config, s: State, t: Tid, at: ReseedPc, ch: Choice, s': State)
    requires s.core.Valid()
    requires LocksBefore(s, t) && PcOf(s, t) == Reseeding(at) && ReseedStep(cfg, s, t, at, ch) == Some(s')
    ensures LocksAfter(s, t, s')
  {
  }

  lemma GetLocks(cfg: Config, s: State, t: Tid, s': State)
    requires LocksBefore(s, t) && GetStep(cfg, s, t, PcOf(s, t)) == Some(s')
    ensures LocksAfter(s, t, s')
  {
  }

  lemma GenerateLocks(s: State, t: Tid, ch: Choice, s': State)
    requires LocksBefore(s, t) && PcOf(s, t).Generating? && GenerateStep(s, t, ch) == Some(s')
    ensures LocksAfter(s, t, s')
  {
  }

  lemma LocksFollow(s: State, t: Tid, s': State)
    requires LocksInv(s) && LocksAfter(s, t, s')
    ensures LocksInv(s')
  {
    forall u: Tid
      ensures HoldsLock(PcOf(s', u)) <==> s'.mutex == Some(u)
      ensures NeedsSeeded(PcOf(s', u)) ==> s'.core.seeded
      ensures NeedsUnseeded(PcOf(s', u)) ==> !s'.core.seeded
    {
      if u != t {
        assert PcOf(s', u) == PcOf(s, u);
      }
    }
  }

  // ---- the seed material ---------------------------------------------------

  /** A step that neither moves, consumes nor wipes seed material. */
  predicate SeedUntouched(s: State, s': State) {
    && s'.core.staged == s.core.staged && s'.core.stagedLen == s.core.stagedLen
    && s'.core.feed == s.core.feed && s'.core.feedLen == s.core.feedLen
    && s'.core.feedOff == s.core.feedOff
    && s'.responses == s.responses && s'.stagedId == s.stagedId && s'.feedId == s.feedId
    && s'.trace.used == s.trace.used && s'.trace.failed == s.trace.failed
    && s'.trace.linear == s.trace.linear
    && Loaded(Holder(s')) == Loaded(Holder(s))
    && Publishing(Holder(s')) == Publishing(Holder(s))
  }

  lemma SeedFrame(s: State, s': State)
    requires SeedInv(s) && SeedUntouched(s, s')
    ensures SeedInv(s')
  {
  }

  lemma RequestSeed(s: State, t: Tid, k: Caller, at: RequestPc, ch: Choice, s': State)
    requires s.core.Valid() && LocksBefore(s, t)
    requires PcOf(s, t) == Requesting(k, at) && RequestStep(s, t, k, at, ch) == Some(s')
    ensures SeedUntouched(s, s')
  {
    if at.Dropping? {
      DropSeed(s, t, k, at.noDevice);
    }
  }

  lemma DropSeed(s: State, t: Tid, k: Caller, noDevice: bool)
    requires s.core.Valid() && s.mutex != Some(t)
    ensures SeedUntouched(s, DropStep(s, t, k, noDevice))
  {
  }

  lemma LoopSeed(s: State, t: Tid, w: Wait, at: LoopPc, ch: Choice, s': State)
    requires s.core.Valid() && LocksBefore(s, t)
    requires PcOf(s, t) == Waiting(w, at) && LoopStep(s, t, w, at, ch) == Some(s')
    ensures SeedUntouched(s, s')
  {
  }

  lemma GetKeepsFeed(cfg: Config, s: State, t: Tid, s': State)
    requires GetStep(cfg, s, t, PcOf(s, t)) == Some(s')
    ensures s'.core == s.core && s'.mutex == s.mutex && s'.pcs == s.pcs[t := PcOf(s', t)]
    ensures s'.responses == s.responses && s'.stagedId == s.stagedId && s'.feedId == s.feedId
    ensures s'.trace.used == s.trace.used && s'.trace.failed == s.trace.failed && s'.trace.linear == s.trace.linear
  {
  }

  lemma HolderStays(s: State, t: Tid, s': State)
    requires s'.mutex == s.mutex != Some(t) && s'.pcs == s.pcs[t := PcOf(s', t)]
    ensures Holder(s') == Holder(s)
  {
  }

  lemma GetSeed(cfg: Config, s: State, t: Tid, s': State)
    requires s.core.Valid() && LocksBefore(s, t) && GetStep(cfg, s, t, PcOf(s, t)) == Some(s')
    ensures SeedUntouched(s, s')
  {
    hide Loaded;
    hide Publishing;
    assert s.mutex != Some(t);
    GetKeepsFeed(cfg, s, t, s');
    hide GetStep;
    HolderStays(s, t, s');
  }

  lemma GenerateSeed(s: State, t: Tid, ch: Choice, s': State)
    requires s.core.Valid() && LocksBefore(s, t) && PcOf(s, t).Generating?
    requires GenerateStep(s, t, ch) == Some(s')
    ensures SeedUntouched(s, s')
  {
  }

  lemma InstallSeed(cfg: Config, s: State, t: Tid, w: Wait, at: InstallPc, ch: Choice, s': State)
    requires SeedInv(s) && LocksBefore(s, t)
    requires PcOf(s, t) == Installing(w, at) && InstallStep(cfg, s, t, w, at, ch) == Some(s')
    ensures SeedInv(s')
  {
    match at {
      case InstallTake =>
      case InstallPublish =>
      case Instantiating(refused) => LibrarySeed(s, t, w, refused, ch, s');
      case _ => SeedFrame(s, s');
    }
  }

  lemma LibrarySeed(s: State, t: Tid, w: Wait, refused: bool, ch: Choice, s': State)
    requires SeedInv(s) && s.mutex == Some(t) && PcOf(s, t) == Installing(w, Instantiating(refused))
    requires LibraryStep(s, t, w, refused, ch) == Some(s')
    ensures SeedInv(s')
  {
  }

  lemma ReseedSeed(cfg: Config, s: State, t: Tid, at: ReseedPc, ch: Choice, s': State)
    requires SeedInv(s) && LocksBefore(s, t)
    requires PcOf(s, t) == Reseeding(at) && ReseedStep(cfg, s, t, at, ch) == Some(s')
    ensures SeedInv(s')
  {
    match at {
      case ReseedTake =>
      case ReseedRun =>
      case _ => SeedFrame(s, s');
    }
  }

  // ---- requests and waits --------------------------------------------------

  /** The clock and the count of deliveries only grow, and the semaphore is
      given by a delivery only. */
  predicate WaitProgress(s: State, s': State) {
    && s.clock <= s'.clock && s.delivered <= s'.delivered
    && (s'.arrival && !s.arrival ==> s.delivered < s'.delivered)
  }

  /** What a step of thread `t` owes to the requests and to every wait. */
  predicate Timely(cfg: Config, s: State, t: Tid, s': State) {
    && RequestInv(s')
    && WaitProgress(s, s')
    && s'.pcs == s.pcs[t := PcOf(s', t)]
    && WaitInv(cfg, s', PcOf(s', t))
  }

  lemma RequestTimely(cfg: Config, s: State, t: Tid, k: Caller, at: RequestPc, ch: Choice, s': State)
    requires RequestInv(s) && WaitInv(cfg, s, PcOf(s, t))
    requires PcOf(s, t) == Requesting(k, at) && RequestStep(s, t, k, at, ch) == Some(s')
    ensures Timely(cfg, s, t, s')
  {
    match at {
      case ReadClock =>
      case Locking(now) => LockingTimely(cfg, s, t, k, now, s');
      case Sending => SendingTimely(cfg, s, t, k, ch, s');
      case Dropping(noDevice) => DroppingTimely(cfg, s, t, k, noDevice, s');
    }
  }

  lemma LockingTimely(cfg: Config, s: State, t: Tid, k: Caller, now: int, s': State)
    requires RequestInv(s) && WaitInv(cfg, s, PcOf(s, t))
    requires PcOf(s, t) == Requesting(k, Locking(now)) && RequestStep(s, t, k, Locking(now), Go) == Some(s')
    ensures Timely(cfg, s, t, s')
  {
  }

  lemma SendingTimely(cfg: Config, s: State, t: Tid, k: Caller, ch: Choice, s': State)
    requires RequestInv(s) && WaitInv(cfg, s, PcOf(s, t))
    requires PcOf(s, t) == Requesting(k, Sending) && RequestStep(s, t, k, Sending, ch) == Some(s')
    ensures Timely(cfg, s, t, s')
  {
  }

  lemma DroppingTimely(cfg: Config, s: State, t: Tid, k: Caller, noDevice: bool, s': State)
    requires RequestInv(s) && WaitInv(cfg, s, PcOf(s, t))
    requires PcOf(s, t) == Requesting(k, Dropping(noDevice)) && DropStep(s, t, k, noDevice) == s'
    ensures Timely(cfg, s, t, s')
  {
  }

  lemma InstallTimely(cfg: Config, s: State, t: Tid, w: Wait, at: InstallPc, ch: Choice, s': State)
    requires RequestInv(s) && WaitInv(cfg, s, PcOf(s, t))
    requires PcOf(s, t) == Installing(w, at) && InstallStep(cfg, s, t, w, at, ch) == Some(s')
    ensures Timely(cfg, s, t, s')
  {
  }

  lemma LoopTimely(cfg: Config, s: State, t: Tid, w: Wait, at: LoopPc, ch: Choice, s': State)
    requires RequestInv(s) && WaitInv(cfg, s, PcOf(s, t))
    requires PcOf(s, t) == Waiting(w, at) && LoopStep(s, t, w, at, ch) == Some(s')
    ensures Timely(cfg, s, t, s')
  {
  }

  lemma ReseedTimely(cfg: Config, s: State, t: Tid, at: ReseedPc, ch: Choice, s': State)
    requires s.core.Valid() && RequestInv(s)
    requires PcOf(s, t) == Reseeding(at) && ReseedStep(cfg, s, t, at, ch) == Some(s')
    ensures Timely(cfg, s, t, s')
  {
  }

  lemma GetTimely(cfg: Config, s: State, t: Tid, s': State)
    requires RequestInv(s) && GetStep(cfg, s, t, PcOf(s, t)) == Some(s')
    ensures Timely(cfg, s, t, s')
  {
  }

  lemma GenerateTimely(cfg: Config, s: State, t: Tid, ch: Choice, s': State)
    requires RequestInv(s) && GenerateStep(s, t, ch) == Some(s')
    ensures Timely(cfg, s, t, s')
  {
  }

  lemma WaitsFollow(cfg: Config, s: State, t: Tid, s': State)
    requires (forall u: Tid :: WaitInv(cfg, s, PcOf(s, u))) && Timely(cfg, s, t, s')
    ensures forall u: Tid :: WaitInv(cfg, s', PcOf(s', u))
  {
    forall u: Tid
      ensures WaitInv(cfg, s', PcOf(s', u))
    {
      if u != t {
        assert PcOf(s', u) == PcOf(s, u);
        assert WaitInv(cfg, s, PcOf(s, u));
      }
    }
  }

  // ---- every step, every run -----------------------------------------------

  lemma ThreadKeepsInv(cfg: Config, s: State, t: Tid, ch: Choice, s': State)
    requires Inv(cfg, s) && Act(cfg, s, Advances(t, ch)) == Some(s')
    ensures Inv(cfg, s')
  {
    assert LocksBefore(s, t) && WaitInv(cfg, s, PcOf(s, t));
    match PcOf(s, t) {
      case Requesting(k, at) =>
        RequestLocks(s, t, k, at, ch, s');
        RequestSeed(s, t, k, at, ch, s');
        SeedFrame(s, s');
        RequestTimely(cfg, s, t, k, at, ch, s');
      case Installing(w, at) =>
        InstallLocks(cfg, s, t, w, at, ch, s');
        InstallSeed(cfg, s, t, w, at, ch, s');
        InstallTimely(cfg, s, t, w, at, ch, s');
      case Waiting(w, at) =>
        LoopLocks(s, t, w, at, ch, s');
        LoopSeed(s, t, w, at, ch, s');
        SeedFrame(s, s');
        LoopTimely(cfg, s, t, w, at, ch, s');
      case Reseeding(at) =>
        ReseedLocks(cfg, s, t, at, ch, s');
        ReseedSeed(cfg, s, t, at, ch, s');
        ReseedTimely(cfg, s, t, at, ch, s');
      case Generating =>
        GenerateLocks(s, t, ch, s');
        GenerateSeed(s, t, ch, s');
        SeedFrame(s, s');
        GenerateTimely(cfg, s, t, ch, s');
      case _ =>
        GetLocks(cfg, s, t, s');
        GetSeed(cfg, s, t, s');
        SeedFrame(s, s');
        GetTimely(cfg, s, t, s');
    }
    LocksFollow(s, t, s');
    WaitsFollow(cfg, s, t, s');
  }

  /** A call changes nothing but the calling thread's place. */
  lemma CallKeepsInv(cfg: Config, s: State, t: Tid, pc: Pc)
    requires Inv(cfg, s) && PcOf(s, t).Idle?
    requires pc.Entered? || pc.IsrEntered? || pc == Requesting(AtStart, ReadClock)
    ensures Inv(cfg, Goto(s, t, pc))
  {
    var s' := Goto(s, t, pc);
    assert PcOf(s', t) == pc;
    LocksFollow(s, t, s');
    WaitsFollow(cfg, s, t, s');
    SeedFrame(s, s');
  }

  /** Time and the provider move no thread. */
  lemma EnvironmentKeepsInv(cfg: Config, s: State, a: Action, s': State)
    requires Inv(cfg, s) && Act(cfg, s, a) == Some(s')
    requires a.Tick? || a.ProviderCopies? || a.ProviderGives? || a.ProviderFails?
    ensures Inv(cfg, s')
  {
    assert forall u: Tid :: PcOf(s', u) == PcOf(s, u);
    assert Holder(s') == Holder(s);
    forall u: Tid
      ensures WaitInv(cfg, s', PcOf(s', u))
    {
      assert WaitInv(cfg, s, PcOf(s, u));
    }
  }

  lemma StepKeepsInv(cfg: Config, s: State, a: Action, s': State)
    requires Inv(cfg, s) && Act(cfg, s, a) == Some(s')
    ensures Inv(cfg, s')
  {
    match a {
      case Advances(t, ch) => ThreadKeepsInv(cfg, s, t, ch, s');
      case CallGet(t) => CallKeepsInv(cfg, s, t, Entered);
      case CallIsr(t) => CallKeepsInv(cfg, s, t, IsrEntered);
      case CallStart(t) => CallKeepsInv(cfg, s, t, Requesting(AtStart, ReadClock));
      case _ => EnvironmentKeepsInv(cfg, s, a, s');
    }
  }
}
