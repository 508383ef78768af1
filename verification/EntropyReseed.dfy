/** That a reseed takes place: when one is asked for, and that a staged response
    is used before the caller that found it is served. */
module EntropyReseed {
  import opened Wrappers
  import opened EntropyCore
  import opened EntropyProtocol
  import opened EntropyTheorems
  import EntropySafety

  // ---- the reseed clock ------------------------------------------------------

  /** The step that reads the clock for the next reseed. */
  predicate Schedules(s: State, a: Action) {
    a.Advances? && var pc := PcOf(s, a.t);
                   (pc.Installing? && pc.install.InstallSchedule?) || (pc.Reseeding? && pc.reseed.ReseedSchedule?)
  }

  /** When a run last did that. */
  function LastScheduled(cfg: Config, s: State, acts: seq<Action>, last: Option<int>): Option<int>
    requires Follow(cfg, s, acts).Some?
    decreases |acts|
  {
    if acts == [] then last
    else
      var next := Act(cfg, s, acts[0]).value;
      LastScheduled(cfg, next, acts[1..], if Schedules(s, acts[0]) then Some(s.clock) else last)
  }

  /** The stored time is the interval behind the last schedule; with no interval,
      and before the first seed, it never comes. */
  predicate Scheduled(cfg: Config, s: State, last: Option<int>) {
    var never := last.None? || cfg.reseedIntervalMs == 0;
    s.core.nextReseed == if never then INT64_MAX else last.value + cfg.reseedIntervalMs
  }

  lemma {:induction false} FollowKeepsSchedule(cfg: Config, s: State, acts: seq<Action>, s': State, last: Option<int>)
    requires Follow(cfg, s, acts) == Some(s') && Scheduled(cfg, s, last)
    ensures Scheduled(cfg, s', LastScheduled(cfg, s, acts, last))
    decreases |acts|
  {
    if acts != [] {
      var next := Act(cfg, s, acts[0]).value;
      StepKeepsSchedule(cfg, s, acts[0], next, last);
      FollowKeepsSchedule(cfg, next, acts[1..], s', if Schedules(s, acts[0]) then Some(s.clock) else last);
    }
  }

  lemma RequestKeepsTime(s: State, t: Tid, k: Caller, at: RequestPc, ch: Choice, s': State)
    requires RequestStep(s, t, k, at, ch) == Some(s')
    ensures s'.core.nextReseed == s.core.nextReseed
  {
  }

  lemma InstallTime(cfg: Config, s: State, t: Tid, w: Wait, at: InstallPc, ch: Choice, s': State)
    requires s.core.Valid() && InstallStep(cfg, s, t, w, at, ch) == Some(s')
    ensures if at.InstallSchedule? then Scheduled(cfg, s', Some(s.clock)) else s'.core.nextReseed == s.core.nextReseed
  {
  }

  lemma ReseedTime(cfg: Config, s: State, t: Tid, at: ReseedPc, ch: Choice, s': State)
    requires s.core.Valid() && ReseedStep(cfg, s, t, at, ch) == Some(s')
    ensures if at.ReseedSchedule? then Scheduled(cfg, s', Some(s.clock)) else s'.core.nextReseed == s.core.nextReseed
  {
  }

  lemma OtherKeepsTime(cfg: Config, s: State, a: Action, s': State)
    requires s.core.Valid() && Act(cfg, s, a) == Some(s')
    requires a.Advances? ==> var pc := PcOf(s, a.t); !pc.Requesting? && !pc.Installing? && !pc.Reseeding?
    ensures s'.core.nextReseed == s.core.nextReseed
  {
    hide RequestStep;
    hide InstallStep;
    hide ReseedStep;
  }

  lemma StepKeepsSchedule(cfg: Config, s: State, a: Action, s': State, last: Option<int>)
    requires s.core.Valid() && Act(cfg, s, a) == Some(s') && Scheduled(cfg, s, last)
    ensures Scheduled(cfg, s', if Schedules(s, a) then Some(s.clock) else last)
  {
    hide RequestStep;
    hide InstallStep;
    hide ReseedStep;
    hide LoopStep;
    hide GetStep;
    hide GenerateStep;
    if a.Advances? && PcOf(s, a.t).Requesting? {
      var pc := PcOf(s, a.t);
      RequestKeepsTime(s, a.t, pc.k, pc.request, a.choice, s');
    } else if a.Advances? && PcOf(s, a.t).Installing? {
      var pc := PcOf(s, a.t);
      InstallTime(cfg, s, a.t, pc.w, pc.install, a.choice, s');
    } else if a.Advances? && PcOf(s, a.t).Reseeding? {
      ReseedTime(cfg, s, a.t, PcOf(s, a.t).reseed, a.choice, s');
    } else {
      OtherKeepsTime(cfg, s, a, s');
    }
  }

  /** In every run, a caller that finds nothing staged asks the provider before it
      is served if and only if the interval is over since the last seed or reseed
      was scheduled. */
  lemma AsksWhenDue(cfg: Config, clock: int, acts: seq<Action>, s: State, t: Tid, ch: Choice, s': State)
    requires Run(cfg, clock, acts) == Some(s) && s.core.Valid() && s.clock < INT64_MAX
    requires PcOf(s, t) == CheckInterval && Act(cfg, s, Advances(t, ch)) == Some(s')
    ensures var last := LastScheduled(cfg, Initial(clock), acts, None);
            && PcOf(s', t) == (if last.Some? && cfg.reseedIntervalMs > 0 && s.clock >= last.value + cfg.reseedIntervalMs
                               then Requesting(ForReseed, ReadClock) else Generating)
            && s' == Goto(s, t, PcOf(s', t))
  {
    FollowKeepsSchedule(cfg, Initial(clock), acts, s, None);
  }

  // ---- a staged response is used -----------------------------------------------

  /** The response has been used, or waits to be: in the staging buffer, or in the
      feed of the caller that is about to use it. */
  predicate Tracked(s: State, id: nat) {
    || id in s.trace.used
    || (s.core.stagedLen > 0 && s.stagedId == id)
    || (Loaded(Holder(s)) && s.feedId == id)
  }

  /** What every step does for a response, while no newer one is accepted. */
  ghost predicate Hands(s: State, s': State) {
    && |s.responses| <= |s'.responses| && s.trace.used <= s'.trace.used
    && (|s'.responses| == |s.responses| ==>
          && (s.core.stagedLen == 0 ==> s'.core.stagedLen == 0)
          && forall id: nat :: Tracked(s, id) ==> Tracked(s', id))
  }

  lemma UntouchedHands(s: State, s': State)
    requires EntropySafety.SeedUntouched(s, s')
    ensures Hands(s, s')
  {
  }

  lemma InstallHands(cfg: Config, s: State, t: Tid, w: Wait, at: InstallPc, ch: Choice, s': State)
    requires EntropySafety.LocksBefore(s, t) && s.core.Valid() && PcOf(s, t) == Installing(w, at)
    requires InstallStep(cfg, s, t, w, at, ch) == Some(s')
    ensures Hands(s, s')
  {
    if at.Instantiating? {
      LibraryHands(s, t, w, at.refused, ch, s');
    }
  }

  lemma LibraryHands(s: State, t: Tid, w: Wait, refused: bool, ch: Choice, s': State)
    requires s.mutex == Some(t) && PcOf(s, t) == Installing(w, Instantiating(refused))
    requires LibraryStep(s, t, w, refused, ch) == Some(s')
    ensures Hands(s, s')
  {
  }

  lemma ReseedHands(cfg: Config, s: State, t: Tid, at: ReseedPc, ch: Choice, s': State)
    requires EntropySafety.LocksBefore(s, t) && s.core.Valid() && PcOf(s, t) == Reseeding(at)
    requires ReseedStep(cfg, s, t, at, ch) == Some(s')
    ensures Hands(s, s')
  {
  }

  lemma ThreadHands(cfg: Config, s: State, t: Tid, ch: Choice, s': State)
    requires Inv(cfg, s) && Act(cfg, s, Advances(t, ch)) == Some(s')
    ensures Hands(s, s')
  {
    assert EntropySafety.LocksBefore(s, t);
    hide Hands;
    match PcOf(s, t) {
      case Requesting(k, at) =>
        EntropySafety.RequestSeed(s, t, k, at, ch, s');
        UntouchedHands(s, s');
      case Installing(w, at) => InstallHands(cfg, s, t, w, at, ch, s');
      case Waiting(w, at) =>
        EntropySafety.LoopSeed(s, t, w, at, ch, s');
        UntouchedHands(s, s');
      case Reseeding(at) => ReseedHands(cfg, s, t, at, ch, s');
      case Generating =>
        EntropySafety.GenerateSeed(s, t, ch, s');
        UntouchedHands(s, s');
      case _ =>
        EntropySafety.GetSeed(cfg, s, t, s');
        UntouchedHands(s, s');
    }
  }

  lemma StepHands(cfg: Config, s: State, a: Action, s': State)
    requires Inv(cfg, s) && Act(cfg, s, a) == Some(s')
    ensures Hands(s, s')
  {
    if a.Advances? {
      ThreadHands(cfg, s, a.t, a.choice, s');
    } else {
      EnvironmentHands(cfg, s, a, s');
    }
  }

  lemma EnvironmentHands(cfg: Config, s: State, a: Action, s': State)
    requires Inv(cfg, s) && !a.Advances? && Act(cfg, s, a) == Some(s')
    ensures Hands(s, s')
  {
    if a.CallGet? || a.CallIsr? || a.CallStart? {
      var t := match a case CallGet(t) => t case CallIsr(t) => t case CallStart(t) => t;
      assert HoldsLock(PcOf(s, t)) <==> s.mutex == Some(t);
    }
    assert Loaded(Holder(s')) == Loaded(Holder(s));
  }

  /** A caller on its way through `reseed`. */
  ghost predicate OnItsWay(cfg: Config, s: State, acts: seq<Action>, t: Tid, s': State)
    decreases |acts|
  {
    if acts == [] then s == s'
    else PcOf(s, t).Reseeding? && s.core.Valid()
         && var next := Act(cfg, s, acts[0]); next.Some? && OnItsWay(cfg, next.value, acts[1..], t, s')
  }

  /** What such a caller knows of the response it found. */
  ghost predicate Pursues(s: State, t: Tid, id: nat) {
    && Tracked(s, id)
    && match PcOf(s, t)
       case Reseeding(at) => at.ReseedLock? || at.ReseedTake? || s.core.stagedLen == 0
       case Generating => id in s.trace.used
       case _ => true
  }

  lemma StepPursues(cfg: Config, s: State, a: Action, s': State, t: Tid, id: nat)
    requires Inv(cfg, s) && PcOf(s, t).Reseeding? && Pursues(s, t, id)
    requires Act(cfg, s, a) == Some(s') && |s'.responses| == |s.responses|
    ensures Pursues(s', t, id)
  {
    StepHands(cfg, s, a, s');
    assert HoldsLock(PcOf(s, t)) <==> s.mutex == Some(t);
    if a.Advances? && a.t == t {
      OwnStepPursues(cfg, s, a.choice, s', t, id);
    } else {
      assert PcOf(s', t) == PcOf(s, t) by {
        OthersStay(cfg, s, a, s', t);
      }
    }
  }

  lemma OthersStay(cfg: Config, s: State, a: Action, s': State, t: Tid)
    requires Inv(cfg, s) && Act(cfg, s, a) == Some(s') && PcOf(s, t).Reseeding? && !(a.Advances? && a.t == t)
    ensures PcOf(s', t) == PcOf(s, t)
  {
    if a.Advances? {
      AdvanceMovesOne(cfg, s, a.t, a.choice, s');
    }
  }

  lemma AdvanceMovesOne(cfg: Config, s: State, t: Tid, ch: Choice, s': State)
    requires Inv(cfg, s) && Act(cfg, s, Advances(t, ch)) == Some(s')
    ensures s'.pcs == s.pcs[t := PcOf(s', t)]
  {
    assert EntropySafety.LocksBefore(s, t);
    match PcOf(s, t) {
      case Requesting(k, at) => EntropySafety.RequestLocks(s, t, k, at, ch, s');
      case Installing(w, at) => EntropySafety.InstallLocks(cfg, s, t, w, at, ch, s');
      case Waiting(w, at) => EntropySafety.LoopLocks(s, t, w, at, ch, s');
      case Reseeding(at) => EntropySafety.ReseedLocks(cfg, s, t, at, ch, s');
      case Generating => EntropySafety.GenerateLocks(s, t, ch, s');
      case _ => EntropySafety.GetLocks(cfg, s, t, s');
    }
  }

  lemma OwnStepPursues(cfg: Config, s: State, ch: Choice, s': State, t: Tid, id: nat)
    requires Inv(cfg, s) && PcOf(s, t).Reseeding? && Pursues(s, t, id) && Hands(s, s')
    requires Act(cfg, s, Advances(t, ch)) == Some(s') && |s'.responses| == |s.responses|
    ensures Pursues(s', t, id)
  {
    assert HoldsLock(PcOf(s, t)) <==> s.mutex == Some(t);
  }

  lemma {:induction false} WayPursues(cfg: Config, s: State, acts: seq<Action>, t: Tid, s': State, id: nat)
    requires Inv(cfg, s) && Pursues(s, t, id) && OnItsWay(cfg, s, acts, t, s') && |s'.responses| == |s.responses|
    ensures Pursues(s', t, id)
    decreases |acts|
  {
    if acts != [] {
      var next := Act(cfg, s, acts[0]).value;
      WayGrows(cfg, s, acts, t, s');
      StepPursues(cfg, s, acts[0], next, t, id);
      EntropySafety.StepKeepsInv(cfg, s, acts[0], next);
      WayPursues(cfg, next, acts[1..], t, s', id);
    }
  }

  lemma {:induction false} WayGrows(cfg: Config, s: State, acts: seq<Action>, t: Tid, s': State)
    requires Inv(cfg, s) && OnItsWay(cfg, s, acts, t, s')
    ensures |s.responses| <= |s'.responses|
    ensures acts != [] ==> |s.responses| <= |Act(cfg, s, acts[0]).value.responses| <= |s'.responses|
    decreases |acts|
  {
    if acts != [] {
      var next := Act(cfg, s, acts[0]).value;
      StepHands(cfg, s, acts[0], next);
      EntropySafety.StepKeepsInv(cfg, s, acts[0], next);
      WayGrows(cfg, next, acts[1..], t, s');
    }
  }

  /** In every run, a caller that finds a response staged is not served before that
      response has been used - by itself or by another caller - unless a newer one
      was accepted meanwhile. */
  lemma StagedIsUsed(cfg: Config, clock: int, before: seq<Action>, s: State, t: Tid, ch: Choice, s1: State,
                     acts: seq<Action>, s': State)
    requires Run(cfg, clock, before) == Some(s) && s.core.Valid()
    requires PcOf(s, t) == CheckStaged && s.core.stagedLen > 0 && Act(cfg, s, Advances(t, ch)) == Some(s1)
    requires OnItsWay(cfg, s1, acts, t, s')
    ensures PcOf(s1, t) == Reseeding(ReseedLock)
    ensures PcOf(s', t) == Generating ==> s.stagedId in s'.trace.used || |s'.responses| > |s.responses|
  {
    RunKeepsInv(cfg, clock, before, s);
    EntropySafety.StepKeepsInv(cfg, s, Advances(t, ch), s1);
    WayGrows(cfg, s1, acts, t, s');
    if |s'.responses| == |s1.responses| {
      WayPursues(cfg, s1, acts, t, s', s.stagedId);
    }
  }
}
