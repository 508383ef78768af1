/** No call is stuck: from wherever a run has got to, every caller can still get its
    answer, and a good one once a seed is delivered. */
module EntropyProgress {
  import opened Wrappers
  import opened EntropyCore
  import opened EntropyProtocol
  import opened EntropyTheorems
  import EntropySafety

  // ---- the way on --------------------------------------------------------------

  function CallerRank(k: Caller): nat {
    match k case InWait(_) => 12 case ForReseed => 2 case AtStart => 1
  }

  function RequestRank(at: RequestPc): nat {
    match at case Sending => 0 case Dropping(_) => 0 case Locking(_) => 1 case ReadClock => 2
  }

  function InstallRank(at: InstallPc): nat {
    match at
    case InstallUnlock => 11
    case InstallSchedule => 12
    case InstallPublish => 13
    case Instantiating(_) => 13
    case InstallSeed => 14
    case InstallTake => 15
    case InstallCheck => 16
    case InstallLock => 17
  }

  function ReseedRank(at: ReseedPc): nat {
    match at
    case ReseedUnlock => 2
    case ReseedSchedule => 3
    case ReseedRun => 4
    case ReseedTake => 5
    case ReseedLock => 6
  }

  /** How many steps are left at most. */
  function Rank(pc: Pc): nat {
    match pc
    case Idle => 0
    case Generating => 1
    case IsrEntered => 2
    case CheckInterval => 5
    case CheckStaged => 7
    case FinalTest => 8
    case WaitClock => 15
    case Entered => 16
    case Requesting(k, at) => CallerRank(k) + RequestRank(at)
    case Installing(_, at) => InstallRank(at)
    case Waiting(_, at) => (match at case LoopClock => 9 case LoopTest => 10 case AwaitArrival(_) => 11)
    case Reseeding(at) => ReseedRank(at)
  }

  /** What the environment decides so that the thread goes on. */
  function Ahead(pc: Pc): Choice {
    match pc
    case Requesting(_, Sending) => Send(SentOk)
    case Installing(_, Instantiating(_)) => Finish(false)
    case Waiting(_, AwaitArrival(_)) => TimedOut
    case Reseeding(ReseedRun) => Library([])
    case Generating => Finish(true)
    case _ => Go
  }

  /** And the time that has to pass first. */
  function Patience(s: State, pc: Pc): nat {
    match pc
    case Waiting(w, AwaitArrival(since)) =>
      if s.clock < since + SEED_REQUEST_TIMEOUT_MS then since + SEED_REQUEST_TIMEOUT_MS - s.clock else 0
    case Waiting(w, LoopClock) => if s.clock < w.deadline then w.deadline - s.clock else 0
    case _ => 0
  }

  predicate AtLock(pc: Pc) {
    (pc.Installing? && pc.install.InstallLock?) || (pc.Reseeding? && pc.reseed.ReseedLock?)
  }

  /** A caller that is not yet refused, once there is a seed. */
  predicate Willing(pc: Pc) {
    !pc.Idle? && !(pc.Requesting? && (pc.k.AtStart? || (pc.k.InWait? && pc.request == Dropping(true))))
  }

  ghost predicate Answers(s: State, t: Tid, ok: bool) {
    PcOf(s, t).Idle? && s.trace.log != [] && s.trace.log[|s.trace.log| - 1] == Returned(t, ok)
  }

  function Waited(s: State, t: Tid): State {
    s.(clock := s.clock + Patience(s, PcOf(s, t)))
  }

  lemma RequestGoes(cfg: Config, s: State, t: Tid, k: Caller, at: RequestPc)
    requires s.core.Valid() && PcOf(s, t) == Requesting(k, at)
    ensures var next := RequestStep(s, t, k, at, Ahead(PcOf(s, t)));
            && next.Some? && next.value.pcs == s.pcs[t := PcOf(next.value, t)]
            && Rank(PcOf(next.value, t)) < Rank(PcOf(s, t)) && next.value.core.seeded == s.core.seeded
            && (Willing(PcOf(s, t)) ==> Willing(PcOf(next.value, t)))
  {
  }

  lemma InstallGoes(cfg: Config, s: State, t: Tid, w: Wait, at: InstallPc)
    requires s.core.Valid() && PcOf(s, t) == Installing(w, at) && (at.InstallLock? ==> s.mutex.None?)
    ensures var next := InstallStep(cfg, s, t, w, at, Ahead(PcOf(s, t)));
            && next.Some? && next.value.pcs == s.pcs[t := PcOf(next.value, t)]
            && Rank(PcOf(next.value, t)) < Rank(PcOf(s, t)) && (s.core.seeded ==> next.value.core.seeded)
            && Willing(PcOf(next.value, t))
  {
  }

  lemma LoopGoes(cfg: Config, s: State, t: Tid, w: Wait, at: LoopPc)
    requires s.core.Valid() && PcOf(s, t) == Waiting(w, at)
    ensures var next := LoopStep(Waited(s, t), t, w, at, Ahead(PcOf(s, t)));
            && next.Some? && next.value.pcs == s.pcs[t := PcOf(next.value, t)]
            && Rank(PcOf(next.value, t)) < Rank(PcOf(s, t)) && next.value.core == s.core
            && Willing(PcOf(next.value, t))
  {
  }

  lemma ReseedGoes(cfg: Config, s: State, t: Tid, at: ReseedPc)
    requires s.core.Valid() && PcOf(s, t) == Reseeding(at) && (at.ReseedLock? ==> s.mutex.None?)
    ensures var next := ReseedStep(cfg, s, t, at, Ahead(PcOf(s, t)));
            && next.Some? && next.value.pcs == s.pcs[t := PcOf(next.value, t)]
            && Rank(PcOf(next.value, t)) < Rank(PcOf(s, t)) && next.value.core.seeded == s.core.seeded
            && Willing(PcOf(next.value, t))
  {
  }

  lemma GenerateGoes(s: State, t: Tid)
    requires PcOf(s, t).Generating?
    ensures var next := GenerateStep(s, t, Finish(true));
            next.Some? && next.value.pcs == s.pcs[t := Idle] && Answers(next.value, t, s.core.seeded)
            && next.value.core == s.core
  {
  }

  lemma GetGoes(cfg: Config, s: State, t: Tid)
    requires var pc := PcOf(s, t);
             pc.Entered? || pc.IsrEntered? || pc.WaitClock? || pc.FinalTest? || pc.CheckStaged? || pc.CheckInterval?
    ensures var next := GetStep(cfg, s, t, PcOf(s, t));
            && next.Some? && next.value.pcs == s.pcs[t := PcOf(next.value, t)]
            && Rank(PcOf(next.value, t)) < Rank(PcOf(s, t)) && next.value.core == s.core
            && (s.core.seeded ==> Willing(PcOf(next.value, t)))
  {
  }

  function Onward(s: State, t: Tid): seq<Action> {
    [Tick(Patience(s, PcOf(s, t))), Advances(t, Ahead(PcOf(s, t)))]
  }

  ghost predicate Gone(s: State, t: Tid, s': State) {
    && s'.pcs == s.pcs[t := PcOf(s', t)] && Rank(PcOf(s', t)) < Rank(PcOf(s, t))
    && (s.core.seeded ==> s'.core.seeded)
    && (s.core.seeded && Willing(PcOf(s, t)) ==> Willing(PcOf(s', t)) || Answers(s', t, true))
  }

  lemma Goes(cfg: Config, s: State, t: Tid) returns (s': State)
    requires s.core.Valid() && !PcOf(s, t).Idle? && (AtLock(PcOf(s, t)) ==> s.mutex.None?)
    ensures Act(cfg, s, Tick(Patience(s, PcOf(s, t)))) == Some(Waited(s, t))
    ensures Act(cfg, Waited(s, t), Advances(t, Ahead(PcOf(s, t)))) == Some(s') && Gone(s, t, s')
  {
    var pc := PcOf(s, t);
    hide RequestStep;
    hide InstallStep;
    hide LoopStep;
    hide ReseedStep;
    hide GenerateStep;
    hide GetStep;
    match pc {
      case Requesting(k, at) => RequestGoes(cfg, s, t, k, at);
      case Installing(w, at) => InstallGoes(cfg, s, t, w, at);
      case Waiting(w, at) => LoopGoes(cfg, s, t, w, at);
      case Reseeding(at) => ReseedGoes(cfg, s, t, at);
      case Generating => GenerateGoes(s, t);
      case _ => GetGoes(cfg, s, t);
    }
    s' := Act(cfg, Waited(s, t), Advances(t, Ahead(pc))).value;
  }

  lemma Step(cfg: Config, s: State, t: Tid) returns (s': State)
    requires Inv(cfg, s) && !PcOf(s, t).Idle? && (AtLock(PcOf(s, t)) ==> s.mutex.None?)
    ensures Follow(cfg, s, Onward(s, t)) == Some(s') && Inv(cfg, s') && Gone(s, t, s')
  {
    hide Act;
    hide Inv;
    assert s.core.Valid() by { ValidOf(cfg, s); }
    s' := Goes(cfg, s, t);
    hide Gone;
    var mid, acts := Waited(s, t), Onward(s, t);
    EntropySafety.StepKeepsInv(cfg, s, acts[0], mid);
    EntropySafety.StepKeepsInv(cfg, mid, acts[1], s');
    ValidOf(cfg, mid);
    assert Follow(cfg, s', []) == Some(s');
    assert [acts[1]][1..] == [];
    assert Follow(cfg, mid, [acts[1]]) == Some(s');
    assert acts[1..] == [acts[1]];
  }

  lemma ValidOf(cfg: Config, s: State)
    requires Inv(cfg, s)
    ensures s.core.Valid()
  {
  }

  lemma {:induction false} FollowOn(cfg: Config, s: State, acts: seq<Action>, mid: State, more: seq<Action>)
    requires Follow(cfg, s, acts) == Some(mid)
    ensures Follow(cfg, s, acts + more) == Follow(cfg, mid, more)
    decreases |acts|
  {
    if acts == [] {
      assert acts + more == more;
    } else {
      FollowOn(cfg, Act(cfg, s, acts[0]).value, acts[1..], mid, more);
      assert (acts + more)[1..] == acts[1..] + more;
    }
  }

  /** Nothing from outside: time passes, and threads go on. */
  predicate OnTheirOwn(acts: seq<Action>) {
    forall a :: a in acts ==> a.Tick? || a.Advances?
  }

  /** Whoever holds the mutex gives it back, and no one else has to move. */
  lemma {:induction false} Release(cfg: Config, s: State, u: Tid) returns (acts: seq<Action>, s': State)
    requires Inv(cfg, s) && s.mutex == Some(u)
    ensures Follow(cfg, s, acts) == Some(s') && Inv(cfg, s') && OnTheirOwn(acts)
    ensures s'.mutex.None? && s'.pcs == s.pcs[u := PcOf(s', u)] && (s.core.seeded ==> s'.core.seeded)
    decreases Rank(PcOf(s, u))
  {
    assert HoldsLock(PcOf(s, u));
    var next := Step(cfg, s, u);
    acts := Onward(s, u);
    if next.mutex.None? {
      s' := next;
    } else {
      StillHeld(cfg, s, u, next);
      var more;
      more, s' := Release(cfg, next, u);
      FollowOn(cfg, s, acts, next, more);
      acts := acts + more;
    }
  }

  lemma StillHeld(cfg: Config, s: State, u: Tid, next: State)
    requires Inv(cfg, s) && Inv(cfg, next) && s.mutex == Some(u) && next.mutex.Some?
    requires next.pcs == s.pcs[u := PcOf(next, u)]
    ensures next.mutex == Some(u)
  {
    var v := next.mutex.value;
    assert HoldsLock(PcOf(next, v)) && (v != u ==> PcOf(next, v) == PcOf(s, v));
    assert HoldsLock(PcOf(s, v)) ==> s.mutex == Some(v);
  }

  /** From any state of any run every caller can still return, with no help from
      outside: no lock is ever left taken, and no wait has no end. Once there is a
      seed, the answer can be bytes. */
  lemma {:induction false} Returns(cfg: Config, s: State, t: Tid) returns (acts: seq<Action>, s': State)
    requires Inv(cfg, s) && !PcOf(s, t).Idle?
    ensures Follow(cfg, s, acts) == Some(s') && OnTheirOwn(acts) && PcOf(s', t).Idle?
    ensures s.core.seeded && Willing(PcOf(s, t)) ==> Answers(s', t, true)
    decreases Rank(PcOf(s, t))
  {
    hide Rank;
    var free := s;
    acts := [];
    if AtLock(PcOf(s, t)) && s.mutex.Some? {
      assert !HoldsLock(PcOf(s, t));
      acts, free := Release(cfg, s, s.mutex.value);
      assert PcOf(free, t) == PcOf(s, t);
    }
    var next := Step(cfg, free, t);
    FollowOn(cfg, s, acts, free, Onward(free, t));
    acts := acts + Onward(free, t);
    s' := next;
    if !PcOf(next, t).Idle? {
      var more;
      more, s' := Returns(cfg, next, t);
      FollowOn(cfg, s, acts, next, more);
      acts := acts + more;
    }
  }

  lemma NoCallIsStuck(cfg: Config, clock: int, before: seq<Action>, s: State, t: Tid)
    returns (acts: seq<Action>, s': State)
    requires Run(cfg, clock, before) == Some(s) && !PcOf(s, t).Idle?
    ensures Follow(cfg, s, acts) == Some(s') && OnTheirOwn(acts) && PcOf(s', t).Idle?
    ensures s.core.seeded && Willing(PcOf(s, t)) ==> Answers(s', t, true)
  {
    RunKeepsInv(cfg, clock, before, s);
    acts, s' := Returns(cfg, s, t);
  }

  // ---- and with a seed ------------------------------------------------------------

  ghost predicate Served(cfg: Config, s: State, t: Tid) {
    exists acts: seq<Action>, s': State :: Follow(cfg, s, acts) == Some(s') && Answers(s', t, true)
  }

  lemma ServedBefore(cfg: Config, s: State, t: Tid, a: Action, next: State)
    requires s.core.Valid() && Act(cfg, s, a) == Some(next) && Served(cfg, next, t)
    ensures Served(cfg, s, t)
  {
    var acts: seq<Action>, s': State :| Follow(cfg, next, acts) == Some(s') && Answers(s', t, true);
    hide Act;
    hide Answers;
    assert ([a] + acts)[1..] == acts;
    assert Follow(cfg, s, [a] + acts) == Some(s');
  }

  lemma ServedSeeded(cfg: Config, s: State, t: Tid)
    requires Inv(cfg, s) && s.core.seeded && Willing(PcOf(s, t))
    ensures Served(cfg, s, t)
  {
    var acts, s' := Returns(cfg, s, t);
  }

  /** The library succeeds. */
  lemma ServedFinished(cfg: Config, s: State, t: Tid, w: Wait)
    requires Inv(cfg, s) && PcOf(s, t) == Installing(w, Instantiating(false))
    ensures Served(cfg, s, t)
  {
    ValidOf(cfg, s);
    hide Inv;
    var s1 := Goto(Note(s, SeedEnd(s.feedId, true)), t, Installing(w, InstallPublish));
    EntropySafety.StepKeepsInv(cfg, s, Advances(t, Finish(true)), s1);
    var s2 := Goto(s1.(core := AfterPublish(s1.core)), t, Installing(w, InstallSchedule));
    ValidOf(cfg, s1);
    EntropySafety.StepKeepsInv(cfg, s1, Advances(t, Go), s2);
    ServedSeeded(cfg, s2, t);
    hide Served;
    ServedBefore(cfg, s1, t, Advances(t, Go), s2);
    ServedBefore(cfg, s, t, Advances(t, Finish(true)), s1);
  }

  /** What the library does in one run: it draws, and succeeds. */
  function Draws(t: Tid, lens: seq<nat>): seq<Action> {
    if lens == [] then [Advances(t, Finish(true))] else [Advances(t, Callback(lens[0]))] + Draws(t, lens[1..])
  }

  /** It can if and only if the feed has all of what it draws: one draw refused is a
      run refused. */
  lemma {:induction false} SucceedsExactly(cfg: Config, s: State, t: Tid, w: Wait, lens: seq<nat>)
    requires s.core.Valid() && PcOf(s, t) == Installing(w, Instantiating(false))
    ensures Follow(cfg, s, Draws(t, lens)).Some? <==> Sum(lens) <= s.core.feedLen - s.core.feedOff
    decreases |lens|
  {
    var acts := Draws(t, lens);
    if lens == [] {
      assert acts[1..] == [];
    } else {
      var a := Advances(t, Callback(lens[0]));
      assert acts[1..] == Draws(t, lens[1..]);
      CallbackIsPlain(s.core, lens[0]);
      var next := LibraryStep(s, t, w, false, Callback(lens[0])).value;
      assert Act(cfg, s, a) == Some(next);
      hide CallbackRefuses;
      hide Advance;
      if lens[0] <= s.core.feedLen - s.core.feedOff {
        SucceedsExactly(cfg, next, t, w, lens[1..]);
      } else {
        hide Act;
        RefusedFails(cfg, next, t, w, lens[1..]);
      }
    }
  }

  lemma RefusedFails(cfg: Config, s: State, t: Tid, w: Wait, lens: seq<nat>)
    requires s.core.Valid() && PcOf(s, t) == Installing(w, Instantiating(true))
    ensures Follow(cfg, s, Draws(t, lens)) == None
  {
    assert Draws(t, lens)[0] == if lens == [] then Advances(t, Finish(true)) else Advances(t, Callback(lens[0]));
  }

  lemma {:induction false} ServedDrawing(cfg: Config, s: State, t: Tid, w: Wait, lens: seq<nat>)
    requires Inv(cfg, s) && PcOf(s, t) == Installing(w, Instantiating(false))
    requires Sum(lens) <= s.core.feedLen - s.core.feedOff
    ensures Served(cfg, s, t)
    decreases |lens|
  {
    if lens == [] {
      ServedFinished(cfg, s, t, w);
    } else {
      ValidOf(cfg, s);
      hide Inv;
      CallbackIsPlain(s.core, lens[0]);
      var a := Advances(t, Callback(lens[0]));
      var next := Goto(s.(core := Advance(s.core, lens[0])), t, Installing(w, Instantiating(false)));
      assert Act(cfg, s, a) == Some(next);
      EntropySafety.StepKeepsInv(cfg, s, a, next);
      hide Act;
      ServedDrawing(cfg, next, t, w, lens[1..]);
      hide Served;
      ServedBefore(cfg, s, t, a, next);
    }
  }

  lemma ServedInstantiated(cfg: Config, s: State, t: Tid, w: Wait, lens: seq<nat>)
    requires Inv(cfg, s) && PcOf(s, t) == Installing(w, InstallSeed)
    requires Sum(lens) <= s.core.feedLen - s.core.feedOff
    ensures Served(cfg, s, t)
  {
    ValidOf(cfg, s);
    hide Inv;
    var next := Goto(Note(s, SeedBegin), t, Installing(w, Instantiating(false)));
    EntropySafety.StepKeepsInv(cfg, s, Advances(t, Go), next);
    ServedDrawing(cfg, next, t, w, lens);
    hide Served;
    ServedBefore(cfg, s, t, Advances(t, Go), next);
  }

  /** The response that has been delivered is taken. */
  lemma ServedArrived(cfg: Config, s: State, t: Tid, w: Wait, since: int, lens: seq<nat>)
    requires Inv(cfg, s) && PcOf(s, t) == Waiting(w, AwaitArrival(since)) && s.mutex.None? && Sum(lens) <= SEED_BYTES
    requires !s.core.seeded && s.arrival && s.core.stagedLen == SEED_BYTES
    ensures Served(cfg, s, t)
  {
    ValidOf(cfg, s);
    hide Inv;
    var s1 := Goto(s.(arrival := false), t, Installing(w.(takes := w.takes + 1), InstallLock));
    EntropySafety.StepKeepsInv(cfg, s, Advances(t, Arrived), s1);
    var w' := w.(takes := w.takes + 1);
    var s2 := Goto(s1.(mutex := Some(t)), t, Installing(w', InstallCheck));
    EntropySafety.StepKeepsInv(cfg, s1, Advances(t, Go), s2);
    var s3 := Goto(s2, t, Installing(w', InstallTake));
    EntropySafety.StepKeepsInv(cfg, s2, Advances(t, Go), s3);
    var s4 := Take(s3, t, Installing(w', InstallSeed), Installing(w', InstallUnlock));
    EntropySafety.StepKeepsInv(cfg, s3, Advances(t, Go), s4);
    ServedInstantiated(cfg, s4, t, w', lens);
    hide Served;
    ServedBefore(cfg, s3, t, Advances(t, Go), s4);
    ServedBefore(cfg, s2, t, Advances(t, Go), s3);
    ServedBefore(cfg, s1, t, Advances(t, Go), s2);
    ServedBefore(cfg, s, t, Advances(t, Arrived), s1);
  }

  lemma {:induction false} ServedRequesting(cfg: Config, s: State, t: Tid, w: Wait, at: RequestPc, lens: seq<nat>)
    requires Inv(cfg, s) && PcOf(s, t) == Requesting(InWait(w), at) && !at.Dropping? && s.mutex.None?
    requires Sum(lens) <= SEED_BYTES && !s.core.seeded && s.arrival && s.core.stagedLen == SEED_BYTES
    ensures Served(cfg, s, t)
    decreases RequestRank(at)
  {
    ValidOf(cfg, s);
    hide Inv;
    var a := Advances(t, Ahead(PcOf(s, t)));
    var next := RequestStep(s, t, InWait(w), at, Ahead(PcOf(s, t))).value;
    EntropySafety.StepKeepsInv(cfg, s, a, next);
    if PcOf(next, t).Requesting? {
      ServedRequesting(cfg, next, t, w, PcOf(next, t).request, lens);
    } else {
      ServedArrived(cfg, next, t, w, s.clock, lens);
    }
    hide Served;
    ServedBefore(cfg, s, t, a, next);
  }

  lemma ServedCalled(cfg: Config, s: State, t: Tid, lens: seq<nat>)
    requires Inv(cfg, s) && PcOf(s, t).Idle? && s.mutex.None? && Sum(lens) <= SEED_BYTES
    requires !s.core.seeded && s.arrival && s.core.stagedLen == SEED_BYTES
    ensures Served(cfg, s, t)
  {
    ValidOf(cfg, s);
    hide Inv;
    var s1 := Goto(s, t, Entered);
    EntropySafety.StepKeepsInv(cfg, s, CallGet(t), s1);
    var s2 := Goto(s1, t, WaitClock);
    EntropySafety.StepKeepsInv(cfg, s1, Advances(t, Go), s2);
    var w := Wait(s2.clock, s2.clock + cfg.seedTimeoutMs, 1, 0, 0, s2.delivered);
    var s3 := Goto(s2, t, Requesting(InWait(w), ReadClock));
    EntropySafety.StepKeepsInv(cfg, s2, Advances(t, Go), s3);
    ServedRequesting(cfg, s3, t, w, ReadClock, lens);
    hide Served;
    ServedBefore(cfg, s2, t, Advances(t, Go), s3);
    ServedBefore(cfg, s1, t, Advances(t, Go), s2);
    ServedBefore(cfg, s, t, CallGet(t), s1);
  }

  lemma ServedFirst(cfg: Config, s: State, t: Tid, bytes: Seed, lens: seq<nat>)
    requires Inv(cfg, s) && PcOf(s, t).Idle? && s.mutex.None? && !s.core.seeded && Sum(lens) <= SEED_BYTES
    ensures Served(cfg, s, t)
  {
    ValidOf(cfg, s);
    hide Inv;
    var s1 := Act(cfg, s, ProviderCopies(bytes)).value;
    EntropySafety.StepKeepsInv(cfg, s, ProviderCopies(bytes), s1);
    ValidOf(cfg, s1);
    var s2 := Act(cfg, s1, ProviderGives).value;
    EntropySafety.StepKeepsInv(cfg, s1, ProviderGives, s2);
    ServedCalled(cfg, s2, t, lens);
    hide Served;
    ServedBefore(cfg, s1, t, ProviderGives, s2);
    ServedBefore(cfg, s, t, ProviderCopies(bytes), s1);
  }

  /** From any state of any run a new call can be answered with bytes: at once where
      there is a seed, and else behind one delivery, whatever it delivers and
      whatever part of it the library draws. */
  lemma AnyCallCanBeServed(cfg: Config, clock: int, before: seq<Action>, s: State, t: Tid, bytes: Seed, lens: seq<nat>)
    requires Run(cfg, clock, before) == Some(s) && PcOf(s, t).Idle? && Sum(lens) <= SEED_BYTES
    ensures Served(cfg, s, t)
  {
    RunKeepsInv(cfg, clock, before, s);
    var free, acts := s, [];
    if s.mutex.Some? {
      assert HoldsLock(PcOf(s, s.mutex.value));
      acts, free := Release(cfg, s, s.mutex.value);
    }
    ValidOf(cfg, free);
    if free.core.seeded {
      var next := Goto(free, t, Entered);
      EntropySafety.StepKeepsInv(cfg, free, CallGet(t), next);
      ServedSeeded(cfg, next, t);
      ServedBefore(cfg, free, t, CallGet(t), next);
    } else {
      ServedFirst(cfg, free, t, bytes, lens);
    }
    var more: seq<Action>, s': State :| Follow(cfg, free, more) == Some(s') && Answers(s', t, true);
    FollowOn(cfg, s, acts, free, more);
  }
}
