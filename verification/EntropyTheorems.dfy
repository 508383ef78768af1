/** What the driver's invariant says about whole runs. */
module EntropyTheorems {
  import opened Wrappers
  import opened EntropyCore
  import opened EntropyProtocol
  import EntropySafety

  // ---- runs ----------------------------------------------------------------

  function Follow(cfg: Config, s: State, acts: seq<Action>): Option<State>
    decreases |acts|
  {
    if acts == [] then Some(s)
    else if !s.core.Valid() then None
    else match Act(cfg, s, acts[0])
      case Some(s') => Follow(cfg, s', acts[1..])
      case None => None
  }

  function Run(cfg: Config, clock: int, acts: seq<Action>): Option<State> {
    Follow(cfg, Initial(clock), acts)
  }

  lemma {:induction false} FollowKeepsInv(cfg: Config, s: State, acts: seq<Action>, s': State)
    requires Inv(cfg, s) && Faithful(s.trace) && Answered(s.trace.log) && Follow(cfg, s, acts) == Some(s')
    ensures Inv(cfg, s') && Faithful(s'.trace) && Answered(s'.trace.log)
    decreases |acts|
  {
    if acts != [] {
      var next := Act(cfg, s, acts[0]).value;
      EntropySafety.StepKeepsInv(cfg, s, acts[0], next);
      StepKeepsHistory(cfg, s, acts[0], next);
      FollowKeepsInv(cfg, next, acts[1..], s');
    }
  }

  /** Whatever threads, ISRs, the provider and the clock do, in any order. */
  lemma RunKeepsInv(cfg: Config, clock: int, acts: seq<Action>, s: State)
    requires Run(cfg, clock, acts) == Some(s)
    ensures Inv(cfg, s) && Faithful(s.trace) && Answered(s.trace.log)
  {
    FollowKeepsInv(cfg, Initial(clock), acts, s);
  }

  // ---- the monitors judge the log ------------------------------------------

  function TraceOf(log: seq<Event>): Trace {
    if log == [] then NO_TRACE else Append(TraceOf(log[..|log| - 1]), log[|log| - 1])
  }

  predicate Faithful(tr: Trace) {
    tr == TraceOf(tr.log)
  }

  predicate Success(e: Event) {
    e.Returned? && e.success
  }

  /** A caller that is told success was served by its own DRBG run, right before. */
  ghost predicate Earned(log: seq<Event>) {
    forall j {:trigger Success(log[j])} :: 0 <= j < |log| && Success(log[j]) ==>
      j > 0 && log[j - 1] == Generated(log[j].t, true)
  }

  /** The outcome of every DRBG run is what its caller is told, right after. */
  ghost predicate Told(log: seq<Event>) {
    forall j :: 0 <= j < |log| && log[j].Generated? ==>
      j + 1 < |log| && log[j + 1] == Returned(log[j].t, log[j].ok)
  }

  ghost predicate Answered(log: seq<Event>) {
    Earned(log) && Told(log)
  }

  lemma TraceGrows(log: seq<Event>, e: Event)
    ensures TraceOf(log + [e]) == Append(TraceOf(log), e)
  {
    assert (log + [e])[..|log|] == log;
  }

  /** An event that answers nobody and asks the DRBG for nothing. */
  predicate Aside(e: Event) {
    !Success(e) && !e.Generated?
  }

  lemma EarnedGrows(log: seq<Event>, e: Event)
    requires Earned(log) && !Success(e)
    ensures Earned(log + [e])
  {
    forall j | 0 <= j < |log + [e]| && Success((log + [e])[j])
      ensures j > 0 && (log + [e])[j - 1] == Generated((log + [e])[j].t, true)
    {
      assert (log + [e])[j] == log[j];
    }
  }

  lemma ToldGrows(log: seq<Event>, e: Event)
    requires Told(log) && !e.Generated?
    ensures Told(log + [e])
  {
    forall j | 0 <= j < |log + [e]| && (log + [e])[j].Generated?
      ensures j + 1 < |log + [e]| && (log + [e])[j + 1] == Returned((log + [e])[j].t, (log + [e])[j].ok)
    {
      assert (log + [e])[j] == log[j];
    }
  }

  lemma AppendKeepsHistory(tr: Trace, e: Event)
    requires Faithful(tr) && Answered(tr.log) && Aside(e)
    ensures Faithful(Append(tr, e)) && Answered(Append(tr, e).log)
  {
    assert Append(tr, e).log == tr.log + [e];
    TraceGrows(tr.log, e);
    EarnedGrows(tr.log, e);
    ToldGrows(tr.log, e);
    hide TraceOf;
    hide Append;
    hide Earned;
    hide Told;
  }

  lemma AnswerKeepsHistory(tr: Trace, t: Tid, ok: bool)
    requires Faithful(tr) && Answered(tr.log)
    ensures var tr' := Append(Append(tr, Generated(t, ok)), Returned(t, ok));
            Faithful(tr') && Answered(tr'.log)
  {
    var asked := Append(tr, Generated(t, ok));
    var log, log' := tr.log, Append(asked, Returned(t, ok)).log;
    TraceGrows(log, Generated(t, ok));
    TraceGrows(asked.log, Returned(t, ok));
    hide TraceOf;
    assert log' == log + [Generated(t, ok), Returned(t, ok)];
    assert forall j :: 0 <= j < |log| ==> log'[j] == log[j];
    assert log'[|log|] == Generated(t, ok) && log'[|log| + 1] == Returned(t, ok);
    hide Append;
  }

  ghost predicate Extended(tr: Trace, tr': Trace) {
    || tr' == tr
    || (exists e :: Aside(e) && tr' == Append(tr, e))
    || (exists e, f :: Aside(e) && Aside(f) && tr' == Append(Append(tr, e), f))
    || (exists t, ok :: tr' == Append(Append(tr, Generated(t, ok)), Returned(t, ok)))
  }

  lemma StepExtends(cfg: Config, s: State, a: Action, s': State)
    requires s.core.Valid() && Act(cfg, s, a) == Some(s')
    ensures Extended(s.trace, s'.trace)
  {
    match a {
      case Advances(t, ch) =>
        match PcOf(s, t) {
          case Requesting(k, at) => RequestExtends(s, t, k, at, ch, s');
          case Installing(w, at) => InstallExtends(cfg, s, t, w, at, ch, s');
          case Generating => GenerateExtends(s, t, ch, s');
          case Waiting(w, at) =>
          case Reseeding(at) =>
            assert || s'.trace == s.trace || s'.trace == Append(s.trace, Cleared)
                   || s'.trace == Append(s.trace, Reseeded(s.feedId));
          case pc => GetExtends(cfg, s, t, pc, s');
        }
      case ProviderCopies(_) => assert s'.trace == Append(s.trace, Accepted(|s.responses|));
      case ProviderFails => assert s'.trace == Append(s.trace, Cleared);
      case _ =>
    }
  }

  lemma RequestExtends(s: State, t: Tid, k: Caller, at: RequestPc, ch: Choice, s': State)
    requires RequestStep(s, t, k, at, ch) == Some(s')
    ensures Extended(s.trace, s'.trace)
  {
    assert Aside(Cleared) && Aside(Returned(t, false));
    assert || s'.trace == s.trace
           || (at.Locking? && s'.trace == Append(s.trace, Requested(at.now)))
           || s'.trace == Append(s.trace, Cleared)
           || s'.trace == Append(Append(s.trace, Cleared), Returned(t, false));
  }

  lemma GenerateExtends(s: State, t: Tid, ch: Choice, s': State)
    requires GenerateStep(s, t, ch) == Some(s')
    ensures Extended(s.trace, s'.trace)
  {
    assert Aside(Returned(t, false));
    assert || s'.trace == Append(s.trace, Returned(t, false))
           || (ch.Finish? && s'.trace == Append(Append(s.trace, Generated(t, ch.ok)), Returned(t, ch.ok)));
  }

  lemma GetExtends(cfg: Config, s: State, t: Tid, pc: Pc, s': State)
    requires GetStep(cfg, s, t, pc) == Some(s')
    ensures Extended(s.trace, s'.trace)
  {
    assert s'.trace == s.trace || s'.trace == Append(s.trace, Returned(t, false));
  }

  lemma InstallExtends(cfg: Config, s: State, t: Tid, w: Wait, at: InstallPc, ch: Choice, s': State)
    requires InstallStep(cfg, s, t, w, at, ch) == Some(s')
    ensures Extended(s.trace, s'.trace)
  {
    assert || s'.trace == s.trace || s'.trace == Append(s.trace, Cleared) || s'.trace == Append(s.trace, SeedBegin)
           || (ch.Finish? && s'.trace == Append(s.trace, SeedEnd(s.feedId, ch.ok)));
  }

  lemma StepKeepsHistory(cfg: Config, s: State, a: Action, s': State)
    requires s.core.Valid() && Faithful(s.trace) && Answered(s.trace.log) && Act(cfg, s, a) == Some(s')
    ensures Faithful(s'.trace) && Answered(s'.trace.log)
  {
    StepExtends(cfg, s, a, s');
    ExtendedKeepsHistory(s.trace, s'.trace);
  }

  lemma ExtendedKeepsHistory(tr: Trace, tr': Trace)
    requires Faithful(tr) && Answered(tr.log) && Extended(tr, tr')
    ensures Faithful(tr') && Answered(tr'.log)
  {
    hide Aside;
    hide Answered;
    hide Faithful;
    if tr' != tr {
      if e :| Aside(e) && tr' == Append(tr, e) {
        AppendKeepsHistory(tr, e);
      } else if e, f :| Aside(e) && Aside(f) && tr' == Append(Append(tr, e), f) {
        AppendKeepsHistory(tr, e);
        AppendKeepsHistory(Append(tr, e), f);
      } else {
        var t, ok :| tr' == Append(Append(tr, Generated(t, ok)), Returned(t, ok));
        AnswerKeepsHistory(tr, t, ok);
      }
    }
  }

  // ---- one instantiation, and nothing beside it ----------------------------

  predicate EndedWell(e: Event) {
    e.SeedEnd? && e.ok
  }

  predicate Served(e: Event) {
    e.Generated? || e.Reseeded?
  }

  /** After a successful instantiation there is never another; bytes and reseeds
      come after it; and while one runs nothing else touches the context. */
  ghost predicate Contract(log: seq<Event>) {
    && (forall i, j :: 0 <= i < j < |log| && EndedWell(log[i]) ==> !log[j].SeedBegin? && !log[j].SeedEnd?)
    && (forall j :: 0 <= j < |log| && Served(log[j]) ==> Succeeded(log[..j]))
    && (forall i, j :: 0 <= i < j < |log| && log[i].SeedBegin? && Running(log, i, j) ==>
          !Served(log[j]) && !log[j].SeedBegin?)
  }

  ghost predicate Succeeded(log: seq<Event>) {
    exists i :: 0 <= i < |log| && EndedWell(log[i])
  }

  ghost predicate Running(log: seq<Event>, i: nat, j: nat) {
    forall k :: i < k < j && k < |log| ==> !log[k].SeedEnd?
  }

  ghost predicate PhaseMeans(log: seq<Event>, phase: Phase) {
    && (phase.Installed? <==> Succeeded(log))
    && (!phase.Busily? ==> forall i :: 0 <= i < |log| && log[i].SeedBegin? ==> !Running(log, i, |log|))
  }

  lemma SucceededGrows(log: seq<Event>, e: Event)
    ensures Succeeded(log + [e]) <==> Succeeded(log) || EndedWell(e)
  {
    var more := log + [e];
    assert more[|log|] == e;
    if Succeeded(log) {
      var i :| 0 <= i < |log| && EndedWell(log[i]);
      assert EndedWell(more[i]);
    }
  }

  lemma RunningGrows(log: seq<Event>, e: Event, i: nat, j: nat)
    requires i < |log| && j <= |log| + 1
    ensures Running(log + [e], i, j) <==> Running(log, i, j) && (j > |log| ==> !e.SeedEnd?)
  {
    var more := log + [e];
    assert more[|log|] == e && forall k :: 0 <= k < |log| ==> more[k] == log[k];
  }

  lemma OrderGrows(log: seq<Event>, e: Event, phase: Phase)
    requires Contract(log) && PhaseMeans(log, phase) && !Obey(phase, e).Broken?
    ensures var more := log + [e];
            forall i, j :: 0 <= i < j < |more| && more[i].SeedBegin? && Running(more, i, j) ==>
              !Served(more[j]) && !more[j].SeedBegin?
  {
    var more := log + [e];
    forall i, j | 0 <= i < j < |more| && more[i].SeedBegin? && Running(more, i, j)
      ensures !Served(more[j]) && !more[j].SeedBegin?
    {
      RunningGrows(log, e, i, j);
      hide Running;
      assert more[i] == log[i];
      if j < |log| {
        assert more[j] == log[j];
      }
    }
  }

  lemma ContractGrows(log: seq<Event>, e: Event, phase: Phase)
    requires Contract(log) && PhaseMeans(log, phase) && !Obey(phase, e).Broken?
    ensures Contract(log + [e])
  {
    var more := log + [e];
    OrderGrows(log, e, phase);
    hide Running;
    forall i, j | 0 <= i < j < |more| && EndedWell(more[i])
      ensures !more[j].SeedBegin? && !more[j].SeedEnd?
    {
      assert more[i] == log[i];
      if j < |log| {
        assert more[j] == log[j];
      }
    }
    forall j | 0 <= j < |more| && Served(more[j])
      ensures Succeeded(more[..j])
    {
      assert more[..j] == log[..j];
      if j < |log| {
        assert more[j] == log[j];
      } else {
        assert log[..j] == log;
      }
    }
  }

  lemma PhaseGrows(log: seq<Event>, e: Event, phase: Phase)
    requires PhaseMeans(log, phase) && !Obey(phase, e).Broken?
    ensures PhaseMeans(log + [e], Obey(phase, e))
  {
    var more, next := log + [e], Obey(phase, e);
    SucceededGrows(log, e);
    hide Succeeded;
    if !next.Busily? {
      forall i | 0 <= i < |more| && more[i].SeedBegin?
        ensures !Running(more, i, |more|)
      {
        assert i < |log| && more[i] == log[i];
        RunningGrows(log, e, i, |more|);
        assert Running(log, i, |more|) ==> Running(log, i, |log|);
      }
    }
  }

  lemma {:induction false} ObeyedMeansContract(log: seq<Event>)
    requires !TraceOf(log).phase.Broken?
    ensures Contract(log) && PhaseMeans(log, TraceOf(log).phase)
  {
    if log != [] {
      var before, e := log[..|log| - 1], log[|log| - 1];
      ObeyedMeansContract(before);
      assert log == before + [e];
      ContractGrows(before, e, TraceOf(before).phase);
      PhaseGrows(before, e, TraceOf(before).phase);
      hide Contract;
      hide PhaseMeans;
    }
  }

  // ---- linear material, paced requests -------------------------------------

  /** No response is consumed twice. */
  ghost predicate Linear(log: seq<Event>) {
    forall i, j :: 0 <= i < j < |log| && IsUse(log[i]) && IsUse(log[j]) ==> log[i].id != log[j].id
  }

  lemma {:induction false} MonitoredMeansLinear(log: seq<Event>)
    ensures TraceOf(log).linear ==> Linear(log)
    ensures forall i :: 0 <= i < |log| && IsUse(log[i]) ==> log[i].id in TraceOf(log).used
  {
    if log != [] {
      MonitoredMeansLinear(log[..|log| - 1]);
    }
  }

  ghost predicate NoneCleared(log: seq<Event>, i: int, j: int) {
    forall k :: 0 <= i < k < j <= |log| ==> !log[k].Cleared?
  }

  /** Two requests with nothing in between that ends one are 250 ms apart. */
  ghost predicate Paced(log: seq<Event>) {
    forall i, j :: 0 <= i < j < |log| && log[i].Requested? && log[j].Requested? && NoneCleared(log, i, j)
      ==> log[i].at + SEED_REQUEST_TIMEOUT_MS <= log[j].at
  }

  lemma {:induction false} MonitoredMeansPaced(log: seq<Event>)
    requires TraceOf(log).paced
    ensures Paced(log)
    ensures forall i :: 0 <= i < |log| && log[i].Requested? && NoneCleared(log, i, |log|) ==>
              TraceOf(log).open.Some? && log[i].at <= TraceOf(log).open.value
  {
    if log != [] {
      var n := |log| - 1;
      var before := log[..n];
      MonitoredMeansPaced(before);
      forall i | 0 <= i < n
        ensures forall j :: i < j <= n ==> (NoneCleared(log, i, j) <==> NoneCleared(before, i, j))
        ensures NoneCleared(log, i, |log|) <==> NoneCleared(before, i, n) && !log[n].Cleared?
      {
      }
    }
  }

  // ---- the theorems --------------------------------------------------------

  /** In every interleaving the DRBG is successfully instantiated at most once
      and never after it is in service, no generate or reseed overlaps an
      instantiation or precedes a successful one, each accepted response is
      consumed at most once, requests are paced, and a caller that is told
      success was served by the instantiated DRBG. */
  lemma EveryRunIsDisciplined(cfg: Config, clock: int, acts: seq<Action>, s: State)
    requires Run(cfg, clock, acts) == Some(s)
    ensures Contract(s.trace.log) && Linear(s.trace.log) && Paced(s.trace.log)
    ensures Answered(s.trace.log)
    ensures s.core.seeded ==> Succeeded(s.trace.log)
  {
    RunKeepsInv(cfg, clock, acts, s);
    ObeyedMeansContract(s.trace.log);
    MonitoredMeansLinear(s.trace.log);
    MonitoredMeansPaced(s.trace.log);
  }

  /** The step answers the thread with a failure. */
  predicate Refuses(s: State, t: Tid, s': State) {
    var log := s'.trace.log;
    log != s.trace.log && log != [] && log[|log| - 1] == Returned(t, false)
  }

  /** The grounds for it: no seed - in an interrupt at once, and else behind the wait -,
      a transport that is not up, or a DRBG run of its own that was refused. */
  predicate Grounds(s: State, t: Tid, ch: Choice) {
    match PcOf(s, t)
    case Requesting(k, at) => k.InWait? && at == Dropping(true)
    case Generating => !s.core.seeded || ch == Finish(false)
    case IsrEntered => !s.core.seeded
    case FinalTest => !s.core.seeded
    case _ => false
  }

  lemma RequestRefuses(s: State, t: Tid, k: Caller, at: RequestPc, ch: Choice, s': State)
    requires PcOf(s, t) == Requesting(k, at) && RequestStep(s, t, k, at, ch) == Some(s') && Refuses(s, t, s')
    ensures Grounds(s, t, ch)
  {
  }

  lemma InstallTellsNobody(cfg: Config, s: State, t: Tid, w: Wait, at: InstallPc, ch: Choice, s': State)
    requires InstallStep(cfg, s, t, w, at, ch) == Some(s')
    ensures !Refuses(s, t, s')
  {
  }

  lemma LoopTellsNobody(s: State, t: Tid, w: Wait, at: LoopPc, ch: Choice, s': State)
    requires LoopStep(s, t, w, at, ch) == Some(s')
    ensures !Refuses(s, t, s')
  {
  }

  lemma ReseedTellsNobody(cfg: Config, s: State, t: Tid, at: ReseedPc, ch: Choice, s': State)
    requires s.core.Valid() && ReseedStep(cfg, s, t, at, ch) == Some(s')
    ensures !Refuses(s, t, s')
  {
  }

  lemma GenerateRefuses(s: State, t: Tid, ch: Choice, s': State)
    requires PcOf(s, t) == Generating && GenerateStep(s, t, ch) == Some(s') && Refuses(s, t, s')
    ensures Grounds(s, t, ch)
  {
  }

  lemma GetRefuses(cfg: Config, s: State, t: Tid, ch: Choice, s': State)
    requires GetStep(cfg, s, t, PcOf(s, t)) == Some(s') && Refuses(s, t, s')
    ensures Grounds(s, t, ch)
  {
  }

  /** No caller is refused on any other ground: none behind a seed, and no interrupt
      that finds one. */
  lemma RefusedOnlyOn(cfg: Config, s: State, t: Tid, ch: Choice, s': State)
    requires s.core.Valid() && Act(cfg, s, Advances(t, ch)) == Some(s') && Refuses(s, t, s')
    ensures Grounds(s, t, ch)
  {
    hide Refuses;
    hide Grounds;
    hide RequestStep;
    hide InstallStep;
    hide LoopStep;
    hide ReseedStep;
    hide GenerateStep;
    hide GetStep;
    match PcOf(s, t) {
      case Requesting(k, at) => RequestRefuses(s, t, k, at, ch, s');
      case Installing(w, at) => InstallTellsNobody(cfg, s, t, w, at, ch, s');
      case Waiting(w, at) => LoopTellsNobody(s, t, w, at, ch, s');
      case Reseeding(at) => ReseedTellsNobody(cfg, s, t, at, ch, s');
      case Generating => GenerateRefuses(s, t, ch, s');
      case _ => GetRefuses(cfg, s, t, ch, s');
    }
  }

  /** `generate` in place is the protocol's step: its caller is told success
      exactly when no chunk was refused, and then has the whole buffer. */
  method Serve(driver: Driver, buffer: array<Byte>, stream: nat -> Byte, refuses: nat -> bool, ghost s: State,
               ghost t: Tid)
    returns (ok: bool, ghost s': State)
    requires buffer.Length < UINT16_LIMIT && driver.View() == s.core
    modifies buffer
    ensures ok <==> s.core.seeded && forall k :: 0 <= k < Chunks(buffer.Length) ==> !refuses(k)
    ensures ok ==> forall i :: 0 <= i < buffer.Length ==> buffer[i] == stream(i)
    ensures GenerateStep(s, t, Finish(ok)) == Some(s') && driver.View() == s'.core
    ensures s'.trace.log == s.trace.log + (if s.core.seeded then [Generated(t, ok)] else []) + [Returned(t, ok)]
  {
    var chunks;
    ok, chunks := driver.Generate(buffer, stream, refuses);
    s' := GenerateStep(s, t, Finish(ok)).value;
  }

  /** From `take_staged` to the end of its consumption the feed is one accepted
      response and stays it, whatever else steps in between. */
  lemma FeedIsFrozen(cfg: Config, s: State, a: Action, s': State)
    requires Inv(cfg, s) && Act(cfg, s, a) == Some(s')
    requires Loaded(Holder(s)) && Loaded(Holder(s'))
    ensures s'.mutex == s.mutex && s'.feedId == s.feedId
    ensures s'.core.feed == s.core.feed == s.responses[s.feedId]
    ensures s.core.feedOff <= s'.core.feedOff <= s'.core.feedLen == SEED_BYTES
  {
    if a.Advances? {
      if s.mutex == Some(a.t) {
        HolderFreezesFeed(cfg, s, a.t, a.choice, s');
      } else {
        OthersFreezeFeed(cfg, s, a.t, a.choice, s');
      }
    }
  }

  lemma HolderFreezesFeed(cfg: Config, s: State, t: Tid, ch: Choice, s': State)
    requires SeedInv(s) && s.mutex == Some(t) && Act(cfg, s, Advances(t, ch)) == Some(s')
    requires Loaded(Holder(s)) && Loaded(Holder(s'))
    ensures s'.mutex == s.mutex && s'.feedId == s.feedId && s'.core.feed == s.core.feed
    ensures s.core.feedOff <= s'.core.feedOff <= s'.core.feedLen == SEED_BYTES
  {
    var pc := PcOf(s, t);
    if pc.Installing? && pc.install.Instantiating? {
      assert LibraryStep(s, t, pc.w, pc.install.refused, ch) == Some(s');
    }
  }

  lemma OthersFreezeFeed(cfg: Config, s: State, t: Tid, ch: Choice, s': State)
    requires Inv(cfg, s) && s.mutex.Some? && s.mutex != Some(t) && Act(cfg, s, Advances(t, ch)) == Some(s')
    requires Loaded(Holder(s))
    ensures s'.mutex == s.mutex && s'.feedId == s.feedId && s'.core.feed == s.core.feed
    ensures s.core.feedOff == s'.core.feedOff <= s'.core.feedLen == SEED_BYTES
  {
    assert EntropySafety.LocksBefore(s, t);
    match PcOf(s, t) {
      case Requesting(k, at) =>
        EntropySafety.RequestLocks(s, t, k, at, ch, s');
        EntropySafety.RequestSeed(s, t, k, at, ch, s');
      case Waiting(w, at) =>
        EntropySafety.LoopLocks(s, t, w, at, ch, s');
        EntropySafety.LoopSeed(s, t, w, at, ch, s');
      case Generating =>
        EntropySafety.GenerateLocks(s, t, ch, s');
        EntropySafety.GenerateSeed(s, t, ch, s');
      case Installing(_, _) => assert false;
      case Reseeding(_) => assert false;
      case _ =>
        EntropySafety.GetLocks(cfg, s, t, s');
        EntropySafety.GetSeed(cfg, s, t, s');
    }
  }

  /** While nobody consumes, the feed is wiped exactly when the last use was not
      a failed instantiation (or its response was all zeroes already). */
  lemma FeedWipedExactly(cfg: Config, s: State)
    requires Inv(cfg, s) && !Loaded(Holder(s)) && !Publishing(Holder(s))
    ensures s.core.feed == Zeroes() <==>
              s.trace.failed.None? || s.responses[s.trace.failed.value] == Zeroes()
  {
  }

  // ---- an outstanding request is one that was made -------------------------

  /** The request that is in flight is in the history, 250 ms before its expiry,
      and nothing has ended it. */
  ghost predicate OnRecord(s: State) {
    s.core.inFlight ==>
      exists i :: 0 <= i < |s.trace.log| && s.trace.log[i] == Requested(s.core.expiry - SEED_REQUEST_TIMEOUT_MS)
                  && NoneCleared(s.trace.log, i, |s.trace.log|)
  }

  /** How a step may leave a request in flight: the one there was, or a new one. */
  ghost predicate StaysInFlight(s: State, s': State) {
    s'.core.inFlight ==>
      || (s.core.inFlight && s'.core.expiry == s.core.expiry && s.trace.log <= s'.trace.log
          && forall k :: |s.trace.log| <= k < |s'.trace.log| ==> !s'.trace.log[k].Cleared?)
      || s'.trace.log == s.trace.log + [Requested(s'.core.expiry - SEED_REQUEST_TIMEOUT_MS)]
  }

  lemma RequestStaysInFlight(s: State, t: Tid, k: Caller, at: RequestPc, ch: Choice, s': State)
    requires RequestStep(s, t, k, at, ch) == Some(s')
    ensures StaysInFlight(s, s')
  {
  }

  lemma InstallStaysInFlight(cfg: Config, s: State, t: Tid, w: Wait, at: InstallPc, ch: Choice, s': State)
    requires s.core.Valid() && InstallStep(cfg, s, t, w, at, ch) == Some(s')
    ensures StaysInFlight(s, s')
  {
  }

  lemma GetStaysInFlight(cfg: Config, s: State, t: Tid, pc: Pc, s': State)
    requires GetStep(cfg, s, t, pc) == Some(s')
    ensures StaysInFlight(s, s')
  {
  }

  lemma GenerateStaysInFlight(s: State, t: Tid, ch: Choice, s': State)
    requires GenerateStep(s, t, ch) == Some(s')
    ensures StaysInFlight(s, s')
  {
  }

  lemma LoopStaysInFlight(s: State, t: Tid, w: Wait, at: LoopPc, ch: Choice, s': State)
    requires LoopStep(s, t, w, at, ch) == Some(s')
    ensures StaysInFlight(s, s')
  {
  }

  lemma ReseedStaysInFlight(cfg: Config, s: State, t: Tid, at: ReseedPc, ch: Choice, s': State)
    requires s.core.Valid() && ReseedStep(cfg, s, t, at, ch) == Some(s')
    ensures StaysInFlight(s, s')
  {
  }

  lemma EnvironmentStaysInFlight(cfg: Config, s: State, a: Action, s': State)
    requires s.core.Valid() && !a.Advances? && Act(cfg, s, a) == Some(s')
    ensures StaysInFlight(s, s')
  {
  }

  lemma StepStaysInFlight(cfg: Config, s: State, a: Action, s': State)
    requires s.core.Valid() && Act(cfg, s, a) == Some(s')
    ensures StaysInFlight(s, s')
  {
    hide StaysInFlight;
    hide RequestStep;
    hide InstallStep;
    hide LoopStep;
    hide ReseedStep;
    hide GenerateStep;
    hide GetStep;
    if a.Advances? {
      match PcOf(s, a.t) {
        case Requesting(k, at) => RequestStaysInFlight(s, a.t, k, at, a.choice, s');
        case Installing(w, at) => InstallStaysInFlight(cfg, s, a.t, w, at, a.choice, s');
        case Waiting(w, at) => LoopStaysInFlight(s, a.t, w, at, a.choice, s');
        case Reseeding(at) => ReseedStaysInFlight(cfg, s, a.t, at, a.choice, s');
        case Generating => GenerateStaysInFlight(s, a.t, a.choice, s');
        case pc => GetStaysInFlight(cfg, s, a.t, pc, s');
      }
    } else {
      EnvironmentStaysInFlight(cfg, s, a, s');
    }
  }

  lemma StepKeepsRecord(s: State, s': State)
    requires OnRecord(s) && StaysInFlight(s, s')
    ensures OnRecord(s')
  {
    if s'.core.inFlight {
      var log, log' := s.trace.log, s'.trace.log;
      if log' == log + [Requested(s'.core.expiry - SEED_REQUEST_TIMEOUT_MS)] {
        assert NoneCleared(log', |log|, |log'|);
      } else {
        var i :| 0 <= i < |log| && log[i] == Requested(s.core.expiry - SEED_REQUEST_TIMEOUT_MS)
          && NoneCleared(log, i, |log|);
        assert log'[i] == log[i] && NoneCleared(log', i, |log'|);
      }
    }
  }

  lemma {:induction false} FollowKeepsRecord(cfg: Config, s: State, acts: seq<Action>, s': State)
    requires OnRecord(s) && Follow(cfg, s, acts) == Some(s')
    ensures OnRecord(s')
    decreases |acts|
  {
    if acts != [] {
      var next := Act(cfg, s, acts[0]).value;
      StepStaysInFlight(cfg, s, acts[0], next);
      StepKeepsRecord(s, next);
      FollowKeepsRecord(cfg, next, acts[1..], s');
    }
  }

  /** In every run, behind the locked half of `request_seed` the history holds a
      request that nothing has ended and that is younger than 250 ms: an expired
      one was issued again, and by this step. */
  lemma RequestIsOutstanding(cfg: Config, clock: int, acts: seq<Action>, s: State, t: Tid, k: Caller, now: int,
                             ch: Choice, s': State)
    requires Run(cfg, clock, acts) == Some(s)
    requires PcOf(s, t) == Requesting(k, Locking(now)) && RequestStep(s, t, k, Locking(now), ch) == Some(s')
    ensures exists i :: 0 <= i < |s'.trace.log| && s'.trace.log[i].Requested?
                        && NoneCleared(s'.trace.log, i, |s'.trace.log|)
                        && now < s'.trace.log[i].at + SEED_REQUEST_TIMEOUT_MS
    ensures s.core.inFlight && s.core.expiry <= now ==> s'.trace.log == s.trace.log + [Requested(now)]
  {
    FollowKeepsRecord(cfg, Initial(clock), acts, s);
    RequestStaysInFlight(s, t, k, Locking(now), ch, s');
    StepKeepsRecord(s, s');
    assert s'.core.inFlight && now < s'.core.expiry;
    var i :| 0 <= i < |s'.trace.log| && s'.trace.log[i] == Requested(s'.core.expiry - SEED_REQUEST_TIMEOUT_MS)
             && NoneCleared(s'.trace.log, i, |s'.trace.log|);
  }

  function CeilDiv(a: nat, b: nat): nat
    requires b > 0
  {
    (a + b - 1) / b
  }

  /** The first-seed wait ends: a round is paid for by 250 ms or by a response
      delivered during the wait, except for one that was delivered before it if any was. */
  lemma WaitIsBounded(cfg: Config, clock: int, acts: seq<Action>, s: State, t: Tid)
    requires Run(cfg, clock, acts) == Some(s) && (InRound(PcOf(s, t)) || AfterRound(PcOf(s, t)))
    ensures var w := WaitOf(PcOf(s, t));
            w.rounds <= CeilDiv(cfg.seedTimeoutMs, SEED_REQUEST_TIMEOUT_MS) + (s.delivered - w.delivered0)
                        + if w.delivered0 > 0 then 2 else 1
    ensures s.delivered <= |s.responses|
  {
    RunKeepsInv(cfg, clock, acts, s);
    assert WaitInv(cfg, s, PcOf(s, t));
  }

  // ---- a failed instantiation leaves its material behind -------------------

  /** One caller, one delivery, and a library that fails. */
  function FailedInstall(bytes: Seed): seq<Action> {
    [ProviderCopies(bytes), ProviderGives, CallGet(0)] + WaitForSeed()
  }

  function WaitForSeed(): seq<Action> {
    [Advances(0, Go), Advances(0, Go), Advances(0, Go)] + RequestSeed()
  }

  function RequestSeed(): seq<Action> {
    [Advances(0, Go), Advances(0, Send(SentOk)), Advances(0, Arrived)] + Install()
  }

  function Install(): seq<Action> {
    [Advances(0, Go), Advances(0, Go), Advances(0, Go)] + Fail()
  }

  function Fail(): seq<Action> {
    [Advances(0, Go), Advances(0, Finish(false)), Advances(0, Go)]
  }

  lemma Follows3(cfg: Config, s: State, s1: State, s2: State, s3: State, acts: seq<Action>, rest: seq<Action>)
    requires |acts| == 3 && s.core.Valid() && s1.core.Valid() && s2.core.Valid()
    requires Act(cfg, s, acts[0]) == Some(s1) && Act(cfg, s1, acts[1]) == Some(s2) && Act(cfg, s2, acts[2]) == Some(s3)
    ensures Follow(cfg, s, acts + rest) == Follow(cfg, s3, rest)
  {
    assert (acts + rest)[1..] == acts[1..] + rest && (acts[1..] + rest)[1..] == acts[2..] + rest;
    assert (acts[2..] + rest)[1..] == rest;
    assert Follow(cfg, s1, acts[1..] + rest) == Follow(cfg, s2, acts[2..] + rest);
  }

  ghost predicate LeavesMaterial(r: Option<State>, bytes: Seed) {
    r.Some? && r.value.mutex.None? && r.value.core.feed == bytes
  }

  lemma LibraryFails(cfg: Config, s: State, w: Wait, bytes: Seed)
    requires s.core.Valid() && s.core.feed == bytes && PcOf(s, 0) == Installing(w, InstallSeed)
    ensures LeavesMaterial(Follow(cfg, s, Fail()), bytes)
  {
    var s1 := Goto(Note(s, SeedBegin), 0, Installing(w, Instantiating(false)));
    var s2 := Goto(Note(s1, SeedEnd(s1.feedId, false)), 0, Installing(w, InstallUnlock));
    var s3 := Goto(s2.(mutex := None), 0, Waiting(w, LoopTest));
    Follows3(cfg, s, s1, s2, s3, Fail(), []);
    assert Fail() + [] == Fail();
  }

  lemma InstallFails(cfg: Config, s: State, w: Wait, bytes: Seed)
    requires s.core.Valid() && s.mutex.None? && PcOf(s, 0) == Installing(w, InstallLock)
    requires !s.core.seeded && s.core.stagedLen == SEED_BYTES && s.core.staged == bytes
    ensures LeavesMaterial(Follow(cfg, s, Install()), bytes)
  {
    var s1 := Goto(s.(mutex := Some(0)), 0, Installing(w, InstallCheck));
    var s2 := Goto(s1, 0, Installing(w, InstallTake));
    var s3 := Take(s2, 0, Installing(w, InstallSeed), Installing(w, InstallUnlock));
    Follows3(cfg, s, s1, s2, s3, Install()[..3], Fail());
    LibraryFails(cfg, s3, w, bytes);
  }

  lemma SeedArrives(cfg: Config, s: State, w: Wait, bytes: Seed)
    requires s.core.Valid() && s.mutex.None? && PcOf(s, 0) == Requesting(InWait(w), Locking(s.clock))
    requires s.arrival && !s.core.inFlight
    requires !s.core.seeded && s.core.stagedLen == SEED_BYTES && s.core.staged == bytes
    ensures LeavesMaterial(Follow(cfg, s, RequestSeed()), bytes)
  {
    var s1 := RequestStep(s, 0, InWait(w), Locking(s.clock), Go).value;
    var s2 := Resume(s1, 0, InWait(w));
    var w' := w.(takes := w.takes + 1);
    var s3 := Goto(s2.(arrival := false), 0, Installing(w', InstallLock));
    Follows3(cfg, s, s1, s2, s3, RequestSeed()[..3], Install());
    InstallFails(cfg, s3, w', bytes);
  }

  lemma SeedIsAwaited(cfg: Config, s: State, bytes: Seed)
    requires s.core.Valid() && s.mutex.None? && PcOf(s, 0) == Entered && s.arrival && !s.core.inFlight
    requires !s.core.seeded && s.core.stagedLen == SEED_BYTES && s.core.staged == bytes
    ensures LeavesMaterial(Follow(cfg, s, WaitForSeed()), bytes)
  {
    var w := Wait(s.clock, s.clock + cfg.seedTimeoutMs, 1, 0, 0, s.delivered);
    var s1 := Goto(s, 0, WaitClock);
    var s2 := Goto(s1, 0, Requesting(InWait(w), ReadClock));
    var s3 := Goto(s2, 0, Requesting(InWait(w), Locking(s.clock)));
    Follows3(cfg, s, s1, s2, s3, WaitForSeed()[..3], RequestSeed());
    SeedArrives(cfg, s3, w, bytes);
  }

  /** The comment promises a wiped feed after a seed; after a failed one the
      response is still there, with the mutex released and nobody using it. */
  lemma FailedInstallLeavesMaterial(cfg: Config, bytes: Seed)
    requires bytes != Zeroes()
    ensures LeavesMaterial(Run(cfg, 0, FailedInstall(bytes)), bytes)
  {
    var acts := FailedInstall(bytes);
    var s0 := Initial(0);
    var s1 := Act(cfg, s0, ProviderCopies(bytes)).value;
    var s2 := Act(cfg, s1, ProviderGives).value;
    var s3 := Goto(s2, 0, Entered);
    Follows3(cfg, s0, s1, s2, s3, acts[..3], WaitForSeed());
    assert acts[..3] + WaitForSeed() == acts;
    SeedIsAwaited(cfg, s3, bytes);
  }
}
