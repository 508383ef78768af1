/** Torn stamps (lib/health/health.c): the feeder reads a 64-bit stamp while its
    owner stores it in two 32-bit halves. What that costs, over every run. */
module TornStamps {
  import opened Wrappers
  import opened Watchdog

  /** A stamp read between its two halves is one of the two stamps, except when
      the low half wraps: then it is older than both by almost 2^32 ms, or newer
      than both. */
  lemma TornOnlyAtCarry(before: int, after: int, read: int)
    requires 0 <= before <= after < before + WORD && Torn(before, after, read)
    ensures before / WORD == after / WORD ==> read == before || read == after
    ensures before / WORD != after / WORD ==> read == after - WORD || read == before + WORD
  {
    assert 0 <= before % 0x1_0000_0000 < 0x1_0000_0000 && 0 <= after % 0x1_0000_0000 < 0x1_0000_0000;
    assert WORD == 0x1_0000_0000;
    if before / WORD != after / WORD {
      assert after / 0x1_0000_0000 == before / 0x1_0000_0000 + 1;
    }
  }

  /** The comment says a half-updated value never withholds a feed. It does:
      here both stamps are fresh and the torn one is not. */
  lemma TornWithholdsFeed()
    ensures var before, after, now, budget := WORD - 1, WORD, WORD + 5, 60_000;
            && !StaleAt(Slot(budget, before), now) && !StaleAt(Slot(budget, after), now)
            && exists read :: Torn(before, after, read) && StaleAt(Slot(budget, read), now)
  {
    assert Torn(WORD - 1, WORD, 0);
  }

  /** Every slot is fresh by its stored stamp, and by the one being stored. */
  predicate TrulyFresh(m: Machine) {
    forall i :: 0 <= i < |m.cells| ==>
      && !StaleAt(m.cells[i].slot, m.now)
      && (m.cells[i].storing.Some? ==> !StaleAt(m.cells[i].slot.(lastSeen := m.cells[i].storing.value), m.now))
  }

  /** What bounds a run: how many slots register, the largest budget of one (a
      uint32_t), and by how much the feeder may be late. */
  datatype Limits = Limits(slots: nat, budget: nat, late: nat)

  /** A machine, and the slots whose store was under way at the last pass. */
  datatype Watched = Watched(m: Machine, open: set<nat>)

  const BOOT := Watched(Machine(0, [], None, false), {})

  function Observe(cfg: Config, x: Watched, a: Action): Watched
    requires Enabled(x.m, a)
  {
    Watched(Act(cfg, x.m, a),
            match a
            case Pass(_) => set i: nat | i < |x.m.cells| && x.m.cells[i].storing.Some?
            case EndStamp(i) => x.open - {i}
            case _ => x.open)
  }

  predicate InLimits(l: Limits, m: Machine) {
    |m.cells| <= l.slots && (m.dog.Some? ==> m.now <= m.dog.value.nextDue + l.late)
  }

  /** Every loop is fresh at every pass, and a store under way at a pass is over
      before the next one. */
  predicate Fair(l: Limits, x: Watched, a: Action) {
    match a
    case Register(budget) => budget <= l.budget
    case Pass(_) => TrulyFresh(x.m) && x.open == {}
    case _ => true
  }

  /** A fair run within the limits. */
  ghost predicate Honest(cfg: Config, l: Limits, x: Watched, acts: seq<Action>, y: Watched)
    decreases |acts|
  {
    && InLimits(l, x.m)
    && if acts == [] then x == y
       else Enabled(x.m, acts[0]) && Fair(l, x, acts[0]) && Honest(cfg, l, Observe(cfg, x, acts[0]), acts[1..], y)
  }

  // ---- what a carry costs ---------------------------------------------------

  function NextCarry(stamp: int): int {
    (stamp / 0x1_0000_0000 + 1) * 0x1_0000_0000
  }

  predicate Sane(c: Cell, now: int) {
    && 0 <= c.slot.lastSeen <= now
    && (c.storing.Some? ==> c.slot.lastSeen <= c.storing.value <= now)
  }

  predicate SaneCells(l: Limits, m: Machine) {
    m.now >= 0 && forall i :: 0 <= i < |m.cells| ==> Sane(m.cells[i], m.now) && m.cells[i].slot.maxSilence <= l.budget
  }

  /** A fresh slot is read as stale only in the middle of a store across a carry. */
  lemma LossCrosses(c: Cell, read: int, now: int)
    requires Sane(c, now) && MayRead(c, read) && StaleAt(c.slot.(lastSeen := read), now)
    requires !StaleAt(c.slot, now) && (c.storing.Some? ==> !StaleAt(c.slot.(lastSeen := c.storing.value), now))
    ensures c.storing.Some? && NextCarry(c.slot.lastSeen) <= c.storing.value
    ensures NextCarry(c.storing.value) > now - c.slot.maxSilence + WORD
  {
    var before, after := c.slot.lastSeen, c.storing.value;
    assert before / WORD == after / WORD ==> Spliced(before, after) == after && Spliced(after, before) == before;
    assert before / 0x1_0000_0000 < after / 0x1_0000_0000;
  }

  lemma CarryOrder(a: int, b: int)
    ensures a <= b ==> NextCarry(a) <= NextCarry(b)
    ensures NextCarry(a) <= b ==> NextCarry(a) + WORD <= NextCarry(b)
    ensures a < NextCarry(a)
  {
  }

  /** The latest stamp a slot is sure to have before its next store. */
  function Taken(x: Watched, i: nat): int
    requires i < |x.m.cells|
  {
    if i in x.open && x.m.cells[i].storing.Some? then x.m.cells[i].storing.value else x.m.cells[i].slot.lastSeen
  }

  ghost predicate PastTheWord(cfg: Config, l: Limits, x: Watched, i: nat, stamp: int) {
    && SaneCells(l, x.m) && i < |x.m.cells| && NextCarry(stamp) <= NextCarry(Taken(x, i))
    && (forall k :: k in x.open ==> k < |x.m.cells| && x.m.cells[k].storing.Some?)
  }

  predicate LostAt(x: Watched, a: Action, i: nat) {
    a.Pass? && i < |a.stamps| == |x.m.cells| && StaleAt(x.m.cells[i].slot.(lastSeen := a.stamps[i]), x.m.now)
  }

  lemma PastTheWordKept(cfg: Config, l: Limits, x: Watched, a: Action, i: nat, stamp: int)
    requires PastTheWord(cfg, l, x, i, stamp) && Enabled(x.m, a) && Fair(l, x, a)
    ensures PastTheWord(cfg, l, Observe(cfg, x, a), i, stamp)
  {
    var y := Observe(cfg, x, a);
    CarryOrder(Taken(x, i), Taken(y, i));
  }

  lemma TakenGrows(cfg: Config, l: Limits, x: Watched, a: Action)
    requires Enabled(x.m, a) && Fair(l, x, a) && SaneCells(l, x.m)
    requires forall k :: k in x.open ==> k < |x.m.cells| && x.m.cells[k].storing.Some?
    ensures var y := Observe(cfg, x, a);
            && |x.m.cells| <= |y.m.cells| && SaneCells(l, y.m)
            && (forall k :: k in y.open ==> k < |y.m.cells| && y.m.cells[k].storing.Some?)
            && forall k: nat :: k < |x.m.cells| ==> Taken(x, k) <= Taken(y, k)
  {
  }

  lemma {:induction false} NextLoss(cfg: Config, l: Limits, x: Watched, acts: seq<Action>, y: Watched, again: Action,
                                    i: nat, stamp: int)
    requires Honest(cfg, l, x, acts, y) && PastTheWord(cfg, l, x, i, stamp)
    requires Enabled(y.m, again) && Fair(l, y, again) && LostAt(y, again, i)
    ensures y.m.cells[i].storing.Some? && NextCarry(stamp) <= y.m.cells[i].storing.value
    decreases |acts|
  {
    hide NextCarry;
    if acts == [] {
      assert MayRead(y.m.cells[i], again.stamps[i]);
      LossCrosses(y.m.cells[i], again.stamps[i], y.m.now);
      CarryOrder(stamp, y.m.cells[i].storing.value);
    } else {
      PastTheWordKept(cfg, l, x, acts[0], i, stamp);
      NextLoss(cfg, l, Observe(cfg, x, acts[0]), acts[1..], y, again, i, stamp);
    }
  }

  /** Between two feeds lost to the same slot lies a carry of its stamp: a slot
      loses at most one feed to each. */
  lemma OneLossPerCarry(cfg: Config, l: Limits, x: Watched, lost: Action, acts: seq<Action>, y: Watched,
                        again: Action, i: nat)
    requires SaneCells(l, x.m) && Enabled(x.m, lost) && Fair(l, x, lost) && LostAt(x, lost, i)
    requires Honest(cfg, l, Observe(cfg, x, lost), acts, y)
    requires Enabled(y.m, again) && Fair(l, y, again) && LostAt(y, again, i)
    ensures x.m.cells[i].storing.Some? && y.m.cells[i].storing.Some?
    ensures NextCarry(x.m.cells[i].storing.value) <= y.m.cells[i].storing.value
  {
    var c, next := x.m.cells[i], Observe(cfg, x, lost);
    assert MayRead(c, lost.stamps[i]);
    LossCrosses(c, lost.stamps[i], x.m.now);
    TakenGrows(cfg, l, x, lost);
    assert Taken(next, i) == c.storing.value;
    NextLoss(cfg, l, next, acts, y, again, i, c.storing.value);
  }

  // ---- how many feeds in a row ------------------------------------------------

  function Rounds(n: nat, d: nat): nat {
    n * d
  }

  /** Too little of the word is left behind a lost feed for another carry - or,
      where budgets reach around the word, for a third - before the timer expires. */
  predicate Spent(cfg: Config, l: Limits, stamp: int, feed: int, again: bool) {
    && NextCarry(stamp) > feed
    && (again || l.budget + cfg.timeout <= WORD ==> NextCarry(stamp) >= feed + cfg.timeout)
  }

  /** The slots that lost a feed since the last one given, and those that lost a
      second one: with what is left of the word, none can lose another. */
  ghost predicate Starved(cfg: Config, l: Limits, x: Watched, once: set<nat>, twice: set<nat>) {
    && SaneCells(l, x.m) && !x.m.reset
    && (forall k :: k in x.open ==> k < |x.m.cells| && x.m.cells[k].storing.Some?)
    && twice <= once && (forall i :: i in once ==> i < |x.m.cells|)
    && (l.budget + cfg.timeout <= WORD ==> twice == {})
    && (x.m.dog.Some? ==>
          var feed := x.m.dog.value.lastFeed;
          && feed <= x.m.now < feed + cfg.timeout
          && x.m.dog.value.nextDue <= feed + cfg.interval + Rounds(|once| + |twice|, cfg.interval + l.late)
          && forall i :: i in once ==> Spent(cfg, l, Taken(x, i), feed, i in twice))
  }

  /** How many feeds in a row the slots can lose between them. */
  function Losses(cfg: Config, l: Limits): nat {
    if l.budget + cfg.timeout <= WORD then l.slots else 2 * l.slots
  }

  predicate Enough(cfg: Config, l: Limits) {
    Rounds(Losses(cfg, l) + 1, cfg.interval + l.late) < cfg.timeout
  }

  lemma {:induction false} Few(s: set<nat>, n: nat)
    requires forall i :: i in s ==> i < n
    ensures |s| <= n
  {
    if n > 0 {
      Few(s - {n - 1}, n - 1);
      assert s <= s - {n - 1} + {n - 1};
      if n - 1 in s {
        assert s == s - {n - 1} + {n - 1};
      } else {
        assert s == s - {n - 1};
      }
    }
  }

  lemma OneMore(n: nat, d: nat)
    ensures Rounds(n + 1, d) == Rounds(n, d) + d && Rounds(0, d) == 0
  {
  }

  lemma Times(a: nat, b: nat, c: nat)
    requires a <= b
    ensures Rounds(a, c) <= Rounds(b, c)
  {
  }

  /** Inside the limits there is always another pass before the timer expires. */
  lemma NotYet(cfg: Config, l: Limits, x: Watched, once: set<nat>, twice: set<nat>, due: int, feed: int)
    requires Enough(cfg, l) && twice <= once && (l.budget + cfg.timeout <= WORD ==> twice == {})
    requires |x.m.cells| <= l.slots && forall i :: i in once ==> i < |x.m.cells|
    requires due <= feed + cfg.interval + Rounds(|once| + |twice|, cfg.interval + l.late)
    ensures due + l.late < feed + cfg.timeout
  {
    hide Rounds;
    Few(once, l.slots);
    Few(twice, l.slots);
    Times(|once| + |twice| + 1, Losses(cfg, l) + 1, cfg.interval + l.late);
    OneMore(|once| + |twice|, cfg.interval + l.late);
  }

  lemma StaySpent(cfg: Config, l: Limits, x: Watched, y: Watched, feed: int, once: set<nat>, twice: set<nat>)
    requires |x.m.cells| <= |y.m.cells| && forall k: nat :: k < |x.m.cells| ==> Taken(x, k) <= Taken(y, k)
    requires forall i :: i in once ==> i < |x.m.cells|
    requires forall i :: i in once ==> Spent(cfg, l, Taken(x, i), feed, i in twice)
    ensures forall i :: i in once ==> Spent(cfg, l, Taken(y, i), feed, i in twice)
  {
    hide Taken;
    forall i | i in once
      ensures NextCarry(Taken(x, i)) <= NextCarry(Taken(y, i))
    {
      CarryOrder(Taken(x, i), Taken(y, i));
    }
    hide NextCarry;
  }

  /** A slot read as stale is spent by it, and was not spent twice before. */
  lemma LossSpends(cfg: Config, l: Limits, x: Watched, stamps: seq<int>, once: set<nat>, twice: set<nat>, i: nat)
    requires cfg.Built() && l.budget < WORD && Starved(cfg, l, x, once, twice)
    requires Enabled(x.m, Pass(stamps)) && Fair(l, x, Pass(stamps)) && LostAt(x, Pass(stamps), i)
    ensures i !in twice && (i in once ==> l.budget + cfg.timeout > WORD)
    ensures Spent(cfg, l, Taken(Observe(cfg, x, Pass(stamps)), i), x.m.dog.value.lastFeed, i in once)
  {
    var c, y := x.m.cells[i], Observe(cfg, x, Pass(stamps));
    assert MayRead(c, stamps[i]);
    LossCrosses(c, stamps[i], x.m.now);
    assert Taken(x, i) == c.slot.lastSeen && Taken(y, i) == c.storing.value;
    CarryOrder(c.slot.lastSeen, c.storing.value);
    hide NextCarry;
  }

  /** What a pass does: it feeds unless a slot loses it. */
  lemma PassDoes(cfg: Config, x: Watched, stamps: seq<int>)
    requires Enabled(x.m, Pass(stamps)) && !x.m.reset
    ensures var y, dog := Observe(cfg, x, Pass(stamps)), x.m.dog.value;
            && y.m.cells == x.m.cells && y.m.now == x.m.now && !y.m.reset
            && var lost := exists i: nat :: LostAt(x, Pass(stamps), i);
               y.m.dog == Some(dog.(lastFeed := if lost then dog.lastFeed else x.m.now,
                                    nextDue := x.m.now + cfg.interval))
  {
    var slots := Read(x.m.cells, stamps);
    assert forall i: nat :: LostAt(x, Pass(stamps), i) ==> StaleAt(slots[i], x.m.now);
    assert forall i :: 0 <= i < |slots| && StaleAt(slots[i], x.m.now) ==> LostAt(x, Pass(stamps), i);
    hide StaleAt;
    hide MayRead;
  }

  lemma LostPass(cfg: Config, l: Limits, x: Watched, stamps: seq<int>, once: set<nat>, twice: set<nat>, i: nat)
    returns (once': set<nat>, twice': set<nat>)
    requires cfg.Built() && l.budget < WORD && Starved(cfg, l, x, once, twice) && InLimits(l, x.m)
    requires Enabled(x.m, Pass(stamps)) && Fair(l, x, Pass(stamps)) && LostAt(x, Pass(stamps), i)
    ensures Starved(cfg, l, Observe(cfg, x, Pass(stamps)), once', twice')
  {
    hide MayRead;
    hide StaleAt;
    hide TrulyFresh;
    hide SaneCells;
    hide Rounds;
    hide Spent;
    hide Taken;
    hide NextCarry;
    var y := Observe(cfg, x, Pass(stamps));
    TakenGrows(cfg, l, x, Pass(stamps));
    PassDoes(cfg, x, stamps);
    LossSpends(cfg, l, x, stamps, once, twice, i);
    StaySpent(cfg, l, x, y, x.m.dog.value.lastFeed, once, twice);
    assert i < |x.m.cells| && x.m.dog.Some?;
    once', twice' := LostTo(once, twice, i);
    OneMore(|once| + |twice|, cfg.interval + l.late);
    hide Observe;
    hide LostAt;
    hide Fair;
  }

  lemma PassStarves(cfg: Config, l: Limits, x: Watched, stamps: seq<int>, once: set<nat>, twice: set<nat>)
    returns (once': set<nat>, twice': set<nat>)
    requires cfg.Built() && l.budget < WORD && Starved(cfg, l, x, once, twice) && InLimits(l, x.m)
    requires Enabled(x.m, Pass(stamps)) && Fair(l, x, Pass(stamps))
    ensures Starved(cfg, l, Observe(cfg, x, Pass(stamps)), once', twice')
  {
    PassDoes(cfg, x, stamps);
    TakenGrows(cfg, l, x, Pass(stamps));
    OneMore(0, cfg.interval + l.late);
    if i: nat :| LostAt(x, Pass(stamps), i) {
      once', twice' := LostPass(cfg, l, x, stamps, once, twice, i);
    } else {
      once', twice' := {}, {};
    }
    hide Observe;
    hide LostAt;
    hide Fair;
    hide SaneCells;
    hide Rounds;
    hide Taken;
    hide Spent;
  }

  lemma LostTo(once: set<nat>, twice: set<nat>, i: nat) returns (once': set<nat>, twice': set<nat>)
    requires twice <= once && i !in twice
    ensures twice' <= once' && |once'| + |twice'| == |once| + |twice| + 1
    ensures if i in once then once' == once && twice' == twice + {i} else once' == once + {i} && twice' == twice
  {
    once', twice' := if i in once then once else once + {i}, if i in once then twice + {i} else twice;
  }

  lemma StepStarves(cfg: Config, l: Limits, x: Watched, a: Action, once: set<nat>, twice: set<nat>)
    returns (once': set<nat>, twice': set<nat>)
    requires cfg.Built() && l.budget < WORD && Enough(cfg, l) && Starved(cfg, l, x, once, twice) && InLimits(l, x.m)
    requires Enabled(x.m, a) && Fair(l, x, a) && InLimits(l, Observe(cfg, x, a).m)
    ensures Starved(cfg, l, Observe(cfg, x, a), once', twice')
  {
    once', twice' := once, twice;
    TakenGrows(cfg, l, x, a);
    if a.Pass? {
      once', twice' := PassStarves(cfg, l, x, a.stamps, once, twice);
    } else if x.m.dog.None? {
      once', twice' := if a.Arm? then {} else once, if a.Arm? then {} else twice;
    } else {
      NotYet(cfg, l, x, once, twice, x.m.dog.value.nextDue, x.m.dog.value.lastFeed);
      StaySpent(cfg, l, x, Observe(cfg, x, a), x.m.dog.value.lastFeed, once, twice);
      hide Spent;
      hide Rounds;
      hide Taken;
    }
  }

  /** Torn stamps cost each slot one feed at a carry - two where a budget reaches
      around the word - and a timeout with room for them all never expires. */
  lemma {:induction false} TornStampsNeverReset(cfg: Config, l: Limits, x: Watched, acts: seq<Action>, y: Watched,
                                          once: set<nat>, twice: set<nat>)
    requires cfg.Built() && l.budget < WORD && Enough(cfg, l)
    requires Starved(cfg, l, x, once, twice) && Honest(cfg, l, x, acts, y)
    ensures !y.m.reset
    decreases |acts|
  {
    if acts != [] {
      var once', twice' := StepStarves(cfg, l, x, acts[0], once, twice);
      TornStampsNeverReset(cfg, l, Observe(cfg, x, acts[0]), acts[1..], y, once', twice');
    }
  }

  // ---- and when it is not enough ----------------------------------------------

  lemma {:induction false} Joined(cfg: Config, l: Limits, x: Watched, a: seq<Action>, y: Watched, b: seq<Action>,
                                  z: Watched)
    requires Honest(cfg, l, x, a, y) && Honest(cfg, l, y, b, z)
    ensures Honest(cfg, l, x, a + b, z)
    decreases |a|
  {
    if a == [] {
      assert a + b == b;
    } else {
      Joined(cfg, l, Observe(cfg, x, a[0]), a[1..], y, b, z);
      assert (a + b)[0] == a[0] && (a + b)[1..] == a[1..] + b;
    }
  }

  lemma Then(cfg: Config, l: Limits, x: Watched, acts: seq<Action>, y: Watched, a: Action) returns (more: seq<Action>)
    requires Honest(cfg, l, x, acts, y) && Enabled(y.m, a) && Fair(l, y, a)
    requires InLimits(l, y.m) && InLimits(l, Observe(cfg, y, a).m)
    ensures Honest(cfg, l, x, more, Observe(cfg, y, a))
  {
    assert [a][1..] == [];
    assert Honest(cfg, l, y, [a], Observe(cfg, y, a));
    Joined(cfg, l, x, acts, y, [a], Observe(cfg, y, a));
    more := acts + [a];
  }

  /** Armed, and no store under way. */
  ghost predicate Calm(l: Limits, x: Watched) {
    && x.open == {} && !x.m.reset && x.m.dog.Some? && InLimits(l, x.m)
    && forall i :: 0 <= i < |x.m.cells| ==> x.m.cells[i].storing.None?
  }

  /** Slot `i` has stored at `due`, where the feeder passed without feeding. */
  function Missed(cfg: Config, x: Watched, i: nat, due: int): Watched
    requires i < |x.m.cells| && x.m.dog.Some?
  {
    Watched(x.m.(now := due,
                 cells := x.m.cells[i := Cell(x.m.cells[i].slot.(lastSeen := due), None)],
                 dog := Some(x.m.dog.value.(nextDue := due + cfg.interval))), {})
  }

  /** Slot `i` has begun its store at `due`. */
  function Midway(x: Watched, i: nat, due: int): Watched
    requires i < |x.m.cells|
  {
    Watched(x.m.(now := due, cells := x.m.cells[i := x.m.cells[i].(storing := Some(due))]), {})
  }

  lemma LoseBegins(cfg: Config, l: Limits, x: Watched, i: nat, due: int) returns (acts: seq<Action>)
    requires cfg.Built() && Calm(l, x) && i < |x.m.cells|
    requires due == x.m.dog.value.nextDue + l.late < x.m.dog.value.lastFeed + cfg.timeout
    ensures Honest(cfg, l, x, acts, Midway(x, i, due))
  {
    var waited := Watched(x.m.(now := due), {});
    acts := [];
    assert Honest(cfg, l, x, acts, x);
    hide Honest;
    assert Observe(cfg, x, Wait(due - x.m.now)) == waited;
    acts := Then(cfg, l, x, acts, x, Wait(due - x.m.now));
    assert Observe(cfg, waited, BeginStamp(i)) == Midway(x, i, due);
    acts := Then(cfg, l, x, acts, waited, BeginStamp(i));
  }

  /** The latest pass, in the middle of a slot's store across a carry. */
  lemma Lose(cfg: Config, l: Limits, x: Watched, i: nat, due: int) returns (acts: seq<Action>)
    requires cfg.Built() && Calm(l, x) && i < |x.m.cells|
    requires due == x.m.dog.value.nextDue + l.late < x.m.dog.value.lastFeed + cfg.timeout
    requires forall k :: 0 <= k < |x.m.cells| ==> !StaleAt(x.m.cells[k].slot, due)
    requires x.m.cells[i].slot.maxSilence < WORD && x.m.cells[i].slot.lastSeen / WORD + 1 == due / WORD
    ensures Honest(cfg, l, x, acts, Missed(cfg, x, i, due)) && Calm(l, Missed(cfg, x, i, due))
  {
    ReadsOld(x.m.cells[i].slot.lastSeen, due);
    hide Spliced;
    hide Torn;
    hide Honest;
    acts := LoseBegins(cfg, l, x, i, due);
    var c, mid := x.m.cells[i], Midway(x, i, due);
    var stamps := seq(|x.m.cells|, k requires 0 <= k < |x.m.cells| =>
                                     if k == i then Spliced(c.slot.lastSeen, due) else x.m.cells[k].slot.lastSeen);
    var passed := Watched(mid.m.(dog := Some(x.m.dog.value.(nextDue := due + cfg.interval))), {i});
    TornPass(cfg, l, mid, i, stamps);
    hide StaleAt;
    hide MayRead;
    hide TrulyFresh;
    assert Observe(cfg, mid, Pass(stamps)) == passed;
    acts := Then(cfg, l, x, acts, mid, Pass(stamps));
    assert mid.m.cells[i := Cell(c.slot.(lastSeen := due), None)]
      == x.m.cells[i := Cell(c.slot.(lastSeen := due), None)];
    assert Observe(cfg, passed, EndStamp(i)) == Missed(cfg, x, i, due);
    acts := Then(cfg, l, x, acts, passed, EndStamp(i));
  }

  lemma ReadsOld(stamp: int, due: int)
    requires stamp / WORD + 1 == due / WORD
    ensures Spliced(stamp, due) == due - WORD
  {
    assert due == due / WORD * WORD + due % WORD;
  }

  lemma TornPass(cfg: Config, l: Limits, mid: Watched, i: nat, stamps: seq<int>)
    requires mid.open == {} && !mid.m.reset && mid.m.dog.Some? && mid.m.now >= mid.m.dog.value.nextDue
    requires i < |mid.m.cells| == |stamps| && mid.m.cells[i].storing == Some(mid.m.now)
    requires forall k :: 0 <= k < |stamps| ==> !StaleAt(mid.m.cells[k].slot, mid.m.now)
    requires forall k :: 0 <= k < |stamps| && k != i ==>
               mid.m.cells[k].storing.None? && stamps[k] == mid.m.cells[k].slot.lastSeen
    requires stamps[i] == Spliced(mid.m.cells[i].slot.lastSeen, mid.m.now)
        && StaleAt(mid.m.cells[i].slot.(lastSeen := stamps[i]), mid.m.now)
    ensures Enabled(mid.m, Pass(stamps)) && Fair(l, mid, Pass(stamps))
    ensures Observe(cfg, mid, Pass(stamps))
            == Watched(mid.m.(dog := Some(mid.m.dog.value.(nextDue := mid.m.now + cfg.interval))), {i})
  {
    hide Spliced;
    assert Torn(mid.m.cells[i].slot.lastSeen, mid.m.now, stamps[i]);
    hide Torn;
    assert StaleAt(Read(mid.m.cells, stamps)[i], mid.m.now);
    assert (set k: nat | k < |mid.m.cells| && mid.m.cells[k].storing.Some?) == {i};
  }

  /** The stamps of the slots from `i` on lie in the word before `due`..`end`. */
  ghost predicate InLastWord(x: Watched, i: nat, n: nat, word: int, due: int, end: int) {
    && n <= |x.m.cells|
    && (word + 1) * 0x1_0000_0000 <= due <= end < (word + 2) * 0x1_0000_0000
    && forall k :: i <= k < n ==>
         && word * 0x1_0000_0000 <= x.m.cells[k].slot.lastSeen < (word + 1) * 0x1_0000_0000
         && x.m.cells[k].slot.maxSilence < WORD
  }

  /** The slots from `i` to `n` lose one feed each, pass after pass, up to `end`. */
  ghost predicate Drained(cfg: Config, l: Limits, x: Watched, i: nat, n: nat, y: Watched, from: int, end: int) {
    && Calm(l, x) && Calm(l, y) && |x.m.cells| == |y.m.cells|
    && y.m.dog.value.lastFeed == x.m.dog.value.lastFeed
    && (i < n ==> y.m.now == end && y.m.dog.value.nextDue == end + cfg.interval)
    && (forall k :: 0 <= k < |x.m.cells| ==>
          && y.m.cells[k].slot.maxSilence == x.m.cells[k].slot.maxSilence
          && (y.m.cells[k] == x.m.cells[k] || from <= y.m.cells[k].slot.lastSeen <= end))
    && forall k :: i <= k < n && k < |x.m.cells| ==> from <= y.m.cells[k].slot.lastSeen <= end
  }

  lemma {:induction false} Drain(cfg: Config, l: Limits, x: Watched, i: nat, n: nat, word: int, end: int)
    returns (acts: seq<Action>, y: Watched)
    requires cfg.Built() && Calm(l, x) && i < n
    requires InLastWord(x, i, n, word, x.m.dog.value.nextDue + l.late, end)
    requires end == x.m.dog.value.nextDue + l.late + Rounds(n - i - 1, cfg.interval + l.late)
    requires end < x.m.dog.value.lastFeed + cfg.timeout
    requires forall k :: 0 <= k < |x.m.cells| ==> end - x.m.cells[k].slot.lastSeen <= x.m.cells[k].slot.maxSilence
    ensures Honest(cfg, l, x, acts, y)
    ensures Drained(cfg, l, x, i, n, y, x.m.dog.value.nextDue + l.late, end)
    decreases n - i
  {
    var due := x.m.dog.value.nextDue + l.late;
    InWord(x.m.cells[i].slot.lastSeen, word);
    InWord(due, word + 1);
    acts := Lose(cfg, l, x, i, due);
    y := Missed(cfg, x, i, due);
    OneMore(0, cfg.interval + l.late);
    hide Honest;
    if i + 1 < n {
      OneMore(n - i - 2, cfg.interval + l.late);
      hide Rounds;
      var rest, z := Drain(cfg, l, y, i + 1, n, word, end);
      Joined(cfg, l, x, acts, y, rest, z);
      acts, y := acts + rest, z;
    }
  }

  lemma InWord(stamp: int, word: int)
    requires word * 0x1_0000_0000 <= stamp < (word + 1) * 0x1_0000_0000
    ensures stamp / WORD == word
  {
  }

  lemma {:induction false} RegisterAll(cfg: Config, l: Limits, x: Watched, n: nat, budget: nat)
    returns (acts: seq<Action>, y: Watched)
    requires 0 < budget <= l.budget && |x.m.cells| + n <= l.slots && InLimits(l, x.m)
    ensures Honest(cfg, l, x, acts, y) && y == Watched(x.m.(cells := y.m.cells), x.open)
    ensures |y.m.cells| == |x.m.cells| + n && x.m.cells <= y.m.cells
    ensures forall k :: |x.m.cells| <= k < |y.m.cells| ==> y.m.cells[k] == Cell(Slot(budget, x.m.now), None)
  {
    acts, y := [], x;
    if n > 0 {
      acts, y := RegisterAll(cfg, l, x, n - 1, budget);
      acts := Then(cfg, l, x, acts, y, Register(budget));
      y := Observe(cfg, y, Register(budget));
    }
  }

  /** Armed one round before the pass at `first`, with `n` slots of that budget
      that were stamped one millisecond before the word ends. */
  ghost predicate Ready(cfg: Config, l: Limits, x: Watched, n: nat, budget: nat, stamp: int, first: int) {
    && Calm(l, x) && |x.m.cells| == n
    && x.m.dog.value.lastFeed == first - (cfg.interval + l.late) && x.m.dog.value.nextDue + l.late == first
    && forall k :: 0 <= k < n ==> x.m.cells[k] == Cell(Slot(budget, stamp), None)
  }

  lemma GetReady(cfg: Config, l: Limits, n: nat, budget: nat, stamp: int, first: int)
    returns (acts: seq<Action>, x: Watched)
    requires cfg.Built() && n <= l.slots && 0 < budget <= l.budget
    requires 0 <= stamp <= first && 0 <= first - (cfg.interval + l.late)
        && stamp + cfg.interval + l.late < first + cfg.timeout
    ensures Honest(cfg, l, BOOT, acts, x) && Ready(cfg, l, x, n, budget, stamp, first)
  {
    var armed := first - (cfg.interval + l.late);
    acts, x := [], BOOT;
    assert Honest(cfg, l, BOOT, acts, x);
    hide Honest;
    if armed <= stamp {
      acts, x := Armament(cfg, l, acts, x, armed);
      acts := Then(cfg, l, BOOT, acts, x, Wait(stamp - armed));
      x := Observe(cfg, x, Wait(stamp - armed));
      var more, y := RegisterAll(cfg, l, x, n, budget);
      Joined(cfg, l, BOOT, acts, x, more, y);
      acts, x := acts + more, y;
    } else {
      acts := Then(cfg, l, BOOT, acts, x, Wait(stamp));
      x := Observe(cfg, x, Wait(stamp));
      var more, y := RegisterAll(cfg, l, x, n, budget);
      Joined(cfg, l, BOOT, acts, x, more, y);
      acts, x := acts + more, y;
      acts, x := Armament(cfg, l, acts, x, armed);
    }
  }

  lemma Armament(cfg: Config, l: Limits, acts: seq<Action>, x: Watched, armed: int)
    returns (more: seq<Action>, y: Watched)
    requires Honest(cfg, l, BOOT, acts, x) && InLimits(l, x.m) && x.m.dog.None? && x.m.now <= armed
    ensures Honest(cfg, l, BOOT, more, y)
    ensures y == Watched(x.m.(now := armed, dog := Some(Armed(armed, armed, armed + cfg.interval))), x.open)
        && InLimits(l, y.m)
  {
    more := Then(cfg, l, BOOT, acts, x, Wait(armed - x.m.now));
    y := Observe(cfg, x, Wait(armed - x.m.now));
    more := Then(cfg, l, BOOT, more, y, Arm);
    y := Observe(cfg, y, Arm);
  }

  /** After the last of `lost` feeds there is no other pass in time. */
  lemma Expires(cfg: Config, l: Limits, acts: seq<Action>, x: Watched) returns (more: seq<Action>, y: Watched)
    requires Honest(cfg, l, BOOT, acts, x) && InLimits(l, x.m) && x.m.dog.Some?
    requires x.m.dog.value.nextDue == x.m.now + cfg.interval
    requires x.m.now + cfg.interval + l.late >= x.m.dog.value.lastFeed + cfg.timeout
    ensures Honest(cfg, l, BOOT, more, y) && y.m.reset
  {
    var last := Wait(cfg.interval + l.late);
    more := Then(cfg, l, BOOT, acts, x, last);
    y := Observe(cfg, x, last);
  }

  lemma RoundsAdd(a: nat, b: nat, d: nat)
    ensures Rounds(a, d) + Rounds(b, d) == Rounds(a + b, d)
  {
  }

  lemma {:induction false} FirstTooMany(n: nat, d: nat, timeout: nat) returns (q: nat)
    requires 0 < timeout <= Rounds(n + 1, d)
    ensures q <= n && Rounds(q, d) < timeout <= Rounds(q + 1, d)
  {
    OneMore(0, d);
    q := n;
    if Rounds(n, d) >= timeout {
      q := FirstTooMany(n - 1, d, timeout);
    }
  }

  /** `q` slots that all store across one carry, one at every late pass. */
  lemma OneCarry(cfg: Config, l: Limits, q: nat) returns (acts: seq<Action>, y: Watched)
    requires cfg.Built() && cfg.timeout <= l.budget && q <= l.slots
    requires Rounds(q, cfg.interval + l.late) < cfg.timeout <= Rounds(q + 1, cfg.interval + l.late)
    ensures Honest(cfg, l, BOOT, acts, y) && y.m.reset
  {
    var round := cfg.interval + l.late;
    OneMore(q, round);
    OneMore(0, round);
    if q == 0 {
      acts, y := [], BOOT;
      assert Honest(cfg, l, BOOT, acts, y);
      acts, y := Armament(cfg, l, acts, y, 0);
    } else {
      OneMore(q - 1, round);
      hide Rounds;
      hide Honest;
      assert WORD == 0x1_0000_0000;
      var ready;
      acts, ready := GetReady(cfg, l, q, cfg.timeout, WORD - 1, WORD);
      var end := WORD + Rounds(q - 1, round);
      var more, z := Drain(cfg, l, ready, 0, q, 0, end);
      Joined(cfg, l, BOOT, acts, ready, more, z);
      acts, y := acts + more, z;
    }
    acts, y := Expires(cfg, l, acts, y);
  }

  /** Every slot stores just before one carry what it stored before the last. */
  lemma BeforeTheCarry(cfg: Config, l: Limits) returns (acts: seq<Action>, y: Watched)
    requires cfg.Built() && l.budget == WORD - 1 && l.slots > 0
    requires Rounds(l.slots, cfg.interval + l.late) < cfg.timeout
    ensures Honest(cfg, l, BOOT, acts, y) && Calm(l, y) && |y.m.cells| == l.slots
    ensures y.m.now == 2 * WORD - 2 && y.m.dog.value.nextDue == y.m.now + cfg.interval
    ensures y.m.dog.value.lastFeed == y.m.now - Rounds(l.slots, cfg.interval + l.late)
    ensures forall k :: 0 <= k < l.slots ==>
              && y.m.cells[k].slot.maxSilence == WORD - 1
              && y.m.dog.value.lastFeed < y.m.cells[k].slot.lastSeen <= y.m.now
  {
    var round, n := cfg.interval + l.late, l.slots;
    OneMore(n - 1, round);
    OneMore(0, round);
    hide Rounds;
    hide Honest;
    assert WORD == 0x1_0000_0000;
    var end := 2 * WORD - 2;
    var first := end - Rounds(n - 1, round);
    var ready;
    acts, ready := GetReady(cfg, l, n, WORD - 1, WORD - 1, first);
    var more, z := Drain(cfg, l, ready, 0, n, 0, end);
    Joined(cfg, l, BOOT, acts, ready, more, z);
    acts, y := acts + more, z;
  }

  /** And some of them again, just behind the carry. */
  lemma TwoCarries(cfg: Config, l: Limits, q: nat) returns (acts: seq<Action>, y: Watched)
    requires cfg.Built() && l.budget == WORD - 1 && l.slots < q <= 2 * l.slots
    requires Rounds(q, cfg.interval + l.late) < cfg.timeout <= Rounds(q + 1, cfg.interval + l.late)
    ensures Honest(cfg, l, BOOT, acts, y) && y.m.reset
  {
    var round, n := cfg.interval + l.late, l.slots;
    OneMore(q, round);
    OneMore(q - n - 1, round);
    RoundsAdd(n, q - n, round);
    OneMore(0, round);
    hide Rounds;
    hide Honest;
    assert WORD == 0x1_0000_0000;
    acts, y := BeforeTheCarry(cfg, l);
    var more, z := Drain(cfg, l, y, 0, q - n, 1, y.m.now + round + Rounds(q - n - 1, round));
    Joined(cfg, l, BOOT, acts, y, more, z);
    acts, y := acts + more, z;
    acts, y := Expires(cfg, l, acts, y);
  }

  /** No fair run of any machine within the limits is reset. */
  ghost predicate NeverResets(cfg: Config, l: Limits) {
    forall acts, y :: Honest(cfg, l, BOOT, acts, y) ==> !y.m.reset
  }

  lemma ExactlyEnough(cfg: Config, l: Limits)
    requires cfg.Built()
    requires cfg.timeout <= l.budget <= WORD - cfg.timeout || l.budget == WORD - 1
    ensures NeverResets(cfg, l) <==> Enough(cfg, l)
  {
    if Enough(cfg, l) {
      Absorbed(cfg, l);
    } else {
      var q := FirstTooMany(Losses(cfg, l), cfg.interval + l.late, cfg.timeout);
      hide Rounds;
      var acts, y;
      if q <= l.slots {
        acts, y := OneCarry(cfg, l, q);
      } else {
        acts, y := TwoCarries(cfg, l, q);
      }
    }
  }

  /** The factor of three does not absorb torn stamps by itself. Fresh loops are
      never reset if and only if the timeout is longer than one round more than
      the slots can lose between them: two feeds each, since a budget may be any
      uint32_t, or one each where every budget leaves room for the timeout in the
      32-bit word. */
  lemma TornStampsExactly(cfg: Config, slots: nat, late: nat)
    requires cfg.Built()
    ensures NeverResets(cfg, Limits(slots, WORD - 1, late)) <==>
              (2 * slots + 1) * (cfg.interval + late) < cfg.timeout
    ensures NeverResets(cfg, Limits(slots, WORD - cfg.timeout, late)) <==>
              (slots + 1) * (cfg.interval + late) < cfg.timeout
  {
    ExactlyEnough(cfg, Limits(slots, WORD - 1, late));
    ExactlyEnough(cfg, Limits(slots, WORD - cfg.timeout, late));
  }

  lemma Absorbed(cfg: Config, l: Limits)
    requires cfg.Built() && l.budget < WORD && Enough(cfg, l)
    ensures NeverResets(cfg, l)
  {
    forall acts, y | Honest(cfg, l, BOOT, acts, y)
      ensures !y.m.reset
    {
      TornStampsNeverReset(cfg, l, BOOT, acts, y, {}, {});
    }
  }

  /** What the factor of three does absorb: one slot, and half an interval. */
  lemma OneSlotIsAbsorbed(cfg: Config, l: Limits)
    requires cfg.Built() && l.slots <= 1 && 2 * l.late < cfg.interval && l.budget + cfg.timeout <= WORD
    ensures NeverResets(cfg, l)
  {
    Absorbed(cfg, l);
  }

  /** Two slots under a timeout of three intervals are enough for a reset
      although no loop ever was silent and no pass late; the defaults, 60 s, 10 s
      and four slots, stand it with passes up to 2 s late. */
  lemma TwoSlotsReset()
    ensures !NeverResets(Config(30_000, 10_000), Limits(2, 60_000, 0))
    ensures forall late: nat :: NeverResets(Config(60_000, 10_000), Limits(4, 60_000, late)) <==> late < 2_000
  {
    ExactlyEnough(Config(30_000, 10_000), Limits(2, 60_000, 0));
    forall late: nat
      ensures NeverResets(Config(60_000, 10_000), Limits(4, 60_000, late)) <==> late < 2_000
    {
      ExactlyEnough(Config(60_000, 10_000), Limits(4, 60_000, late));
    }
  }
}
