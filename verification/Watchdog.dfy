/** The evidence-fed watchdog (lib/health/health.c): liveness slots, the feeder
    and the hardware timer it feeds, in real time. */
module Watchdog {
  import opened Wrappers

  /** Milliseconds. Kconfig gives the ranges, and the build refuses a timeout of
      less than three intervals. */
  datatype Config = Config(timeout: nat, interval: nat)
  {
    predicate Built() {
      5_000 <= timeout <= 3_600_000 && 1_000 <= interval <= 600_000 && 3 * interval <= timeout
    }
  }

  datatype Slot = Slot(maxSilence: nat, lastSeen: int)

  predicate StaleAt(slot: Slot, now: int) {
    now - slot.lastSeen > slot.maxSilence
  }

  predicate AllFresh(slots: seq<Slot>, now: int) {
    forall i :: 0 <= i < |slots| ==> !StaleAt(slots[i], now)
  }

  // ---- the slot table, in place --------------------------------------------

  const EINVAL: int := 22
  const ENOSPC: int := 28

  /** What the guard of mcuhome_health_alive lets through. */
  predicate Admits(slot: int, count: nat) {
    slot >= 0 && slot % 256 < count
  }

  /** The guard keeps every unknown handle out, up to 255. */
  lemma GuardExactly(slot: int, count: nat)
    requires count <= 255
    ensures (Admits(slot, count) <==> 0 <= slot < count) <==> !(slot >= 256 && slot % 256 < count)
    ensures count > 0 ==> Admits(256, count)
  {
  }

  class SlotTable {
    var slots: array<Slot>
    var count: nat

    ghost predicate Shaped()
      reads this
    {
      count <= slots.Length <= 255
    }

    ghost function View(): seq<Slot>
      requires Shaped()
      reads this, slots
    {
      slots[..count]
    }

    /** mcuhome_health_liveness_register */
    method Register(maxSilence: nat, now: int) returns (handle: int)
      requires Shaped()
      modifies this`count, slots
      ensures Shaped()
      ensures handle >= 0 <==> maxSilence > 0 && old(count) < slots.Length
      ensures maxSilence == 0 ==> handle == -EINVAL
      ensures maxSilence > 0 && handle < 0 ==> handle == -ENOSPC
      ensures handle < 0 ==> View() == old(View())
      ensures handle >= 0 ==> handle == old(count) && View() == old(View()) + [Slot(maxSilence, now)]
    {
      if maxSilence == 0 {
        return -EINVAL;
      }
      if count == slots.Length {
        return -ENOSPC;
      }
      handle := count;
      slots[count] := Slot(maxSilence, now);
      count := count + 1;
      assert slots[..count] == old(slots[..count]) + [Slot(maxSilence, now)];
    }

    /** mcuhome_health_alive. The guard compares the handle after a cast to
        uint8_t, the store uses it whole: `outside` is a store past the table. */
    method Alive(slot: int, now: int) returns (outside: bool)
      requires Shaped()
      modifies slots
      ensures outside <==> slot >= 256 && slot % 256 < count
      ensures View() == if 0 <= slot < count then old(View())[slot := old(View())[slot].(lastSeen := now)]
                        else old(View())
    {
      if !Admits(slot, count) {
        return false;
      }
      if slot >= slots.Length {
        return true;
      }
      slots[slot] := slots[slot].(lastSeen := now);
      outside := false;
    }

    /** stale_slot: the first stale slot in registration order. */
    method StaleSlot(now: int) returns (stale: Option<nat>)
      requires Shaped()
      ensures stale.None? <==> AllFresh(View(), now)
      ensures stale.Some? ==>
                && stale.value < count && StaleAt(slots[stale.value], now)
                && AllFresh(View()[..stale.value], now)
    {
      var index := 0;
      while index < count
        invariant 0 <= index <= count
        invariant AllFresh(slots[..index], now)
      {
        if now - slots[index].lastSeen > slots[index].maxSilence {
          assert slots[..count][..index] == slots[..index];
          assert StaleAt(View()[index], now);
          return Some(index);
        }
        index := index + 1;
      }
      stale := None;
    }

    /** feed_work_handler; the next pass is scheduled whatever happened. */
    method FeedWork(cfg: Config, now: int) returns (fed: bool, nextDue: int)
      requires Shaped()
      ensures fed <==> AllFresh(View(), now)
      ensures nextDue == now + cfg.interval
    {
      var stale := StaleSlot(now);
      fed, nextDue := stale.None?, now + cfg.interval;
    }
  }

  // ---- the machine in time -------------------------------------------------

  /** A slot on the machine: a stamp is stored in two 32-bit halves, and `storing`
      is the one on its way. */
  datatype Cell = Cell(slot: Slot, storing: Option<int>)

  datatype Armed = Armed(since: int, lastFeed: int, nextDue: int)

  datatype Machine = Machine(now: int, cells: seq<Cell>, dog: Option<Armed>, reset: bool)

  datatype Action =
    | Wait(ms: nat)
    | Register(maxSilence: nat)
    | BeginStamp(i: nat)
    | EndStamp(i: nat)
    | Arm
    | Pass(stamps: seq<int>)

  const WORD: int := 0x1_0000_0000

  /** The stamp with the halves of two stamps. */
  function Spliced(upper: int, lower: int): int {
    upper / WORD * WORD + lower % WORD
  }

  predicate Torn(before: int, after: int, read: int) {
    read == Spliced(before, after) || read == Spliced(after, before)
  }

  /** What the feeder may read of a stamp. */
  predicate MayRead(c: Cell, read: int) {
    || read == c.slot.lastSeen
    || (c.storing.Some? && Torn(c.slot.lastSeen, c.storing.value, read))
  }

  function Read(cells: seq<Cell>, stamps: seq<int>): seq<Slot>
    requires |stamps| == |cells|
  {
    seq(|cells|, i requires 0 <= i < |cells| => cells[i].slot.(lastSeen := stamps[i]))
  }

  predicate Enabled(m: Machine, a: Action) {
    match a
    case Register(budget) => budget > 0
    case BeginStamp(i) => i < |m.cells| && m.cells[i].storing.None?
    case EndStamp(i) => i < |m.cells| && m.cells[i].storing.Some?
    case Arm => m.dog.None?
    case Pass(stamps) =>
      && m.dog.Some? && m.now >= m.dog.value.nextDue
      && |stamps| == |m.cells| && forall i :: 0 <= i < |stamps| ==> MayRead(m.cells[i], stamps[i])
    case _ => true
  }

  /** Once armed the timer runs by itself; a reset is for good. */
  function Expire(cfg: Config, m: Machine): Machine {
    if m.dog.Some? && m.now >= m.dog.value.lastFeed + cfg.timeout then m.(reset := true) else m
  }

  function Act(cfg: Config, m: Machine, a: Action): Machine
    requires Enabled(m, a)
  {
    match a
    case Wait(ms) => Expire(cfg, m.(now := m.now + ms))
    case Register(budget) => m.(cells := m.cells + [Cell(Slot(budget, m.now), None)])
    case BeginStamp(i) => m.(cells := m.cells[i := m.cells[i].(storing := Some(m.now))])
    case EndStamp(i) =>
      m.(cells := m.cells[i := Cell(m.cells[i].slot.(lastSeen := m.cells[i].storing.value), None)])
    case Arm => m.(dog := Some(Armed(m.now, m.now, m.now + cfg.interval)))
    case Pass(stamps) =>
      var feeds := AllFresh(Read(m.cells, stamps), m.now) && !m.reset;
      m.(dog := Some(m.dog.value.(lastFeed := if feeds then m.now else m.dog.value.lastFeed,
                                  nextDue := m.now + cfg.interval)))
  }

  ghost predicate Runs(cfg: Config, m: Machine, acts: seq<Action>, m': Machine)
    decreases |acts|
  {
    if acts == [] then m == m'
    else Enabled(m, acts[0]) && Runs(cfg, Act(cfg, m, acts[0]), acts[1..], m')
  }

  // ---- silence resets ------------------------------------------------------

  function Max(a: int, b: int): int {
    if a < b then b else a
  }

  /** The newest the feeder may take a slot's stamp for. */
  function LatestRead(c: Cell): int {
    if c.storing.None? then c.slot.lastSeen
    else
      var before, after := c.slot.lastSeen, c.storing.value;
      Max(before, Max(Spliced(before, after), Spliced(after, before)))
  }

  /** Nothing stamps slot `i` any more. */
  predicate Silent(acts: seq<Action>, i: nat) {
    forall k :: 0 <= k < |acts| ==> acts[k] != BeginStamp(i) && acts[k] != EndStamp(i)
  }

  /** The timer was last fed before the silence became too long, or not since it
      was armed; and it has not expired unless the machine was reset. */
  ghost predicate Doomed(cfg: Config, m: Machine, i: nat, c: Cell, seen: int) {
    && i < |m.cells| && m.cells[i] == c && LatestRead(c) <= seen
    && (m.dog.Some? ==> m.dog.value.lastFeed <= Max(m.dog.value.since, seen + c.slot.maxSilence))
    && (m.dog.Some? && !m.reset ==> m.now < m.dog.value.lastFeed + cfg.timeout)
  }

  lemma {:induction false} DoomKept(cfg: Config, m: Machine, acts: seq<Action>, m': Machine, i: nat, c: Cell, seen: int)
    requires cfg.Built() && Doomed(cfg, m, i, c, seen) && Runs(cfg, m, acts, m') && Silent(acts, i)
    ensures Doomed(cfg, m', i, c, seen)
    decreases |acts|
  {
    if acts != [] {
      var next := Act(cfg, m, acts[0]);
      if acts[0].Pass? {
        assert Read(m.cells, acts[0].stamps)[i] == c.slot.(lastSeen := acts[0].stamps[i]);
        assert MayRead(c, acts[0].stamps[i]);
      }
      assert forall k :: 0 <= k < |acts[1..]| ==> acts[1..][k] == acts[k + 1];
      hide LatestRead;
      hide Spliced;
      DoomKept(cfg, next, acts[1..], m', i, c, seen);
    }
  }

  /** A slot nothing stamps any more resets the device by
      max(arm time, seen + budget) + timeout, where nothing newer than `seen` can
      be read of it, whatever every other loop, the feeder's lateness and torn
      reads do. With no store under way `seen` is the stamp itself. */
  lemma SilenceResets(cfg: Config, m: Machine, acts: seq<Action>, m': Machine, i: nat, seen: int)
    requires cfg.Built() && Runs(cfg, m, acts, m') && Silent(acts, i)
    requires i < |m.cells| && LatestRead(m.cells[i]) <= seen
    requires m.dog.Some? ==>
               && m.dog.value.lastFeed <= Max(m.dog.value.since, seen + m.cells[i].slot.maxSilence)
               && (!m.reset ==> m.now < m.dog.value.lastFeed + cfg.timeout)
    requires m'.dog.Some?
    requires m'.now >= Max(m'.dog.value.since, seen + m.cells[i].slot.maxSilence) + cfg.timeout
    ensures m'.reset
  {
    hide LatestRead;
    DoomKept(cfg, m, acts, m', i, m.cells[i], seen);
  }

  /** A store under way is read as newer than the stamp it stores if and only if
      the low half wraps in it; then as the old stamp in the new upper word. */
  lemma NewestReading(c: Cell)
    requires c.storing.Some? && 0 <= c.slot.lastSeen <= c.storing.value
    ensures var before, after := c.slot.lastSeen, c.storing.value;
            LatestRead(c) == if before / WORD == after / WORD then after else Spliced(after, before)
    ensures LatestRead(c) > c.storing.value <==> c.slot.lastSeen % WORD > c.storing.value % WORD
    ensures c.slot.lastSeen / WORD != c.storing.value / WORD && c.storing.value < c.slot.lastSeen + WORD ==>
              LatestRead(c) == c.slot.lastSeen + WORD > c.storing.value
  {
    var before, after := c.slot.lastSeen, c.storing.value;
    assert before == before / 0x1_0000_0000 * 0x1_0000_0000 + before % 0x1_0000_0000;
    assert after == after / 0x1_0000_0000 * 0x1_0000_0000 + after % 0x1_0000_0000;
    assert before / 0x1_0000_0000 <= after / 0x1_0000_0000;
    assert 0 <= before % 0x1_0000_0000 < 0x1_0000_0000 && 0 <= after % 0x1_0000_0000 < 0x1_0000_0000;
  }

  /** The loop stops in the middle of its own store: `m` is the machine as the
      store begins, and nothing stamps the slot after that. */
  ghost predicate StopsInStore(cfg: Config, c: Cell, m: Machine, acts: seq<Action>, m': Machine, i: nat) {
    && i < |m.cells| && m.cells[i] == c && c.storing == Some(m.now)
    && (m.dog.Some? ==> m.dog.value.lastFeed <= m.now && (!m.reset ==> m.now < m.dog.value.lastFeed + cfg.timeout))
    && Runs(cfg, m, acts, m') && Silent(acts, i) && m'.dog.Some?
  }

  /** The bound counted from the stamp that was being stored. */
  ghost predicate InTime(cfg: Config, c: Cell, m': Machine)
    requires c.storing.Some? && m'.dog.Some?
  {
    m'.now >= Max(m'.dog.value.since, c.storing.value + c.slot.maxSilence) + cfg.timeout ==> m'.reset
  }

  /** A loop that stops in its own store resets the device in time, in every
      run, if and only if the low half of the stamp does not wrap in that store. */
  lemma StopInStoreExactly(cfg: Config, c: Cell)
    requires cfg.Built() && c.storing.Some? && 0 <= c.slot.lastSeen <= c.storing.value
    ensures (forall m, acts, m', i :: StopsInStore(cfg, c, m, acts, m', i) ==> InTime(cfg, c, m'))
            <==> c.slot.lastSeen % WORD <= c.storing.value % WORD
  {
    NewestReading(c);
    if c.slot.lastSeen % WORD <= c.storing.value % WORD {
      forall m, acts, m', i | StopsInStore(cfg, c, m, acts, m', i)
        ensures InTime(cfg, c, m')
      {
        if m'.now >= Max(m'.dog.value.since, c.storing.value + c.slot.maxSilence) + cfg.timeout {
          SilenceResets(cfg, m, acts, m', i, m.now);
        }
      }
    } else {
      var m, acts, m' := MisreadOutlives(cfg, c);
      assert StopsInStore(cfg, c, m, acts, m', 0) && !InTime(cfg, c, m');
    }
  }

  /** The run that outlives the bound: the last pass falls on the last moment the
      misread stamp is fresh. */
  lemma MisreadOutlives(cfg: Config, c: Cell) returns (m: Machine, acts: seq<Action>, m': Machine)
    requires cfg.Built() && c.storing.Some? && 0 <= c.slot.lastSeen <= c.storing.value < LatestRead(c)
    ensures StopsInStore(cfg, c, m, acts, m', 0) && !InTime(cfg, c, m')
    ensures !m'.reset && m'.now == LatestRead(c) + c.slot.maxSilence + cfg.timeout - 1
  {
    NewestReading(c);
    var now, read := c.storing.value, LatestRead(c);
    var last := read + c.slot.maxSilence;
    var armed := last - cfg.interval;
    assert MayRead(c, read);
    hide LatestRead;
    hide Spliced;
    var tail := [Pass([read]), Wait(cfg.timeout - 1)];
    var due := Machine(last, [c], Some(Armed(armed, armed, last)), false);
    var fed := Machine(last, [c], Some(Armed(armed, last, last + cfg.interval)), false);
    m' := fed.(now := last + cfg.timeout - 1);
    assert Read([c], [read]) == [c.slot.(lastSeen := read)];
    assert tail[1..] == [Wait(cfg.timeout - 1)] && tail[1..][1..] == [];
    assert Act(cfg, due, tail[0]) == fed && Act(cfg, fed, tail[1]) == m';
    assert Runs(cfg, due, tail, m') by {
      assert Runs(cfg, fed, tail[1..], m');
    }
    if armed <= now {
      m := due.(now := now);
      acts := [Wait(last - now)] + tail;
      assert acts[1..] == tail;
    } else {
      m := Machine(now, [c], None, false);
      acts := [Wait(armed - now), Arm, Wait(cfg.interval)] + tail;
      assert acts[1..] == [Arm, Wait(cfg.interval)] + tail && acts[1..][1..] == [Wait(cfg.interval)] + tail;
      assert acts[1..][1..][1..] == tail;
      var idle := m.(now := armed);
      var running := idle.(dog := Some(Armed(armed, armed, last)));
      assert Act(cfg, m, acts[0]) == idle && Act(cfg, idle, Arm) == running;
      assert Act(cfg, running, Wait(cfg.interval)) == due;
      assert Runs(cfg, running, [Wait(cfg.interval)] + tail, m');
      assert Runs(cfg, idle, [Arm, Wait(cfg.interval)] + tail, m');
    }
  }

  /** The rounds of a feeder that is never late, up to `last`. */
  function OnTimePasses(cfg: Config, read: int, now: int, last: int): seq<Action>
    requires cfg.Built()
    decreases last - now
  {
    if now + cfg.interval > last then []
    else [Wait(cfg.interval), Pass([read])] + OnTimePasses(cfg, read, now + cfg.interval, last)
  }

  function FedAt(cfg: Config, m: Machine, now: int): Machine
    requires m.dog.Some?
  {
    m.(now := now, dog := Some(Armed(m.dog.value.since, now, now + cfg.interval)))
  }

  lemma MisreadRound(cfg: Config, c: Cell, m: Machine, rest: seq<Action>, m': Machine)
    requires cfg.Built() && c.storing.Some? && m.cells == [c] && !m.reset
    requires m.dog.Some? && m.dog.value.lastFeed == m.now && m.dog.value.nextDue == m.now + cfg.interval
    requires 0 <= c.slot.lastSeen <= c.storing.value && m.now + cfg.interval <= LatestRead(c) + c.slot.maxSilence
    requires Runs(cfg, FedAt(cfg, m, m.now + cfg.interval), rest, m')
    ensures Runs(cfg, m, [Wait(cfg.interval), Pass([LatestRead(c)])] + rest, m')
  {
    NewestReading(c);
    var read := LatestRead(c);
    assert MayRead(c, read);
    hide LatestRead;
    hide Spliced;
    var waited := m.(now := m.now + cfg.interval);
    assert Read([c], [read]) == [c.slot.(lastSeen := read)];
    assert Act(cfg, m, Wait(cfg.interval)) == waited;
    assert Act(cfg, waited, Pass([read])) == FedAt(cfg, m, waited.now);
    var acts := [Wait(cfg.interval), Pass([read])] + rest;
    assert acts[1..] == [Pass([read])] + rest && acts[1..][1..] == rest;
    assert Runs(cfg, waited, acts[1..], m');
  }

  /** And an ordinary feeder, never late, feeds at every single pass until the
      misread stamp is stale: at a carry, 2^32 ms and the budget behind the old
      stamp. */
  lemma {:induction false} MisreadFeeds(cfg: Config, c: Cell, m: Machine, last: int) returns (later: int)
    requires cfg.Built() && c.storing.Some? && m.cells == [c] && !m.reset
    requires m.dog.Some? && m.dog.value.lastFeed == m.now && m.dog.value.nextDue == m.now + cfg.interval
    requires 0 <= c.slot.lastSeen <= c.storing.value && m.now <= last == LatestRead(c) + c.slot.maxSilence
    ensures last - cfg.interval < later <= last
    ensures Runs(cfg, m, OnTimePasses(cfg, LatestRead(c), m.now, last), FedAt(cfg, m, later))
    decreases last - m.now
  {
    hide Runs;
    if m.now + cfg.interval > last {
      later := m.now;
      NoRun(cfg, m);
    } else {
      later := MisreadFeeds(cfg, c, FedAt(cfg, m, m.now + cfg.interval), last);
      MisreadRound(cfg, c, m, OnTimePasses(cfg, LatestRead(c), m.now + cfg.interval, last), FedAt(cfg, m, later));
    }
  }

  lemma NoRun(cfg: Config, m: Machine)
    ensures Runs(cfg, m, [], m)
  {
  }

  // ---- evidence never resets -----------------------------------------------

  /** Every loop is fresh at every pass and the feeder is late by less than
      `slack`; the whole run long. */
  ghost predicate Healthy(cfg: Config, m: Machine, acts: seq<Action>, slack: nat)
    decreases |acts|
  {
    && (m.dog.Some? ==> m.now < m.dog.value.nextDue + slack)
    && (acts == [] || (
          && Enabled(m, acts[0])
          && (acts[0].Pass? ==> AllFresh(Read(m.cells, acts[0].stamps), m.now))
          && Healthy(cfg, Act(cfg, m, acts[0]), acts[1..], slack)))
  }

  ghost predicate FedLastPass(cfg: Config, m: Machine) {
    !m.reset && (m.dog.Some? ==> m.dog.value.nextDue == m.dog.value.lastFeed + cfg.interval)
  }

  /** A feeder that is late by less than two intervals keeps the device up. */
  lemma {:induction false} HealthNeverResets(cfg: Config, m: Machine, acts: seq<Action>, m': Machine)
    requires cfg.Built() && FedLastPass(cfg, m)
    requires Runs(cfg, m, acts, m') && Healthy(cfg, m, acts, 2 * cfg.interval)
    ensures FedLastPass(cfg, m')
    decreases |acts|
  {
    if acts != [] {
      var next := Act(cfg, m, acts[0]);
      assert Healthy(cfg, next, acts[1..], 2 * cfg.interval);
      HealthNeverResets(cfg, next, acts[1..], m');
    }
  }
}
