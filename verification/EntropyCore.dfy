/** The state of `struct mcuhome_entropy_core` and the critical sections that
    change it (drivers/entropy/entropy_ipc_core.c).

    Every section the C code runs under the spinlock is a function on the value
    `Core`, and a method of the class `Driver` that updates the fields in place
    and is proved to compute that function. The interleaving of the sections is
    the business of module EntropyProtocol. */
module EntropyCore {
  import opened Wrappers

  /** 32 bytes of entropy and a 16-byte nonce, fetched in one exchange. */
  const SEED_BYTES: nat := 48
  const SEED_REQUEST_TIMEOUT_MS: int := 250
  const DRBG_MAX_REQUEST: nat := 1024
  const INT64_MAX: int := 0x7FFF_FFFF_FFFF_FFFF
  const SIZE_LIMIT: int := 0x1_0000_0000
  const UINT16_LIMIT: int := 0x1_0000

  type Seed = s: seq<Byte> | |s| == SEED_BYTES witness seq(SEED_BYTES, _ => 0)

  function Zeroes(): Seed {
    seq(SEED_BYTES, _ => 0)
  }

  datatype Core = Core(
    staged: Seed,
    stagedLen: nat,
    feed: Seed,
    feedLen: nat,
    feedOff: nat,
    seeded: bool,
    inFlight: bool,
    expiry: int,
    nextReseed: int)
  {
    predicate Valid() {
      && (stagedLen == 0 || stagedLen == SEED_BYTES)
      && (stagedLen == 0 ==> staged == Zeroes())
      && feedOff <= feedLen <= SEED_BYTES
    }
  }

  const INITIAL: Core := Core(Zeroes(), 0, Zeroes(), 0, 0, false, false, 0, INT64_MAX)

  // ---- the sections, on values -------------------------------------------

  /** `take_staged`: the staging buffer and the in-flight flag are cleared
      whether or not there was anything to take. */
  function AfterTake(c: Core): Core {
    var moved := if c.stagedLen == SEED_BYTES
                 then c.(feed := c.staged, feedLen := SEED_BYTES, feedOff := 0)
                 else c;
    moved.(staged := Zeroes(), stagedLen := 0, inFlight := false)
  }

  predicate Busy(c: Core, now: int) {
    c.inFlight && now < c.expiry
  }

  /** The locked half of `request_seed`. */
  function AfterRequest(c: Core, now: int): Core {
    if Busy(c, now) then c
    else c.(inFlight := true, expiry := now + SEED_REQUEST_TIMEOUT_MS)
  }

  function RequestFailed(c: Core): Core {
    c.(inFlight := false)
  }

  function StageBytes(c: Core, bytes: Seed): Core {
    c.(staged := bytes, stagedLen := SEED_BYTES)
  }

  function WipeFeed(c: Core): Core {
    c.(feed := Zeroes(), feedLen := 0, feedOff := 0)
  }

  function AfterPublish(c: Core): Core {
    WipeFeed(c).(seeded := true)
  }

  function ScheduleReseed(c: Core, now: int, intervalMs: nat): Core {
    c.(nextReseed := if intervalMs == 0 then INT64_MAX else now + intervalMs)
  }

  /** The C comparison is made in size_t: a negative difference would turn into
      a huge one and the copy would run past the buffer. */
  predicate CallbackRefuses(c: Core, len: nat) {
    len > (c.feedLen - c.feedOff) % SIZE_LIMIT
  }

  function Advance(c: Core, len: nat): Core {
    c.(feedOff := (c.feedOff + len % UINT16_LIMIT) % UINT16_LIMIT)
  }

  /** What one run of the library reads: `lens` are the lengths it asks the
      callback for, and the first refusal ends it. */
  function Draw(c: Core, lens: seq<nat>): (r: (Core, Option<seq<Byte>>))
    requires c.Valid()
    ensures r.0 == c.(feedOff := r.0.feedOff) && c.feedOff <= r.0.feedOff <= c.feedLen
    ensures r.1.Some? ==> r.1.value == c.feed[c.feedOff..r.0.feedOff]
    ensures r.1.Some? <==> Sum(lens) <= c.feedLen - c.feedOff
    decreases |lens|
  {
    if lens == [] then (c, Some([]))
    else if CallbackRefuses(c, lens[0]) then (c, None)
    else
      assert c.feedOff + lens[0] <= c.feedLen && Advance(c, lens[0]).feedOff == c.feedOff + lens[0];
      var got := c.feed[c.feedOff..c.feedOff + lens[0]];
      var (after, rest) := Draw(Advance(c, lens[0]), lens[1..]);
      (after, if rest.Some? then Some(got + rest.value) else None)
  }

  /** Neither the size_t comparison nor the uint16_t sum ever wraps. */
  lemma CallbackIsPlain(c: Core, len: nat)
    requires c.Valid()
    ensures CallbackRefuses(c, len) <==> len > c.feedLen - c.feedOff
    ensures len <= c.feedLen - c.feedOff ==> Advance(c, len) == c.(feedOff := c.feedOff + len)
  {
  }

  lemma DrawStep(c: Core, lens: seq<nat>)
    requires c.Valid() && lens != []
    ensures c.feedLen - c.feedOff < lens[0] ==> Draw(c, lens) == (c, None)
    ensures lens[0] <= c.feedLen - c.feedOff ==>
              var next := c.(feedOff := c.feedOff + lens[0]);
              var rest := Draw(next, lens[1..]);
              next.Valid() && Draw(c, lens).0 == rest.0
              && Draw(c, lens).1 == if rest.1.Some? then Some(c.feed[c.feedOff..next.feedOff] + rest.1.value) else None
  {
    CallbackIsPlain(c, lens[0]);
    hide CallbackRefuses, Advance, Sum;
  }

  function Sum(lens: seq<nat>): nat {
    if lens == [] then 0 else lens[0] + Sum(lens[1..])
  }

  /** `reseed` holds the spinlock over the library call and wipes the feed
      whatever the library answered. */
  function ReseedSection(c: Core, lens: seq<nat>): Core
    requires c.Valid()
  {
    WipeFeed(Draw(c, lens).0)
  }

  // ---- the same sections, in place ---------------------------------------

  class Driver {
    var staged: Seed
    var stagedLen: nat
    var feed: Seed
    var feedLen: nat
    var feedOff: nat
    var seeded: bool
    var inFlight: bool
    var expiry: int
    var nextReseed: int

    ghost function View(): Core
      reads this
    {
      Core(staged, stagedLen, feed, feedLen, feedOff, seeded, inFlight, expiry, nextReseed)
    }

    /** mcuhome_entropy_core_init */
    constructor ()
      ensures View() == INITIAL && View().Valid()
    {
      staged, stagedLen, feed, feedLen, feedOff := Zeroes(), 0, Zeroes(), 0, 0;
      seeded, inFlight, expiry, nextReseed := false, false, 0, INT64_MAX;
    }

    method TakeStaged() returns (complete: bool)
      requires View().Valid()
      modifies this
      ensures View() == AfterTake(old(View())) && View().Valid()
      ensures complete <==> old(stagedLen) == SEED_BYTES
      ensures complete ==> feed == old(staged) && feedLen == SEED_BYTES && feedOff == 0
      ensures !complete ==> feed == old(feed) && feedLen == old(feedLen) && feedOff == old(feedOff)
      ensures staged == Zeroes() && stagedLen == 0 && !inFlight
      ensures seeded == old(seeded) && expiry == old(expiry) && nextReseed == old(nextReseed)
    {
      complete := stagedLen == SEED_BYTES;
      if complete {
        feed, feedLen, feedOff := staged, SEED_BYTES, 0;
      }
      staged, stagedLen, inFlight := Zeroes(), 0, false;
    }

    method MarkRequested(now: int) returns (busy: bool)
      requires View().Valid()
      modifies this
      ensures View() == AfterRequest(old(View()), now) && View().Valid()
      ensures busy <==> old(inFlight && now < expiry)
      ensures View() == if busy then old(View())
                        else old(View()).(inFlight := true, expiry := now + SEED_REQUEST_TIMEOUT_MS)
    {
      busy := inFlight && now < expiry;
      if !busy {
        inFlight, expiry := true, now + SEED_REQUEST_TIMEOUT_MS;
      }
    }

    /** mcuhome_entropy_core_stage: a delivery of any other length is dropped
        and only ends the request; an accepted one is to be signalled. */
    method Stage(buf: seq<Byte>) returns (accepted: bool)
      requires View().Valid()
      modifies this
      ensures accepted <==> |buf| == SEED_BYTES
      ensures View().Valid()
      ensures View() == if |buf| == SEED_BYTES
                        then StageBytes(old(View()), buf)
                        else RequestFailed(old(View()))
      ensures if accepted then staged == buf && stagedLen == |buf| && inFlight == old(inFlight)
              else staged == old(staged) && stagedLen == old(stagedLen) && !inFlight
    {
      if |buf| != SEED_BYTES {
        inFlight := false;
        return false;
      }
      staged, stagedLen := buf, SEED_BYTES;
      accepted := true;
    }

    /** mcuhome_entropy_core_request_failed */
    method FailRequest()
      requires View().Valid()
      modifies this`inFlight
      ensures View() == RequestFailed(old(View())) && View().Valid()
    {
      inFlight := false;
    }

    /** core_entropy_cb: never past `feed_len`, and bytes in order. */
    method EntropyCallback(len: nat) returns (out: Option<seq<Byte>>)
      requires View().Valid()
      modifies this`feedOff
      ensures View().Valid()
      ensures out.None? <==> len > old(feedLen - feedOff)
      ensures out.None? ==> feedOff == old(feedOff)
      ensures out.Some? ==>
                && feedOff == old(feedOff) + len <= feedLen
                && out.value == feed[old(feedOff)..feedOff]
    {
      if len > (feedLen - feedOff) % SIZE_LIMIT {
        return None;
      }
      out := Some(feed[feedOff..feedOff + len]);
      feedOff := (feedOff + len % UINT16_LIMIT) % UINT16_LIMIT;
    }

    /** One library run over the feed, as `mbedtls_ctr_drbg_seed` and
        `mbedtls_ctr_drbg_reseed` make it. */
    method RunLibrary(lens: seq<nat>) returns (material: Option<seq<Byte>>)
      requires View().Valid()
      modifies this`feedOff
      ensures View() == Draw(old(View()), lens).0 && View().Valid()
      ensures material == Draw(old(View()), lens).1
      decreases |lens|
    {
      if lens == [] {
        return Some([]);
      }
      ghost var before := View();
      DrawStep(before, lens);
      hide Draw;
      var first := EntropyCallback(lens[0]);
      if first.None? {
        assert View() == before;
        return None;
      }
      assert View() == before.(feedOff := before.feedOff + lens[0]);
      var rest := RunLibrary(lens[1..]);
      material := if rest.Some? then Some(first.value + rest.value) else None;
    }

    method Publish()
      requires View().Valid()
      modifies this
      ensures View() == AfterPublish(old(View())) && View().Valid()
      ensures seeded && feed == Zeroes() && feedLen == 0 && feedOff == 0
      ensures staged == old(staged) && stagedLen == old(stagedLen) && inFlight == old(inFlight)
    {
      seeded, feed, feedLen, feedOff := true, Zeroes(), 0, 0;
    }

    method Reseed(lens: seq<nat>) returns (material: Option<seq<Byte>>)
      requires View().Valid()
      modifies this
      ensures View() == ReseedSection(old(View()), lens) && View().Valid()
      ensures material == Draw(old(View()), lens).1
      ensures feed == Zeroes() && feedLen == 0 && feedOff == 0
      ensures staged == old(staged) && stagedLen == old(stagedLen) && seeded == old(seeded)
    {
      material := RunLibrary(lens);
      feed, feedLen, feedOff := Zeroes(), 0, 0;
    }

    /** `generate`: chunk by chunk until the buffer is full or the library
        fails. `stream` is the output of the abstract DRBG from here on and
        `refuses(k)` whether its k-th call fails. */
    method Generate(buffer: array<Byte>, stream: nat -> Byte, refuses: nat -> bool)
      returns (ok: bool, chunks: nat)
      requires buffer.Length < UINT16_LIMIT
      modifies buffer
      ensures !seeded ==> !ok && chunks == 0 && buffer[..] == old(buffer[..])
      ensures seeded ==> (ok <==> forall k :: 0 <= k < Chunks(buffer.Length) ==> !refuses(k))
      ensures ok ==> chunks == Chunks(buffer.Length)
                     && forall i :: 0 <= i < buffer.Length ==> buffer[i] == stream(i)
      ensures seeded && !ok ==> chunks < Chunks(buffer.Length) && refuses(chunks)
      ensures forall i :: chunks * DRBG_MAX_REQUEST <= i < buffer.Length ==> buffer[i] == old(buffer[i])
    {
      chunks := 0;
      if !seeded {
        return false, 0;
      }
      var length, at := buffer.Length, 0;
      while length > 0
        invariant 0 <= at && 0 <= length && at + length == buffer.Length
        invariant length > 0 ==> at == chunks * DRBG_MAX_REQUEST && chunks < Chunks(buffer.Length)
        invariant length == 0 ==> chunks == Chunks(buffer.Length)
        invariant forall k :: 0 <= k < chunks ==> !refuses(k)
        invariant forall i :: 0 <= i < at ==> buffer[i] == stream(i)
        invariant forall i :: at <= i < buffer.Length ==> buffer[i] == old(buffer[i])
      {
        var chunk := if length < DRBG_MAX_REQUEST then length else DRBG_MAX_REQUEST;
        if refuses(chunks) {
          return false, chunks;
        }
        forall i | at <= i < at + chunk {
          buffer[i] := stream(i);
        }
        at, length, chunks := at + chunk, length - chunk, chunks + 1;
      }
      ok := true;
    }
  }

  /** The least number of chunks that hold `length` bytes. */
  function Chunks(length: nat): (n: nat)
    ensures length <= n * DRBG_MAX_REQUEST < length + DRBG_MAX_REQUEST
  {
    (length + DRBG_MAX_REQUEST - 1) / DRBG_MAX_REQUEST
  }
}
