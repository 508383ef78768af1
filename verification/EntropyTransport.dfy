/** The endpoint between the two cores (drivers/entropy/entropy_mcuhome_ipc.c,
    include/mcuhome/entropy_ipc.h): what a message from the peer does to the core. */
module EntropyTransport {
  import opened Wrappers
  import opened EntropyCore
  import EntropyProtocol

  const HEADER_BYTES: nat := 4
  const MAX_BYTES: nat := 64

  /** 0x5E01: the version is the low byte. */
  const MAGIC_LOW: Byte := 0x01
  const MAGIC_HIGH: Byte := 0x5E

  /** The response a peer of this version sends for `bytes`; no bytes is its refusal. */
  function Frame(bytes: seq<Byte>): seq<Byte>
    requires |bytes| <= MAX_BYTES
  {
    [MAGIC_LOW, MAGIC_HIGH, |bytes|, 0] + bytes
  }

  function U16(low: Byte, high: Byte): nat {
    low + high * 256
  }

  /** The seed a message carries: a frame of exactly the requested size. */
  function SeedIn(raw: seq<Byte>): Option<Seed> {
    if |raw| == 52 && raw[..4] == [0x01, 0x5E, 48, 0] then Some(raw[4..]) else None
  }

  /** The core after a message. */
  function AfterMessage(c: Core, raw: seq<Byte>): Core {
    if SeedIn(raw).Some? then StageBytes(c, SeedIn(raw).value) else RequestFailed(c)
  }

  class Endpoint {
    const driver: Driver
    var bound: bool

    constructor (driver: Driver)
      ensures this.driver == driver && !bound
    {
      this.driver, bound := driver, false;
    }

    /** ept_received: every message stages a seed or ends the request. */
    method Received(raw: seq<Byte>) returns (accepted: bool)
      requires driver.View().Valid()
      modifies driver
      ensures driver.View() == AfterMessage(old(driver.View()), raw) && driver.View().Valid()
      ensures accepted <==> SeedIn(raw).Some?
    {
      accepted := false;
      if |raw| < HEADER_BYTES || |raw| > HEADER_BYTES + MAX_BYTES {
        driver.FailRequest();
        return;
      }
      var magic, nbytes := U16(raw[0], raw[1]), U16(raw[2], raw[3]);
      Header(raw);
      if magic != U16(MAGIC_LOW, MAGIC_HIGH) {
        driver.FailRequest();
        return;
      }
      if nbytes == 0 || |raw| != HEADER_BYTES + nbytes {
        driver.FailRequest();
        return;
      }
      accepted := driver.Stage(raw[HEADER_BYTES..]);
    }

    /** ept_unbound: the peer went away, and with it the outstanding request. */
    method Unbound()
      requires driver.View().Valid()
      modifies this`bound, driver
      ensures !bound && driver.View() == RequestFailed(old(driver.View())) && driver.View().Valid()
    {
      bound := false;
      driver.FailRequest();
    }
  }

  /** The two 16-bit fields decide the four header bytes. */
  lemma Header(raw: seq<Byte>)
    requires |raw| >= 4
    ensures SeedIn(raw).Some? <==> |raw| == 52 && U16(raw[0], raw[1]) == 0x5E01 && U16(raw[2], raw[3]) == 48
  {
    assert raw[..4] == [raw[0], raw[1], raw[2], raw[3]];
  }

  /** A message stages a seed exactly when it is the frame a peer sends for one:
      a short or long answer, a refusal and a stale image's message do not. */
  lemma OnlyFramesSeed(raw: seq<Byte>)
    ensures SeedIn(raw).Some? <==> exists seed: Seed :: raw == Frame(seed)
    ensures forall seed: Seed :: SeedIn(Frame(seed)) == Some(seed)
  {
    forall seed: Seed
      ensures SeedIn(Frame(seed)) == Some(seed)
    {
      assert Frame(seed)[..4] == [0x01, 0x5E, 48, 0] && Frame(seed)[4..] == seed;
    }
    if SeedIn(raw).Some? {
      var seed: Seed := raw[4..];
      assert raw == raw[..4] + seed;
      assert raw == Frame(seed);
    }
  }

  /** What the endpoint does to the core is a step of the protocol's environment. */
  lemma MessageIsEnvironment(cfg: EntropyProtocol.Config, s: EntropyProtocol.State, raw: seq<Byte>)
    requires s.core.Valid()
    ensures var a := if SeedIn(raw).Some? then EntropyProtocol.ProviderCopies(SeedIn(raw).value)
                     else EntropyProtocol.ProviderFails;
            var s' := EntropyProtocol.Act(cfg, s, a);
            s'.Some? && s'.value.core == AfterMessage(s.core, raw) && s'.value.pcs == s.pcs
  {
  }
}
