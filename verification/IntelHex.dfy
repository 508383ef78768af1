/** The program image an Intel HEX file describes (scripts/compare_firmware.py). */
module IntelHex {
  import opened Wrappers

  const DATA: Byte := 0x00
  const END_OF_FILE: Byte := 0x01
  const SEGMENT: Byte := 0x02
  const LINEAR: Byte := 0x04

  /** What the gap between two segments physically is on the device. */
  const ERASED: Byte := 0xFF

  // ---- the lines of the file -----------------------------------------------

  function BigEndian(bytes: seq<Byte>): nat {
    if bytes == [] then 0 else BigEndian(bytes[..|bytes| - 1]) * 256 + bytes[|bytes| - 1]
  }

  /** raw[4 : 4 + count]: a short line gives a short payload. */
  function Payload(raw: seq<Byte>): seq<Byte>
    requires |raw| >= 4
  {
    if 4 + raw[0] <= |raw| then raw[4..4 + raw[0]] else raw[4..]
  }

  datatype Record = Record(address: nat, payload: seq<Byte>)
  {
    function End(): nat { address + |payload| }

    predicate Holds(at: int) { address <= at < End() }

    function ByteAt(at: int): Byte
      requires Holds(at)
    {
      payload[at - address]
    }
  }

  /** The base address in force after `raws`: that of the latest extended address record. */
  function BaseAfter(raws: seq<seq<Byte>>): nat {
    if raws == [] then 0
    else
      var raw := raws[|raws| - 1];
      if |raw| >= 4 && raw[3] == SEGMENT then BigEndian(Payload(raw)) * 16
      else if |raw| >= 4 && raw[3] == LINEAR then BigEndian(Payload(raw)) * 65536
      else BaseAfter(raws[..|raws| - 1])
  }

  predicate IsData(raw: seq<Byte>) {
    |raw| >= 4 && raw[3] == DATA
  }

  /** The data records of `raws`, each at the base its own position has. */
  function DataOf(raws: seq<seq<Byte>>): seq<Record> {
    if raws == [] then []
    else
      var front, raw := raws[..|raws| - 1], raws[|raws| - 1];
      if IsData(raw) then
        DataOf(front) + [Record(BaseAfter(front) + BigEndian(raw[1..3]), Payload(raw))]
      else DataOf(front)
  }

  /** An extended address record: of a segment, or linear. */
  predicate SetsBase(raw: seq<Byte>) {
    |raw| >= 4 && (raw[3] == 0x02 || raw[3] == 0x04)
  }

  lemma {:induction false} BaseStays(raws: seq<seq<Byte>>, k: nat)
    requires k < |raws| && forall j :: k < j < |raws| ==> !SetsBase(raws[j])
    ensures BaseAfter(raws) == BaseAfter(raws[..k + 1])
  {
    if k + 1 < |raws| {
      var front := raws[..|raws| - 1];
      assert front[..k + 1] == raws[..k + 1];
      BaseStays(front, k);
    } else {
      assert raws[..k + 1] == raws;
    }
  }

  lemma {:induction false} BaseUnset(raws: seq<seq<Byte>>)
    requires forall j :: 0 <= j < |raws| ==> !SetsBase(raws[j])
    ensures BaseAfter(raws) == 0
  {
    if raws != [] {
      BaseUnset(raws[..|raws| - 1]);
    }
  }

  function Pair(high: int, low: int): int {
    high * 256 + low
  }

  lemma TwoDigits(bytes: seq<Byte>)
    requires |bytes| == 2
    ensures BigEndian(bytes) == Pair(bytes[0], bytes[1])
  {
    assert bytes[..1] == [bytes[0]] && bytes[..1][..0] == [];
    assert BigEndian([bytes[0]]) == bytes[0] by { assert [bytes[0]][..0] == []; }
  }

  /** The base is zero until an extended address record of two bytes says otherwise:
      sixteen times its number for a segment, 65536 times for a linear one, and the
      latest counts. */
  lemma BaseIs(raws: seq<seq<Byte>>, k: nat)
    ensures (forall j :: 0 <= j < |raws| ==> !SetsBase(raws[j])) ==> BaseAfter(raws) == 0
    ensures k < |raws| && SetsBase(raws[k]) && raws[k][0] == 2 && |raws[k]| >= 6
            && (forall j :: k < j < |raws| ==> !SetsBase(raws[j])) ==>
              BaseAfter(raws) == Pair(raws[k][4], raws[k][5]) * if raws[k][3] == 0x02 then 16 else 65536
  {
    if forall j :: 0 <= j < |raws| ==> !SetsBase(raws[j]) {
      BaseUnset(raws);
    } else if k < |raws| && SetsBase(raws[k]) && raws[k][0] == 2 && |raws[k]| >= 6
              && forall j :: k < j < |raws| ==> !SetsBase(raws[j]) {
      BaseStays(raws, k);
      var raw := raws[k];
      assert raws[..k + 1][k] == raw;
      TwoDigits(Payload(raw));
    }
  }

  /** A data record is at its offset behind the base of its own position, and has as
      many bytes as it says. */
  lemma {:induction false} DataIs(raws: seq<seq<Byte>>, k: nat)
    requires k < |raws| && |raws[k]| >= 4 && raws[k][3] == 0x00 && 4 + raws[k][0] <= |raws[k]|
    ensures var raw := raws[k];
            Record(BaseAfter(raws[..k]) + Pair(raw[1], raw[2]), raw[4..4 + raw[0]]) in DataOf(raws)
    decreases |raws|
  {
    var n := |raws| - 1;
    if k == n {
      TwoDigits(raws[k][1..3]);
    } else {
      assert raws[..n][..k] == raws[..k];
      DataIs(raws[..n], k);
    }
  }

  predicate Stops(raw: seq<Byte>) {
    |raw| < 4 || raw[3] == END_OF_FILE
  }

  /** Nothing after an end-of-file record is read; a line of fewer than four
      bytes before it is an IndexError. */
  method Collect(raws: seq<seq<Byte>>) returns (records: Option<seq<Record>>)
    ensures forall n :: 0 <= n < |raws| && Stops(raws[n]) && (forall m :: 0 <= m < n ==> !Stops(raws[m])) ==>
                          records == if |raws[n]| < 4 then None else Some(DataOf(raws[..n]))
    ensures (forall m :: 0 <= m < |raws| ==> !Stops(raws[m])) ==> records == Some(DataOf(raws))
  {
    var found, base := [], 0;
    for i := 0 to |raws|
      invariant forall m :: 0 <= m < i ==> !Stops(raws[m])
      invariant found == DataOf(raws[..i]) && base == BaseAfter(raws[..i])
    {
      var raw := raws[i];
      assert raws[..i + 1][..i] == raws[..i];
      if |raw| < 4 {
        return None;
      }
      var kind, offset, payload := raw[3], BigEndian(raw[1..3]), Payload(raw);
      if kind == DATA {
        found := found + [Record(base + offset, payload)];
      } else if kind == SEGMENT {
        base := BigEndian(payload) * 16;
      } else if kind == LINEAR {
        base := BigEndian(payload) * 65536;
      } else if kind == END_OF_FILE {
        return Some(found);
      }
    }
    assert raws[..|raws|] == raws;
    return Some(found);
  }

  // ---- the image -------------------------------------------------------------

  /** A memory in which the last record to hold an address decides its byte. */
  function Memory(records: seq<Record>, at: int): Byte {
    if records == [] then ERASED
    else
      var last := records[|records| - 1];
      if last.Holds(at) then last.ByteAt(at) else Memory(records[..|records| - 1], at)
  }

  predicate Lowest(records: seq<Record>, low: nat) {
    && (forall r :: r in records ==> low <= r.address)
    && exists r :: r in records && r.address == low
  }

  predicate Highest(records: seq<Record>, high: nat) {
    && (forall r :: r in records ==> r.End() <= high)
    && exists r :: r in records && r.End() == high
  }

  method LowestAddress(records: seq<Record>) returns (low: nat)
    requires records != []
    ensures Lowest(records, low)
  {
    low := records[0].address;
    for i := 1 to |records|
      invariant forall r :: r in records[..i] ==> low <= r.address
      invariant exists r :: r in records && r.address == low
    {
      if records[i].address < low {
        low := records[i].address;
      }
    }
    assert records[..|records|] == records;
  }

  /** image[at : at + len(payload)] = payload, as Python slices: past the end it
      appends, inside it overwrites. */
  function Overwrite(image: seq<Byte>, at: nat, payload: seq<Byte>): (r: seq<Byte>)
    requires at <= |image|
    ensures |r| == if at + |payload| > |image| then at + |payload| else |image|
    ensures forall i :: 0 <= i < |r| ==> r[i] == if at <= i < at + |payload| then payload[i - at] else image[i]
  {
    image[..at] + payload + if at + |payload| <= |image| then image[at + |payload|..] else []
  }

  /** The image runs from the lowest address to the highest end and agrees with
      the memory at every address in between; no records, no image. */
  method Assemble(records: seq<Record>) returns (lowest: nat, image: seq<Byte>)
    ensures records == [] ==> lowest == 0 && image == []
    ensures records != [] ==> Lowest(records, lowest) && Highest(records, lowest + |image|)
    ensures forall i :: 0 <= i < |image| ==> image[i] == Memory(records, lowest + i)
  {
    if records == [] {
      return 0, [];
    }
    lowest := LowestAddress(records);
    hide Memory;
    hide Highest;
    image := [];
    for n := 0 to |records|
      invariant n > 0 ==> Highest(records[..n], lowest + |image|)
      invariant n == 0 ==> image == []
      invariant forall i :: 0 <= i < |image| ==> image[i] == Memory(records[..n], lowest + i)
    {
      var at := records[n].address - lowest;
      var padded := image;
      if at > |image| {
        padded := image + seq(at - |image|, _ => ERASED);
      }
      var before := image;
      image := Overwrite(padded, at, records[n].payload);
      OneRecord(records, n, lowest, before, padded, image);
    }
    assert records[..|records|] == records;
  }

  /** What one pass of the loop does to an image that agreed with the memory. */
  lemma OneRecord(records: seq<Record>, n: nat, lowest: nat, image: seq<Byte>, padded: seq<Byte>, next: seq<Byte>)
    requires n < |records| && lowest <= records[n].address
    requires if n == 0 then image == [] else Highest(records[..n], lowest + |image|)
    requires forall i :: 0 <= i < |image| ==> image[i] == Memory(records[..n], lowest + i)
    requires image <= padded && forall i :: |image| <= i < |padded| ==> padded[i] == ERASED
    requires var at := records[n].address - lowest;
             && |padded| == (if at > |image| then at else |image|)
             && next == Overwrite(padded, at, records[n].payload)
    ensures Highest(records[..n + 1], lowest + |next|)
    ensures forall i :: 0 <= i < |next| ==> next[i] == Memory(records[..n + 1], lowest + i)
  {
    var front, last := records[..n], records[n];
    assert records[..n + 1] == front + [last];
    assert last in records[..n + 1];
    PaddingIsErased(front, lowest + |image|);
    forall i | 0 <= i < |next|
      ensures next[i] == Memory(records[..n + 1], lowest + i)
    {
      assert records[..n + 1][..n] == front;
      if !last.Holds(lowest + i) {
        assert next[i] == padded[i];
      }
    }
  }

  /** Above every record there is nothing written. */
  lemma PaddingIsErased(records: seq<Record>, high: int)
    requires forall r :: r in records ==> r.End() <= high
    ensures forall at :: at >= high ==> Memory(records, at) == ERASED
  {
    forall at | at >= high
      ensures Memory(records, at) == ERASED
    {
      GapIsErased(records, at);
    }
  }

  /** Every covered byte is the one of the last record that holds it ... */
  lemma {:induction false} LastWriterWins(records: seq<Record>, n: nat, at: int)
    requires n < |records| && records[n].Holds(at)
    requires forall m :: n < m < |records| ==> !records[m].Holds(at)
    ensures Memory(records, at) == records[n].ByteAt(at)
  {
    var k := |records| - 1;
    if n < k {
      assert records[..k][n] == records[n];
      LastWriterWins(records[..k], n, at);
    }
  }

  /** ... and every gap byte is erased flash. */
  lemma {:induction false} GapIsErased(records: seq<Record>, at: int)
    requires forall r :: r in records ==> !r.Holds(at)
    ensures Memory(records, at) == ERASED
  {
    if records != [] {
      assert records[|records| - 1] in records;
      GapIsErased(records[..|records| - 1], at);
    }
  }

  predicate Agree(r: Record, s: Record) {
    forall at :: r.address <= at < r.End() && s.Holds(at) ==> r.ByteAt(at) == s.ByteAt(at)
  }

  lemma {:induction false} SomeWriter(records: seq<Record>, at: int) returns (r: Record)
    requires exists r :: r in records && r.Holds(at)
    ensures r in records && r.Holds(at) && Memory(records, at) == r.ByteAt(at)
  {
    r := records[|records| - 1];
    if !r.Holds(at) {
      r := SomeWriter(records[..|records| - 1], at);
    }
  }

  /** Records that never disagree describe one image, in whatever order and
      however often they are listed. */
  lemma OrderIsIrrelevant(a: seq<Record>, b: seq<Record>, at: int)
    requires forall r :: r in a <==> r in b
    requires forall r, s :: r in a && s in a ==> Agree(r, s)
    ensures Memory(a, at) == Memory(b, at)
  {
    if exists r :: r in a && r.Holds(at) {
      var r := SomeWriter(a, at);
      var s := SomeWriter(b, at);
      assert Agree(r, s);
    } else {
      GapIsErased(a, at);
      GapIsErased(b, at);
    }
  }
}
