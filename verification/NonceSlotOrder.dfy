/**
 Which streams the slots of a device hold over whole runs (frostsnap_core/src/device_nonces.rs,
 `AbSlots`), and what opening several streams at once keeps (frostsnap_core/src/device.rs).
 */
module NonceSlotOrder {
  import opened Common
  import opened AbWrite
  import opened NonceStream
  import opened DeviceNonces
  import opened NonceSlots
  import opened NonceRuns

  ghost predicate Holds(flash: Flash, i: nat, stream: StreamId) {
    i < |flash| && Read(flash[i]).Some? && Read(flash[i]).value.stream == stream
  }

  ghost predicate Present(flash: Flash, stream: StreamId) {
    exists i: nat :: Holds(flash, i, stream)
  }

  // Occupied slots come first, and no stream has two of them.
  ghost predicate Orderly(flash: Flash) {
    && (forall i :: 0 <= i < |flash| ==> ValidCells(flash[i]))
    && (forall i, j :: 0 <= i < j < |flash| && Read(flash[j]).Some? ==> Read(flash[i]).Some?)
    && (forall i, j :: 0 <= i < j < |flash| && Read(flash[j]).Some? ==>
          Read(flash[i]).Some? && Read(flash[i]).value.stream != Read(flash[j]).value.stream)
  }

  // No use is later than the clock.
  ghost predicate ClockAhead(d: Device) {
    forall i :: 0 <= i < |d.flash| && Read(d.flash[i]).Some? ==> Read(d.flash[i]).value.lastUsed <= d.lastUsed
  }

  lemma {:induction false} ClockIsLatest(flash: Flash)
    ensures forall i :: 0 <= i < |flash| && Read(flash[i]).Some? ==> Read(flash[i]).value.lastUsed <= Clock(flash)
    ensures Clock(flash) == 0 || exists i :: 0 <= i < |flash| && Read(flash[i]).Some? && Read(flash[i]).value.lastUsed == Clock(flash)
  {
    if flash != [] {
      var init := flash[..|flash| - 1];
      ClockIsLatest(init);
      assert flash == init + [flash[|flash| - 1]];
      if Clock(init) != 0 && Clock(flash) == Clock(init) {
        var i :| 0 <= i < |init| && Read(init[i]).Some? && Read(init[i]).value.lastUsed == Clock(init);
        assert Read(flash[i]).Some? && Read(flash[i]).value.lastUsed == Clock(flash);
      }
    }
  }

  // A slot changes to a record that is new to the slots, at a place the prefix allows.
  lemma WriteKeepsOrder(flash: Flash, i: nat, r: Record, power: nat)
    requires Orderly(flash) && i < |flash|
    requires Read(flash[i]).None? ==> forall j :: 0 <= j < i ==> Read(flash[j]).Some?
    requires forall j :: 0 <= j < |flash| && j != i && Read(flash[j]).Some? ==> Read(flash[j]).value.stream != r.stream
    ensures Orderly(flash[i := Interrupted(flash[i], r, power)])
  {
    InterruptedWrite(flash[i], r, power);
  }

  lemma OpenKeepsOrder(flash: Flash, stream: StreamId, r: Record, power: nat)
    requires Orderly(flash) && r.stream == stream
    ensures Orderly(OpenFlash(flash, ChoiceFor(flash, stream), r, power))
  {
    var ch := ChoiceFor(flash, stream);
    if FreshRecordAt(ch) {
      WriteKeepsOrder(flash, ch.slot, r, power);
    }
  }

  lemma SignKeepsOrder(c: Crypto, flash: Flash, lastUsed: U32, req: Request, batch: nat, power: nat)
    requires Orderly(flash)
    ensures Orderly(SignStep(c, flash, lastUsed, req, batch, power).0)
  {
    var found := Find(flash, req.coord.stream);
    if found.Some? {
      var i := found.value;
      var record := RecordToWrite(c, flash[i], req, WrappingInc(lastUsed));
      if record.Some? {
        assert record.value.stream == Read(flash[i]).value.stream;
        WriteKeepsOrder(flash, i, record.value, power);
      } else {
        assert flash[i := flash[i]] == flash;
      }
    }
  }

  ghost predicate BlankDevice(d: Device) {
    d.lastUsed == 0 && forall i :: 0 <= i < |d.flash| ==> d.flash[i] == [None, None]
  }

  /** In any run from blank flash, with power failing anywhere, the occupied slots form a prefix and
      hold pairwise distinct streams. */
  lemma {:induction false} RunKeepsOrder(c: Crypto, batch: nat, d: Device, events: seq<Event>)
    requires BlankDevice(d)
    ensures Orderly(RunDevice(c, batch, d, events).flash)
  {
    if events != [] {
      var p := RunDevice(c, batch, d, events[..|events| - 1]);
      RunKeepsOrder(c, batch, d, events[..|events| - 1]);
      match events[|events| - 1]
      case Open(stream, seed, power) =>
        OpenKeepsOrder(p.flash, stream, InitialRecord(stream, WrappingInc(p.lastUsed), seed), power);
      case Sign(req, power) =>
        SignKeepsOrder(c, p.flash, p.lastUsed, req, batch, power);
      case Reboot =>
    }
  }

  // One slot gets a record used no later than `lastUsed`.
  lemma WriteKeepsClock(flash: Flash, i: nat, r: Record, power: nat, lastUsed: U32)
    requires i < |flash| && ValidCells(flash[i])
    requires ClockAhead(Device(flash, lastUsed)) && r.lastUsed <= lastUsed
    ensures ClockAhead(Device(flash[i := Interrupted(flash[i], r, power)], lastUsed))
  {
    InterruptedWrite(flash[i], r, power);
  }

  lemma OpenKeepsClock(p: Device, stream: StreamId, seed: SeedMaterial, power: nat)
    requires Orderly(p.flash) && ClockAhead(p) && p.lastUsed < U32_MAX
    ensures ClockAhead(Device(OpenFlash(p.flash, ChoiceFor(p.flash, stream), InitialRecord(stream, p.lastUsed + 1, seed), power), p.lastUsed + 1))
  {
    var ch := ChoiceFor(p.flash, stream);
    assert ClockAhead(Device(p.flash, p.lastUsed + 1));
    if FreshRecordAt(ch) {
      WriteKeepsClock(p.flash, ch.slot, InitialRecord(stream, p.lastUsed + 1, seed), power, p.lastUsed + 1);
    }
  }

  lemma SignKeepsClock(c: Crypto, p: Device, req: Request, batch: nat, power: nat)
    requires Orderly(p.flash) && ClockAhead(p) && p.lastUsed < U32_MAX
    ensures var (flash, lastUsed, out) := SignStep(c, p.flash, p.lastUsed, req, batch, power);
            lastUsed <= p.lastUsed + 1 && ClockAhead(Device(flash, if Stops(SignOut(out)) then p.lastUsed + 1 else lastUsed))
  {
    var found := Find(p.flash, req.coord.stream);
    if found.Some? {
      var i := found.value;
      var record := RecordToWrite(c, p.flash[i], req, p.lastUsed + 1);
      if record.Some? {
        assert ClockAhead(Device(p.flash, p.lastUsed + 1));
        assert record.value.lastUsed <= p.lastUsed + 1;
        WriteKeepsClock(p.flash, i, record.value, power, p.lastUsed + 1);
        SignedInTime(c, p, req, batch, power, i, record.value);
      } else {
        assert p.flash[i := p.flash[i]] == p.flash;
      }
    }
  }

  lemma RebootKeepsClock(flash: Flash, lastUsed: U32)
    requires ClockAhead(Device(flash, lastUsed))
    ensures ClockAhead(Device(flash, Clock(flash))) && Clock(flash) <= lastUsed
  {
    ClockIsLatest(flash);
  }

  // A signing that writes a record either counts as a use or ends in a restart.
  lemma SignedInTime(c: Crypto, p: Device, req: Request, batch: nat, power: nat, i: nat, record: Record)
    requires p.lastUsed < U32_MAX && Find(p.flash, req.coord.stream) == Some(i)
    requires i < |p.flash| && RecordToWrite(c, p.flash[i], req, p.lastUsed + 1) == Some(record)
    ensures var (flash, lastUsed, out) := SignStep(c, p.flash, p.lastUsed, req, batch, power);
            Stops(SignOut(out)) || lastUsed == p.lastUsed + 1
  {
  }

  lemma CarryingOutKeepsClock(c: Crypto, batch: nat, p: Device, e: Event)
    requires Orderly(p.flash) && ClockAhead(p) && p.lastUsed < U32_MAX
    ensures var (flash, lastUsed, out) := CarriedOut(c, batch, p, e);
            lastUsed <= p.lastUsed + 1 && ClockAhead(Device(flash, if Stops(out) then p.lastUsed + 1 else lastUsed))
  {
    match e
    case Open(stream, seed, power) => OpenKeepsClock(p, stream, seed, power);
    case Sign(req, power) => SignKeepsClock(c, p, req, batch, power);
    case Reboot =>
  }

  lemma StepKeepsClock(c: Crypto, batch: nat, p: Device, e: Event)
    requires Orderly(p.flash) && ClockAhead(p) && p.lastUsed < U32_MAX
    ensures var q := DeviceStep(c, batch, p, e).0;
            ClockAhead(q) && q.lastUsed <= p.lastUsed + 1
  {
    CarryingOutKeepsClock(c, batch, p, e);
    var (flash, lastUsed, out) := CarriedOut(c, batch, p, e);
    if Stops(out) {
      RebootKeepsClock(flash, p.lastUsed + 1);
    }
  }

  /** The clock of a device is never behind a use on flash, so what is opened next is the most recently
      used, as long as the clock has not run through all its values. */
  lemma {:induction false} RunKeepsClock(c: Crypto, batch: nat, d: Device, events: seq<Event>)
    requires BlankDevice(d) && |events| <= U32_MAX
    ensures var p := RunDevice(c, batch, d, events);
            ClockAhead(p) && p.lastUsed <= |events|
  {
    if events != [] {
      var init := events[..|events| - 1];
      RunKeepsClock(c, batch, d, init);
      RunKeepsOrder(c, batch, d, init);
      StepKeepsClock(c, batch, RunDevice(c, batch, d, init), events[|events| - 1]);
    }
  }

  // ---------------------------------------------------------------------------------------------
  // Opening several streams in a row

  // A stream to open and the seed the generator draws for it.
  datatype Opening = Opening(stream: StreamId, seed: SeedMaterial)

  function Opens(openings: seq<Opening>): seq<Event> {
    seq(|openings|, k requires 0 <= k < |openings| => Open(openings[k].stream, openings[k].seed, 4))
  }

  // Slot where[k] holds the k-th stream opened; only those slots were used after `since`.
  ghost predicate JustOpened(d: Device, d': Device, openings: seq<Opening>, where: seq<nat>) {
    && |where| == |openings| && |d'.flash| == |d.flash|
    && d'.lastUsed == d.lastUsed + |openings|
    && (forall k, l :: 0 <= k < l < |where| ==> where[k] != where[l])
    && (forall k :: 0 <= k < |where| ==> Holds(d'.flash, where[k], openings[k].stream))
    && (forall k :: 0 <= k < |where| ==> Read(d'.flash[where[k]]).value.lastUsed > d.lastUsed)
    && (forall i :: 0 <= i < |d.flash| && i !in where ==> d'.flash[i] == d.flash[i])
  }

  ghost function Below(n: nat): (r: set<nat>)
    ensures |r| == n && forall i: nat :: i in r <==> i < n
  {
    if n == 0 then {} else Below(n - 1) + {n - 1}
  }

  ghost function Elements(s: seq<nat>): (r: set<nat>)
    ensures |r| <= |s| && forall x :: x in r <==> x in s
  {
    if s == [] then {} else Elements(s[..|s| - 1]) + {s[|s| - 1]}
  }

  lemma SomeSlotIsFree(where: seq<nat>, n: nat) returns (i: nat)
    requires |where| < n
    ensures i < n && i !in where
  {
    if Below(n) <= Elements(where) {
      SubsetSize(Below(n), Elements(where));
      assert false;
    }
    i :| i in Below(n) && i !in Elements(where);
  }

  lemma {:induction false} SubsetSize(a: set<nat>, b: set<nat>)
    requires a <= b
    ensures |a| <= |b|
  {
    if a != {} {
      var x :| x in a;
      SubsetSize(a - {x}, b - {x});
    }
  }

  lemma StillNew(d: Device, p: Device, openings: seq<Opening>, where: seq<nat>, stream: StreamId)
    requires JustOpened(d, p, openings, where)
    requires !Present(d.flash, stream) && forall k :: 0 <= k < |openings| ==> openings[k].stream != stream
    ensures !Present(p.flash, stream)
  {
    forall i: nat ensures !Holds(p.flash, i, stream) {
      assert !Holds(d.flash, i, stream);
      if i in where {
        var k :| 0 <= k < |where| && where[k] == i;
        assert Holds(p.flash, where[k], openings[k].stream);
      }
    }
  }

  // The next stream goes to a slot that was not just opened.
  lemma GoesElsewhere(d: Device, p: Device, openings: seq<Opening>, where: seq<nat>, stream: StreamId)
    requires ClockAhead(d) && JustOpened(d, p, openings, where) && |openings| < |d.flash|
    requires !Present(p.flash, stream)
    ensures var ch := ChoiceFor(p.flash, stream);
            FreshRecordAt(ch) && ch.slot < |p.flash| && ch.slot !in where
  {
    var ch := ChoiceFor(p.flash, stream);
    assert !ch.Existing? by {
      assert ch.Existing? ==> Holds(p.flash, ch.slot, stream);
    }
    var spare := SomeSlotIsFree(where, |d.flash|);
    forall k | 0 <= k < |where| ensures where[k] != ch.slot {
      assert Holds(p.flash, where[k], openings[k].stream);
      assert p.flash[spare] == d.flash[spare];
    }
  }

  lemma OpenOneMore(c: Crypto, batch: nat, d: Device, p: Device, openings: seq<Opening>, o: Opening, where: seq<nat>) returns (i: nat)
    requires Orderly(d.flash) && ClockAhead(d) && d.lastUsed + |openings| < U32_MAX
    requires forall k :: 0 <= k < |d.flash| ==> !Exhausted(d.flash[k])
    requires JustOpened(d, p, openings, where) && |openings| < |d.flash|
    requires !Present(d.flash, o.stream) && forall k :: 0 <= k < |openings| ==> openings[k].stream != o.stream
    ensures JustOpened(d, DeviceStep(c, batch, p, Open(o.stream, o.seed, 4)).0, openings + [o], where + [i])
  {
    StillNew(d, p, openings, where, o.stream);
    GoesElsewhere(d, p, openings, where, o.stream);
    i := ChoiceFor(p.flash, o.stream).slot;
    assert p.flash[i] == d.flash[i];
    InterruptedWrite(p.flash[i], InitialRecord(o.stream, WrappingInc(p.lastUsed), o.seed), 4);
  }

  /** Opening as many new streams in a row as there are slots never evicts one that was just opened. */
  lemma {:induction false} NewStreamsSurvive(c: Crypto, batch: nat, d: Device, openings: seq<Opening>) returns (where: seq<nat>)
    requires Orderly(d.flash) && ClockAhead(d) && d.lastUsed + |openings| <= U32_MAX
    requires forall k :: 0 <= k < |d.flash| ==> !Exhausted(d.flash[k])
    requires |openings| <= |d.flash|
    requires forall k :: 0 <= k < |openings| ==> !Present(d.flash, openings[k].stream)
    requires forall k, l :: 0 <= k < l < |openings| ==> openings[k].stream != openings[l].stream
    ensures JustOpened(d, RunDevice(c, batch, d, Opens(openings)), openings, where)
  {
    if openings == [] {
      where := [];
    } else {
      var init, o := openings[..|openings| - 1], openings[|openings| - 1];
      where := NewStreamsSurvive(c, batch, d, init);
      RunOneMore(c, batch, d, openings);
      assert !Present(d.flash, openings[|openings| - 1].stream);
      var i := OpenOneMore(c, batch, d, RunDevice(c, batch, d, Opens(init)), init, o, where);
      where := where + [i];
      assert openings == init + [o];
    }
  }

  lemma RunOneMore(c: Crypto, batch: nat, d: Device, openings: seq<Opening>)
    requires openings != []
    ensures var init, o := openings[..|openings| - 1], openings[|openings| - 1];
            RunDevice(c, batch, d, Opens(openings)) == DeviceStep(c, batch, RunDevice(c, batch, d, Opens(init)), Open(o.stream, o.seed, 4)).0
  {
    assert Opens(openings)[..|openings| - 1] == Opens(openings[..|openings| - 1]);
  }

  /** Opening a stream that a slot already holds does not refresh the slot. The stream is then lost to
      the next new stream exactly when every slot is taken and its own is the least recently used. */
  lemma MatchedStreamSurvives(c: Crypto, batch: nat, d: Device, i: nat, matched: StreamId, o: Opening)
    requires Orderly(d.flash) && Holds(d.flash, i, matched) && !Exhausted(d.flash[i]) && o.stream != matched
    ensures var reopened := DeviceStep(c, batch, d, Open(matched, o.seed, 4)).0;
            && reopened.flash == d.flash
            && var after := DeviceStep(c, batch, reopened, Open(o.stream, o.seed, 4)).0;
               (Present(after.flash, matched) <==> Present(d.flash, o.stream) || !LeastRecentlyUsed(d.flash, i))
  {
    ChoiceIsUnique(d.flash, matched, ChoiceFor(d.flash, matched), Existing(i));
    var reopened := DeviceStep(c, batch, d, Open(matched, o.seed, 4)).0;
    var ch := ChoiceFor(reopened.flash, o.stream);
    var after := DeviceStep(c, batch, reopened, Open(o.stream, o.seed, 4)).0;
    if ch.Existing? {
      assert Holds(d.flash, ch.slot, o.stream) && Holds(after.flash, i, matched);
    } else {
      var r := InitialRecord(o.stream, WrappingInc(reopened.lastUsed), o.seed);
      InterruptedWrite(d.flash[ch.slot], r, 4);
      if ch.slot != i {
        assert Holds(after.flash, i, matched);
      }
    }
  }

  function BothCopies(r: Record): Cells<Record> {
    [Some(SlotValue(0, r)), Some(SlotValue(0, r))]
  }

  /** An instance: two slots, both taken; a request that names the older stream and a new one loses the
      older stream while a nonce job for it is on its way. */
  lemma MatchedStreamCanBeLost(c: Crypto, batch: nat, a: SeedMaterial, b: SeedMaterial)
    ensures var d := Device([BothCopies(InitialRecord(10, 1, a)), BothCopies(InitialRecord(20, 2, b))], 2);
            var reopened := DeviceStep(c, batch, d, Open(10, a, 4)).0;
            var after := DeviceStep(c, batch, reopened, Open(30, a, 4)).0;
            Present(d.flash, 10) && reopened.flash == d.flash && !Present(after.flash, 10)
  {
    var d := Device([BothCopies(InitialRecord(10, 1, a)), BothCopies(InitialRecord(20, 2, b))], 2);
    assert Read(d.flash[0]) == Some(InitialRecord(10, 1, a)) && Read(d.flash[1]) == Some(InitialRecord(20, 2, b));
    assert Holds(d.flash, 0, 10);
    MatchedStreamSurvives(c, batch, d, 0, 10, Opening(30, a));
  }
}
