/**
 Whole runs of a device's nonce slots: any order of stream creations, sign requests and reboots, with
 the supply failing after any number of flash steps of any of them.

 A `Device` is what the source has. A `World` is the same device with bookkeeping the source does not
 keep: which initialisation every record on flash belongs to, everything that was ever signed, and
 everything that was ever released. `Erased` forgets the bookkeeping. `StepErases` shows that the two run
 in step, and `StepRecords` that whatever the device lets out is in the books.
 */
module NonceRuns {
  import opened Common
  import opened AbWrite
  import opened NonceStream
  import opened DeviceNonces
  import opened NonceSlots

  datatype Event =
    | Open(stream: StreamId, seed: SeedMaterial, power: nat)
    | Sign(req: Request, power: nat)
    | Reboot

  datatype Outcome = OpenOut(open: OpenOutcome) | SignOut(sign: SignOutcome) | Rebooted

  // The device stops after these and starts again from flash.
  predicate Stops(o: Outcome) {
    match o
    case OpenOut(open) => !open.Opened?
    case SignOut(sign) => sign.Panicked? || sign.Off?
    case Rebooted => true
  }

  // ---------------------------------------------------------------------------------------------
  // The device

  datatype Device = Device(flash: Flash, lastUsed: U32)

  lemma {:induction false} ChoiceExists(flash: Flash, stream: StreamId, n: nat) returns (ch: Choice)
    requires n <= |flash|
    ensures n > 0 ==> IsChoice(flash[..n], stream, ch)
    ensures n == 0 ==> ch == NoSlots
  {
    if n == 0 {
      ch := NoSlots;
    } else {
      ch := ChoiceExists(flash, stream, n - 1);
      var last := Read(flash[n - 1]);
      assert flash[..n] == flash[..n - 1] + [flash[n - 1]];
      if n == 1 || ch.Evict? {
        if last.None? {
          ch := Vacant(n - 1);
        } else if last.value.stream == stream {
          ch := Existing(n - 1);
        } else if n == 1 || last.value.lastUsed < Read(flash[ch.slot]).value.lastUsed {
          ch := Evict(n - 1);
        }
      }
    }
  }

  ghost function ChoiceFor(flash: Flash, stream: StreamId): (ch: Choice)
    ensures IsChoice(flash, stream, ch)
  {
    assert exists ch :: IsChoice(flash, stream, ch) by {
      var ch := ChoiceExists(flash, stream, |flash|);
      assert flash[..|flash|] == flash;
      assert IsChoice(flash, stream, ch);
    }
    var ch :| IsChoice(flash, stream, ch);
    ch
  }

  // What an event leaves behind, before the device restarts if it must.
  ghost function CarriedOut(c: Crypto, batch: nat, d: Device, e: Event): (Flash, U32, Outcome) {
    match e
    case Open(stream, seed, power) =>
      var lastUsed := WrappingInc(d.lastUsed);
      var ch := ChoiceFor(d.flash, stream);
      (OpenFlash(d.flash, ch, InitialRecord(stream, lastUsed, seed), power), lastUsed, OpenOut(OpenResult(d.flash, ch, power)))
    case Sign(req, power) =>
      var (flash, lastUsed, out) := SignStep(c, d.flash, d.lastUsed, req, batch, power);
      (flash, lastUsed, SignOut(out))
    case Reboot => (d.flash, d.lastUsed, Rebooted)
  }

  ghost function DeviceStep(c: Crypto, batch: nat, d: Device, e: Event): (Device, Outcome) {
    var (flash, lastUsed, out) := CarriedOut(c, batch, d, e);
    (Device(flash, if Stops(out) then Clock(flash) else lastUsed), out)
  }

  // ---------------------------------------------------------------------------------------------
  // The device with its history

  // A record, the initialisation it belongs to, and the signing it stores shares of.
  datatype Tagged = Tagged(record: Record, gen: nat, signed: Option<nat>)

  datatype Signing = Signing(gen: nat, sessionId: SessionId, start: nat, items: seq<SignItem>)

  datatype Release = Release(signed: nat, shares: seq<SignatureShare>)

  datatype World = World(
    flash: seq<Cells<Tagged>>,
    lastUsed: U32,
    inits: seq<(StreamId, SeedMaterial)>,
    signings: seq<Signing>,
    releases: seq<Release>)

  ghost function Untag(cells: Cells<Tagged>): Cells<Record> {
    MapCells((t: Tagged) => t.record, cells)
  }

  ghost function UntagAll(flash: seq<Cells<Tagged>>): (f: Flash)
    ensures |f| == |flash|
    ensures forall i :: 0 <= i < |f| ==> f[i] == Untag(flash[i])
  {
    seq(|flash|, i requires 0 <= i < |flash| => Untag(flash[i]))
  }

  ghost function Erased(w: World): Device {
    Device(UntagAll(w.flash), w.lastUsed)
  }

  ghost predicate IsFresh(c: Crypto, cells: Cells<Record>, req: Request, lastUsed: U32) {
    Read(cells).Some? && PlanSign(c, Read(cells).value, req, lastUsed).Fresh?
  }

  ghost function OpenWorld(w: World, stream: StreamId, seed: SeedMaterial, power: nat): World {
    var ch := ChoiceFor(UntagAll(w.flash), stream);
    var record := InitialRecord(stream, WrappingInc(w.lastUsed), seed);
    if !FreshRecordAt(ch) then w
    else
      w.(flash := w.flash[ch.slot := Interrupted(w.flash[ch.slot], Tagged(record, |w.inits|, None), power)],
         inits := if Commits(w.flash[ch.slot], power) then w.inits + [(stream, seed)] else w.inits)
  }

  // The tagged record that signing writes to slot `i`.
  ghost function SignTag(c: Crypto, w: World, i: nat, req: Request, record: Record): Tagged
    requires i < |w.flash| && Read(w.flash[i]).Some?
  {
    var t := Read(w.flash[i]).value;
    if IsFresh(c, Untag(w.flash[i]), req, WrappingInc(w.lastUsed)) then Tagged(record, t.gen, Some(|w.signings|)) else t
  }

  ghost function SignWorld(c: Crypto, batch: nat, w: World, req: Request, power: nat): World {
    match Find(UntagAll(w.flash), req.coord.stream)
    case None => w
    case Some(i) =>
      var cells := Untag(w.flash[i]);
      var record := RecordToWrite(c, cells, req, WrappingInc(w.lastUsed));
      if record.None? || Read(w.flash[i]).None? then w
      else
        var t := SignTag(c, w, i, req, record.value);
        var out := SignResult(c, cells, req, WrappingInc(w.lastUsed), batch, power);
        w.(flash := w.flash[i := Interrupted(w.flash[i], t, power)],
           signings := if IsFresh(c, cells, req, WrappingInc(w.lastUsed)) && Commits(w.flash[i], power)
                       then w.signings + [Signing(t.gen, req.sessionId, req.coord.index, req.items)] else w.signings,
           releases := if out.Released? && t.signed.Some? then w.releases + [Release(t.signed.value, out.shares)] else w.releases)
  }

  ghost function WorldStep(c: Crypto, batch: nat, w: World, e: Event): World {
    var next :=
      match e
      case Open(stream, seed, power) => OpenWorld(w, stream, seed, power)
      case Sign(req, power) => SignWorld(c, batch, w, req, power)
      case Reboot => w;
    next.(lastUsed := DeviceStep(c, batch, Erased(w), e).0.lastUsed)
  }

  ghost function RunWorld(c: Crypto, batch: nat, w: World, events: seq<Event>): World {
    if events == [] then w
    else WorldStep(c, batch, RunWorld(c, batch, w, events[..|events| - 1]), events[|events| - 1])
  }

  ghost function RunDevice(c: Crypto, batch: nat, d: Device, events: seq<Event>): Device {
    if events == [] then d
    else DeviceStep(c, batch, RunDevice(c, batch, d, events[..|events| - 1]), events[|events| - 1]).0
  }

  lemma UntagInterrupted(cells: Cells<Tagged>, t: Tagged, power: nat)
    ensures Untag(Interrupted(cells, t, power)) == Interrupted(Untag(cells), t.record, power)
    ensures Read(Untag(cells)) == if Read(cells).None? then None else Some(Read(cells).value.record)
    ensures Commits(Untag(cells), power) == Commits(cells, power)
    ensures OutcomeOf(Untag(cells), power) == OutcomeOf(cells, power)
  {
    MapInterrupted((t: Tagged) => t.record, cells, t, power);
  }

  /** Forgetting the history turns a step of the world into the step of the device. */
  lemma StepErases(c: Crypto, batch: nat, w: World, e: Event)
    ensures Erased(WorldStep(c, batch, w, e)) == DeviceStep(c, batch, Erased(w), e).0
  {
    var flash := UntagAll(w.flash);
    match e
    case Open(stream, seed, power) =>
      var ch := ChoiceFor(flash, stream);
      if FreshRecordAt(ch) {
        var t := Tagged(InitialRecord(stream, WrappingInc(w.lastUsed), seed), |w.inits|, None);
        UntagInterrupted(w.flash[ch.slot], t, power);
        assert UntagAll(OpenWorld(w, stream, seed, power).flash) == flash[ch.slot := Interrupted(flash[ch.slot], t.record, power)];
      }
    case Sign(req, power) =>
      var found := Find(flash, req.coord.stream);
      if found.Some? {
        var i := found.value;
        var cells := Untag(w.flash[i]);
        var record := RecordToWrite(c, cells, req, WrappingInc(w.lastUsed));
        if record.Some? {
          UntagInterrupted(w.flash[i], Read(w.flash[i]).value, power);
          var t := SignTag(c, w, i, req, record.value);
          UntagInterrupted(w.flash[i], t, power);
          assert t.record == record.value;
          assert UntagAll(SignWorld(c, batch, w, req, power).flash) == flash[i := Interrupted(flash[i], t.record, power)];
        }
      }
    case Reboot =>
  }

  lemma {:induction false} RunErases(c: Crypto, batch: nat, w: World, events: seq<Event>)
    ensures Erased(RunWorld(c, batch, w, events)) == RunDevice(c, batch, Erased(w), events)
  {
    if events != [] {
      RunErases(c, batch, w, events[..|events| - 1]);
      StepErases(c, batch, RunWorld(c, batch, w, events[..|events| - 1]), events[|events| - 1]);
    }
  }

  // ---------------------------------------------------------------------------------------------
  // What every run keeps

  ghost function SigningEnd(s: Signing): nat {
    s.start + |s.items|
  }

  // A record on flash, current or stale: it stands on the stream of its initialisation, past every
  // nonce of that initialisation that any released share has used.
  ghost predicate TagOk(c: Crypto, w: World, t: Tagged) {
    && t.gen < |w.inits|
    && t.record.stream == w.inits[t.gen].0
    && DescendsFrom(c, t.record, w.inits[t.gen].1)
    && forall k :: 0 <= k < |w.releases| && w.releases[k].signed < |w.signings| && w.signings[w.releases[k].signed].gen == t.gen ==>
         SigningEnd(w.signings[w.releases[k].signed]) <= t.record.index
  }

  // The record a slot reads as: past every signing of its initialisation, and its shares are those of
  // the signing it names.
  ghost predicate CurrentOk(c: Crypto, w: World, t: Tagged) {
    && t.gen < |w.inits|
    && (forall k :: 0 <= k < |w.signings| && w.signings[k].gen == t.gen ==> SigningEnd(w.signings[k]) <= t.record.index)
    && (t.signed.Some? <==> t.record.signing.Some?)
    && (t.signed.Some? ==> SharesAreSigned(c, w, t))
  }

  ghost predicate SharesAreSigned(c: Crypto, w: World, t: Tagged)
    requires t.signed.Some? && t.record.signing.Some? && t.gen < |w.inits|
  {
    && t.signed.value < |w.signings|
    && var s := w.signings[t.signed.value];
       && s.gen == t.gen
       && s.sessionId == t.record.signing.value.sessionId
       && t.record.signing.value.shares == SharesOf(c, w.inits[s.gen].0, w.inits[s.gen].1, s.start, s.items)
  }

  ghost predicate HasGen(cells: Cells<Tagged>, gen: nat) {
    exists j :: 0 <= j < 2 && cells[j].Some? && cells[j].value.value.gen == gen
  }

  ghost predicate SlotOk(c: Crypto, w: World, cells: Cells<Tagged>) {
    && ValidCells(cells)
    && (forall j :: 0 <= j < 2 && cells[j].Some? ==> TagOk(c, w, cells[j].value.value))
    && (Read(cells).Some? ==> CurrentOk(c, w, Read(cells).value))
  }

  ghost predicate HistoryOk(c: Crypto, w: World) {
    && (forall k :: 0 <= k < |w.signings| ==> w.signings[k].gen < |w.inits|)
    && (forall k, l :: 0 <= k < l < |w.signings| && w.signings[k].gen == w.signings[l].gen ==>
          SigningEnd(w.signings[k]) <= w.signings[l].start)
    && (forall k :: 0 <= k < |w.releases| ==> ReleaseOk(c, w, w.releases[k]))
  }

  // Released shares are shares of a recorded signing, made with the nonces it names.
  ghost predicate ReleaseOk(c: Crypto, w: World, r: Release) {
    && r.signed < |w.signings|
    && var s := w.signings[r.signed];
       && s.gen < |w.inits|
       && r.shares == SharesOf(c, w.inits[s.gen].0, w.inits[s.gen].1, s.start, s.items)
  }

  ghost predicate Inv(c: Crypto, w: World) {
    && HistoryOk(c, w)
    && (forall i :: 0 <= i < |w.flash| ==> SlotOk(c, w, w.flash[i]))
    && (forall i, j, gen :: 0 <= i < j < |w.flash| && HasGen(w.flash[i], gen) ==> !HasGen(w.flash[j], gen))
  }

  // Nothing in the longer history concerns `gen`.
  ghost predicate Extends(w: World, w': World, gen: nat) {
    && w.inits <= w'.inits && w.signings <= w'.signings && w.releases <= w'.releases
    && (forall k :: |w.signings| <= k < |w'.signings| ==> w'.signings[k].gen != gen)
    && (forall k :: |w.releases| <= k < |w'.releases| ==>
          w'.releases[k].signed < |w'.signings| ==> w'.signings[w'.releases[k].signed].gen != gen)
  }

  lemma TagFrame(c: Crypto, w: World, w': World, t: Tagged)
    requires HistoryOk(c, w) && TagOk(c, w, t) && Extends(w, w', t.gen)
    ensures TagOk(c, w', t)
    ensures CurrentOk(c, w, t) ==> CurrentOk(c, w', t)
  {
    forall k | 0 <= k < |w'.releases| && w'.releases[k].signed < |w'.signings| && w'.signings[w'.releases[k].signed].gen == t.gen
      ensures SigningEnd(w'.signings[w'.releases[k].signed]) <= t.record.index
    {
      assert k < |w.releases| && w'.releases[k] == w.releases[k] && ReleaseOk(c, w, w.releases[k]);
    }
  }

  lemma SlotFrame(c: Crypto, w: World, w': World, cells: Cells<Tagged>)
    requires HistoryOk(c, w) && SlotOk(c, w, cells)
    requires forall gen :: HasGen(cells, gen) ==> Extends(w, w', gen)
    ensures SlotOk(c, w', cells)
  {
    forall j | 0 <= j < 2 && cells[j].Some? ensures TagOk(c, w', cells[j].value.value) {
      assert HasGen(cells, cells[j].value.value.gen);
      TagFrame(c, w, w', cells[j].value.value);
    }
    if Read(cells).Some? {
      assert HasGen(cells, Read(cells).value.gen);
      TagFrame(c, w, w', Read(cells).value);
    }
  }

  // What a step that puts record `t` into slot `i` may add to the history.
  ghost predicate WriteAdds(c: Crypto, w: World, w': World, i: nat, t: Tagged, power: nat)
    requires i < |w.flash|
  {
    && w'.flash == w.flash[i := Interrupted(w.flash[i], t, power)]
    && w.inits <= w'.inits && w.signings <= w'.signings && w.releases <= w'.releases
    && (forall gen: nat :: gen < |w.inits| && gen != t.gen ==> Extends(w, w', gen))
    && (t.gen < |w.inits| ==> HasGen(w.flash[i], t.gen))
    && (power < 4 ==> w'.releases == w.releases)
    && (if Commits(w.flash[i], power) then TagOk(c, w', t) && CurrentOk(c, w', t)
        else w'.signings == w.signings && w'.releases == w.releases)
  }

  lemma StaleTagKeeps(c: Crypto, w: World, w': World, t: Tagged)
    requires HistoryOk(c, w) && TagOk(c, w, t)
    requires w.inits <= w'.inits && w.signings <= w'.signings && w'.releases == w.releases
    ensures TagOk(c, w', t)
    ensures w'.signings == w.signings && CurrentOk(c, w, t) ==> CurrentOk(c, w', t)
  {
    forall k | 0 <= k < |w'.releases| && w'.releases[k].signed < |w'.signings| && w'.signings[w'.releases[k].signed].gen == t.gen
      ensures SigningEnd(w'.signings[w'.releases[k].signed]) <= t.record.index
    {
      assert ReleaseOk(c, w, w.releases[k]);
    }
  }

  lemma WrittenSlotOk(c: Crypto, w: World, w': World, i: nat, t: Tagged, power: nat)
    requires HistoryOk(c, w) && i < |w.flash| && SlotOk(c, w, w.flash[i])
    requires WriteAdds(c, w, w', i, t, power)
    ensures SlotOk(c, w', w'.flash[i])
  {
    var old_, new_ := w.flash[i], w'.flash[i];
    InterruptedWrite(old_, t, power);
    forall j | 0 <= j < 2 && new_[j].Some? ensures TagOk(c, w', new_[j].value.value) {
      InterruptedCells(old_, t, power, j);
      if new_[j] == old_[j] && w'.releases == w.releases {
        StaleTagKeeps(c, w, w', old_[j].value.value);
      }
    }
    if !Commits(old_, power) && Read(new_).Some? {
      var cur := CurrentSlot(old_);
      StaleTagKeeps(c, w, w', old_[cur].value.value);
    }
  }

  lemma WrittenGens(cells: Cells<Tagged>, t: Tagged, power: nat, gen: nat)
    requires HasGen(Interrupted(cells, t, power), gen)
    ensures HasGen(cells, gen) || gen == t.gen
  {
    var d := Interrupted(cells, t, power);
    var j :| 0 <= j < 2 && d[j].Some? && d[j].value.value.gen == gen;
    InterruptedCells(cells, t, power, j);
  }

  lemma GensAreKnown(c: Crypto, w: World, cells: Cells<Tagged>, gen: nat)
    requires SlotOk(c, w, cells) && HasGen(cells, gen)
    ensures gen < |w.inits|
  {
    var j :| 0 <= j < 2 && cells[j].Some? && cells[j].value.value.gen == gen;
    assert TagOk(c, w, cells[j].value.value);
  }

  // Writing a good record into one slot keeps the invariant.
  lemma WriteKeepsInv(c: Crypto, w: World, w': World, i: nat, t: Tagged, power: nat)
    requires Inv(c, w) && HistoryOk(c, w') && i < |w.flash|
    requires WriteAdds(c, w, w', i, t, power)
    ensures Inv(c, w')
  {
    forall k | 0 <= k < |w'.flash| ensures SlotOk(c, w', w'.flash[k]) {
      if k == i {
        WrittenSlotOk(c, w, w', i, t, power);
      } else {
        forall gen | HasGen(w.flash[k], gen) ensures Extends(w, w', gen) {
          GensAreKnown(c, w, w.flash[k], gen);
          assert gen != t.gen;
        }
        SlotFrame(c, w, w', w.flash[k]);
      }
    }
    forall a, b, gen | 0 <= a < b < |w'.flash| && HasGen(w'.flash[a], gen) ensures !HasGen(w'.flash[b], gen) {
      var other := if a == i then b else a;
      if HasGen(w.flash[other], gen) {
        GensAreKnown(c, w, w.flash[other], gen);
      }
      if a == i {
        WrittenGens(w.flash[i], t, power, gen);
      } else if b == i && HasGen(w'.flash[b], gen) {
        WrittenGens(w.flash[i], t, power, gen);
      }
    }
  }

  lemma InvIgnoresClock(c: Crypto, w: World, lastUsed: U32)
    requires Inv(c, w)
    ensures Inv(c, w.(lastUsed := lastUsed))
  {
    var w' := w.(lastUsed := lastUsed);
    forall i | 0 <= i < |w'.flash| ensures SlotOk(c, w', w'.flash[i]) {
      SlotFrame(c, w, w', w.flash[i]);
    }
  }

  lemma OpenKeepsInv(c: Crypto, w: World, stream: StreamId, seed: SeedMaterial, power: nat)
    requires Inv(c, w)
    ensures Inv(c, OpenWorld(w, stream, seed, power))
  {
    var ch := ChoiceFor(UntagAll(w.flash), stream);
    if FreshRecordAt(ch) {
      var t := Tagged(InitialRecord(stream, WrappingInc(w.lastUsed), seed), |w.inits|, None);
      OpenAdds(c, w, stream, seed, power, t);
      WriteKeepsInv(c, w, OpenWorld(w, stream, seed, power), ch.slot, t, power);
    }
  }

  lemma OpenAdds(c: Crypto, w: World, stream: StreamId, seed: SeedMaterial, power: nat, t: Tagged)
    requires Inv(c, w) && t == Tagged(InitialRecord(stream, WrappingInc(w.lastUsed), seed), |w.inits|, None)
    requires FreshRecordAt(ChoiceFor(UntagAll(w.flash), stream))
    ensures var w' := OpenWorld(w, stream, seed, power);
            HistoryOk(c, w') && WriteAdds(c, w, w', ChoiceFor(UntagAll(w.flash), stream).slot, t, power)
  {
    var ch, w' := ChoiceFor(UntagAll(w.flash), stream), OpenWorld(w, stream, seed, power);
    assert Commits(w.flash[ch.slot], power) ==> w'.inits[|w.inits|] == (stream, seed);
  }

  // A fresh signing fits behind everything its initialisation has signed before.
  lemma FreshSigning(c: Crypto, w: World, t: Tagged, req: Request, lastUsed: U32, r: Record, releases: seq<Release>)
    requires HistoryOk(c, w) && TagOk(c, w, t) && CurrentOk(c, w, t)
    requires t.record.index <= req.coord.index && req.coord.index + |req.items| <= U32_MAX
    requires r == SignedRecord(c, t.record, req, lastUsed)
    requires releases == [] || releases == [Release(|w.signings|, r.signing.value.shares)]
    ensures var s := Signing(t.gen, req.sessionId, req.coord.index, req.items);
            var v := w.(signings := w.signings + [s], releases := w.releases + releases);
            var t' := Tagged(r, t.gen, Some(|w.signings|));
            HistoryOk(c, v) && TagOk(c, v, t') && CurrentOk(c, v, t')
  {
    var seed := w.inits[t.gen].1;
    var s := Signing(t.gen, req.sessionId, req.coord.index, req.items);
    var v := w.(signings := w.signings + [s], releases := w.releases + releases);
    SharesFromSeed(c, t.record, seed, req.coord.index, req.items);
    RatchetComposes(c, t.record.stream, seed, 0, t.record.index, r.index - t.record.index);
    forall k | 0 <= k < |v.releases| ensures ReleaseOk(c, v, v.releases[k]) {
      if k < |w.releases| {
        assert ReleaseOk(c, w, w.releases[k]);
      }
    }
  }

  // What a fresh plan writes.
  lemma FreshPlan(c: Crypto, w: World, i: nat, req: Request, record: Record)
    requires i < |w.flash| && Read(w.flash[i]).Some?
    requires RecordToWrite(c, Untag(w.flash[i]), req, WrappingInc(w.lastUsed)) == Some(record)
    requires IsFresh(c, Untag(w.flash[i]), req, WrappingInc(w.lastUsed))
    ensures var r := Read(w.flash[i]).value.record;
            && r.index <= req.coord.index && req.coord.index + |req.items| <= U32_MAX
            && record == SignedRecord(c, r, req, WrappingInc(w.lastUsed))
  {
    UntagInterrupted(w.flash[i], Read(w.flash[i]).value, 0);
  }

  // Handing out the shares of the current record again.
  lemma CachedRelease(c: Crypto, w: World, cells: Cells<Tagged>)
    requires HistoryOk(c, w) && SlotOk(c, w, cells) && Read(cells).Some? && Read(cells).value.signed.Some?
    ensures var t := Read(cells).value;
            var w' := w.(releases := w.releases + [Release(t.signed.value, t.record.signing.value.shares)]);
            HistoryOk(c, w') && TagOk(c, w', t) && CurrentOk(c, w', t)
  {
    var t := Read(cells).value;
    assert TagOk(c, w, t);
    var w' := w.(releases := w.releases + [Release(t.signed.value, t.record.signing.value.shares)]);
    forall k | 0 <= k < |w'.releases| ensures ReleaseOk(c, w', w'.releases[k]) {
      if k < |w.releases| {
        assert ReleaseOk(c, w, w.releases[k]);
      }
    }
  }

  lemma CurrentTagOk(c: Crypto, w: World, cells: Cells<Tagged>)
    requires SlotOk(c, w, cells) && Read(cells).Some?
    ensures TagOk(c, w, Read(cells).value) && HasGen(cells, Read(cells).value.gen)
  {
  }

  lemma SameHistory(c: Crypto, w: World, w': World, t: Tagged)
    requires w'.inits == w.inits && w'.signings == w.signings && w'.releases == w.releases
    requires HistoryOk(c, w) && TagOk(c, w, t) && CurrentOk(c, w, t)
    ensures HistoryOk(c, w') && TagOk(c, w', t) && CurrentOk(c, w', t)
  {
    TagFrame(c, w, w', t);
    forall k | 0 <= k < |w'.releases| ensures ReleaseOk(c, w', w'.releases[k]) {
      assert ReleaseOk(c, w, w.releases[k]);
    }
  }

  // A write to the slot of `t`'s own initialisation, and what it adds to the history.
  lemma AppendKeepsInv(c: Crypto, w: World, i: nat, t: Tagged, power: nat, signings: seq<Signing>, releases: seq<Release>)
    requires Inv(c, w) && i < |w.flash| && Read(w.flash[i]).Some? && t.gen == Read(w.flash[i]).value.gen
    requires forall s :: s in signings ==> s.gen == t.gen
    requires forall r :: r in releases && r.signed < |w.signings + signings| ==> (w.signings + signings)[r.signed].gen == t.gen
    requires !Commits(w.flash[i], power) ==> signings == [] && releases == []
    requires power < 4 ==> releases == []
    requires var v := w.(signings := w.signings + signings, releases := w.releases + releases);
             HistoryOk(c, v) && (Commits(w.flash[i], power) ==> TagOk(c, v, t) && CurrentOk(c, v, t))
    ensures Inv(c, w.(flash := w.flash[i := Interrupted(w.flash[i], t, power)],
                      signings := w.signings + signings, releases := w.releases + releases))
  {
    var v := w.(signings := w.signings + signings, releases := w.releases + releases);
    var w' := v.(flash := w.flash[i := Interrupted(w.flash[i], t, power)]);
    CurrentTagOk(c, w, w.flash[i]);
    if Commits(w.flash[i], power) {
      SameHistory(c, v, w', t);
    } else {
      assert v == w;
      StaleTagKeeps(c, w, w', Read(w.flash[i]).value);
      SameHistory(c, v, w', Read(w.flash[i]).value);
    }
    WriteKeepsInv(c, w, w', i, t, power);
  }

  // The signing that `SignWorld` records for the write of `t`.
  ghost function SigningsOf(c: Crypto, w: World, i: nat, req: Request, t: Tagged, power: nat): seq<Signing>
    requires i < |w.flash|
  {
    if IsFresh(c, Untag(w.flash[i]), req, WrappingInc(w.lastUsed)) && Commits(w.flash[i], power)
    then [Signing(t.gen, req.sessionId, req.coord.index, req.items)] else []
  }

  ghost predicate ReleasesOf(w: World, i: nat, t: Tagged, power: nat, releases: seq<Release>)
    requires i < |w.flash|
  {
    releases == []
    || (power >= 4 && Commits(w.flash[i], power) && t.signed.Some? && t.record.signing.Some?
        && releases == [Release(t.signed.value, t.record.signing.value.shares)])
  }

  // What `SignWorld` appends.
  lemma SignWorldShape(c: Crypto, batch: nat, w: World, req: Request, power: nat, i: nat, record: Record)
    returns (more: seq<Release>)
    requires Find(UntagAll(w.flash), req.coord.stream) == Some(i)
    requires RecordToWrite(c, Untag(w.flash[i]), req, WrappingInc(w.lastUsed)) == Some(record)
    requires Read(w.flash[i]).Some?
    ensures var t := SignTag(c, w, i, req, record);
            && ReleasesOf(w, i, t, power, more)
            && SignWorld(c, batch, w, req, power) ==
               w.(flash := w.flash[i := Interrupted(w.flash[i], t, power)],
                  signings := w.signings + SigningsOf(c, w, i, req, t, power),
                  releases := w.releases + more)
  {
    UntagInterrupted(w.flash[i], Read(w.flash[i]).value, power);
    var t := SignTag(c, w, i, req, record);
    var out := SignResult(c, Untag(w.flash[i]), req, WrappingInc(w.lastUsed), batch, power);
    more := if out.Released? && t.signed.Some? then [Release(t.signed.value, out.shares)] else [];
    assert SignWorld(c, batch, w, req, power).releases == w.releases + more;
  }

  // The three cases: the write stores a new signing, it stores the old one again, or it does not take
  // effect.
  lemma NewSigningHistory(c: Crypto, w: World, req: Request, power: nat, i: nat, record: Record, releases: seq<Release>)
    requires Inv(c, w) && i < |w.flash| && Read(w.flash[i]).Some?
    requires RecordToWrite(c, Untag(w.flash[i]), req, WrappingInc(w.lastUsed)) == Some(record)
    requires IsFresh(c, Untag(w.flash[i]), req, WrappingInc(w.lastUsed)) && Commits(w.flash[i], power)
    requires ReleasesOf(w, i, SignTag(c, w, i, req, record), power, releases)
    ensures var t := SignTag(c, w, i, req, record);
            var v := w.(signings := w.signings + SigningsOf(c, w, i, req, t, power), releases := w.releases + releases);
            HistoryOk(c, v) && TagOk(c, v, t) && CurrentOk(c, v, t)
  {
    var t := Read(w.flash[i]).value;
    CurrentTagOk(c, w, w.flash[i]);
    assert CurrentOk(c, w, t) by {
      assert SlotOk(c, w, w.flash[i]);
    }
    FreshPlan(c, w, i, req, record);
    FreshSigning(c, w, t, req, WrappingInc(w.lastUsed), record, releases);
  }

  lemma OldSigningHistory(c: Crypto, w: World, req: Request, power: nat, i: nat, record: Record, releases: seq<Release>)
    requires Inv(c, w) && i < |w.flash| && Read(w.flash[i]).Some?
    requires !IsFresh(c, Untag(w.flash[i]), req, WrappingInc(w.lastUsed)) || !Commits(w.flash[i], power)
    requires ReleasesOf(w, i, SignTag(c, w, i, req, record), power, releases)
    ensures var t := SignTag(c, w, i, req, record);
            var v := w.(releases := w.releases + releases);
            HistoryOk(c, v) && (Commits(w.flash[i], power) ==> TagOk(c, v, t) && CurrentOk(c, v, t))
  {
    CurrentTagOk(c, w, w.flash[i]);
    assert CurrentOk(c, w, Read(w.flash[i]).value) by {
      assert SlotOk(c, w, w.flash[i]);
    }
    if releases == [] {
      assert w.(releases := w.releases + releases) == w;
    } else {
      CachedRelease(c, w, w.flash[i]);
    }
  }

  lemma ReleaseGen(c: Crypto, w: World, req: Request, power: nat, i: nat, record: Record, releases: seq<Release>)
    requires Inv(c, w) && i < |w.flash| && Read(w.flash[i]).Some?
    requires RecordToWrite(c, Untag(w.flash[i]), req, WrappingInc(w.lastUsed)) == Some(record)
    requires ReleasesOf(w, i, SignTag(c, w, i, req, record), power, releases)
    ensures var t := SignTag(c, w, i, req, record);
            var signings := w.signings + SigningsOf(c, w, i, req, t, power);
            && t.gen == Read(w.flash[i]).value.gen
            && forall r :: r in releases && r.signed < |signings| ==> signings[r.signed].gen == t.gen
  {
    assert SlotOk(c, w, w.flash[i]) && CurrentOk(c, w, Read(w.flash[i]).value);
  }

  lemma SignKeepsInv(c: Crypto, batch: nat, w: World, req: Request, power: nat)
    requires Inv(c, w)
    ensures Inv(c, SignWorld(c, batch, w, req, power))
  {
    var found := Find(UntagAll(w.flash), req.coord.stream);
    if found.None? {
      return;
    }
    var i := found.value;
    var record := RecordToWrite(c, Untag(w.flash[i]), req, WrappingInc(w.lastUsed));
    if record.None? || Read(w.flash[i]).None? {
      return;
    }
    var t := SignTag(c, w, i, req, record.value);
    var releases := SignWorldShape(c, batch, w, req, power, i, record.value);
    if SigningsOf(c, w, i, req, t, power) != [] {
      NewSigningHistory(c, w, req, power, i, record.value, releases);
    } else {
      OldSigningHistory(c, w, req, power, i, record.value, releases);
      assert w.signings + SigningsOf(c, w, i, req, t, power) == w.signings;
    }
    ReleaseGen(c, w, req, power, i, record.value, releases);
    AppendKeepsInv(c, w, i, t, power, SigningsOf(c, w, i, req, t, power), releases);
  }

  // A device whose slots are all empty, before anything happened.
  ghost predicate Blank(w: World) {
    w.inits == [] && w.signings == [] && w.releases == [] && forall i :: 0 <= i < |w.flash| ==> w.flash[i] == [None, None]
  }

  lemma {:induction false} RunKeepsInv(c: Crypto, batch: nat, w: World, events: seq<Event>)
    requires Blank(w)
    ensures Inv(c, RunWorld(c, batch, w, events))
    ensures |RunWorld(c, batch, w, events).flash| == |w.flash|
  {
    if events != [] {
      var p := RunWorld(c, batch, w, events[..|events| - 1]);
      RunKeepsInv(c, batch, w, events[..|events| - 1]);
      var next := p;
      match events[|events| - 1] {
        case Open(stream, seed, power) =>
          OpenKeepsInv(c, p, stream, seed, power);
          next := OpenWorld(p, stream, seed, power);
        case Sign(req, power) =>
          SignKeepsInv(c, batch, p, req, power);
          next := SignWorld(c, batch, p, req, power);
        case Reboot =>
      }
      InvIgnoresClock(c, next, DeviceStep(c, batch, Erased(p), events[|events| - 1]).0.lastUsed);
    }
  }

  // ---------------------------------------------------------------------------------------------
  // The history is complete

  predicate Releases(o: Outcome) {
    o.SignOut? && o.sign.Released?
  }

  // `s` is about the stream that `req` names.
  ghost predicate OnStream(inits: seq<(StreamId, SeedMaterial)>, s: Signing, stream: StreamId) {
    s.gen < |inits| && inits[s.gen].0 == stream
  }

  // `s` signs what `req` asks for.
  ghost predicate Asks(req: Request, s: Signing, inits: seq<(StreamId, SeedMaterial)>) {
    req.sessionId == s.sessionId && req.coord.index == s.start && req.items == s.items && OnStream(inits, s, req.coord.stream)
  }

  // What one event adds to the history, told from what the device does.
  ghost predicate Records(w: World, e: Event, out: Outcome, v: World) {
    && w.inits <= v.inits && w.signings <= v.signings && w.releases <= v.releases
    && |v.signings| <= |w.signings| + 1
    && (|v.signings| > |w.signings| ==> e.Sign? && Asks(e.req, v.signings[|w.signings|], v.inits))
    && |v.releases| == |w.releases| + (if Releases(out) then 1 else 0)
    && (Releases(out) ==>
          && e.Sign?
          && var r := v.releases[|w.releases|];
             && r.shares == out.sign.shares && r.signed < |v.signings|
             && v.signings[r.signed].sessionId == e.req.sessionId && OnStream(v.inits, v.signings[r.signed], e.req.coord.stream))
  }

  lemma UntagRead(cells: Cells<Tagged>)
    ensures Read(Untag(cells)) == if Read(cells).None? then None else Some(Read(cells).value.record)
  {
  }

  // A slot that can release has a record, and what it releases is the record of a signing.
  lemma ReleasedRecord(c: Crypto, batch: nat, w: World, req: Request, power: nat, i: nat)
    requires Inv(c, w) && i < |w.flash|
    requires SignResult(c, Untag(w.flash[i]), req, WrappingInc(w.lastUsed), batch, power).Released?
    ensures Read(w.flash[i]).Some?
    ensures var record := RecordToWrite(c, Untag(w.flash[i]), req, WrappingInc(w.lastUsed));
            && record.Some? && record.value.signing.Some? && record.value.signing.value.sessionId == req.sessionId
            && SignTag(c, w, i, req, record.value).signed.Some?
            && SignResult(c, Untag(w.flash[i]), req, WrappingInc(w.lastUsed), batch, power).shares == record.value.signing.value.shares
    ensures Commits(w.flash[i], power)
  {
    UntagRead(w.flash[i]);
    var t := Read(w.flash[i]).value;
    UntagInterrupted(w.flash[i], t, power);
    assert SlotOk(c, w, w.flash[i]) && CurrentOk(c, w, t);
  }

  // The slot that is found belongs to an initialisation of the stream.
  lemma FoundOnStream(c: Crypto, w: World, stream: StreamId, i: nat)
    requires Inv(c, w) && Find(UntagAll(w.flash), stream) == Some(i)
    ensures i < |w.flash| && Read(w.flash[i]).Some?
    ensures var t := Read(w.flash[i]).value;
            t.gen < |w.inits| && w.inits[t.gen].0 == stream && t.record.stream == stream
  {
    UntagRead(w.flash[i]);
    CurrentTagOk(c, w, w.flash[i]);
  }

  // The signing that stored the shares: a new one, or the one the slot's record names.
  lemma ReleasedSigning(c: Crypto, batch: nat, w: World, req: Request, power: nat, i: nat)
    requires Inv(c, w) && Find(UntagAll(w.flash), req.coord.stream) == Some(i)
    requires SignResult(c, Untag(w.flash[i]), req, WrappingInc(w.lastUsed), batch, power).Released?
    ensures var v := SignWorld(c, batch, w, req, power);
            && |v.releases| == |w.releases| + 1 && w.releases <= v.releases
            && var r := v.releases[|w.releases|];
               && r.shares == SignResult(c, Untag(w.flash[i]), req, WrappingInc(w.lastUsed), batch, power).shares
               && r.signed < |v.signings| && v.signings[r.signed].sessionId == req.sessionId
               && OnStream(v.inits, v.signings[r.signed], req.coord.stream)
  {
    FoundOnStream(c, w, req.coord.stream, i);
    ReleasedRecord(c, batch, w, req, power, i);
    var record := RecordToWrite(c, Untag(w.flash[i]), req, WrappingInc(w.lastUsed)).value;
    var t := SignTag(c, w, i, req, record);
    if !IsFresh(c, Untag(w.flash[i]), req, WrappingInc(w.lastUsed)) {
      UntagRead(w.flash[i]);
      assert SlotOk(c, w, w.flash[i]) && CurrentOk(c, w, t);
      assert SharesAreSigned(c, w, t);
    }
  }

  lemma StepRecords(c: Crypto, batch: nat, w: World, e: Event)
    requires Inv(c, w)
    ensures Records(w, e, DeviceStep(c, batch, Erased(w), e).1, WorldStep(c, batch, w, e))
  {
    if e.Sign? {
      var found := Find(UntagAll(w.flash), e.req.coord.stream);
      if found.Some? && SignResult(c, Untag(w.flash[found.value]), e.req, WrappingInc(w.lastUsed), batch, e.power).Released? {
        ReleasedSigning(c, batch, w, e.req, e.power, found.value);
      }
      if found.Some? {
        FoundOnStream(c, w, e.req.coord.stream, found.value);
      }
    }
  }

  // The history grows along a run.
  lemma {:induction false} HistoryGrows(c: Crypto, batch: nat, w: World, events: seq<Event>, i: nat)
    requires Blank(w) && i <= |events|
    ensures var v, u := RunWorld(c, batch, w, events), RunWorld(c, batch, w, events[..i]);
            u.inits <= v.inits && u.signings <= v.signings && u.releases <= v.releases
    decreases |events|
  {
    if i < |events| {
      var init := events[..|events| - 1];
      HistoryGrows(c, batch, w, init, i);
      assert init[..i] == events[..i];
      RunKeepsInv(c, batch, w, init);
      StepRecords(c, batch, RunWorld(c, batch, w, init), events[|events| - 1]);
    } else {
      assert events[..i] == events;
    }
  }

  // The last event of a run.
  lemma LastRecords(c: Crypto, batch: nat, w: World, events: seq<Event>)
    requires Blank(w) && events != []
    ensures var p, e := RunWorld(c, batch, w, events[..|events| - 1]), events[|events| - 1];
            Records(p, e, DeviceStep(c, batch, Erased(p), e).1, RunWorld(c, batch, w, events))
  {
    RunKeepsInv(c, batch, w, events[..|events| - 1]);
    StepRecords(c, batch, RunWorld(c, batch, w, events[..|events| - 1]), events[|events| - 1]);
  }

  // Every signing was asked for.
  lemma {:induction false} SigningsAreRequests(c: Crypto, batch: nat, w: World, events: seq<Event>, k: nat) returns (j: nat)
    requires Blank(w) && k < |RunWorld(c, batch, w, events).signings|
    ensures var v := RunWorld(c, batch, w, events);
            j < |events| && events[j].Sign? && Asks(events[j].req, v.signings[k], v.inits)
  {
    var init := events[..|events| - 1];
    LastRecords(c, batch, w, events);
    if k < |RunWorld(c, batch, w, init).signings| {
      j := SigningsAreRequests(c, batch, w, init, k);
    } else {
      j := |events| - 1;
    }
  }

  // ---------------------------------------------------------------------------------------------
  // What the device lets out

  ghost predicate BlankFlash(d: Device) {
    forall i :: 0 <= i < |d.flash| ==> d.flash[i] == [None, None]
  }

  // The device with an empty history.
  ghost function Tracked(d: Device): World {
    World(seq(|d.flash|, _ => [None, None]), d.lastUsed, [], [], [])
  }

  lemma TrackedErases(d: Device)
    requires BlankFlash(d)
    ensures Erased(Tracked(d)) == d && Blank(Tracked(d))
  {
    assert UntagAll(Tracked(d).flash) == d.flash;
  }

  // The outcome of the a-th event of a device's run.
  ghost function OutcomeAt(c: Crypto, batch: nat, d: Device, events: seq<Event>, a: nat): Outcome
    requires a < |events|
  {
    DeviceStep(c, batch, RunDevice(c, batch, d, events[..a]), events[a]).1
  }

  // How many of the first `a` events released shares.
  ghost function CountReleased(c: Crypto, batch: nat, d: Device, events: seq<Event>, a: nat): nat
    requires a <= |events|
  {
    if a == 0 then 0
    else CountReleased(c, batch, d, events, a - 1) + if Releases(OutcomeAt(c, batch, d, events, a - 1)) then 1 else 0
  }

  /** In every run of the device, the history has one release for each event that released shares, in order
      and with exactly those shares. It names a signing of the requested session, which some event asked for. */
  lemma {:induction false} ReleasesAreComplete(c: Crypto, batch: nat, d: Device, events: seq<Event>, a: nat)
    requires BlankFlash(d) && a <= |events|
    ensures var v := RunWorld(c, batch, Tracked(d), events[..a]);
            && Erased(v) == RunDevice(c, batch, d, events[..a])
            && |v.releases| == CountReleased(c, batch, d, events, a)
            && (a > 0 && Releases(OutcomeAt(c, batch, d, events, a - 1)) ==>
                  && events[a - 1].Sign?
                  && var r := v.releases[|v.releases| - 1];
                     && r.shares == OutcomeAt(c, batch, d, events, a - 1).sign.shares
                     && r.signed < |v.signings| && v.signings[r.signed].sessionId == events[a - 1].req.sessionId
                     && OnStream(v.inits, v.signings[r.signed], events[a - 1].req.coord.stream))
  {
    TrackedErases(d);
    RunErases(c, batch, Tracked(d), events[..a]);
    if a > 0 {
      var before := events[..a - 1];
      ReleasesAreComplete(c, batch, d, events, a - 1);
      assert events[..a][..a - 1] == before && events[..a][a - 1] == events[a - 1];
      var w := RunWorld(c, batch, Tracked(d), before);
      RunKeepsInv(c, batch, Tracked(d), before);
      StepRecords(c, batch, w, events[a - 1]);
    }
  }

  /** The signing whose shares the a-th event released. */
  ghost function SigningBehind(c: Crypto, batch: nat, d: Device, events: seq<Event>, a: nat): (s: Signing)
    requires BlankFlash(d) && a < |events| && Releases(OutcomeAt(c, batch, d, events, a))
    ensures events[a].Sign? && s.sessionId == events[a].req.sessionId
  {
    HasRelease(c, batch, d, events, a);
    LastSigning(RunWorld(c, batch, Tracked(d), events[..a + 1]))
  }

  ghost predicate EndsInRelease(v: World) {
    v.releases != [] && v.releases[|v.releases| - 1].signed < |v.signings|
  }

  ghost function LastSigning(v: World): Signing
    requires EndsInRelease(v)
  {
    v.signings[v.releases[|v.releases| - 1].signed]
  }

  lemma HasRelease(c: Crypto, batch: nat, d: Device, events: seq<Event>, a: nat)
    requires BlankFlash(d) && a < |events| && Releases(OutcomeAt(c, batch, d, events, a))
    ensures var v := RunWorld(c, batch, Tracked(d), events[..a + 1]);
            && EndsInRelease(v) && events[a].Sign? && LastSigning(v).sessionId == events[a].req.sessionId
            && OnStream(v.inits, LastSigning(v), events[a].req.coord.stream)
  {
    ReleasesAreComplete(c, batch, d, events, a + 1);
  }

  // Its place in the history of the whole run.
  lemma ReleaseInRun(c: Crypto, batch: nat, d: Device, events: seq<Event>, a: nat) returns (k: nat)
    requires BlankFlash(d) && a < |events| && Releases(OutcomeAt(c, batch, d, events, a))
    ensures var v := RunWorld(c, batch, Tracked(d), events);
            && k == CountReleased(c, batch, d, events, a) < |v.releases|
            && v.releases[k].shares == OutcomeAt(c, batch, d, events, a).sign.shares
            && v.releases[k].signed < |v.signings|
            && v.signings[v.releases[k].signed] == SigningBehind(c, batch, d, events, a)
  {
    TrackedErases(d);
    ReleasesAreComplete(c, batch, d, events, a + 1);
    HistoryGrows(c, batch, Tracked(d), events, a + 1);
    var u, v := RunWorld(c, batch, Tracked(d), events[..a + 1]), RunWorld(c, batch, Tracked(d), events);
    k := |u.releases| - 1;
    assert v.releases[k] == u.releases[k] && v.signings[u.releases[k].signed] == u.signings[u.releases[k].signed];
  }

  // The streams that have been initialised in a run of the device.
  ghost function InitsOf(c: Crypto, batch: nat, d: Device, events: seq<Event>): seq<(StreamId, SeedMaterial)> {
    if events == [] then []
    else
      var init, e := events[..|events| - 1], events[|events| - 1];
      InitsOf(c, batch, d, init) + if e.Open? then InitOf(RunDevice(c, batch, d, init).flash, e.stream, e.seed, e.power) else []
  }

  // Opening a stream initialises a slot if none has it and the write takes effect.
  ghost function InitOf(flash: Flash, stream: StreamId, seed: SeedMaterial, power: nat): seq<(StreamId, SeedMaterial)> {
    var ch := ChoiceFor(flash, stream);
    if FreshRecordAt(ch) && Commits(flash[ch.slot], power) then [(stream, seed)] else []
  }

  lemma {:induction false} InitsAreComplete(c: Crypto, batch: nat, d: Device, events: seq<Event>)
    requires BlankFlash(d)
    ensures RunWorld(c, batch, Tracked(d), events).inits == InitsOf(c, batch, d, events)
  {
    TrackedErases(d);
    if events != [] {
      var init, e := events[..|events| - 1], events[|events| - 1];
      InitsAreComplete(c, batch, d, init);
      RunErases(c, batch, Tracked(d), init);
      var w := RunWorld(c, batch, Tracked(d), init);
      RunKeepsInv(c, batch, Tracked(d), init);
      if e.Open? {
        var ch := ChoiceFor(UntagAll(w.flash), e.stream);
        if FreshRecordAt(ch) {
          UntagInterrupted(w.flash[ch.slot], Tagged(InitialRecord(e.stream, 0, e.seed), 0, None), e.power);
        }
      }
    }
  }

  /** In any run of a device from blank flash, whatever the requests and wherever the supply fails: the
      shares that an event releases are those of one signing, which an event asked for, made with the
      secret nonces that the seed of one initialisation has at its indices. Two events whose signings used
      the same index of the same initialisation released the very same signing, with the same shares. */
  lemma NoNonceSignsTwice(c: Crypto, batch: nat, d: Device, events: seq<Event>, a: nat, b: nat, index: nat)
    requires BlankFlash(d) && a < |events| && b < |events|
    requires Releases(OutcomeAt(c, batch, d, events, a)) && Releases(OutcomeAt(c, batch, d, events, b))
    ensures ReleaseIsSigned(c, batch, d, events, a) && ReleaseIsSigned(c, batch, d, events, b)
    ensures var s, s' := SigningBehind(c, batch, d, events, a), SigningBehind(c, batch, d, events, b);
            s.gen == s'.gen && s.start <= index < SigningEnd(s) && s'.start <= index < SigningEnd(s') ==>
              s == s' && OutcomeAt(c, batch, d, events, a).sign.shares == OutcomeAt(c, batch, d, events, b).sign.shares
  {
    ReleasedIsSigned(c, batch, d, events, a);
    ReleasedIsSigned(c, batch, d, events, b);
    TrackedErases(d);
    RunKeepsInv(c, batch, Tracked(d), events);
    var v := RunWorld(c, batch, Tracked(d), events);
    var k := ReleaseInRun(c, batch, d, events, a);
    var l := ReleaseInRun(c, batch, d, events, b);
    OverlapsAgree(c, v, k, l, index);
  }

  ghost predicate ReleaseIsSigned(c: Crypto, batch: nat, d: Device, events: seq<Event>, a: nat)
    requires BlankFlash(d) && a < |events| && Releases(OutcomeAt(c, batch, d, events, a))
  {
    var s, inits := SigningBehind(c, batch, d, events, a), InitsOf(c, batch, d, events);
    && s.gen < |inits|
    && OutcomeAt(c, batch, d, events, a).sign.shares == SharesOf(c, inits[s.gen].0, inits[s.gen].1, s.start, s.items)
    && inits[s.gen].0 == events[a].req.coord.stream
    && exists j :: 0 <= j < |events| && events[j].Sign? && Asks(events[j].req, s, inits)
  }

  lemma ReleasedIsSigned(c: Crypto, batch: nat, d: Device, events: seq<Event>, a: nat)
    requires BlankFlash(d) && a < |events| && Releases(OutcomeAt(c, batch, d, events, a))
    ensures ReleaseIsSigned(c, batch, d, events, a)
  {
    TrackedErases(d);
    RunKeepsInv(c, batch, Tracked(d), events);
    InitsAreComplete(c, batch, d, events);
    HasRelease(c, batch, d, events, a);
    HistoryGrows(c, batch, Tracked(d), events, a + 1);
    var v := RunWorld(c, batch, Tracked(d), events);
    var k := ReleaseInRun(c, batch, d, events, a);
    assert ReleaseOk(c, v, v.releases[k]);
    var j := SigningsAreRequests(c, batch, Tracked(d), events, v.releases[k].signed);
  }

  lemma OverlapsAgree(c: Crypto, v: World, a: nat, b: nat, index: nat)
    requires HistoryOk(c, v) && a < |v.releases| && b < |v.releases|
    ensures ReleaseOk(c, v, v.releases[a]) && ReleaseOk(c, v, v.releases[b])
    ensures var s, s' := v.signings[v.releases[a].signed], v.signings[v.releases[b].signed];
            s.gen == s'.gen && s.start <= index < SigningEnd(s) && s'.start <= index < SigningEnd(s') ==>
              s == s' && v.releases[a] == v.releases[b]
  {
    assert ReleaseOk(c, v, v.releases[a]) && ReleaseOk(c, v, v.releases[b]);
    var k, l := v.releases[a].signed, v.releases[b].signed;
    if k < l {
      assert v.signings[k].gen == v.signings[l].gen ==> SigningEnd(v.signings[k]) <= v.signings[l].start;
    } else if l < k {
      assert v.signings[k].gen == v.signings[l].gen ==> SigningEnd(v.signings[l]) <= v.signings[k].start;
    }
  }

  // The copy belongs to the initialisation `gen`, and stands behind every nonce of it that was used in shares
  // that were released.
  ghost predicate StandsPast(c: Crypto, batch: nat, d: Device, events: seq<Event>, r: Record, gen: nat)
    requires BlankFlash(d)
  {
    var inits := InitsOf(c, batch, d, events);
    && gen < |inits| && r.stream == inits[gen].0 && DescendsFrom(c, r, inits[gen].1)
    && forall a {:trigger OutcomeAt(c, batch, d, events, a)} ::
         0 <= a < |events| && Releases(OutcomeAt(c, batch, d, events, a)) && SigningBehind(c, batch, d, events, a).gen == gen ==>
           SigningEnd(SigningBehind(c, batch, d, events, a)) <= r.index
  }

  /** In any run of the device, every copy on flash, current or stale, belongs to one initialisation: it stands on
      the stream of that seed, and past every nonce of it that any released signing used. So none of those
      secrets can be derived from flash again. */
  lemma NoCopyKeepsReleasedSeed(c: Crypto, batch: nat, d: Device, events: seq<Event>, i: nat, j: nat) returns (gen: nat)
    requires BlankFlash(d) && j < 2
    requires var flash := RunDevice(c, batch, d, events).flash;
             i < |flash| && flash[i][j].Some?
    ensures StandsPast(c, batch, d, events, RunDevice(c, batch, d, events).flash[i][j].value.value, gen)
  {
    TrackedErases(d);
    RunErases(c, batch, Tracked(d), events);
    RunKeepsInv(c, batch, Tracked(d), events);
    InitsAreComplete(c, batch, d, events);
    var v := RunWorld(c, batch, Tracked(d), events);
    var t := v.flash[i][j].value.value;
    gen := t.gen;
    assert SlotOk(c, v, v.flash[i]);
    assert TagOk(c, v, t);
    forall a | 0 <= a < |events| && Releases(OutcomeAt(c, batch, d, events, a)) && SigningBehind(c, batch, d, events, a).gen == gen
      ensures SigningEnd(SigningBehind(c, batch, d, events, a)) <= t.record.index {
      var k := ReleaseInRun(c, batch, d, events, a);
    }
  }

  /** Every nonce job that the device starts after any run publishes the public nonces of one seed that its stream
      was initialised with, however its work is sliced. */
  lemma JobsFollowTheirSeed(c: Crypto, batch: nat, d: Device, events: seq<Event>, i: nat, state: CoordState, n: nat) returns (gen: nat)
    requires BlankFlash(d)
    requires var flash := RunDevice(c, batch, d, events).flash;
             i < |flash| && Read(flash[i]).Some? && Reconcile(Read(flash[i]).value, state, batch).Job?
    ensures var r, inits := Read(RunDevice(c, batch, d, events).flash[i]).value, InitsOf(c, batch, d, events);
            && StandsPast(c, batch, d, events, r, gen)
            && Publishing(c, Worked(c, Reconcile(r, state, batch).state, n), inits[gen].1)
  {
    var cells: Cells<Record> := RunDevice(c, batch, d, events).flash[i];
    var r: Record := Read(cells).value;
    var j := if cells[0].Some? && cells[0].value.value == r then 0 else 1;
    gen := NoCopyKeepsReleasedSeed(c, batch, d, events, i, j);
    var length := if r.index > state.index || state.remaining < batch then batch else state.index - r.index;
    JobPublishesStream(c, r, InitsOf(c, batch, d, events)[gen].1, None, length, n);
  }
}
