/**
 Signing from a slot and choosing slots for streams (the `NonceStreamSlot` and `AbSlots` parts of
 frostsnap_core/src/device_nonces.rs) on the two-copy flash records of `AbWrite`.
 */
module NonceSlots {
  import opened Common
  import opened AbWrite
  import opened NonceStream
  import opened DeviceNonces

  type Flash = seq<Cells<Record>>

  // ---------------------------------------------------------------------------------------------
  // Signing

  datatype Request = Request(sessionId: SessionId, coord: CoordState, items: seq<SignItem>)

  datatype NoncesUnavailable = IndexUsed(current: U32, requested: U32) | StreamNotFound

  datatype SignPlan =
    | Cached(record: Record)
    | Unavailable(error: NoncesUnavailable)
    | PlanPanics
    | Fresh(record: Record)

  // What signing hands back. `Panicked` and `Off` end in a reboot.
  datatype SignOutcome =
    | Released(shares: seq<SignatureShare>, job: Option<JobState>)
    | Refused(error: NoncesUnavailable)
    | Panicked
    | Off

  // Item k is signed with the nonce at `start + k`.
  function SharesOf(c: Crypto, stream: StreamId, seed: SeedMaterial, start: nat, items: seq<SignItem>): (s: seq<SignatureShare>)
    ensures |s| == |items|
  {
    seq(|items|, k requires 0 <= k < |items| => c.sign(items[k], SecretAt(c, stream, seed, start + k)))
  }

  // The same, counted from seed material further along the stream.
  function SharesFrom(c: Crypto, r: Record, start: nat, items: seq<SignItem>): (s: seq<SignatureShare>)
    requires r.index <= start
    ensures |s| == |items|
  {
    seq(|items|, k requires 0 <= k < |items| =>
      c.sign(items[k], SecretFrom(c, r.stream, start + k, Ratchet(c, r.stream, r.material, r.index, start + k - r.index))))
  }

  lemma SharesFromSeed(c: Crypto, r: Record, seed: SeedMaterial, start: nat, items: seq<SignItem>)
    requires DescendsFrom(c, r, seed) && r.index <= start
    ensures SharesFrom(c, r, start, items) == SharesOf(c, r.stream, seed, start, items)
  {
    forall k | 0 <= k < |items| ensures SharesFrom(c, r, start, items)[k] == SharesOf(c, r.stream, seed, start, items)[k] {
      RatchetComposes(c, r.stream, seed, 0, r.index, start + k - r.index);
    }
  }

  function SignedRecord(c: Crypto, r: Record, req: Request, lastUsed: U32): Record
    requires r.index <= req.coord.index && req.coord.index + |req.items| <= U32_MAX
  {
    var next := req.coord.index + |req.items|;
    Record(next, r.stream, Ratchet(c, r.stream, r.material, r.index, next - r.index), lastUsed,
           Some(SigningState(req.sessionId, SharesFrom(c, r, req.coord.index, req.items))))
  }

  function PlanSign(c: Crypto, r: Record, req: Request, lastUsed: U32): SignPlan {
    if r.signing.Some? && r.signing.value.sessionId == req.sessionId then Cached(r)
    else if req.coord.index < r.index then Unavailable(IndexUsed(r.index, req.coord.index))
    else if req.items == [] || req.coord.index + |req.items| > U32_MAX then PlanPanics
    else Fresh(SignedRecord(c, r, req, lastUsed))
  }

  /** The loop of `sign_guaranteeing_nonces_destroyed` over the sessions to sign. */
  method PlanSigning(c: Crypto, r: Record, req: Request, lastUsed: U32) returns (plan: SignPlan)
    ensures plan == PlanSign(c, r, req, lastUsed)
  {
    if r.signing.Some? && r.signing.value.sessionId == req.sessionId {
      return Cached(r);
    }
    if req.coord.index < r.index {
      return Unavailable(IndexUsed(r.index, req.coord.index));
    }
    var signed := SignItems(c, r, req.coord.index, req.items);
    if signed.None? {
      // "tried to sign with nonces out of range"
      return PlanPanics;
    }
    var (shares, next) := signed.value;
    if next.None? {
      // "sign sessions must not be empty"
      return PlanPanics;
    }
    return Fresh(Record(next.value.0, r.stream, next.value.1, lastUsed, Some(SigningState(req.sessionId, shares))));
  }

  // Where the stream stands after `n` nonces from `start`, if there were any.
  function NextState(c: Crypto, r: Record, start: U32, n: nat): Option<(U32, SeedMaterial)>
    requires r.index <= start && start + n <= U32_MAX
  {
    if n == 0 then None else Some((start + n, Ratchet(c, r.stream, r.material, r.index, start + n - r.index)))
  }

  // One share per item from `start` on, and where the stream stands afterwards.
  method SignItems(c: Crypto, r: Record, start: U32, items: seq<SignItem>)
    returns (signed: Option<(seq<SignatureShare>, Option<(U32, SeedMaterial)>)>)
    requires r.index <= start
    ensures signed.None? <==> start + |items| > U32_MAX
    ensures signed.Some? ==> signed.value.0 == SharesFrom(c, r, start, items)
    ensures signed.Some? ==> signed.value.1 == NextState(c, r, start, |items|)
  {
    var nonceIter := new NonceIter(r);
    nonceIter.Skip(c, start - r.index);
    var shares: seq<SignatureShare> := [];
    var next: Option<(U32, SeedMaterial)> := None;
    var i := 0;
    while i < |items|
      invariant 0 <= i <= |items| && start + i <= U32_MAX
      invariant nonceIter.stream == r.stream && nonceIter.index == start + i
      invariant nonceIter.material == Ratchet(c, r.stream, r.material, r.index, start + i - r.index)
      invariant shares == SharesFrom(c, r, start, items[..i])
      invariant next == if i == 0 then None else Some((nonceIter.index, nonceIter.material))
    {
      var item := nonceIter.Next(c);
      if item.None? {
        return None;
      }
      var (currentIndex, secretNonce, nextSeedMaterial) := item.value;
      next := Some((currentIndex + 1, nextSeedMaterial));
      shares := shares + [c.sign(items[i], secretNonce)];
      i := i + 1;
    }
    assert items[..i] == items;
    return Some((shares, next));
  }

  // The record that signing leaves in a slot, if it gets as far as writing one.
  function RecordToWrite(c: Crypto, cells: Cells<Record>, req: Request, lastUsed: U32): Option<Record> {
    if Read(cells).None? || Read(cells).value.stream != req.coord.stream then None
    else match PlanSign(c, Read(cells).value, req, lastUsed)
         case Cached(r) => Some(r)
         case Fresh(r) => Some(r)
         case _ => None
  }

  function SignCells(c: Crypto, cells: Cells<Record>, req: Request, lastUsed: U32, power: nat): Cells<Record> {
    match RecordToWrite(c, cells, req, lastUsed)
    case None => cells
    case Some(r) => Interrupted(cells, r, power)
  }

  function SignResult(c: Crypto, cells: Cells<Record>, req: Request, lastUsed: U32, batch: nat, power: nat): SignOutcome {
    if Read(cells).None? || Read(cells).value.stream != req.coord.stream then Panicked
    else
      var plan := PlanSign(c, Read(cells).value, req, lastUsed);
      match plan
      case Unavailable(e) => Refused(e)
      case PlanPanics => Panicked
      case _ =>
        match OutcomeOf(cells, power)
        case WornOut => Panicked
        case PowerLost => Off
        case Written =>
          match Reconcile(plan.record, req.coord, batch)
          case JobPanics => Panicked
          case NoJob => Released(plan.record.signing.value.shares, None)
          case Job(s) => Released(plan.record.signing.value.shares, Some(s))
  }

  /** `sign_guaranteeing_nonces_destroyed` of a slot: sign or reuse, write both copies, read back, and
      only then hand the shares out. */
  method SignGuaranteeingNoncesDestroyed(c: Crypto, slot: AbSlot<Record>, req: Request, lastUsed: U32, batch: nat, power: nat)
    returns (out: SignOutcome)
    requires ValidCells(slot.cells)
    modifies slot
    ensures slot.cells == SignCells(c, old(slot.cells), req, lastUsed, power)
    ensures out == SignResult(c, old(slot.cells), req, lastUsed, batch, power)
    ensures ValidCells(slot.cells)
  {
    var value := slot.ReadValue();
    if value.None? {
      // "cannot sign with uninitialized slot"
      return Panicked;
    }
    if req.coord.stream != value.value.stream {
      // "wrong stream id"
      return Panicked;
    }
    var plan := PlanSigning(c, value.value, req, lastUsed);
    if plan.Unavailable? {
      return Refused(plan.error);
    }
    if plan.PlanPanics? {
      return Panicked;
    }
    var withSignatures := plan.record;
    InterruptedWrite(slot.cells, withSignatures, power);
    var outcome := slot.Write(withSignatures, power);
    match outcome
    case WornOut => return Panicked;
    case PowerLost => return Off;
    case Written =>
      var readBack := slot.ReadValue();
      // "signature shares should have been read the same as written"
      assert readBack == Some(withSignatures);
      var signatureShares := readBack.value.signing.value.shares;
      var replenishment := Reconcile(readBack.value, req.coord, batch);
      match replenishment
      case JobPanics => return Panicked;
      case NoJob => return Released(signatureShares, None);
      case Job(s) => return Released(signatureShares, Some(s));
  }

  /** Shares leave the device only once both copies hold the record that already counts them as used,
      on the fresh path and on the path that finds them on flash. */
  lemma ReleasedMeansDestroyed(c: Crypto, cells: Cells<Record>, req: Request, lastUsed: U32, batch: nat, power: nat)
    requires ValidCells(cells)
    requires SignResult(c, cells, req, lastUsed, batch, power).Released?
    ensures var d := SignCells(c, cells, req, lastUsed, power);
            var out := SignResult(c, cells, req, lastUsed, batch, power);
            exists r: Record ::
              && d[0] == d[1] && d[0].Some? && d[0].value.value == r
              && r.signing == Some(SigningState(req.sessionId, out.shares))
              && r.index >= Read(cells).value.index
              && (!PlanSign(c, Read(cells).value, req, lastUsed).Cached? ==> r.index == req.coord.index + |req.items|)
  {
    var r := RecordToWrite(c, cells, req, lastUsed).value;
    var d := SignCells(c, cells, req, lastUsed, power);
    assert d[0].value.value == r;
  }

  // ---------------------------------------------------------------------------------------------
  // Slots

  datatype Choice = Existing(slot: nat) | Vacant(slot: nat) | Evict(slot: nat) | NoSlots

  // The first of the slots with the lowest `last_used`.
  ghost predicate LeastRecentlyUsed(flash: Flash, i: nat) {
    && i < |flash|
    && (forall j :: 0 <= j < |flash| ==> Read(flash[j]).Some?)
    && (forall j :: 0 <= j < |flash| ==> Read(flash[i]).value.lastUsed <= Read(flash[j]).value.lastUsed)
    && (forall j :: 0 <= j < i ==> Read(flash[i]).value.lastUsed < Read(flash[j]).value.lastUsed)
  }

  lemma LowestSoFar(flash: Flash, i: nat, idx: nat, lowest: U32)
    requires i < |flash| && Read(flash[i]).Some?
    requires if i == 0 then idx == 0 && lowest == 0xFFFF_FFFF
             else LeastRecentlyUsed(flash[..i], idx) && Read(flash[idx]).value.lastUsed == lowest
    ensures if Read(flash[i]).value.lastUsed < lowest then LeastRecentlyUsed(flash[..i + 1], i)
            else LeastRecentlyUsed(flash[..i + 1], idx) && Read(flash[idx]).value.lastUsed == lowest
  {
    assert flash[..i + 1] == flash[..i] + [flash[i]];
    assert Read(flash[i]).value.lastUsed <= 0xFFFF_FFFF;
  }

  // The slots before `k` are taken by other streams.
  ghost predicate OthersUpTo(flash: Flash, stream: StreamId, k: nat) {
    k <= |flash| && forall j :: 0 <= j < k ==> Read(flash[j]).Some? && Read(flash[j]).value.stream != stream
  }

  // `ch` is what the request for `stream` must do with the slots.
  ghost predicate IsChoice(flash: Flash, stream: StreamId, ch: Choice) {
    match ch
    case Existing(k) => k < |flash| && OthersUpTo(flash, stream, k) && Read(flash[k]).Some? && Read(flash[k]).value.stream == stream
    case Vacant(k) => k < |flash| && OthersUpTo(flash, stream, k) && Read(flash[k]).None?
    case Evict(k) => OthersUpTo(flash, stream, |flash|) && LeastRecentlyUsed(flash, k)
    case NoSlots => flash == []
  }

  lemma ChoiceIsUnique(flash: Flash, stream: StreamId, a: Choice, b: Choice)
    requires IsChoice(flash, stream, a) && IsChoice(flash, stream, b)
    ensures a == b
  {
    if a.Evict? && b.Evict? {
      assert Read(flash[a.slot]).value.lastUsed == Read(flash[b.slot]).value.lastUsed;
    } else if !a.NoSlots? && !b.NoSlots? {
      // The first slot that is empty or taken by the stream.
      assert !a.Evict? ==> !OthersUpTo(flash, stream, a.slot + 1);
      assert !b.Evict? ==> !OthersUpTo(flash, stream, b.slot + 1);
    }
  }

  datatype OpenOutcome = Opened(slot: nat) | OpenPanics | OpenOff

  predicate FreshRecordAt(ch: Choice) {
    ch.Vacant? || ch.Evict?
  }

  /** `AbSlots`: the slots of a device and the clock that orders their use. */
  class AbSlots {
    const slots: seq<AbSlot<Record>>
    var lastUsed: U32

    ghost predicate Valid()
      reads slots
    {
      && (forall i, j :: 0 <= i < j < |slots| ==> slots[i] != slots[j])
      && (forall i :: 0 <= i < |slots| ==> ValidCells(slots[i].cells))
    }

    ghost function Contents(): (f: Flash)
      reads slots
      ensures |f| == |slots|
      ensures forall i :: 0 <= i < |slots| ==> f[i] == slots[i].cells
    {
      seq(|slots|, i requires 0 <= i < |slots| reads slots => slots[i].cells)
    }

    // `AbSlots::new`: the clock restarts from the newest use on flash.
    constructor (slots: seq<AbSlot<Record>>)
      requires forall i, j :: 0 <= i < j < |slots| ==> slots[i] != slots[j]
      requires forall i :: 0 <= i < |slots| ==> ValidCells(slots[i].cells)
      ensures Valid() && this.slots == slots
      ensures lastUsed == Clock(Contents())
      ensures forall i :: 0 <= i < |slots| ==> slots[i].cells == old(slots[i].cells)
    {
      var latest: U32 := 0;
      ghost var flash: Flash := seq(|slots|, i requires 0 <= i < |slots| reads slots => slots[i].cells);
      for i := 0 to |slots|
        invariant latest == Clock(flash[..i])
      {
        var value := slots[i].ReadValue();
        assert flash[..i + 1] == flash[..i] + [flash[i]];
        if value.Some? && value.value.lastUsed > latest {
          latest := value.value.lastUsed;
        }
      }
      this.slots := slots;
      this.lastUsed := latest;
      new;
      assert flash[..|slots|] == Contents();
    }

    method Get(stream: StreamId) returns (slot: Option<nat>)
      requires Valid()
      ensures slot == Find(Contents(), stream)
    {
      for i := 0 to |slots|
        invariant Find(Contents(), stream) == FindFrom(Contents(), stream, i)
      {
        var value := slots[i].ReadValue();
        if value.Some? && value.value.stream == stream {
          return Some(i);
        }
      }
      return None;
    }

    // The scan of `get_or_create`.
    method Choose(ghost flash: Flash, stream: StreamId) returns (ch: Choice)
      requires Valid() && flash == Contents()
      ensures IsChoice(flash, stream, ch)
    {
      var i := 0;
      var lowestLastUsed: U32 := 0xFFFF_FFFF;
      var idxLowestLastUsed := 0;
      while i < |slots|
        invariant 0 <= i <= |slots|
        invariant OthersUpTo(flash, stream, i)
        invariant i > 0 ==> LeastRecentlyUsed(flash[..i], idxLowestLastUsed) && Read(flash[idxLowestLastUsed]).value.lastUsed == lowestLastUsed
        invariant i == 0 ==> idxLowestLastUsed == 0 && lowestLastUsed == 0xFFFF_FFFF
      {
        var value := slots[i].ReadValue();
        assert value == Read(flash[i]);
        if value.None? {
          return Vacant(i);
        }
        var v: Record := value.value;
        if v.stream == stream {
          return Existing(i);
        }
        LowestSoFar(flash, i, idxLowestLastUsed, lowestLastUsed);
        if v.lastUsed < lowestLastUsed {
          idxLowestLastUsed := i;
          lowestLastUsed := v.lastUsed;
        }
        i := i + 1;
      }
      assert flash[..i] == flash;
      return if |slots| == 0 then NoSlots else Evict(idxLowestLastUsed);
    }

    /** `get_or_create`: the slot of the stream, else the first empty slot, else the one with the
        lowest `last_used`. A fresh slot is initialised with `seed`, the draw of the generator. */
    method GetOrCreate(stream: StreamId, seed: SeedMaterial, power: nat) returns (out: OpenOutcome, ghost ch: Choice)
      requires Valid()
      modifies this, slots
      ensures Valid()
      ensures IsChoice(old(Contents()), stream, ch)
      ensures lastUsed == WrappingInc(old(lastUsed))
      ensures Contents() == OpenFlash(old(Contents()), ch, InitialRecord(stream, lastUsed, seed), power)
      ensures out == OpenResult(old(Contents()), ch, power)
    {
      ghost var flash := Contents();
      lastUsed := WrappingInc(lastUsed);
      var choice := Choose(flash, stream);
      ch := choice;
      if choice.Existing? {
        out := Opened(choice.slot);
      } else if choice.NoSlots? {
        // Indexing an empty vector.
        out := OpenPanics;
      } else {
        out := Initialize(flash, choice, InitialRecord(stream, lastUsed, seed), power);
      }
    }

    method Initialize(ghost flash: Flash, ch: Choice, value: Record, power: nat) returns (out: OpenOutcome)
      requires Valid() && FreshRecordAt(ch) && ch.slot < |slots| && flash == Contents()
      modifies slots
      ensures Valid()
      ensures Contents() == OpenFlash(flash, ch, value, power)
      ensures out == OpenResult(flash, ch, power)
    {
      var i := ch.slot;
      InterruptedWrite(slots[i].cells, value, power);
      var outcome := slots[i].Write(value, power);
      match outcome
      case Written => return Opened(i);
      case PowerLost => return OpenOff;
      case WornOut => return OpenPanics;
    }

    /** `AbSlots::sign_guaranteeing_nonces_destroyed`. */
    method Sign(c: Crypto, req: Request, batch: nat, power: nat) returns (out: SignOutcome)
      requires Valid()
      modifies this, slots
      ensures Valid()
      ensures (Contents(), lastUsed, out) == SignStep(c, old(Contents()), old(lastUsed), req, batch, power)
    {
      var newLastUsed := WrappingInc(lastUsed);
      var slot := Get(req.coord.stream);
      if slot.None? {
        return Refused(StreamNotFound);
      }
      out := SignGuaranteeingNoncesDestroyed(c, slots[slot.value], req, newLastUsed, batch, power);
      if out.Released? {
        lastUsed := newLastUsed;
      }
      assert Contents() == old(Contents())[slot.value := slots[slot.value].cells];
    }
  }

  function Clock(flash: Flash): U32 {
    if flash == [] then 0
    else
      var rest := Clock(flash[..|flash| - 1]);
      var last := Read(flash[|flash| - 1]);
      if last.Some? && last.value.lastUsed > rest then last.value.lastUsed else rest
  }

  function FindFrom(flash: Flash, stream: StreamId, i: nat): (r: Option<nat>)
    requires i <= |flash|
    ensures r.Some? ==> i <= r.value < |flash| && Read(flash[r.value]).Some? && Read(flash[r.value]).value.stream == stream
    ensures r.None? ==> forall j :: i <= j < |flash| ==> Read(flash[j]).None? || Read(flash[j]).value.stream != stream
    decreases |flash| - i
  {
    if i == |flash| then None
    else if Read(flash[i]).Some? && Read(flash[i]).value.stream == stream then Some(i)
    else FindFrom(flash, stream, i + 1)
  }

  function Find(flash: Flash, stream: StreamId): (r: Option<nat>) {
    FindFrom(flash, stream, 0)
  }

  function OpenFlash(flash: Flash, ch: Choice, record: Record, power: nat): Flash {
    if FreshRecordAt(ch) && ch.slot < |flash| then flash[ch.slot := Interrupted(flash[ch.slot], record, power)] else flash
  }

  function OpenResult(flash: Flash, ch: Choice, power: nat): OpenOutcome {
    match ch
    case Existing(i) => Opened(i)
    case NoSlots => OpenPanics
    case _ =>
      if ch.slot >= |flash| then OpenPanics
      else match OutcomeOf(flash[ch.slot], power)
           case Written => Opened(ch.slot)
           case PowerLost => OpenOff
           case WornOut => OpenPanics
  }

  function SignStep(c: Crypto, flash: Flash, lastUsed: U32, req: Request, batch: nat, power: nat): (Flash, U32, SignOutcome) {
    match Find(flash, req.coord.stream)
    case None => (flash, lastUsed, Refused(StreamNotFound))
    case Some(i) =>
      var newLastUsed := WrappingInc(lastUsed);
      var out := SignResult(c, flash[i], req, newLastUsed, batch, power);
      (flash[i := SignCells(c, flash[i], req, newLastUsed, power)], if out.Released? then newLastUsed else lastUsed, out)
  }
}
