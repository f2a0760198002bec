/**
 Firmware upgrades over the air (device/src/ota.rs): which slot is active, erasing the other one,
 receiving an image into it while passing it on, and switching over.

 A flash step can be the last one before the supply fails, and bytes and ready signals arrive whenever
 they arrive: a `Tick` is what one turn of the transfer loop finds.
 */
module Ota {
  import opened Common

  type byte = bv8

  const SECTOR_SIZE := 4096
  const ERASED: byte := 0xff
  const READY_SIGNAL: byte := 0x11

  // ---------------------------------------------------------------------------------------------
  // The otadata records

  // What an otadata sector decodes to. An erased one does not carry a matching checksum.
  datatype OtaSector = NoRecord | Record(seqNo: U32, seqCrc: nat)

  datatype Current = Current(slot: nat, seqNo: U32)

  predicate ValidRecord(crc: U32 -> nat, s: OtaSector) {
    s.Record? && crc(s.seqNo) == s.seqCrc
  }

  // The slot with the highest sequence number among the valid records; the first of equals.
  ghost predicate IsCurrent(crc: U32 -> nat, otadata: seq<OtaSector>, c: Option<Current>) {
    match c
    case None => forall i :: 0 <= i < |otadata| ==> !ValidRecord(crc, otadata[i])
    case Some(Current(slot, seqNo)) =>
      && slot < |otadata| && ValidRecord(crc, otadata[slot]) && otadata[slot].seqNo == seqNo
      && (forall i :: 0 <= i < |otadata| && ValidRecord(crc, otadata[i]) ==> otadata[i].seqNo <= seqNo)
      && (forall i :: 0 <= i < slot && ValidRecord(crc, otadata[i]) ==> otadata[i].seqNo < seqNo)
  }

  function CurrentSlot(crc: U32 -> nat, otadata: seq<OtaSector>): (c: Option<Current>)
    ensures IsCurrent(crc, otadata, c)
  {
    if otadata == [] then None
    else
      var n := |otadata| - 1;
      var best := CurrentSlot(crc, otadata[..n]);
      if ValidRecord(crc, otadata[n]) && (best.None? || best.value.seqNo < otadata[n].seqNo) then Some(Current(n, otadata[n].seqNo))
      else best
  }

  function NextSlot(crc: U32 -> nat, otadata: seq<OtaSector>): nat {
    match CurrentSlot(crc, otadata)
    case Some(c) => (c.slot + 1) % 2
    case None => 0
  }

  function ActiveSlot(crc: U32 -> nat, otadata: seq<OtaSector>): nat {
    match CurrentSlot(crc, otadata)
    case Some(c) => c.slot
    case None => 0
  }

  /** The slot an upgrade goes to is not the running one exactly when there is a valid record. */
  lemma NextIsNotActive(crc: U32 -> nat, otadata: seq<OtaSector>)
    requires |otadata| == 2
    ensures NextSlot(crc, otadata) < 2 && ActiveSlot(crc, otadata) < 2
    ensures NextSlot(crc, otadata) != ActiveSlot(crc, otadata) <==> exists i :: 0 <= i < 2 && ValidRecord(crc, otadata[i])
  {
    var c := CurrentSlot(crc, otadata);
    if c.Some? {
      assert ValidRecord(crc, otadata[c.value.slot]);
    }
  }

  /** An instance: with blank boot records the slot that is prepared for an upgrade is the running one, and it is still
      the running one after the switch. */
  lemma BlankIsUpgradedInPlace(crc: U32 -> nat)
    ensures var blank := [NoRecord, NoRecord];
            && NextSlot(crc, blank) == ActiveSlot(crc, blank) == 0
            && CurrentSlot(crc, SwitchedTo(crc, blank, 0, 2)) == Some(Current(0, 1))
  {
    var blank := [NoRecord, NoRecord];
    NextIsNotActive(crc, blank);
    CurrentIsUnique(crc, blank, CurrentSlot(crc, blank), None);
    var after := SwitchedTo(crc, blank, 0, 2);
    CurrentIsUnique(crc, after, CurrentSlot(crc, after), Some(Current(0, 1)));
  }

  datatype SwitchOutcome = Switched | SwitchOff | SequenceExhausted

  function NextSeq(crc: U32 -> nat, otadata: seq<OtaSector>): nat {
    match CurrentSlot(crc, otadata)
    case Some(c) => c.seqNo + 1
    case None => 1
  }

  predicate IsActive(crc: U32 -> nat, otadata: seq<OtaSector>, slot: nat) {
    CurrentSlot(crc, otadata).Some? && CurrentSlot(crc, otadata).value.slot == slot
  }

  // The sectors after `steps` of the two flash steps of `switch_partition`.
  function SwitchedTo(crc: U32 -> nat, otadata: seq<OtaSector>, slot: nat, steps: nat): (r: seq<OtaSector>)
    requires slot < |otadata|
    ensures |r| == |otadata|
  {
    var next := NextSeq(crc, otadata);
    if IsActive(crc, otadata, slot) || next > U32_MAX || steps == 0 then otadata
    else if steps == 1 then otadata[slot := NoRecord]
    else otadata[slot := Record(next, crc(next))]
  }

  /** Switching to the other slot takes effect with its last flash step and not before: until then the
      same slot stays active, and the record of the running slot is never touched. */
  lemma SwitchIsAtomic(crc: U32 -> nat, otadata: seq<OtaSector>, steps: nat)
    requires |otadata| == 2 && CurrentSlot(crc, otadata).Some?
    ensures var next := NextSlot(crc, otadata);
            next < 2
            && var after := SwitchedTo(crc, otadata, next, steps);
               && CurrentSlot(crc, after) ==
                  (if steps >= 2 && NextSeq(crc, otadata) <= U32_MAX then Some(Current(next, NextSeq(crc, otadata)))
                   else CurrentSlot(crc, otadata))
               && after[ActiveSlot(crc, otadata)] == otadata[ActiveSlot(crc, otadata)]
  {
    NextIsNotActive(crc, otadata);
    var cur := CurrentSlot(crc, otadata);
    assert ValidRecord(crc, otadata[cur.value.slot]);
    var next := NextSlot(crc, otadata);
    var after := SwitchedTo(crc, otadata, next, steps);
    CurrentIsUnique(crc, after, CurrentSlot(crc, after),
      if steps >= 2 && NextSeq(crc, otadata) <= U32_MAX then Some(Current(next, NextSeq(crc, otadata))) else cur);
  }

  lemma CurrentIsUnique(crc: U32 -> nat, otadata: seq<OtaSector>, a: Option<Current>, b: Option<Current>)
    requires IsCurrent(crc, otadata, a) && IsCurrent(crc, otadata, b)
    ensures a == b
  {
  }

  // Upgrades one after another, each switching after some number of flash steps.
  function AfterSwitches(crc: U32 -> nat, otadata: seq<OtaSector>, steps: seq<nat>): (r: seq<OtaSector>)
    requires |otadata| == 2
    ensures |r| == 2
    decreases |steps|
  {
    if steps == [] then otadata
    else
      var next := NextSlot(crc, otadata);
      AfterSwitches(crc, if next < 2 then SwitchedTo(crc, otadata, next, steps[0]) else otadata, steps[1..])
  }

  function CountCompleted(steps: seq<nat>): nat
    decreases |steps|
  {
    if steps == [] then 0 else (if steps[0] >= 2 then 1 else 0) + CountCompleted(steps[1..])
  }

  // Which slot is active after `n` completed switches, and its sequence number.
  predicate Later(c: Current, d: Current, n: nat) {
    d.slot == (c.slot + n) % 2 && d.seqNo == c.seqNo + n
  }

  /** Over any run of switches that may be cut short, there is always an active slot, and which one it is
      and its sequence number only count the switches that were completed. */
  lemma {:induction false} SwitchesAreCounted(crc: U32 -> nat, otadata: seq<OtaSector>, steps: seq<nat>)
    requires |otadata| == 2 && CurrentSlot(crc, otadata).Some?
    requires CurrentSlot(crc, otadata).value.seqNo + CountCompleted(steps) <= U32_MAX
    ensures var c, d := CurrentSlot(crc, otadata), CurrentSlot(crc, AfterSwitches(crc, otadata, steps));
            d.Some? && Later(c.value, d.value, CountCompleted(steps))
    decreases |steps|
  {
    if steps != [] {
      SwitchIsOneStep(crc, otadata, steps[0]);
      FirstSwitch(crc, otadata, steps);
      var after := SwitchedTo(crc, otadata, NextSlot(crc, otadata), steps[0]);
      SwitchesAreCounted(crc, after, steps[1..]);
      SwitchesAdd(CurrentSlot(crc, otadata).value, CurrentSlot(crc, after).value, CurrentSlot(crc, AfterSwitches(crc, otadata, steps)).value,
                  if steps[0] >= 2 then 1 else 0, CountCompleted(steps[1..]));
    }
  }

  lemma FirstSwitch(crc: U32 -> nat, otadata: seq<OtaSector>, steps: seq<nat>)
    requires |otadata| == 2 && steps != [] && NextSlot(crc, otadata) < 2
    ensures AfterSwitches(crc, otadata, steps) == AfterSwitches(crc, SwitchedTo(crc, otadata, NextSlot(crc, otadata), steps[0]), steps[1..])
    ensures CountCompleted(steps) == (if steps[0] >= 2 then 1 else 0) + CountCompleted(steps[1..])
  {
  }

  lemma SwitchesAdd(c: Current, d: Current, e: Current, n: nat, m: nat)
    requires Later(c, d, n) && Later(d, e, m)
    ensures Later(c, e, n + m)
  {
  }

  lemma SwitchIsOneStep(crc: U32 -> nat, otadata: seq<OtaSector>, steps: nat)
    requires |otadata| == 2 && CurrentSlot(crc, otadata).Some?
    requires CurrentSlot(crc, otadata).value.seqNo + (if steps >= 2 then 1 else 0) <= U32_MAX
    ensures NextSlot(crc, otadata) < 2
    ensures var c, d := CurrentSlot(crc, otadata).value, CurrentSlot(crc, SwitchedTo(crc, otadata, NextSlot(crc, otadata), steps));
            d.Some? && Later(c, d.value, if steps >= 2 then 1 else 0)
  {
    SwitchIsAtomic(crc, otadata, steps);
  }

  // ---------------------------------------------------------------------------------------------
  // Partitions

  type Sector = seq<byte>

  // A NOR write can only clear bits.
  function Programmed(old_: Sector, new_: Sector): (r: Sector)
    requires |old_| == |new_|
    ensures |r| == |old_|
    ensures (forall j :: 0 <= j < |old_| ==> old_[j] == ERASED) ==> r == new_
  {
    AndErased();
    seq(|old_|, j requires 0 <= j < |old_| => old_[j] & new_[j])
  }

  lemma AndErased()
    ensures forall b: byte {:trigger ERASED & b} :: ERASED & b == b
  {
  }

  ghost predicate IsErased(s: Sector) {
    |s| == SECTOR_SIZE && forall j :: 0 <= j < SECTOR_SIZE ==> s[j] == ERASED
  }

  // Sector `s` of an image, padded to the sector's end.
  function ImageSector(image: seq<byte>, s: nat): (r: Sector)
    ensures |r| == SECTOR_SIZE
  {
    seq(SECTOR_SIZE, j requires 0 <= j < SECTOR_SIZE =>
      if s * SECTOR_SIZE + j < |image| then image[s * SECTOR_SIZE + j] else ERASED)
  }

  lemma CurrentSector(sector: nat, i: nat)
    requires 0 < i <= SECTOR_SIZE
    ensures Chunks(sector * SECTOR_SIZE + i) == sector + 1
    ensures (sector * SECTOR_SIZE + i - 1) / SECTOR_SIZE == sector
  {
  }

  // Whole sectors depend only on the bytes in them.
  lemma PrefixSectors(image: seq<byte>, n: nat, sectors: nat)
    requires sectors * SECTOR_SIZE <= n <= |image|
    ensures forall s :: 0 <= s < sectors ==> ImageSector(image[..n], s) == ImageSector(image, s)
  {
    forall s | 0 <= s < sectors ensures ImageSector(image[..n], s) == ImageSector(image, s) {
      assert s * SECTOR_SIZE + SECTOR_SIZE <= sectors * SECTOR_SIZE;
    }
  }

  function Chunks(size: nat): nat {
    (size + SECTOR_SIZE - 1) / SECTOR_SIZE
  }

  // ---------------------------------------------------------------------------------------------
  // The transfer

  // Whether an upstream byte has arrived, and what downstream has sent.
  datatype Tick = Tick(byteArrived: bool, signals: seq<byte>)

  datatype TransferOutcome = Finished | StillWaiting | InvalidControlByte | WriteFailed

  /** `enter_upgrade_mode`'s buffers and counters. */
  class Transfer {
    const size: nat
    const hasDownstream: bool
    const upgrading: bool
    var partition: seq<Sector>   // the inactive slot
    const inBuf: array<byte>
    var i: nat
    var byteCount: nat
    var sector: nat
    var finishedWriting: bool
    var downstreamReady: bool
    var toldUpstream: bool
    var forwarded: seq<byte>     // written downstream
    var readySent: nat           // ready signals written upstream

    ghost const before: seq<Sector>

    constructor (size: nat, hasDownstream: bool, upgrading: bool, partition: seq<Sector>)
      requires upgrading ==> forall s :: 0 <= s < |partition| ==> IsErased(partition[s])
      ensures this.size == size && this.hasDownstream == hasDownstream && this.upgrading == upgrading
      ensures this.partition == this.before == partition
      ensures byteCount == 0 && readySent == 0 && forwarded == [] && fresh(inBuf)
      ensures AtLoop([], true)
    {
      this.size, this.hasDownstream, this.upgrading := size, hasDownstream, upgrading;
      this.partition, this.before := partition, partition;
      inBuf := new byte[SECTOR_SIZE](_ => ERASED);
      i, byteCount, sector := 0, 0, 0;
      finishedWriting := false;
      downstreamReady := !hasDownstream;
      toldUpstream := false;
      forwarded, readySent := [], 0;
    }

    // The sectors hold the image as far as it has come.
    ghost predicate Stored(image: seq<byte>)
      reads this, inBuf
    {
      && |partition| == |before|
      && (upgrading ==>
            && sector <= |partition|
            && (forall s :: 0 <= s < sector ==> partition[s] == ImageSector(image, s))
            && (forall s :: sector <= s < |partition| ==> partition[s] == before[s]))
      && (!upgrading ==> partition == before)
    }

    // The buffer holds the bytes since the last full sector.
    ghost predicate Buffered(image: seq<byte>)
      reads this, inBuf
    {
      && inBuf.Length == SECTOR_SIZE
      && |image| == sector * SECTOR_SIZE + i && i < SECTOR_SIZE
      && (forall j :: 0 <= j < i ==> inBuf[j] == image[sector * SECTOR_SIZE + j])
      && (forall j :: i <= j < SECTOR_SIZE ==> inBuf[j] == ERASED)
    }

    // The same with at least one byte, and perhaps a whole sector, in the buffer.
    ghost predicate Filled(image: seq<byte>)
      reads this, inBuf
    {
      && inBuf.Length == SECTOR_SIZE
      && |image| == sector * SECTOR_SIZE + i && 0 < i <= SECTOR_SIZE
      && (forall j :: 0 <= j < i ==> inBuf[j] == image[sector * SECTOR_SIZE + j])
      && (forall j :: i <= j < SECTOR_SIZE ==> inBuf[j] == ERASED)
    }

    // The state of the loop when it has read `image`. `start` is before its first turn.
    ghost predicate AtLoop(image: seq<byte>, start: bool)
      reads this, inBuf
    {
      && byteCount == |image| && Stored(image)
      && (upgrading ==> forall s :: 0 <= s < |before| ==> IsErased(before[s]))
      && forwarded == (if hasDownstream then image else [])
      && (finishedWriting <==> byteCount == size && byteCount > 0)
      && (!finishedWriting ==> byteCount < size || size == 0)
      && (if finishedWriting then sector == Chunks(size) else Buffered(image))
      && (start ==> byteCount == 0 && readySent == 0 && !toldUpstream && downstreamReady == !hasDownstream)
      && (!start && !finishedWriting && downstreamReady ==> toldUpstream)
      && (!hasDownstream && !finishedWriting ==> downstreamReady)
      && (!finishedWriting ==> readySent == sector + (if toldUpstream then 1 else 0))
    }

    // Bookkeeping at the end of a sector or of the image.
    method EndSector(ghost image: seq<byte>) returns (ok: bool)
      requires Filled(image) && Stored(image) && (i == SECTOR_SIZE || |image| == size)
      requires upgrading ==> forall s :: 0 <= s < |before| ==> IsErased(before[s])
      modifies this`downstreamReady, this`toldUpstream, this`i, this`partition, this`sector, inBuf
      ensures downstreamReady == !hasDownstream && !toldUpstream
      ensures !ok ==> upgrading && sector == old(sector) && old(sector) >= |partition| && partition == old(partition)
      ensures ok ==> i == 0 && sector == old(sector) + 1 && Stored(image) && forall j :: 0 <= j < SECTOR_SIZE ==> inBuf[j] == ERASED
    {
      downstreamReady := !hasDownstream;
      toldUpstream := false;
      i := 0;
      if upgrading {
        if sector >= |partition| {
          // out of bounds
          return false;
        }
        assert IsErased(before[sector]) && partition[sector] == before[sector];
        var written := Programmed(partition[sector], inBuf[..]);
        assert written == ImageSector(image, sector);
        partition := partition[sector := written];
      }
      forall j | 0 <= j < SECTOR_SIZE {
        inBuf[j] := ERASED;
      }
      sector := sector + 1;
      return true;
    }

    // A byte enters the buffer and goes on downstream.
    method PushByte(b: byte, ghost image: seq<byte>)
      requires Buffered(image) && Stored(image) && byteCount == |image|
      modifies this`i, this`byteCount, this`finishedWriting, this`forwarded, inBuf
      ensures Filled(image + [b]) && Stored(image + [b])
      ensures i == old(i) + 1 && byteCount == old(byteCount) + 1 && finishedWriting == (byteCount == size)
      ensures forwarded == if hasDownstream then old(forwarded) + [b] else old(forwarded)
    {
      PrefixSectors(image + [b], |image|, sector);
      assert (image + [b])[..|image|] == image;
      inBuf[i] := b;
      i := i + 1;
      byteCount := byteCount + 1;
      finishedWriting := byteCount == size;
      if hasDownstream {
        forwarded := forwarded + [b];
      }
    }

    // `read_byte` from upstream, up to and including the end of a sector.
    method TakeByte(stream: seq<byte>, ghost start: bool) returns (ok: bool)
      requires byteCount < |stream| && !finishedWriting && downstreamReady
      requires AtLoop(stream[..byteCount], start)
      modifies this`i, this`byteCount, this`finishedWriting, this`forwarded, this`downstreamReady, this`toldUpstream, this`partition, this`sector, inBuf
      ensures byteCount == old(byteCount) + 1 && byteCount <= |stream|
      ensures !ok ==> upgrading && size != old(byteCount) && old(byteCount) / SECTOR_SIZE >= |partition|
      ensures |partition| == |before|
      ensures ok ==> Stored(stream[..byteCount]) && (finishedWriting <==> byteCount == size)
      ensures ok ==> forwarded == if hasDownstream then stream[..byteCount] else []
      ensures ok && finishedWriting ==> sector == Chunks(size) == old(sector) + 1
      ensures ok && !finishedWriting ==> Buffered(stream[..byteCount])
      ensures ok && !finishedWriting && sector == old(sector) ==> toldUpstream == old(toldUpstream) && downstreamReady
      ensures ok && !finishedWriting && sector != old(sector) ==>
                sector == old(sector) + 1 && !toldUpstream && downstreamReady == !hasDownstream
    {
      ghost var image := stream[..byteCount + 1];
      assert image == stream[..byteCount] + [stream[byteCount]];
      PushByte(stream[byteCount], stream[..byteCount]);
      CurrentSector(sector, i);
      if i == SECTOR_SIZE || finishedWriting {
        ok := EndSector(image);
      } else {
        ok := true;
      }
    }

    // What downstream has sent.
    method TakeSignals(signals: seq<byte>) returns (valid: bool)
      modifies this`downstreamReady
      ensures valid <==> !hasDownstream || forall k :: 0 <= k < |signals| ==> signals[k] == READY_SIGNAL
      ensures valid ==> downstreamReady == (old(downstreamReady) || (hasDownstream && signals != []))
    {
      if hasDownstream {
        for k := 0 to |signals|
          invariant forall l :: 0 <= l < k ==> signals[l] == READY_SIGNAL
          invariant downstreamReady == (old(downstreamReady) || k > 0)
        {
          if signals[k] != READY_SIGNAL {
            return false;
          }
          downstreamReady := true;
        }
      }
      return true;
    }

    // One turn of the loop.
    method Turn(stream: seq<byte>, tick: Tick, ghost start: bool) returns (out: TransferOutcome)
      requires byteCount <= |stream| && !finishedWriting && AtLoop(stream[..byteCount], start)
      modifies this, inBuf
      ensures out == StillWaiting || out == Finished ==> byteCount <= |stream| && AtLoop(stream[..byteCount], false)
      ensures out == Finished <==> finishedWriting && out != WriteFailed && out != InvalidControlByte
      ensures out == Finished ==> readySent == if start then 0 else Chunks(size)
      ensures out == Finished && start ==> size == 1 && !hasDownstream && tick.byteArrived
      ensures out == InvalidControlByte ==> hasDownstream && exists k :: 0 <= k < |tick.signals| && tick.signals[k] != READY_SIGNAL
      ensures out == WriteFailed ==> upgrading && (size == 0 || Chunks(size) > |before|)
      ensures |partition| == |before|
      ensures out == StillWaiting || out == Finished ==>
                byteCount == old(byteCount) + if old(downstreamReady) && tick.byteArrived && old(byteCount) < |stream| then 1 else 0
      ensures out == StillWaiting && tick.signals != [] ==> downstreamReady
    {
      if downstreamReady && tick.byteArrived && byteCount < |stream| {
        var ok := TakeByte(stream, start);
        if !ok {
          return WriteFailed;
        }
      }
      if finishedWriting {
        return Finished;
      }
      var valid := Signal(tick.signals);
      return if valid then StillWaiting else InvalidControlByte;
    }

    // The part of a turn after the upstream byte.
    method Signal(signals: seq<byte>) returns (valid: bool)
      modifies this`downstreamReady, this`toldUpstream, this`readySent
      ensures !valid ==> hasDownstream && exists k :: 0 <= k < |signals| && signals[k] != READY_SIGNAL
      ensures valid ==>
                && downstreamReady == (old(downstreamReady) || (hasDownstream && signals != []))
                && toldUpstream == (old(toldUpstream) || downstreamReady)
                && readySent == old(readySent) + if downstreamReady && !old(toldUpstream) then 1 else 0
    {
      valid := TakeSignals(signals);
      if valid && downstreamReady && !toldUpstream {
        readySent := readySent + 1;
        toldUpstream := true;
      }
    }

    // How far a lively transfer is after some turns: with a downstream, the first turn only learns that
    // it is ready.
    function Reach(turns: nat, available: nat): nat {
      Min(if hasDownstream && turns > 0 then turns - 1 else turns, available)
    }

    // A byte arrives at every tick, and downstream, if any, signals at every tick.
    predicate Lively(ticks: seq<Tick>) {
      forall t :: 0 <= t < |ticks| ==> ticks[t].byteArrived && (hasDownstream ==> ticks[t].signals != [])
    }

    /** The transfer loop, for as long as there are ticks. `turns` counts its turns. */
    method Run(stream: seq<byte>, ticks: seq<Tick>) returns (out: TransferOutcome, turns: nat)
      requires AtLoop([], true) && !finishedWriting
      modifies this, inBuf
      ensures turns <= |ticks|
      ensures out == Finished ==>
                && 0 < size <= |stream| && Received(stream[..size])
                && readySent == (if turns == 1 then 0 else Chunks(size)) && (turns == 1 ==> size == 1 && !hasDownstream)
      ensures out == StillWaiting ==> byteCount <= |stream| && forwarded == if hasDownstream then stream[..byteCount] else []
      ensures out == StillWaiting && Lively(ticks) ==> byteCount == Reach(|ticks|, |stream|)
      ensures out == StillWaiting ==> byteCount < size || size == 0
      ensures out == InvalidControlByte ==> hasDownstream && exists t, k :: 0 <= t < |ticks| && 0 <= k < |ticks[t].signals| && ticks[t].signals[k] != READY_SIGNAL
      ensures out == WriteFailed ==> upgrading && (size == 0 || Chunks(size) > |before|)
      ensures |partition| == |before|
    {
      turns := 0;
      assert stream[..0] == [];
      while turns < |ticks|
        invariant turns <= |ticks| && byteCount <= |stream|
        invariant AtLoop(stream[..byteCount], turns == 0) && !finishedWriting
        invariant Lively(ticks) ==> byteCount == Reach(turns, |stream|) && (turns > 0 ==> downstreamReady)
      {
        out := Turn(stream, ticks[turns], turns == 0);
        turns := turns + 1;
        if out != StillWaiting {
          if out == Finished {
            SectorsOfWhole(stream[..byteCount]);
          }
          return;
        }
      }
      return StillWaiting, turns;
    }

    // The whole image has gone where it should.
    ghost predicate Received(image: seq<byte>)
      reads this
    {
      && |partition| == |before|
      && (upgrading ==>
            && Chunks(|image|) <= |partition|
            && (forall s :: 0 <= s < Chunks(|image|) ==> partition[s] == ImageSector(image, s))
            && (forall s :: Chunks(|image|) <= s < |partition| ==> partition[s] == before[s]))
      && (!upgrading ==> partition == before)
      && forwarded == (if hasDownstream then image else [])
    }

    lemma SectorsOfWhole(image: seq<byte>)
      requires finishedWriting && AtLoop(image, false)
      ensures Received(image)
    {
    }
  }

  // ---------------------------------------------------------------------------------------------
  // Erasing

  datatype UpgradeState = WaitingForConfirm(sentPrompt: bool) | Erase(seqNo: nat) | WaitingToEnterUpgradeMode

  /** The part of `FirmwareUpgradeMode::Upgrading` that prepares the slot. */
  class Preparation {
    var state: UpgradeState
    var partition: seq<Sector>

    // Everything up to the sector in turn is erased; everything is, once the device has said it is ready.
    ghost predicate Valid()
      reads this
    {
      && |partition| > 0
      && (state.Erase? ==> state.seqNo < |partition| && forall s :: 0 <= s < state.seqNo ==> IsErased(partition[s]))
      && (state.WaitingToEnterUpgradeMode? ==> forall s :: 0 <= s < |partition| ==> IsErased(partition[s]))
    }

    constructor (partition: seq<Sector>)
      requires |partition| > 0
      ensures Valid() && this.partition == partition && state == WaitingForConfirm(false)
    {
      this.partition := partition;
      state := WaitingForConfirm(false);
    }

    method UpgradeConfirm()
      requires Valid() && state == WaitingForConfirm(true)
      modifies this
      ensures Valid() && state == Erase(0) && partition == old(partition)
    {
      state := Erase(0);
    }

    method Poll() returns (ack: bool)
      requires Valid()
      modifies this
      ensures Valid() && |partition| == |old(partition)|
      ensures ack <==> old(state).Erase? && state.WaitingToEnterUpgradeMode?
      ensures !old(state).Erase? ==> partition == old(partition)
      ensures old(state).Erase? ==> forall s :: 0 <= s < |partition| && s != old(state).seqNo ==> partition[s] == old(partition)[s]
      ensures old(state) == WaitingForConfirm(false) ==> state == WaitingForConfirm(true)
      ensures old(state).Erase? ==>
                state == if old(state).seqNo == |partition| - 1 then WaitingToEnterUpgradeMode else Erase(old(state).seqNo + 1)
    {
      match state
      case WaitingForConfirm(sentPrompt) =>
        if !sentPrompt {
          state := WaitingForConfirm(true);
        }
        return false;
      case Erase(seqNo) =>
        partition := partition[seqNo := seq(SECTOR_SIZE, _ => ERASED)];
        if seqNo == |partition| - 1 {
          state := WaitingToEnterUpgradeMode;
          return true;
        }
        state := Erase(seqNo + 1);
        return false;
      case WaitingToEnterUpgradeMode =>
        return false;
    }
  }

  // ---------------------------------------------------------------------------------------------
  // An upgrade from start to end

  datatype UpgradeOutcome = Committed | Rejected | NotFinished

  // The two OTA slots and the records that choose between them.
  datatype Flash = Flash(otadata: seq<OtaSector>, slots: seq<seq<Sector>>)

  ghost predicate ValidFlash(f: Flash) {
    |f.otadata| == 2 && |f.slots| == 2 && |f.slots[0]| > 0 && |f.slots[1]| > 0
  }

  // The running firmware is untouched. It stays the active one unless the upgrade is committed; then the
  // active slot holds the image, which was found acceptable, and nothing else.
  ghost predicate UpgradeIsSafe(crc: U32 -> nat, f: Flash, g: Flash, size: nat, stream: seq<byte>, accept: seq<Sector> -> bool, outcome: UpgradeOutcome)
    requires ValidFlash(f) && ValidFlash(g)
  {
    var active, next := ActiveSlot(crc, f.otadata), NextSlot(crc, f.otadata);
    && active < 2 && next < 2 && g.slots[active] == f.slots[active]
    && (outcome != Committed ==> CurrentSlot(crc, g.otadata) == CurrentSlot(crc, f.otadata))
    && (outcome == Committed ==>
          && ActiveSlot(crc, g.otadata) == next && accept(g.slots[next])
          && size <= |stream| && Chunks(size) <= |g.slots[next]|
          && (forall s :: 0 <= s < Chunks(size) ==> g.slots[next][s] == ImageSector(stream[..size], s))
          && (forall s :: Chunks(size) <= s < |g.slots[next]| ==> IsErased(g.slots[next][s])))
  }

  // A slot of `n` sectors that holds an image and is erased behind it.
  function SlotWith(image: seq<byte>, n: nat): (r: seq<Sector>)
    ensures |r| == n
  {
    seq(n, s requires 0 <= s < n => if s < Chunks(|image|) then ImageSector(image, s) else seq(SECTOR_SIZE, _ => ERASED))
  }

  // Everything arrives, in time and in order: a byte at every turn, signals from downstream and nothing but signals, for as
  // many turns as it takes.
  predicate Prompt(size: nat, stream: seq<byte>, ticks: seq<Tick>, hasDownstream: bool) {
    && 0 < size <= |stream| && |ticks| >= size + (if hasDownstream then 1 else 0)
    && forall t :: 0 <= t < |ticks| ==>
         ticks[t].byteArrived && (hasDownstream ==> ticks[t].signals != [] && forall k :: 0 <= k < |ticks[t].signals| ==> ticks[t].signals[k] == READY_SIGNAL)
  }

  // With its last flash step a switch makes the slot active under the next sequence number.
  lemma SwitchTakesEffect(crc: U32 -> nat, otadata: seq<OtaSector>, steps: nat)
    requires |otadata| == 2 && steps >= 2 && NextSeq(crc, otadata) <= U32_MAX
    ensures NextSlot(crc, otadata) < 2
    ensures CurrentSlot(crc, SwitchedTo(crc, otadata, NextSlot(crc, otadata), steps)) == Some(Current(NextSlot(crc, otadata), NextSeq(crc, otadata)))
  {
    NextIsNotActive(crc, otadata);
    var next := NextSlot(crc, otadata);
    var after := SwitchedTo(crc, otadata, next, steps);
    if CurrentSlot(crc, otadata).Some? {
      SwitchIsAtomic(crc, otadata, steps);
    } else {
      assert after == otadata[0 := Record(1, crc(1))];
      CurrentIsUnique(crc, after, CurrentSlot(crc, after), Some(Current(0, 1)));
    }
  }

  // How an upgrade ends. `received` is whether the transfer got to its end.
  ghost predicate UpgradeEnds(crc: U32 -> nat, f: Flash, g: Flash, size: nat, stream: seq<byte>, ticks: seq<Tick>, hasDownstream: bool,
                              accept: seq<Sector> -> bool, polls: nat, steps: nat, received: bool, outcome: UpgradeOutcome)
    requires ValidFlash(f) && ValidFlash(g)
  {
    var slot := NextSlot(crc, f.otadata);
    && slot < 2 && g.slots[1 - slot] == f.slots[1 - slot] && |g.slots[slot]| == |f.slots[slot]|
    // it is received only into an erased slot that it fits, and then the slot holds it;
    && (received ==> polls >= |f.slots[slot]| && 0 < size <= |stream| && Chunks(size) <= |f.slots[slot]|
                     && g.slots[slot] == SlotWith(stream[..size], |f.slots[slot]|))
    // and it is received if everything is prompt and it fits.
    && (polls >= |f.slots[slot]| && Prompt(size, stream, ticks, hasDownstream) && Chunks(size) <= |f.slots[slot]| ==> received)
    && (outcome == Committed <==> received && accept(g.slots[slot]) && NextSeq(crc, f.otadata) <= U32_MAX && steps >= 2)
    && (outcome == Rejected <==> received && !accept(g.slots[slot]))
    && (outcome == Committed ==> CurrentSlot(crc, g.otadata) == Some(Current(slot, NextSeq(crc, f.otadata))))
    && (!received || outcome == Rejected ==> g.otadata == f.otadata)
  }

  /** Prepare the other slot, receive the image into it, and switch to it if the written image is
      acceptable. `accept` is the verdict on what the slot holds, `polls` how many polls the device gets to
      erase the slot, `steps` how many flash steps of the switch complete. */
  method Upgrade(crc: U32 -> nat, f: Flash, size: nat, stream: seq<byte>, ticks: seq<Tick>, hasDownstream: bool,
                 accept: seq<Sector> -> bool, polls: nat, steps: nat)
    returns (g: Flash, outcome: UpgradeOutcome, ghost received: bool)
    requires ValidFlash(f)
    ensures ValidFlash(g)
    ensures CurrentSlot(crc, f.otadata).Some? ==> UpgradeIsSafe(crc, f, g, size, stream, accept, outcome)
    ensures UpgradeEnds(crc, f, g, size, stream, ticks, hasDownstream, accept, polls, steps, received, outcome)
  {
    var slot := NextSlot(crc, f.otadata);
    NextIsNotActive(crc, f.otadata);
    if CurrentSlot(crc, f.otadata).Some? {
      SwitchIsAtomic(crc, f.otadata, steps);
    }
    var erased, ready := PrepareSlot(f.slots[slot], polls);
    if !ready {
      return f.(slots := f.slots[slot := erased]), NotFinished, false;
    }
    var partition, ended := Receive(size, stream, ticks, hasDownstream, erased);
    received := ended;
    g := f.(slots := f.slots[slot := partition]);
    if !ended {
      return g, NotFinished, received;
    }
    if !accept(partition) {
      return g, Rejected, received;
    }
    if NextSeq(crc, f.otadata) > U32_MAX {
      return g, NotFinished, received;
    }
    if steps >= 2 {
      SwitchTakesEffect(crc, f.otadata, steps);
    }
    g := g.(otadata := SwitchedTo(crc, f.otadata, slot, steps));
    return g, if steps >= 2 then Committed else NotFinished, received;
  }

  /** An image that fits and is acceptable, with enough polls to erase the slot, a prompt transfer and a switch that is not cut
      short: afterwards it is what runs, under the next sequence number. */
  lemma PromptUpgradeCommits(crc: U32 -> nat, f: Flash, g: Flash, size: nat, stream: seq<byte>, ticks: seq<Tick>, hasDownstream: bool,
                             accept: seq<Sector> -> bool, polls: nat, steps: nat, received: bool, outcome: UpgradeOutcome)
    requires ValidFlash(f) && ValidFlash(g)
    requires UpgradeEnds(crc, f, g, size, stream, ticks, hasDownstream, accept, polls, steps, received, outcome)
    requires var n := |f.slots[NextSlot(crc, f.otadata)]|;
             && polls >= n && Prompt(size, stream, ticks, hasDownstream) && Chunks(size) <= n
             && accept(SlotWith(stream[..size], n)) && NextSeq(crc, f.otadata) <= U32_MAX && steps >= 2
    ensures outcome == Committed && ActiveSlot(crc, g.otadata) == NextSlot(crc, f.otadata)
    ensures CurrentSlot(crc, g.otadata).value.seqNo == NextSeq(crc, f.otadata)
    ensures g.slots[ActiveSlot(crc, g.otadata)] == SlotWith(stream[..size], |f.slots[NextSlot(crc, f.otadata)]|)
  {
  }

  // `enter_upgrade_mode` of a device that is upgrading, on an erased slot.
  method Receive(size: nat, stream: seq<byte>, ticks: seq<Tick>, hasDownstream: bool, erased: seq<Sector>) returns (partition: seq<Sector>, ended: bool)
    requires forall s :: 0 <= s < |erased| ==> IsErased(erased[s])
    ensures |partition| == |erased|
    ensures ended ==> 0 < size <= |stream| && Chunks(size) <= |erased| && partition == SlotWith(stream[..size], |erased|)
    ensures Prompt(size, stream, ticks, hasDownstream) && Chunks(size) <= |erased| ==> ended
  {
    var transfer := new Transfer(size, hasDownstream, true, erased);
    var out, _ := transfer.Run(stream, ticks);
    partition, ended := transfer.partition, out == Finished;
    if ended {
      HoldsImage(stream[..size], erased, partition);
    }
  }

  lemma HoldsImage(image: seq<byte>, erased: seq<Sector>, partition: seq<Sector>)
    requires |partition| == |erased| && Chunks(|image|) <= |partition|
    requires forall s :: 0 <= s < |erased| ==> IsErased(erased[s])
    requires forall s :: 0 <= s < Chunks(|image|) ==> partition[s] == ImageSector(image, s)
    requires forall s :: Chunks(|image|) <= s < |partition| ==> partition[s] == erased[s]
    ensures partition == SlotWith(image, |partition|)
  {
    forall s | Chunks(|image|) <= s < |partition| ensures partition[s] == seq(SECTOR_SIZE, _ => ERASED) {
      assert IsErased(erased[s]);
    }
  }

  // Confirm, then poll until the device says that it is ready, if it gets that far.
  method PrepareSlot(partition: seq<Sector>, polls: nat) returns (left: seq<Sector>, ready: bool)
    requires |partition| > 0
    ensures |left| == |partition|
    ensures ready ==> forall s :: 0 <= s < |left| ==> IsErased(left[s])
    ensures ready <==> polls >= |partition|
    ensures !ready ==> forall s :: 0 <= s < |left| ==> if s < polls then IsErased(left[s]) else left[s] == partition[s]
  {
    var preparation := new Preparation(partition);
    var _ := preparation.Poll();
    preparation.UpgradeConfirm();
    ready := false;
    var done := 0;
    while done < polls && !ready
      invariant preparation.Valid() && fresh(preparation) && |preparation.partition| == |partition| && done <= polls
      invariant if ready then preparation.state.WaitingToEnterUpgradeMode? && done == |partition|
                else preparation.state == Erase(done)
      invariant forall s :: done <= s < |partition| ==> preparation.partition[s] == partition[s]
      decreases polls - done
    {
      ready := preparation.Poll();
      done := done + 1;
    }
    left := preparation.partition;
  }
}
