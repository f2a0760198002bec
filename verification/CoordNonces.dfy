/**
 The coordinator's cache of public nonces (frostsnap_core/src/coord_nonces.rs).
 */
module CoordNonces {
  import opened Common
  import opened NonceStream

  // The id bytes, in the order a BTreeMap keeps them.
  type DeviceId = nat

  type Cache = map<DeviceId, map<StreamId, Segment>>

  datatype ExtendOutcome = Changed | Unchanged | Rejected(error: Incompatible) | CacheExtendPanics

  datatype SessionNonces =
    | Selected(nonces: map<DeviceId, SubSegment>)
    | NotEnoughNonces(device: DeviceId, available: nat, need: nat)

  function EmptySegment(stream: StreamId): Segment {
    Segment(stream, [], 0)
  }

  // Every window is stored under its own id and ends within 32 bits.
  ghost predicate ValidCache(c: Cache) {
    forall d, s {:trigger c[d][s]} :: d in c && s in c[d] ==> c[d][s].stream == s && Fits(c[d][s])
  }

  function Lookup(c: Cache, d: DeviceId, s: StreamId): Option<Segment> {
    if d in c && s in c[d] then Some(c[d][s]) else None
  }

  function Put(c: Cache, d: DeviceId, s: StreamId, segment: Segment): Cache {
    var segments: map<StreamId, Segment> := if d in c then c[d] else map[];
    c[d := segments[s := segment]]
  }

  lemma PutTwice(c: Cache, d: DeviceId, s: StreamId, a: Segment, b: Segment)
    ensures Put(Put(c, d, s, a), d, s, b) == Put(c, d, s, b)
    ensures d !in c ==> Put(c[d := map[]], d, s, a) == Put(c, d, s, a)
    ensures Lookup(c, d, s) == Some(a) ==> Put(c, d, s, a) == c
  {
    var segments: map<StreamId, Segment> := if d in c then c[d] else map[];
    assert segments[s := a][s := b] == segments[s := b];
    assert Lookup(c, d, s) == Some(a) ==> segments[s := a] == segments;
  }

  // What `extend_segment` grows: the cached window, or the empty one its `entry` call leaves behind.
  function EntryFor(c: Cache, d: DeviceId, s: StreamId): Segment {
    match Lookup(c, d, s)
    case Some(segment) => segment
    case None => EmptySegment(s)
  }

  ghost function ExtendCache(c: Cache, d: DeviceId, new_: Segment): (r: (Cache, ExtendOutcome))
    requires ValidCache(c)
    ensures ValidCache(r.0)
  {
    var entry := EntryFor(c, d, new_.stream);
    match Extend(entry, new_)
    case Extended(segment) => (Put(c, d, new_.stream, segment), if segment == entry then Unchanged else Changed)
    case CannotExtend(e) => (Put(c, d, new_.stream, entry), Rejected(e))
    case ExtendPanics => (Put(c, d, new_.stream, entry), CacheExtendPanics)
  }

  datatype CheckOutcome = MayExtend | Refuses(error: Incompatible) | CheckPanics

  // `check_can_extend`: without a cached window there is nothing to check.
  ghost function CheckCanExtend(c: Cache, d: DeviceId, new_: Segment): CheckOutcome
    requires ValidCache(c)
  {
    match Lookup(c, d, new_.stream)
    case None => MayExtend
    case Some(segment) =>
      match Extend(segment, new_)
      case CannotExtend(e) => Refuses(e)
      case ExtendPanics => CheckPanics
      case Extended(_) => MayExtend
  }

  // ---------------------------------------------------------------------------------------------
  // Choosing windows for a session

  predicate Eligible(segments: map<StreamId, Segment>, used: set<StreamId>, n: nat, s: StreamId) {
    && s in segments && s !in used
    && IndexAfterLast(segments[s]).Some?
    && SigningReqSubSegment(segments[s], n).Some?
  }

  function SegmentsOf(c: Cache, d: DeviceId): map<StreamId, Segment> {
    if d in c then c[d] else map[]
  }

  ghost predicate HasEligible(segments: map<StreamId, Segment>, used: set<StreamId>, n: nat) {
    exists s :: Eligible(segments, used, n, s)
  }

  // The device gets the first `n` nonces of its first usable stream, in id order.
  ghost predicate IsSelectionFor(segments: map<StreamId, Segment>, used: set<StreamId>, n: nat, sub: SubSegment) {
    exists s :: Eligible(segments, used, n, s)
      && (forall t :: t < s ==> !Eligible(segments, used, n, t))
      && Some(sub) == SigningReqSubSegment(segments[s], n)
  }

  lemma SelectionIsEligible(segments: map<StreamId, Segment>, used: set<StreamId>, n: nat, sub: SubSegment)
    requires IsSelectionFor(segments, used, n, sub)
    ensures HasEligible(segments, used, n)
  {
  }

  // The most nonces an unused stream of the device has, when none has enough.
  ghost predicate IsBestAvailable(segments: map<StreamId, Segment>, keys: set<StreamId>, used: set<StreamId>, available: nat) {
    && (forall s :: s in keys && s in segments && s !in used && IndexAfterLast(segments[s]).Some? ==> |segments[s].nonces| <= available)
    && (available == 0 || exists s :: s in keys && s in segments && s !in used && |segments[s].nonces| == available)
  }

  ghost predicate IsSessionNonces(c: Cache, devices: set<DeviceId>, used: set<StreamId>, n: nat, r: SessionNonces) {
    match r
    case Selected(nonces) =>
      nonces.Keys == devices && AllSelected(c, used, n, nonces)
    case NotEnoughNonces(d, available, need) =>
      && d in devices && need == n
      && !HasEligible(SegmentsOf(c, d), used, n)
      && IsBestAvailable(SegmentsOf(c, d), SegmentsOf(c, d).Keys, used, available)
      && (forall e :: e in devices && e < d ==> HasEligible(SegmentsOf(c, e), used, n))
  }

  ghost predicate AllSelected(c: Cache, used: set<StreamId>, n: nat, nonces: map<DeviceId, SubSegment>) {
    forall d :: d in nonces ==> IsSelectionFor(SegmentsOf(c, d), used, n, nonces[d])
  }

  lemma GrowBest(segments: map<StreamId, Segment>, seen: set<StreamId>, used: set<StreamId>, available: nat, s: StreamId)
    requires IsBestAvailable(segments, seen, used, available) && s in segments && s !in used
    ensures IsBestAvailable(segments, seen + {s}, used, Max(available, |segments[s].nonces|))
  {
    if available > |segments[s].nonces| {
      var t :| t in seen && t in segments && t !in used && |segments[t].nonces| == available;
      assert t in seen + {s};
    } else {
      assert s in seen + {s};
    }
  }

  lemma FirstEligible(segments: map<StreamId, Segment>, used: set<StreamId>, n: nat, s: StreamId, sub: SubSegment,
                      seen: set<StreamId>, rest: set<StreamId>)
    requires Eligible(segments, used, n, s) && Some(sub) == SigningReqSubSegment(segments[s], n)
    requires seen + rest == segments.Keys
    requires forall t :: t in seen ==> !Eligible(segments, used, n, t)
    requires forall t :: t in rest ==> s <= t
    ensures IsSelectionFor(segments, used, n, sub)
  {
    forall t: StreamId | t < s ensures !Eligible(segments, used, n, t) {
      assert t in segments ==> t in seen || t in rest;
    }
  }

  // ---------------------------------------------------------------------------------------------
  // What is reported and what is asked for

  // The unused streams of a device that have nonces, with how many.
  function AvailableOf(c: Cache, d: DeviceId, used: set<StreamId>): map<StreamId, nat> {
    map s | s in SegmentsOf(c, d) && s !in used && SegmentsOf(c, d)[s].nonces != [] :: |SegmentsOf(c, d)[s].nonces|
  }

  // No window has more nonces than 32 bits count.
  predicate Countable(segments: map<StreamId, Segment>) {
    forall s :: s in segments ==> |segments[s].nonces| <= U32_MAX
  }

  function StateOf(segments: map<StreamId, Segment>, s: StreamId): CoordState
    requires s in segments && Countable(segments)
  {
    CoordState(s, segments[s].index, |segments[s].nonces|)
  }

  ghost predicate InIdOrder(list: seq<CoordState>) {
    forall i, j :: 0 <= i < j < |list| ==> list[i].stream < list[j].stream
  }

  // Every cached stream once, in id order, with where it stands.
  ghost predicate IsListing(segments: map<StreamId, Segment>, list: seq<CoordState>)
    requires Countable(segments)
  {
    && InIdOrder(list)
    && (forall i :: 0 <= i < |list| ==> list[i].stream in segments && list[i] == StateOf(segments, list[i].stream))
    && (forall s :: s in segments ==> StateOf(segments, s) in list)
  }

  function NewStreams(draws: seq<StreamId>, n: nat): seq<CoordState>
    requires n <= |draws|
  {
    seq(n, i requires 0 <= i < n => CoordState(draws[i], 0, 0))
  }

  function Needed(c: Cache, d: DeviceId, minStreams: nat): nat {
    if minStreams > |SegmentsOf(c, d)| then minStreams - |SegmentsOf(c, d)| else 0
  }

  // As many new streams as are missing, under the ids the generator draws, then the cached ones.
  ghost predicate IsOpeningRequest(c: Cache, d: DeviceId, minStreams: nat, draws: seq<StreamId>, r: seq<CoordState>)
    requires ValidCache(c) && minStreams <= |draws|
  {
    var n := Needed(c, d, minStreams);
    n <= |r| && r[..n] == NewStreams(draws, n) && IsListing(SegmentsOf(c, d), r[n..])
  }

  // ---------------------------------------------------------------------------------------------

  /** `NonceCache`. */
  class NonceCache {
    var byDevice: Cache

    constructor ()
      ensures byDevice == map[]
    {
      byDevice := map[];
    }

    method ExtendSegment(device: DeviceId, newSegment: Segment) returns (outcome: ExtendOutcome)
      requires ValidCache(byDevice)
      modifies this
      ensures (byDevice, outcome) == ExtendCache(old(byDevice), device, newSegment)
    {
      if device !in byDevice {
        byDevice := byDevice[device := map[]];
      }
      if newSegment.stream !in byDevice[device] {
        byDevice := Put(byDevice, device, newSegment.stream, EmptySegment(newSegment.stream));
      }
      var segment := byDevice[device][newSegment.stream];
      assert segment == EntryFor(old(byDevice), device, newSegment.stream);
      PutTwice(old(byDevice), device, newSegment.stream, segment, segment);
      assert byDevice == Put(old(byDevice), device, newSegment.stream, segment);
      var extended := ExtendWith(segment, newSegment);
      match extended
      case CannotExtend(e) => return Rejected(e);
      case ExtendPanics => return CacheExtendPanics;
      case Extended(new_) =>
        if new_ != segment {
          PutTwice(old(byDevice), device, newSegment.stream, segment, new_);
          byDevice := Put(byDevice, device, newSegment.stream, new_);
          assert byDevice == Put(old(byDevice), device, newSegment.stream, new_);
          return Changed;
        }
        return Unchanged;
    }

    method CheckExtends(device: DeviceId, newSegment: Segment) returns (outcome: CheckOutcome)
      requires ValidCache(byDevice)
      ensures outcome == CheckCanExtend(byDevice, device, newSegment)
    {
      if device in byDevice && newSegment.stream in byDevice[device] {
        var extended := ExtendWith(byDevice[device][newSegment.stream], newSegment);
        match extended
        case CannotExtend(e) => return Refuses(e);
        case ExtendPanics => return CheckPanics;
        case Extended(_) => return MayExtend;
      }
      return MayExtend;
    }

    method SelectFor(device: DeviceId, n: nat, used: set<StreamId>) returns (chosen: Option<SubSegment>, available: nat)
      ensures chosen.Some? ==> IsSelectionFor(SegmentsOf(byDevice, device), used, n, chosen.value)
      ensures chosen.None? ==> !HasEligible(SegmentsOf(byDevice, device), used, n)
      ensures chosen.None? ==>
                IsBestAvailable(SegmentsOf(byDevice, device), SegmentsOf(byDevice, device).Keys, used, available)
    {
      var segments := SegmentsOf(byDevice, device);
      var rest := segments.Keys;
      ghost var seen: set<StreamId> := {};
      chosen, available := None, 0;
      while rest != {}
        invariant seen + rest == segments.Keys
        invariant forall s, t :: s in seen && t in rest ==> s < t
        invariant forall s :: s in seen ==> !Eligible(segments, used, n, s)
        invariant IsBestAvailable(segments, seen, used, available)
        decreases |rest|
      {
        var stream: StreamId;
        ghost var before := rest;
        stream, rest := TakeLeast(rest);
        var segment := segments[stream];
        if stream !in used && IndexAfterLast(segment).Some? {
          var subSegment := SigningReqSubSegment(segment, n);
          if subSegment.Some? {
            FirstEligible(segments, used, n, stream, subSegment.value, seen, before);
            return subSegment, available;
          }
          GrowBest(segments, seen, used, available, stream);
          available := Max(available, |segment.nonces|);
        }
        seen := seen + {stream};
      }
      assert seen == segments.Keys;
    }

    /** `new_signing_session`. */
    method NewSigningSession(devices: set<DeviceId>, n: nat, used: set<StreamId>) returns (r: SessionNonces)
      ensures IsSessionNonces(byDevice, devices, used, n, r)
    {
      var noncesChosen: map<DeviceId, SubSegment> := map[];
      var rest := devices;
      while rest != {}
        invariant rest <= devices && noncesChosen.Keys == devices - rest
        invariant forall d, e :: d in noncesChosen && e in rest ==> d < e
        invariant AllSelected(byDevice, used, n, noncesChosen)
        decreases |rest|
      {
        ghost var before := rest;
        var device: DeviceId;
        device, rest := TakeLeast(rest);
        var chosen, available := SelectFor(device, n, used);
        if chosen.None? {
          forall e | e in devices && e < device ensures HasEligible(SegmentsOf(byDevice, e), used, n) {
            assert e in before ==> e in rest;
            assert e in noncesChosen;
            SelectionIsEligible(SegmentsOf(byDevice, e), used, n, noncesChosen[e]);
          }
          return NotEnoughNonces(device, available, n);
        }
        noncesChosen := noncesChosen[device := chosen.value];
        assert noncesChosen.Keys == devices - rest;
      }
      return Selected(noncesChosen);
    }

    method NoncesAvailable(device: DeviceId, used: set<StreamId>) returns (available: map<StreamId, nat>)
      ensures available == AvailableOf(byDevice, device, used)
    {
      var segments := SegmentsOf(byDevice, device);
      available := map[];
      var rest := segments.Keys;
      while rest != {}
        invariant rest <= segments.Keys
        invariant available == map s | s in segments && s !in rest && s !in used && segments[s].nonces != [] :: |segments[s].nonces|
        decreases |rest|
      {
        var stream: StreamId;
        stream, rest := TakeLeast(rest);
        if stream !in used && segments[stream].nonces != [] {
          available := available[stream := |segments[stream].nonces|];
        }
      }
    }

    /** `generate_nonce_stream_opening_requests`. */
    method OpeningRequests(device: DeviceId, minStreams: nat, draws: seq<StreamId>) returns (r: seq<CoordState>)
      requires ValidCache(byDevice) && minStreams <= |draws|
      ensures IsOpeningRequest(byDevice, device, minStreams, draws, r)
    {
      var segments := SegmentsOf(byDevice, device);
      var newStreamsNeeded := if minStreams > |segments| then minStreams - |segments| else 0;
      r := [];
      for i := 0 to newStreamsNeeded
        invariant r == NewStreams(draws, i)
      {
        r := r + [CoordState(draws[i], 0, 0)];
      }
      var listed := ListStreams(segments);
      assert (r + listed)[..newStreamsNeeded] == r && (r + listed)[newStreamsNeeded..] == listed;
      r := r + listed;
    }

    static method ListStreams(segments: map<StreamId, Segment>) returns (list: seq<CoordState>)
      requires Countable(segments)
      ensures IsListing(segments, list)
    {
      list := [];
      var rest := segments.Keys;
      while rest != {}
        invariant rest <= segments.Keys && InIdOrder(list)
        invariant forall i :: 0 <= i < |list| ==> list[i].stream in segments && list[i] == StateOf(segments, list[i].stream)
        invariant forall i, s :: 0 <= i < |list| && s in rest ==> list[i].stream < s
        invariant forall s :: s in segments && s !in rest ==> StateOf(segments, s) in list
        decreases |rest|
      {
        var stream: StreamId;
        stream, rest := TakeLeast(rest);
        list := list + [StateOf(segments, stream)];
      }
    }

    method Consume(device: DeviceId, stream: StreamId, upTo: U32) returns (changed: bool)
      requires !ConsumePanics(byDevice, device, stream, upTo)
      modifies this
      ensures byDevice == Consumed(old(byDevice), device, stream, upTo)
      ensures changed == (Lookup(old(byDevice), device, stream).Some? && Lookup(old(byDevice), device, stream).value.index < upTo)
    {
      if device in byDevice && stream in byDevice[device] {
        var segment, deleted := DeleteUpTo(byDevice[device][stream], upTo);
        byDevice := Put(byDevice, device, stream, segment);
        return deleted;
      }
      return false;
    }
  }

  // "tried to consume no nonces since counter was greater than consumption point"
  predicate ConsumePanics(c: Cache, d: DeviceId, s: StreamId, upTo: U32) {
    Lookup(c, d, s).Some? && Lookup(c, d, s).value.index > upTo
  }

  ghost function Consumed(c: Cache, d: DeviceId, s: StreamId, upTo: U32): Cache {
    match Lookup(c, d, s)
    case None => c
    case Some(segment) => Put(c, d, s, Deleted(segment, upTo))
  }

  /** A selected window is a prefix of the window in the cache, and no used stream is selected. */
  lemma SelectionIsPrefix(c: Cache, devices: set<DeviceId>, used: set<StreamId>, n: nat, nonces: map<DeviceId, SubSegment>, d: DeviceId)
    requires ValidCache(c) && IsSessionNonces(c, devices, used, n, Selected(nonces)) && d in devices
    ensures var sub := nonces[d];
            var s := sub.segment.stream;
            && s !in used && Lookup(c, d, s).Some?
            && var segment := Lookup(c, d, s).value;
               && sub.segment.index == segment.index && sub.segment.nonces <= segment.nonces && |sub.segment.nonces| == n
               && sub.remaining == |segment.nonces| - n
               && segment.index + n <= End(segment)
  {
    assert IsSelectionFor(SegmentsOf(c, d), used, n, nonces[d]);
    var s :| Eligible(SegmentsOf(c, d), used, n, s) && Some(nonces[d]) == SigningReqSubSegment(SegmentsOf(c, d)[s], n);
    assert c[d][s].stream == s;
  }

  /** Selecting is deterministic: the contract of `NewSigningSession` leaves one answer. */
  lemma SelectionIsUnique(c: Cache, devices: set<DeviceId>, used: set<StreamId>, n: nat, a: map<DeviceId, SubSegment>, b: map<DeviceId, SubSegment>)
    requires IsSessionNonces(c, devices, used, n, Selected(a)) && IsSessionNonces(c, devices, used, n, Selected(b))
    ensures a == b
  {
    forall d | d in devices ensures a[d] == b[d] {
      assert IsSelectionFor(SegmentsOf(c, d), used, n, a[d]) && IsSelectionFor(SegmentsOf(c, d), used, n, b[d]);
    }
  }
}
