/**
 What a window empty at index 0 changes for the functions that read the nonce cache.

 Two caches that agree up to such windows (`SameCache`) are told apart by `check_can_extend` on a segment
 that does not fit 32 bits, by choosing no nonces at all, and by the requests that open streams. Choosing
 some nonces and reporting what is available cannot tell them apart. Mutations, which extend and consume
 windows, treat them alike in every run (`CoordinatorReplay`).
 */
module CoordinatorReaders {
  import opened Common
  import opened NonceStream
  import opened CoordNonces
  import opened Coordinator
  import opened CoordinatorRuns
  import opened CoordinatorReplay

  /** Checking a segment: the answers agree exactly if the segment fits, or both caches have the window or
      neither has. */
  lemma ChecksAgree(a: Cache, b: Cache, d: DeviceId, new_: Segment)
    requires ValidCache(a) && ValidCache(b) && SameCache(a, b)
    ensures CheckCanExtend(a, d, new_) == CheckCanExtend(b, d, new_)
       <==> Fits(new_) || (Lookup(a, d, new_.stream).Some? <==> Lookup(b, d, new_.stream).Some?)
  {
    assert EntryFor(a, d, new_.stream) == EntryFor(b, d, new_.stream);
  }

  lemma EligibleAlike(a: Cache, b: Cache, d: DeviceId, used: set<StreamId>, n: nat, s: StreamId)
    requires SameCache(a, b) && n > 0
    ensures Eligible(SegmentsOf(a, d), used, n, s) <==> Eligible(SegmentsOf(b, d), used, n, s)
    ensures Eligible(SegmentsOf(a, d), used, n, s) ==> SegmentsOf(a, d)[s] == SegmentsOf(b, d)[s]
  {
    assert EntryFor(a, d, s) == EntryFor(b, d, s);
  }

  lemma SelectionAlike(a: Cache, b: Cache, d: DeviceId, used: set<StreamId>, n: nat, sub: SubSegment)
    requires SameCache(a, b) && n > 0 && IsSelectionFor(SegmentsOf(a, d), used, n, sub)
    ensures IsSelectionFor(SegmentsOf(b, d), used, n, sub)
  {
    forall s ensures Eligible(SegmentsOf(a, d), used, n, s) <==> Eligible(SegmentsOf(b, d), used, n, s) {
      EligibleAlike(a, b, d, used, n, s);
    }
    var s :| Eligible(SegmentsOf(a, d), used, n, s)
      && (forall t :: t < s ==> !Eligible(SegmentsOf(a, d), used, n, t))
      && Some(sub) == SigningReqSubSegment(SegmentsOf(a, d)[s], n);
    EligibleAlike(a, b, d, used, n, s);
  }

  lemma BestAlike(a: Cache, b: Cache, d: DeviceId, used: set<StreamId>, available: nat)
    requires SameCache(a, b) && IsBestAvailable(SegmentsOf(a, d), SegmentsOf(a, d).Keys, used, available)
    ensures IsBestAvailable(SegmentsOf(b, d), SegmentsOf(b, d).Keys, used, available)
  {
    var x, y := SegmentsOf(a, d), SegmentsOf(b, d);
    forall s | s in y && s !in used && IndexAfterLast(y[s]).Some? ensures |y[s].nonces| <= available {
      assert EntryFor(a, d, s) == EntryFor(b, d, s);
    }
    if available > 0 {
      var s :| s in x && s !in used && |x[s].nonces| == available;
      assert EntryFor(a, d, s) == EntryFor(b, d, s);
      assert s in y.Keys && |y[s].nonces| == available;
    }
  }

  lemma SelectedAlike(a: Cache, b: Cache, devices: set<DeviceId>, used: set<StreamId>, n: nat, r: SessionNonces)
    requires SameCache(a, b) && n > 0 && IsSessionNonces(a, devices, used, n, r)
    ensures IsSessionNonces(b, devices, used, n, r)
  {
    forall d, s ensures Eligible(SegmentsOf(a, d), used, n, s) <==> Eligible(SegmentsOf(b, d), used, n, s) {
      EligibleAlike(a, b, d, used, n, s);
    }
    match r
    case Selected(nonces) =>
      forall d | d in nonces ensures IsSelectionFor(SegmentsOf(b, d), used, n, nonces[d]) {
        SelectionAlike(a, b, d, used, n, nonces[d]);
      }
    case NotEnoughNonces(d, available, need) =>
      BestAlike(a, b, d, used, available);
      forall e | e in devices && e < d ensures HasEligible(SegmentsOf(b, e), used, n) {
        var s :| Eligible(SegmentsOf(a, e), used, n, s);
        assert Eligible(SegmentsOf(b, e), used, n, s);
      }
  }

  /** Choosing nonces for a session that needs any: the same choices, and the same errors. */
  lemma SelectionsAgree(a: Cache, b: Cache, devices: set<DeviceId>, used: set<StreamId>, n: nat, r: SessionNonces)
    requires SameCache(a, b) && n > 0
    ensures IsSessionNonces(a, devices, used, n, r) <==> IsSessionNonces(b, devices, used, n, r)
  {
    assert SameCache(b, a);
    if IsSessionNonces(a, devices, used, n, r) {
      SelectedAlike(a, b, devices, used, n, r);
    }
    if IsSessionNonces(b, devices, used, n, r) {
      SelectedAlike(b, a, devices, used, n, r);
    }
  }

  /** Reporting what is available: the same. */
  lemma AvailableAgrees(a: Cache, b: Cache, d: DeviceId, used: set<StreamId>)
    requires SameCache(a, b)
    ensures AvailableOf(a, d, used) == AvailableOf(b, d, used)
  {
    var x, y := AvailableOf(a, d, used), AvailableOf(b, d, used);
    forall s ensures (s in x <==> s in y) && (s in x ==> x[s] == y[s]) {
      assert EntryFor(a, d, s) == EntryFor(b, d, s);
    }
  }

  // ---------------------------------------------------------------------------------------------
  // Opening requests

  lemma {:induction false} ListingIsUnique(x: seq<CoordState>, y: seq<CoordState>)
    requires InIdOrder(x) && InIdOrder(y) && forall e :: e in x <==> e in y
    ensures x == y
  {
    assert x != [] ==> x[0] in y;
    assert y != [] ==> y[0] in x;
    if x != [] {
      var n, m := |x| - 1, |y| - 1;
      LastIsGreatest(x, y);
      assert x == x[..n] + [x[n]] && y == y[..m] + [y[m]];
      forall e ensures e in x[..n] <==> e in y[..m] {
        WithoutLast(x, e);
        WithoutLast(y, e);
      }
      ListingIsUnique(x[..n], y[..m]);
    }
  }

  lemma WithoutLast(x: seq<CoordState>, e: CoordState)
    requires x != [] && InIdOrder(x)
    ensures e in x[..|x| - 1] <==> e in x && e != x[|x| - 1]
  {
    assert x == x[..|x| - 1] + [x[|x| - 1]];
  }

  lemma LastIsGreatest(x: seq<CoordState>, y: seq<CoordState>)
    requires InIdOrder(x) && InIdOrder(y) && x != [] && y != [] && forall e :: e in x <==> e in y
    ensures x[|x| - 1] == y[|y| - 1]
  {
    assert x[|x| - 1] in y && y[|y| - 1] in x;
  }

  lemma ListingElements(segments: map<StreamId, Segment>, list: seq<CoordState>, e: CoordState)
    requires Countable(segments) && IsListing(segments, list)
    ensures e in list <==> e.stream in segments && e == StateOf(segments, e.stream)
  {
  }

  lemma ListingsAgree(segments: map<StreamId, Segment>, x: seq<CoordState>, y: seq<CoordState>)
    requires Countable(segments) && IsListing(segments, x) && IsListing(segments, y)
    ensures x == y
  {
    forall e ensures e in x <==> e in y {
      ListingElements(segments, x, e);
      ListingElements(segments, y, e);
    }
    ListingIsUnique(x, y);
  }

  // A request mentions the cached streams, and beyond them only streams that were drawn.
  lemma RequestMentions(c: Cache, d: DeviceId, minStreams: nat, draws: seq<StreamId>, r: seq<CoordState>, s: StreamId)
    requires ValidCache(c) && minStreams <= |draws| && IsOpeningRequest(c, d, minStreams, draws, r)
    requires s !in draws
    ensures (exists e :: e in r && e.stream == s) <==> s in SegmentsOf(c, d)
  {
    var n := Needed(c, d, minStreams);
    assert forall e :: e in r <==> e in r[..n] || e in r[n..] by {
      assert r == r[..n] + r[n..];
    }
    if s in SegmentsOf(c, d) {
      ListingElements(SegmentsOf(c, d), r[n..], StateOf(SegmentsOf(c, d), s));
    }
    forall e | e in r && e.stream == s ensures s in SegmentsOf(c, d) {
      NewStreamsAreDrawn(draws, n, e);
      ListingElements(SegmentsOf(c, d), r[n..], e);
    }
  }

  lemma NewStreamsAreDrawn(draws: seq<StreamId>, n: nat, e: CoordState)
    requires n <= |draws|
    ensures e in NewStreams(draws, n) ==> e.stream in draws
  {
  }

  lemma RequestIsUnique(a: Cache, b: Cache, d: DeviceId, minStreams: nat, draws: seq<StreamId>, x: seq<CoordState>, y: seq<CoordState>)
    requires ValidCache(a) && ValidCache(b) && minStreams <= |draws| && SegmentsOf(a, d) == SegmentsOf(b, d)
    requires IsOpeningRequest(a, d, minStreams, draws, x) && IsOpeningRequest(b, d, minStreams, draws, y)
    ensures x == y
  {
    var n := Needed(a, d, minStreams);
    ListingsAgree(SegmentsOf(a, d), x[n..], y[n..]);
    SameHalves(x, y, n);
  }

  lemma SameHalves(x: seq<CoordState>, y: seq<CoordState>, n: nat)
    requires n <= |x| && n <= |y| && x[..n] == y[..n] && x[n..] == y[n..]
    ensures x == y
  {
    assert x == x[..n] + x[n..] && y == y[..n] + y[n..];
  }

  /** Asking a device to open streams, with new ids that neither cache knows: the requests are the same
      exactly if the two caches have the same windows for the device. A window empty at index 0 is listed,
      and counts as one of the streams that need not be opened. */
  lemma OpeningRequestsAgree(a: Cache, b: Cache, d: DeviceId, minStreams: nat, draws: seq<StreamId>, x: seq<CoordState>, y: seq<CoordState>)
    requires ValidCache(a) && ValidCache(b) && SameCache(a, b) && minStreams <= |draws|
    requires forall s :: s in draws ==> s !in SegmentsOf(a, d) && s !in SegmentsOf(b, d)
    requires IsOpeningRequest(a, d, minStreams, draws, x) && IsOpeningRequest(b, d, minStreams, draws, y)
    ensures x == y <==> SegmentsOf(a, d) == SegmentsOf(b, d)
  {
    if SegmentsOf(a, d) == SegmentsOf(b, d) {
      RequestIsUnique(a, b, d, minStreams, draws, x, y);
    } else {
      var s := SomeWindowDiffers(a, b, d);
      RequestMentions(a, d, minStreams, draws, x, s);
      RequestMentions(b, d, minStreams, draws, y, s);
    }
  }

  lemma SomeWindowDiffers(a: Cache, b: Cache, d: DeviceId) returns (s: StreamId)
    requires SameCache(a, b) && SegmentsOf(a, d) != SegmentsOf(b, d)
    ensures s in SegmentsOf(a, d) <==> s !in SegmentsOf(b, d)
  {
    var x, y := SegmentsOf(a, d), SegmentsOf(b, d);
    if x.Keys == y.Keys {
      forall s | s in x ensures x[s] == y[s] {
        assert EntryFor(a, d, s) == EntryFor(b, d, s);
      }
      assert false;
    }
    if x.Keys <= y.Keys {
      s :| s in y && s !in x;
    } else {
      s :| s in x && s !in y;
    }
  }

  // ---------------------------------------------------------------------------------------------
  // The readers that differ, at the state and the replayed state of a run

  function PhantomCache(d: DeviceId, stream: StreamId): Cache {
    map[d := map[stream := EmptySegment(stream)]]
  }

  function NoSegments(): map<StreamId, Segment> {
    map[]
  }

  /** After the run of `PhantomIsNotReplayed`: a segment that does not fit is refused by the state and not by
      the replayed one, a session that signs nothing finds a window only in the state, and a request
      for one stream opens a new one only in the replayed state. */
  lemma ReadersCanDiffer(f: Frost, d: DeviceId, stream: StreamId, misfit: Segment, draw: StreamId, x: seq<CoordState>, y: seq<CoordState>)
    requires misfit.stream == stream && !Fits(misfit) && draw != stream
    requires ValidCache(PhantomCache(d, stream)) && IsOpeningRequest(PhantomCache(d, stream), d, 1, [draw], x)
    requires ValidCache(EMPTY.cache) && IsOpeningRequest(EMPTY.cache, d, 1, [draw], y)
    ensures var c := Coord(EMPTY, []);
            var s := Step(f, c, RecvSegment(d, EmptySegment(stream))).value.state;
            && Replay([]) == Some(EMPTY) && SameCache(s.cache, EMPTY.cache)
            && CheckCanExtend(s.cache, d, misfit).Refuses? && CheckCanExtend(EMPTY.cache, d, misfit).MayExtend?
            && HasEligible(SegmentsOf(s.cache, d), {}, 0) && !HasEligible(SegmentsOf(EMPTY.cache, d), {}, 0)
            && x == [CoordState(stream, 0, 0)] && y == [CoordState(draw, 0, 0)]
  {
    var a := PhantomCache(d, stream);
    UnrecordedMutation(EMPTY, NewNonces(d, EmptySegment(stream)));
    var s := Step(f, Coord(EMPTY, []), RecvSegment(d, EmptySegment(stream))).value.state;
    assert s.cache == a;
    assert Eligible(SegmentsOf(a, d), {}, 0, stream);
    assert x[0..] == x;
    OneListed(SegmentsOf(a, d), stream, x);
    assert Needed(EMPTY.cache, d, 1) == 1;
    NothingListed(y[1..]);
    assert y == y[..1] + y[1..];
  }

  lemma OneListed(segments: map<StreamId, Segment>, stream: StreamId, x: seq<CoordState>)
    requires segments == map[stream := EmptySegment(stream)] && Countable(segments) && IsListing(segments, x)
    ensures x == [CoordState(stream, 0, 0)]
  {
    var one := [CoordState(stream, 0, 0)];
    assert IsListing(segments, one) by {
      assert StateOf(segments, stream) == one[0];
    }
    ListingsAgree(segments, x, one);
  }

  lemma NothingListed(x: seq<CoordState>)
    requires IsListing(NoSegments(), x)
    ensures x == []
  {
    ListingsAgree(NoSegments(), x, []);
  }
}
