/**
 Windows of public nonces and how they are merged and consumed (frostsnap_core/src/nonce_stream.rs).
 */
module NonceStream {
  import opened Common

  type Nonce(==, !new)

  // The 16 id bytes, in the order a BTreeMap keeps them.
  type StreamId = nat

  datatype Segment = Segment(stream: StreamId, nonces: seq<Nonce>, index: U32)

  datatype SubSegment = SubSegment(segment: Segment, remaining: U32)

  datatype CoordState = CoordState(stream: StreamId, index: U32, remaining: U32)

  datatype Incompatible = StreamIdsDontMatch | Overflows

  datatype ExtendResult =
    | Extended(segment: Segment)
    | CannotExtend(error: Incompatible)
    | ExtendPanics

  function IndexAfterLast(s: Segment): Option<U32> {
    if s.index + |s.nonces| > U32_MAX then None else Some(s.index + |s.nonces|)
  }

  // The invariant of every window the cache keeps.
  ghost predicate Fits(s: Segment) {
    s.index + |s.nonces| <= U32_MAX
  }

  ghost function End(s: Segment): nat {
    s.index + |s.nonces|
  }

  function GetNonce(s: Segment, index: nat): Option<Nonce> {
    if index < s.index || index - s.index >= |s.nonces| then None
    else Some(s.nonces[index - s.index])
  }

  function SigningReqSubSegment(s: Segment, length: nat): Option<SubSegment> {
    if length > |s.nonces| || |s.nonces| - length > U32_MAX then None
    else Some(SubSegment(Segment(s.stream, s.nonces[..length], s.index), |s.nonces| - length))
  }

  function CoordStateOf(s: SubSegment): CoordState {
    CoordState(s.segment.stream, s.segment.index, s.remaining)
  }

  // Overlapping or adjacent.
  predicate Connects(curr: Segment, other: Segment) {
    if other.index > curr.index then curr.index + |curr.nonces| >= other.index
    else other.index + |other.nonces| >= curr.index
  }

  // `index + nonces.len() as u32` as the release profile computes it.
  function WrappedEnd(s: Segment): (r: nat)
    ensures Fits(s) ==> r == s.index + |s.nonces|
  {
    (s.index + |s.nonces|) % 0x1_0000_0000
  }

  // `Connects` as the code sees it: a window of our own that runs past 32 bits wraps.
  ghost predicate Joins(curr: Segment, other: Segment) {
    if Fits(curr) || other.index <= curr.index then Connects(curr, other)
    else WrappedEnd(curr) >= other.index
  }

  // What the merged window holds at `index`: our own nonce where we have one.
  ghost function Merged(curr: Segment, other: Segment, index: nat): Option<Nonce> {
    if GetNonce(curr, index).Some? then GetNonce(curr, index) else GetNonce(other, index)
  }

  // The window that covers `[start, end)` of `get`.
  ghost function Tabulate(stream: StreamId, start: U32, end: nat, get: nat -> Nonce): Segment
    requires start <= end
  {
    Segment(stream, seq(end - start, k requires 0 <= k < end - start => get(start + k)), start)
  }

  ghost predicate CoversBoth(curr: Segment, other: Segment, r: Segment) {
    && r.stream == curr.stream
    && r.index == Min(curr.index, other.index)
    && End(r) == Max(End(curr), End(other))
    && forall i: nat :: GetNonce(r, i) == Merged(curr, other, i)
  }

  // An empty window at index 0: its last index underflows.
  predicate EmptyAtZero(s: Segment) {
    s.nonces == [] && s.index == 0
  }

  // The part of the merge that has been carried out.
  ghost predicate PartlyMerged(self: Segment, other: Segment, curr: Segment) {
    && curr.stream == self.stream
    && forall i: nat :: curr.index <= i < End(curr) ==> GetNonce(curr, i) == Merged(self, other, i)
  }

  lemma PushFront(self: Segment, other: Segment, curr: Segment)
    requires PartlyMerged(self, other, curr) && curr.index <= self.index && 0 < curr.index
    requires GetNonce(other, curr.index - 1).Some?
    ensures PartlyMerged(self, other,
      Segment(curr.stream, [GetNonce(other, curr.index - 1).value] + curr.nonces, curr.index - 1))
  {
    var next := Segment(curr.stream, [GetNonce(other, curr.index - 1).value] + curr.nonces, curr.index - 1);
    forall i: nat | next.index <= i < End(next) ensures GetNonce(next, i) == Merged(self, other, i) {
      if i >= curr.index {
        assert GetNonce(next, i) == GetNonce(curr, i);
      }
    }
  }

  lemma PushBack(self: Segment, other: Segment, curr: Segment)
    requires PartlyMerged(self, other, curr) && End(self) <= End(curr)
    requires GetNonce(other, End(curr)).Some?
    ensures PartlyMerged(self, other, Segment(curr.stream, curr.nonces + [GetNonce(other, End(curr)).value], curr.index))
  {
    var next := Segment(curr.stream, curr.nonces + [GetNonce(other, End(curr)).value], curr.index);
    forall i: nat | next.index <= i < End(next) ensures GetNonce(next, i) == Merged(self, other, i) {
      if i < End(curr) {
        assert GetNonce(next, i) == GetNonce(curr, i);
      }
    }
  }

  /** `_extend`: grows `self` by the nonces `other` has before and after it. */
  method ExtendWith(self: Segment, other: Segment) returns (r: ExtendResult)
    ensures r == Extend(self, other)
  {
    var curr := self;
    if self.stream != other.stream {
      return CannotExtend(StreamIdsDontMatch);
    }
    if IndexAfterLast(other).None? {
      return CannotExtend(Overflows);
    }
    var connect := if other.index > curr.index then WrappedEnd(curr) >= other.index
                   else other.index + |other.nonces| >= curr.index;
    if !connect || curr.nonces == [] {
      return Extended(if |curr.nonces| > |other.nonces| then curr else other);
    }
    if IndexAfterLast(self).None? {
      // "invariant"
      return ExtendPanics;
    }
    var newStart := Min(self.index, other.index);
    var currEnd := IndexAfterLast(self).value - 1;
    var otherAfterLast := IndexAfterLast(other).value;
    // The release profile wraps below zero.
    var otherEnd := if otherAfterLast == 0 then U32_MAX else otherAfterLast - 1;
    var newEnd := Max(currEnd, otherEnd);
    while curr.index > newStart
      invariant newStart <= curr.index <= self.index
      invariant PartlyMerged(self, other, curr) && End(curr) == End(self)
    {
      var otherNonce := GetNonce(other, curr.index - 1);
      PushFront(self, other, curr);
      curr := Segment(curr.stream, [otherNonce.value] + curr.nonces, curr.index - 1);
    }
    while currEnd < newEnd
      invariant currEnd <= newEnd && End(self) <= currEnd + 1 == End(curr)
      invariant curr.index == newStart && PartlyMerged(self, other, curr)
      invariant otherAfterLast == 0 ==> currEnd + 1 == End(self)
    {
      var otherNonce := GetNonce(other, currEnd + 1);
      if otherNonce.None? {
        return ExtendPanics;
      }
      PushBack(self, other, curr);
      curr := Segment(curr.stream, curr.nonces + [otherNonce.value], curr.index);
      currEnd := currEnd + 1;
    }
    CoveringIsUnique(self, other, curr, Union(self, other));
    return Extended(curr);
  }

  /** Which results come when. In particular merging a window that fits 32 bits panics for one family of
      inputs only: the very first window of a stream met by an empty one at index 0. A window that does
      not fit panics whenever it has to be merged. */
  lemma ExtendOutcome(curr: Segment, other: Segment)
    ensures Fits(curr) ==>
              (Extend(curr, other).ExtendPanics? <==>
                curr.stream == other.stream && curr.nonces != [] && curr.index == 0 && EmptyAtZero(other))
    ensures !Fits(curr) ==>
              (Extend(curr, other).ExtendPanics? <==> curr.stream == other.stream && Fits(other) && Joins(curr, other))
    ensures var r := Extend(curr, other);
            r.Extended? && Connects(curr, other) && curr.nonces != [] && Fits(curr) ==> CoversBoth(curr, other, r.segment)
    ensures var r := Extend(curr, other);
            r.Extended? && !Joins(curr, other) ==> r.segment == if |curr.nonces| > |other.nonces| then curr else other
  {
  }

  lemma MergedInside(curr: Segment, other: Segment, index: nat)
    requires Connects(curr, other) && curr.nonces != []
    ensures Merged(curr, other, index).Some? <==> Min(curr.index, other.index) <= index < Max(End(curr), End(other))
  {
  }

  lemma MergedRange(curr: Segment, other: Segment)
    requires Connects(curr, other) && curr.nonces != []
    ensures forall i: nat :: Merged(curr, other, i).Some? <==> Min(curr.index, other.index) <= i < Max(End(curr), End(other))
  {
    forall i: nat ensures Merged(curr, other, i).Some? <==> Min(curr.index, other.index) <= i < Max(End(curr), End(other)) {
      MergedInside(curr, other, i);
    }
  }

  ghost function MergedNonces(curr: Segment, other: Segment): (r: seq<Nonce>)
    requires Connects(curr, other) && curr.nonces != []
    ensures |r| == Max(End(curr), End(other)) - Min(curr.index, other.index)
    ensures forall k :: 0 <= k < |r| ==> Some(r[k]) == Merged(curr, other, Min(curr.index, other.index) + k)
  {
    MergedRange(curr, other);
    var start := Min(curr.index, other.index);
    seq(Max(End(curr), End(other)) - start, k requires 0 <= k < Max(End(curr), End(other)) - start => Merged(curr, other, start + k).value)
  }

  lemma MergedNoncesCover(curr: Segment, other: Segment)
    requires Connects(curr, other) && curr.nonces != [] && Fits(curr) && Fits(other)
    ensures CoversBoth(curr, other, Segment(curr.stream, MergedNonces(curr, other), Min(curr.index, other.index)))
  {
    var start := Min(curr.index, other.index);
    var r := Segment(curr.stream, MergedNonces(curr, other), start);
    MergedRange(curr, other);
    forall i: nat ensures GetNonce(r, i) == Merged(curr, other, i) {
      if start <= i < End(r) {
        assert Some(r.nonces[i - start]) == Merged(curr, other, start + (i - start));
      }
    }
  }

  // The union window, as a value.
  ghost function Union(curr: Segment, other: Segment): (r: Segment)
    requires Connects(curr, other) && curr.nonces != [] && Fits(curr) && Fits(other)
    ensures CoversBoth(curr, other, r)
  {
    MergedNoncesCover(curr, other);
    Segment(curr.stream, MergedNonces(curr, other), Min(curr.index, other.index))
  }

  ghost function Extend(curr: Segment, other: Segment): (r: ExtendResult)
    ensures r.Extended? ==> (Fits(curr) ==> Fits(r.segment)) && r.segment.stream == curr.stream
  {
    if curr.stream != other.stream then CannotExtend(StreamIdsDontMatch)
    else if !Fits(other) then CannotExtend(Overflows)
    else if !Joins(curr, other) || curr.nonces == [] then
      Extended(if |curr.nonces| > |other.nonces| then curr else other)
    else if !Fits(curr) || EmptyAtZero(other) then ExtendPanics
    else Extended(Union(curr, other))
  }

  lemma CoveringIsUnique(curr: Segment, other: Segment, r: Segment, r': Segment)
    requires CoversBoth(curr, other, r) && CoversBoth(curr, other, r')
    ensures r == r'
  {
    forall k | 0 <= k < |r.nonces| ensures r.nonces[k] == r'.nonces[k] {
      assert GetNonce(r, r.index + k) == GetNonce(r', r.index + k);
    }
  }

  // ---------------------------------------------------------------------------------------------
  // Windows of one nonce stream

  // `s` is a window of the stream whose nonce at index i is get(i).
  ghost predicate IsWindow(s: Segment, get: nat -> Nonce) {
    Fits(s) && forall k :: 0 <= k < |s.nonces| ==> s.nonces[k] == get(s.index + k)
  }

  /** Merging connected windows of one stream gives exactly the union window of that stream, and
      never panics. */
  lemma ExtendIsUnionWindow(curr: Segment, other: Segment, get: nat -> Nonce)
    requires IsWindow(curr, get) && IsWindow(other, get)
    requires curr.stream == other.stream && Connects(curr, other)
    requires curr.nonces != [] && other.nonces != []
    ensures Extend(curr, other) == Extended(Tabulate(curr.stream, Min(curr.index, other.index), Max(End(curr), End(other)), get))
    ensures IsWindow(Extend(curr, other).segment, get)
  {
    UnionIsOfStream(curr, other, get);
    TabulatedIsWindow(curr.stream, Min(curr.index, other.index), Max(End(curr), End(other)), get);
    assert Extend(curr, other) == Extended(Union(curr, other));
  }

  lemma TabulatedIsWindow(stream: StreamId, start: U32, end: nat, get: nat -> Nonce)
    requires start <= end <= U32_MAX
    ensures IsWindow(Tabulate(stream, start, end, get), get)
  {
  }

  lemma MergedNoncesAreOfStream(curr: Segment, other: Segment, get: nat -> Nonce)
    requires IsWindow(curr, get) && IsWindow(other, get) && Connects(curr, other) && curr.nonces != []
    ensures forall k :: 0 <= k < |MergedNonces(curr, other)| ==> MergedNonces(curr, other)[k] == get(Min(curr.index, other.index) + k)
  {
    var m, start := MergedNonces(curr, other), Min(curr.index, other.index);
    forall k | 0 <= k < |m| ensures m[k] == get(start + k) {
      assert Some(m[k]) == Merged(curr, other, start + k);
      MergedIsOfStream(curr, other, get, start + k);
    }
  }

  lemma UnionIsOfStream(curr: Segment, other: Segment, get: nat -> Nonce)
    requires IsWindow(curr, get) && IsWindow(other, get)
    requires curr.stream == other.stream && Connects(curr, other) && curr.nonces != []
    ensures Union(curr, other) == Tabulate(curr.stream, Min(curr.index, other.index), Max(End(curr), End(other)), get)
  {
    MergedNoncesAreOfStream(curr, other, get);
    var t := Tabulate(curr.stream, Min(curr.index, other.index), Max(End(curr), End(other)), get);
    assert MergedNonces(curr, other) == t.nonces;
  }

  lemma MergedIsOfStream(curr: Segment, other: Segment, get: nat -> Nonce, index: nat)
    requires IsWindow(curr, get) && IsWindow(other, get) && Merged(curr, other, index).Some?
    ensures Merged(curr, other, index).value == get(index)
  {
  }

  // Merging a list of arrivals into the first of them. `None` once something does not connect.
  ghost function MergeAll(arrivals: seq<Segment>): Option<Segment>
    requires |arrivals| > 0 && forall s :: s in arrivals ==> Fits(s)
    ensures MergeAll(arrivals).Some? ==> Fits(MergeAll(arrivals).value)
  {
    if |arrivals| == 1 then Some(arrivals[0])
    else
      var last := arrivals[|arrivals| - 1];
      match MergeAll(arrivals[..|arrivals| - 1])
      case None => None
      case Some(m) =>
        if m.stream == last.stream && Connects(m, last) && Extend(m, last).Extended? then Some(Extend(m, last).segment)
        else None
  }

  // The smallest range of indices that holds all of `arrivals`.
  ghost predicate IsHull(arrivals: seq<Segment>, start: nat, end: nat) {
    && (forall s :: s in arrivals ==> start <= s.index && End(s) <= end)
    && (exists s :: s in arrivals && s.index == start)
    && (exists s :: s in arrivals && End(s) == end)
  }

  ghost predicate Arrivals(arrivals: seq<Segment>, stream: StreamId, get: nat -> Nonce) {
    |arrivals| > 0 && forall s :: s in arrivals ==> s.stream == stream && s.nonces != [] && IsWindow(s, get)
  }

  lemma HullGrows(arrivals: seq<Segment>, last: Segment, start: nat, end: nat)
    requires IsHull(arrivals, start, end)
    ensures IsHull(arrivals + [last], Min(start, last.index), Max(end, End(last)))
  {
    var all := arrivals + [last];
    var s :| s in arrivals && s.index == start;
    var e :| e in arrivals && End(e) == end;
    assert s in all && e in all && last in all;
  }

  lemma {:induction false} MergeAllIsHull(arrivals: seq<Segment>, stream: StreamId, get: nat -> Nonce)
    requires Arrivals(arrivals, stream, get)
    requires MergeAll(arrivals).Some?
    ensures var m := MergeAll(arrivals).value;
            && IsHull(arrivals, m.index, End(m)) && m.nonces != [] && IsWindow(m, get)
            && m == Tabulate(stream, m.index, End(m), get)
  {
    var m := MergeAll(arrivals).value;
    if |arrivals| == 1 {
      assert m == arrivals[0] && m in arrivals;
      assert m.nonces == Tabulate(stream, m.index, End(m), get).nonces;
    } else {
      var init, last := arrivals[..|arrivals| - 1], arrivals[|arrivals| - 1];
      assert arrivals == init + [last];
      assert Arrivals(init, stream, get);
      MergeAllIsHull(init, stream, get);
      var p := MergeAll(init).value;
      MergedOne(p, last, get);
      HullGrows(init, last, p.index, End(p));
    }
  }

  lemma MergedOne(p: Segment, last: Segment, get: nat -> Nonce)
    requires IsWindow(p, get) && IsWindow(last, get) && p.stream == last.stream && Connects(p, last)
    requires p.nonces != [] && last.nonces != []
    ensures Extend(p, last).Extended?
    ensures var m := Extend(p, last).segment;
            && m.index == Min(p.index, last.index) && End(m) == Max(End(p), End(last)) && m.nonces != []
            && IsWindow(m, get) && m == Tabulate(p.stream, m.index, End(m), get)
  {
    ExtendIsUnionWindow(p, last, get);
  }

  lemma HullIsUnique(a: seq<Segment>, b: seq<Segment>, start: nat, end: nat, start': nat, end': nat)
    requires forall s :: s in a <==> s in b
    requires IsHull(a, start, end) && IsHull(b, start', end')
    ensures start == start' && end == end'
  {
    var s :| s in a && s.index == start;
    var e :| e in a && End(e) == end;
    var s' :| s' in b && s'.index == start';
    var e' :| e' in b && End(e') == end';
    assert s in b && e in b && s' in a && e' in a;
  }

  /** The merged window does not depend on the order in which connecting windows arrive. */
  lemma MergeOrderIrrelevant(a: seq<Segment>, b: seq<Segment>, stream: StreamId, get: nat -> Nonce)
    requires Arrivals(a, stream, get) && |b| > 0 && multiset(a) == multiset(b)
    ensures forall s :: s in b ==> Fits(s)
    ensures MergeAll(a).Some? && MergeAll(b).Some? ==> MergeAll(a) == MergeAll(b)
  {
    forall s ensures s in a <==> s in b {
      assert s in multiset(a) <==> s in multiset(b);
    }
    if MergeAll(a).Some? && MergeAll(b).Some? {
      MergeAllIsHull(a, stream, get);
      MergeAllIsHull(b, stream, get);
      var m, m' := MergeAll(a).value, MergeAll(b).value;
      HullIsUnique(a, b, m.index, End(m), m'.index, End(m'));
    }
  }

  // ---------------------------------------------------------------------------------------------
  // Consuming a window

  // The debug assertions of `delete_up_to`.
  predicate DeletionAsserts(s: Segment, upTo: U32) {
    var toDelete := if upTo > s.index then upTo - s.index else 0;
    toDelete <= |s.nonces| && toDelete + s.index < U32_MAX
  }

  ghost function Deleted(s: Segment, upTo: U32): Segment {
    if upTo <= s.index then s
    else Segment(s.stream, if upTo <= End(s) then s.nonces[upTo - s.index..] else [], upTo)
  }

  /** `delete_up_to`: pops from the front and moves the index along, past the end if need be. */
  method DeleteUpTo(s: Segment, upTo: U32) returns (r: Segment, changed: bool)
    ensures r == Deleted(s, upTo)
    ensures changed <==> upTo > s.index
    ensures forall i: nat :: i >= upTo ==> GetNonce(r, i) == GetNonce(s, i)
    ensures forall i: nat :: i < upTo ==> GetNonce(r, i).None?  || upTo <= s.index
  {
    r, changed := s, false;
    var toDelete := if upTo > s.index then upTo - s.index else 0;
    var i := 0;
    while i < toDelete
      invariant 0 <= i <= toDelete
      invariant r.stream == s.stream && r.index == s.index + i
      invariant r.nonces == if i <= |s.nonces| then s.nonces[i..] else []
      invariant changed <==> i > 0
    {
      r := Segment(r.stream, if r.nonces == [] then [] else r.nonces[1..], r.index + 1);
      changed := true;
      i := i + 1;
    }
    DeletedNonces(s, upTo);
  }

  lemma DeletedNonces(s: Segment, upTo: U32)
    ensures forall i: nat :: i >= upTo ==> GetNonce(Deleted(s, upTo), i) == GetNonce(s, i)
    ensures forall i: nat :: i < upTo ==> GetNonce(Deleted(s, upTo), i).None? || upTo <= s.index
  {
  }

  /** Within the window, consuming keeps a window of the same stream. */
  lemma DeletedIsWindow(s: Segment, upTo: U32, get: nat -> Nonce)
    requires IsWindow(s, get) && upTo <= End(s)
    ensures IsWindow(Deleted(s, upTo), get) && End(Deleted(s, upTo)) == End(s)
    ensures Deleted(s, upTo).index == Max(s.index, upTo)
  {
    var d := Deleted(s, upTo);
    forall k | 0 <= k < |d.nonces| ensures d.nonces[k] == get(d.index + k) {
      if upTo > s.index {
        assert d.nonces[k] == s.nonces[k + (upTo - s.index)];
      }
    }
  }
}
