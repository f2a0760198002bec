/**
 Finding the shares of one key among shares that may be duplicated, foreign or corrupted
 (frost_backup/src/recovery.rs).

 Interpolation, fingerprints and share images are the functions of a `Crypto` value.
 */
module Recovery {
  import opened Common
  import opened Enumerators

  type Point(==, !new)
  type SharedKey(!new)

  // A share index is an ordered scalar.
  datatype Image = Image(index: nat, point: Point)

  datatype Crypto = Crypto(
    fromImages: seq<Image> -> SharedKey,
    threshold: SharedKey -> nat,             // the length of the key's polynomial
    fingerprintBits: SharedKey -> Option<nat>,
    imageAt: (SharedKey, nat) -> Image)

  // ---------------------------------------------------------------------------------------------
  // What is searched for

  // One share image for each of some indices, in index order.
  ghost predicate Candidate(images: seq<Image>, combo: seq<Image>) {
    && combo != []
    && (forall i :: 0 <= i < |combo| ==> combo[i] in images)
    && (forall i, j :: 0 <= i < j < |combo| ==> combo[i].index < combo[j].index)
  }

  predicate AllowedSize(known: Option<nat>, size: nat) {
    match known
    case Some(threshold) => size == threshold
    case None => size >= 2
  }

  // The key of this combination has the known threshold and some fingerprint bits.
  predicate Passes(c: Crypto, known: Option<nat>, combo: seq<Image>) {
    var key := c.fromImages(combo);
    (known.Some? ==> c.threshold(key) == known.value) && c.fingerprintBits(key).Some?
  }

  function Bits(c: Crypto, combo: seq<Image>): nat
    requires c.fingerprintBits(c.fromImages(combo)).Some?
  {
    c.fingerprintBits(c.fromImages(combo)).value
  }

  ghost function AllCandidates(images: seq<Image>, known: Option<nat>): iset<seq<Image>> {
    iset combo | Candidate(images, combo) && AllowedSize(known, |combo|)
  }

  type Best = Option<(SharedKey, nat)>

  // `best` comes from a combination in `tried`.
  ghost predicate ComesFrom(c: Crypto, known: Option<nat>, best: Best, tried: iset<seq<Image>>) {
    best.Some? ==>
      exists combo :: combo in tried && Passes(c, known, combo) && best.value == (c.fromImages(combo), Bits(c, combo))
  }

  // No combination in `tried` does better.
  ghost predicate Beats(c: Crypto, known: Option<nat>, best: Best, tried: iset<seq<Image>>) {
    forall combo :: combo in tried && Passes(c, known, combo) ==> best.Some? && Bits(c, combo) <= best.value.1
  }

  // ---------------------------------------------------------------------------------------------
  // Grouping by index

  function OfIndex(images: seq<Image>, index: nat): (r: seq<Image>)
    ensures forall x :: x in r <==> x in images && x.index == index
  {
    if images == [] then []
    else
      var rest := OfIndex(images[..|images| - 1], index);
      if images[|images| - 1].index == index then rest + [images[|images| - 1]] else rest
  }

  function IndexSet(images: seq<Image>): set<nat> {
    set x | x in images :: x.index
  }

  lemma OfIndexIsGrouped(images: seq<Image>, index: nat)
    ensures OfIndex(images, index) == [] <==> index !in IndexSet(images)
  {
    var r := OfIndex(images, index);
    if r != [] {
      assert r[0] in r;
    }
    if index in IndexSet(images) {
      var x :| x in images && x.index == index;
      assert x in r;
    }
  }

  method GroupByIndex(images: seq<Image>) returns (byIndex: map<nat, seq<Image>>)
    ensures byIndex.Keys == IndexSet(images)
    ensures forall i :: i in byIndex ==> byIndex[i] == OfIndex(images, i)
  {
    byIndex := map[];
    for n := 0 to |images|
      invariant byIndex.Keys == IndexSet(images[..n])
      invariant forall i :: i in byIndex ==> byIndex[i] == OfIndex(images[..n], i)
    {
      var image := images[n];
      var prefix := images[..n];
      assert images[..n + 1][..n] == prefix && images[..n + 1] == prefix + [image];
      var before := if image.index in byIndex then byIndex[image.index] else [];
      OfIndexIsGrouped(prefix, image.index);
      byIndex := byIndex[image.index := before + [image]];
      assert IndexSet(images[..n + 1]) == IndexSet(prefix) + {image.index};
    }
    assert images[..|images|] == images;
  }

  ghost predicate Sorted(s: seq<nat>) {
    forall i, j :: 0 <= i < j < |s| ==> s[i] < s[j]
  }

  method SortedKeys(keys: set<nat>) returns (sorted: seq<nat>)
    ensures Sorted(sorted) && forall x :: x in sorted <==> x in keys
  {
    sorted := [];
    var rest := keys;
    while rest != {}
      invariant Sorted(sorted) && rest <= keys
      invariant forall x :: x in sorted <==> x in keys && x !in rest
      invariant forall x, y :: x in sorted && y in rest ==> x < y
      decreases |rest|
    {
      var least: nat;
      least, rest := TakeLeast(rest);
      assert forall i :: 0 <= i < |sorted| ==> sorted[i] in sorted;
      sorted := sorted + [least];
    }
  }

  // ---------------------------------------------------------------------------------------------
  // One choice of indices

  // Every way to take one image for each of these indices.
  ghost function Selections(images: seq<Image>, indices: seq<nat>): iset<seq<Image>> {
    iset combo: seq<Image> | |combo| == |indices| && forall k :: 0 <= k < |combo| ==> combo[k] in images && combo[k].index == indices[k]
  }

  function ListsFor(byIndex: map<nat, seq<Image>>, indices: seq<nat>): (r: seq<seq<Image>>)
    requires forall i :: i in indices ==> i in byIndex
    ensures |r| == |indices|
  {
    seq(|indices|, k requires 0 <= k < |indices| => byIndex[indices[k]])
  }

  ghost predicate Grouped(images: seq<Image>, byIndex: map<nat, seq<Image>>) {
    byIndex.Keys == IndexSet(images) && forall i :: i in byIndex ==> byIndex[i] == OfIndex(images, i)
  }

  function PositionOf<T(==)>(s: seq<T>, x: T): (i: nat)
    requires x in s
    ensures i < |s| && s[i] == x
  {
    if s[0] == x then 0 else 1 + PositionOf(s[1..], x)
  }

  lemma ChoicesAreSelections(images: seq<Image>, byIndex: map<nat, seq<Image>>, indices: seq<nat>, t: seq<nat>)
    requires Grouped(images, byIndex) && forall i :: i in indices ==> i in byIndex
    requires IsChoice(t, Sizes(ListsFor(byIndex, indices)))
    ensures Choose(ListsFor(byIndex, indices), t) in Selections(images, indices)
  {
    var lists := ListsFor(byIndex, indices);
    forall k | 0 <= k < |indices| ensures lists[k][t[k]] in images && lists[k][t[k]].index == indices[k] {
      assert lists[k][t[k]] in OfIndex(images, indices[k]);
    }
  }

  lemma SelectionsAreChoices(images: seq<Image>, byIndex: map<nat, seq<Image>>, indices: seq<nat>, combo: seq<Image>) returns (t: seq<nat>)
    requires Grouped(images, byIndex) && forall i :: i in indices ==> i in byIndex
    requires combo in Selections(images, indices)
    ensures t in Choices(Sizes(ListsFor(byIndex, indices))) && Choose(ListsFor(byIndex, indices), t) == combo
  {
    var lists := ListsFor(byIndex, indices);
    assert forall k :: 0 <= k < |combo| ==> combo[k] in lists[k];
    t := seq(|combo|, k requires 0 <= k < |combo| => PositionOf(lists[k], combo[k]));
    assert IsChoice(t, Sizes(lists));
  }

  // ---------------------------------------------------------------------------------------------
  // The search

  // One combination is tried.
  method Try(c: Crypto, known: Option<nat>, combo: seq<Image>, best: Best) returns (r: Best, improved: bool)
    ensures !improved ==> r == best
    ensures improved ==> Passes(c, known, combo) && r == Some((c.fromImages(combo), Bits(c, combo)))
    ensures improved ==> best.Some? ==> r.value.1 > best.value.1
    ensures Passes(c, known, combo) ==> r.Some? && Bits(c, combo) <= r.value.1
  {
    var sharedKey := c.fromImages(combo);
    if known.Some? && c.threshold(sharedKey) != known.value {
      return best, false;
    }
    var bitsMatched := c.fingerprintBits(sharedKey);
    if bitsMatched.None? {
      return best, false;
    }
    if best.None? || bitsMatched.value > best.value.1 {
      return Some((sharedKey, bitsMatched.value)), true;
    }
    return best, false;
  }

  lemma TriedOneMore(c: Crypto, known: Option<nat>, best: Best, r: Best, tried: iset<seq<Image>>, combo: seq<Image>)
    requires ComesFrom(c, known, best, tried) && Beats(c, known, best, tried)
    requires r == best || (Passes(c, known, combo) && r == Some((c.fromImages(combo), Bits(c, combo))) && (best.Some? ==> r.value.1 > best.value.1))
    requires Passes(c, known, combo) ==> r.Some? && Bits(c, combo) <= r.value.1
    ensures ComesFrom(c, known, r, tried + iset{combo}) && Beats(c, known, r, tried + iset{combo})
  {
    if r == best && best.Some? {
      var from :| from in tried && Passes(c, known, from) && best.value == (c.fromImages(from), Bits(c, from));
      assert from in tried + iset{combo};
    } else {
      assert combo in tried + iset{combo};
    }
  }

  lemma ListsAreNonEmpty(images: seq<Image>, byIndex: map<nat, seq<Image>>, indices: seq<nat>)
    requires Grouped(images, byIndex) && forall i :: i in indices ==> i in byIndex
    ensures forall i :: 0 <= i < |indices| ==> ListsFor(byIndex, indices)[i] != []
  {
    forall i | 0 <= i < |indices| ensures ListsFor(byIndex, indices)[i] != [] {
      assert indices[i] in byIndex;
      OfIndexIsGrouped(images, indices[i]);
    }
  }

  ghost predicate AllTried(lists: seq<seq<Image>>, given: seq<seq<nat>>, seen: iset<seq<Image>>) {
    forall t :: t in given ==> IsChoice(t, Sizes(lists)) && Choose(lists, t) in seen
  }

  lemma TriedNext(lists: seq<seq<Image>>, given: seq<seq<nat>>, t: seq<nat>, seen: iset<seq<Image>>)
    requires AllTried(lists, given, seen) && IsChoice(t, Sizes(lists))
    ensures AllTried(lists, given + [t], seen + iset{Choose(lists, t)})
  {
  }

  // Once every choice has been given out, every selection has been seen.
  lemma AllSelected(images: seq<Image>, byIndex: map<nat, seq<Image>>, indices: seq<nat>, given: seq<seq<nat>>, seen: iset<seq<Image>>)
    requires Grouped(images, byIndex) && forall i :: i in indices ==> i in byIndex
    requires Exhausts(given, Choices(Sizes(ListsFor(byIndex, indices))))
    requires AllTried(ListsFor(byIndex, indices), given, seen)
    ensures Selections(images, indices) <= seen
  {
    forall x | x in Selections(images, indices) ensures x in seen {
      var t := SelectionsAreChoices(images, byIndex, indices, x);
      assert t in given;
    }
  }

  // Where the loop over the selections is: `seen` has been tried, before it or by it.
  ghost predicate Searched(c: Crypto, known: Option<nat>, lists: seq<seq<Image>>, given: seq<seq<nat>>, best: Best,
                           tried: iset<seq<Image>>, seen: iset<seq<Image>>, all: iset<seq<Image>>) {
    && tried <= seen <= all && AllTried(lists, given, seen)
    && ComesFrom(c, known, best, seen) && Beats(c, known, best, seen)
  }

  // One more selection has been tried.
  lemma SearchedOneMore(c: Crypto, known: Option<nat>, lists: seq<seq<Image>>, given: seq<seq<nat>>, best: Best, r: Best,
                        tried: iset<seq<Image>>, seen: iset<seq<Image>>, all: iset<seq<Image>>, t: seq<nat>)
    requires Searched(c, known, lists, given, best, tried, seen, all) && IsChoice(t, Sizes(lists)) && Choose(lists, t) in all
    requires var combo := Choose(lists, t);
             && (r == best || (Passes(c, known, combo) && r == Some((c.fromImages(combo), Bits(c, combo))) && (best.Some? ==> r.value.1 > best.value.1)))
             && (Passes(c, known, combo) ==> r.Some? && Bits(c, combo) <= r.value.1)
    ensures Searched(c, known, lists, given + [t], r, tried, seen + iset{Choose(lists, t)}, all)
  {
    TriedOneMore(c, known, best, r, seen, Choose(lists, t));
    TriedNext(lists, given, t, seen);
  }

  // All selections for one combination of indices. `done` is the early exit.
  method TrySelections(c: Crypto, maxBits: nat, known: Option<nat>, ghost images: seq<Image>, byIndex: map<nat, seq<Image>>,
                       indices: seq<nat>, best: Best, ghost tried: iset<seq<Image>>)
    returns (r: Best, done: bool)
    requires Grouped(images, byIndex) && (forall i :: i in indices ==> i in byIndex) && indices != []
    requires ComesFrom(c, known, best, tried) && Beats(c, known, best, tried)
    ensures ComesFrom(c, known, r, tried + Selections(images, indices))
    ensures if done then r.Some? && r.value.1 >= maxBits else Beats(c, known, r, tried + Selections(images, indices))
  {
    var lists := ListsFor(byIndex, indices);
    ListsAreNonEmpty(images, byIndex, indices);
    var shares := new Product(lists);
    ghost var seen := tried;
    ghost var all := tried + Selections(images, indices);
    r, done := best, false;
    while true
      invariant shares.Valid() && !shares.ended && shares.lists == lists && fresh(shares) && fresh(shares.current)
      invariant Searched(c, known, lists, shares.given, r, tried, seen, all)
      decreases Remaining(shares.given, Sizes(lists))
    {
      ghost var before, prev := shares.given, r;
      var combo := shares.Next();
      if combo.None? {
        AllSelected(images, byIndex, indices, shares.given, seen);
        assert seen == all;
        return;
      }
      ghost var t := shares.given[|shares.given| - 1];
      ChoicesAreSelections(images, byIndex, indices, t);
      var improved: bool;
      r, improved := Try(c, known, combo.value, r);
      SearchedOneMore(c, known, lists, before, prev, r, tried, seen, all, t);
      seen := seen + iset{combo.value};
      RemainingShrinks(before, t, Choices(Sizes(lists)), Sizes(lists));
      if improved && r.value.1 >= maxBits {
        done := true;
        ComesFromMore(c, known, r, seen, all);
        return;
      }
    }
  }

  lemma ComesFromMore(c: Crypto, known: Option<nat>, best: Best, tried: iset<seq<Image>>, more: iset<seq<Image>>)
    requires ComesFrom(c, known, best, tried) && tried <= more
    ensures ComesFrom(c, known, best, more)
  {
  }

  // ---------------------------------------------------------------------------------------------
  // All choices of a size

  // Once every combination of indices has been given out, every choice of that size has been seen.
  lemma AllPicked(images: seq<Image>, indices: seq<nat>, size: nat, given: seq<seq<nat>>, seen: iset<seq<Image>>)
    requires AreIndices(images, indices) && (size == 0 || Exhausts(given, Combos(|indices|, size)))
    requires AllPicksTried(images, indices, size, given, seen)
    ensures OfSize(images, size) <= seen
  {
    forall x | x in OfSize(images, size) ensures x in seen {
      var t := CandidatesArePicks(images, indices, x);
      assert t in given;
    }
  }

  ghost function OfSize(images: seq<Image>, size: nat): iset<seq<Image>> {
    iset combo | Candidate(images, combo) && |combo| == size
  }

  ghost predicate AreIndices(images: seq<Image>, indices: seq<nat>) {
    Sorted(indices) && forall x :: x in indices <==> x in IndexSet(images)
  }

  lemma PicksAreCandidates(images: seq<Image>, indices: seq<nat>, t: seq<nat>, size: nat)
    requires AreIndices(images, indices) && size > 0 && IsCombo(t, |indices|, size)
    ensures Selections(images, Pick(indices, t)) <= OfSize(images, size)
  {
  }

  lemma CandidatesArePicks(images: seq<Image>, indices: seq<nat>, combo: seq<Image>) returns (t: seq<nat>)
    requires AreIndices(images, indices) && Candidate(images, combo)
    ensures t in Combos(|indices|, |combo|) && combo in Selections(images, Pick(indices, t))
  {
    assert forall k :: 0 <= k < |combo| ==> combo[k].index in indices;
    t := seq(|combo|, k requires 0 <= k < |combo| => PositionOf(indices, combo[k].index));
    forall i, j | 0 <= i < j < |t| ensures t[i] < t[j] {
      assert indices[t[i]] == combo[i].index < combo[j].index == indices[t[j]];
    }
  }

  // Where the loop over the combinations of indices is.
  ghost predicate SearchedSize(c: Crypto, known: Option<nat>, images: seq<Image>, indices: seq<nat>, size: nat, given: seq<seq<nat>>, best: Best,
                               tried: iset<seq<Image>>, seen: iset<seq<Image>>, all: iset<seq<Image>>) {
    && tried <= seen <= all && AllPicksTried(images, indices, size, given, seen)
    && ComesFrom(c, known, best, seen) && Beats(c, known, best, seen)
  }

  ghost predicate AllPicksTried(images: seq<Image>, indices: seq<nat>, size: nat, given: seq<seq<nat>>, seen: iset<seq<Image>>) {
    forall t :: t in given ==> IsCombo(t, |indices|, size) && Selections(images, Pick(indices, t)) <= seen
  }

  lemma PickTried(images: seq<Image>, indices: seq<nat>, size: nat, given: seq<seq<nat>>, seen: iset<seq<Image>>, t: seq<nat>)
    requires AllPicksTried(images, indices, size, given, seen) && IsCombo(t, |indices|, size)
    ensures AllPicksTried(images, indices, size, given + [t], seen + Selections(images, Pick(indices, t)))
  {
  }

  method TrySize(c: Crypto, maxBits: nat, known: Option<nat>, ghost images: seq<Image>, byIndex: map<nat, seq<Image>>,
                 indices: seq<nat>, size: nat, best: Best, ghost tried: iset<seq<Image>>)
    returns (r: Best, done: bool)
    requires Grouped(images, byIndex) && AreIndices(images, indices)
    requires ComesFrom(c, known, best, tried) && Beats(c, known, best, tried)
    ensures ComesFrom(c, known, r, tried + OfSize(images, size))
    ensures if done then r.Some? && r.value.1 >= maxBits else Beats(c, known, r, tried + OfSize(images, size))
  {
    var combos := new Combinations(indices, size);
    ghost var seen := tried;
    ghost var all := tried + OfSize(images, size);
    r, done := best, false;
    while true
      invariant combos.Valid() && combos.elements == indices && combos.k == size && fresh(combos) && fresh(combos.indices)
      invariant SearchedSize(c, known, images, indices, size, combos.given, r, tried, seen, all)
      decreases Remaining(combos.given, seq(size, _ => |indices|))
    {
      ghost var before := combos.given;
      var indexCombo := combos.Next();
      if indexCombo.None? {
        AllPicked(images, indices, size, combos.given, seen);
        assert seen == all;
        return;
      }
      ghost var t := combos.given[|combos.given| - 1];
      PicksAreCandidates(images, indices, t, size);
      r, done := TrySelections(c, maxBits, known, images, byIndex, indexCombo.value, r, seen);
      PickTried(images, indices, size, before, seen, t);
      seen := seen + Selections(images, Pick(indices, t));
      if done {
        ComesFromMore(c, known, r, seen, all);
        return;
      }
      RemainingShrinks(before, t, Combos(|indices|, size), seq(size, _ => |indices|));
    }
  }

  // ---------------------------------------------------------------------------------------------

  // What `find_valid_subset` must return.
  ghost predicate IsAnswer(c: Crypto, maxBits: nat, images: seq<Image>, known: Option<nat>, r: Option<(set<Image>, SharedKey)>) {
    match r
    case None => forall combo :: combo in AllCandidates(images, known) ==> !Passes(c, known, combo)
    case Some((compatible, key)) =>
      && compatible == (set image | image in images && c.imageAt(key, image.index) == image)
      && exists combo ::
           && combo in AllCandidates(images, known) && Passes(c, known, combo) && key == c.fromImages(combo)
           && (Bits(c, combo) >= maxBits
               || forall other :: other in AllCandidates(images, known) && Passes(c, known, other) ==> Bits(c, other) <= Bits(c, combo))
  }

  lemma {:induction false} IncreasingIsShort(s: seq<nat>, keys: set<nat>)
    requires Sorted(s) && forall x :: x in s ==> x in keys
    ensures |s| <= |keys|
  {
    if s != [] {
      var init, last := s[..|s| - 1], s[|s| - 1];
      assert s == init + [last];
      IncreasingIsShort(init, keys - {last});
    }
  }

  lemma {:induction false} FewIndices(images: seq<Image>)
    ensures |IndexSet(images)| <= |images|
  {
    if images != [] {
      var init, last := images[..|images| - 1], images[|images| - 1];
      assert images == init + [last];
      FewIndices(init);
      assert IndexSet(images) == IndexSet(init) + {last.index};
    }
  }

  lemma CandidatesAreSmall(images: seq<Image>, combo: seq<Image>)
    requires Candidate(images, combo)
    ensures |combo| <= |IndexSet(images)| <= |images|
  {
    var s := seq(|combo|, k requires 0 <= k < |combo| => combo[k].index);
    IncreasingIsShort(s, IndexSet(images));
    FewIndices(images);
  }

  lemma TooFew(images: seq<Image>, known: Option<nat>)
    requires |images| < if known.Some? then known.value else 2
    ensures forall combo :: combo !in AllCandidates(images, known)
  {
    forall combo ensures combo !in AllCandidates(images, known) {
      if Candidate(images, combo) {
        CandidatesAreSmall(images, combo);
      }
    }
  }

  /** `find_valid_subset`. `maxBits` is the most bits the fingerprint can match. */
  method FindValidSubset(c: Crypto, maxBits: nat, images: seq<Image>, known: Option<nat>) returns (r: Option<(set<Image>, SharedKey)>)
    ensures IsAnswer(c, maxBits, images, known, r)
  {
    var minSharesNeeded := if known.Some? then known.value else 2;
    if |images| < minSharesNeeded {
      TooFew(images, known);
      return None;
    }
    var byIndex := GroupByIndex(images);
    var indices := SortedKeys(byIndex.Keys);
    var nIndices := |indices|;
    var sizes := if known.Some? then [known.value] else seq(Max(nIndices - 1, 0), i => i + 2);
    var best: Best := None;
    var done := false;
    ghost var tried: iset<seq<Image>> := iset{};
    var i := 0;
    while i < |sizes| && !done
      invariant 0 <= i <= |sizes|
      invariant tried == TriedSizes(images, sizes[..i])
      invariant ComesFrom(c, known, best, tried)
      invariant if done then best.Some? && best.value.1 >= maxBits else Beats(c, known, best, tried)
      decreases |sizes| - i, !done
    {
      ghost var next := TriedSizes(images, sizes[..i + 1]);
      assert next == tried + OfSize(images, sizes[i]) by {
        assert sizes[..i + 1] == sizes[..i] + [sizes[i]];
      }
      best, done := TrySize(c, maxBits, known, images, byIndex, indices, sizes[i], best, tried);
      tried := next;
      i := i + 1;
    }
    SizesCover(images, known, indices, sizes, sizes[..i], done);
    if best.None? {
      return None;
    }
    var key := best.value.0;
    var compatible := set image | image in images && c.imageAt(key, image.index) == image;
    return Some((compatible, key));
  }

  // The candidates of these sizes.
  ghost function TriedSizes(images: seq<Image>, sizes: seq<nat>): iset<seq<Image>> {
    iset combo | Candidate(images, combo) && |combo| in sizes
  }

  lemma SizesCover(images: seq<Image>, known: Option<nat>, indices: seq<nat>, sizes: seq<nat>, tried: seq<nat>, done: bool)
    requires AreIndices(images, indices) && tried <= sizes && (!done ==> tried == sizes)
    requires sizes == if known.Some? then [known.value] else seq(Max(|indices| - 1, 0), i => i + 2)
    ensures TriedSizes(images, tried) <= AllCandidates(images, known)
    ensures !done ==> AllCandidates(images, known) <= TriedSizes(images, tried)
  {
    forall combo | combo in AllCandidates(images, known) ensures |combo| in sizes {
      CandidatesAreSmall(images, combo);
      SortedLength(images, indices);
      if known.None? {
        assert sizes[|combo| - 2] == |combo|;
      }
    }
  }

  lemma SortedLength(images: seq<Image>, indices: seq<nat>)
    requires AreIndices(images, indices)
    ensures |indices| == |IndexSet(images)|
  {
    IncreasingIsShort(indices, IndexSet(images));
    AsLong(indices, IndexSet(images));
  }

  lemma {:induction false} AsLong(s: seq<nat>, keys: set<nat>)
    requires forall x :: x in keys ==> x in s
    ensures |keys| <= |s|
  {
    if s != [] {
      var init, last := s[..|s| - 1], s[|s| - 1];
      assert s == init + [last];
      AsLong(init, keys - {last});
    }
  }
}
