/**
 The two hand-written enumerators of frost_backup/src/recovery.rs: increasing tuples of positions, and
 one choice from each of several lists.
 */
module Enumerators {
  import opened Common

  // ---------------------------------------------------------------------------------------------
  // Lexicographic order

  ghost predicate LessAt(a: seq<nat>, b: seq<nat>, p: nat) {
    p < |a| && p < |b| && a[..p] == b[..p] && a[p] < b[p]
  }

  ghost predicate Less(a: seq<nat>, b: seq<nat>) {
    exists p: nat :: LessAt(a, b, p)
  }

  lemma LessIsTransitive(a: seq<nat>, b: seq<nat>, c: seq<nat>)
    requires Less(a, b) && Less(b, c)
    ensures Less(a, c)
  {
    var p: nat :| LessAt(a, b, p);
    var q: nat :| LessAt(b, c, q);
    var r := if p < q then p else q;
    assert a[..r] == a[..p][..r] && b[..r] == b[..p][..r] && b[..r] == b[..q][..r] && c[..r] == c[..q][..r];
    assert r < p ==> a[r] == b[..p][r];
    assert r < q ==> c[r] == b[..q][r];
    assert LessAt(a, c, r);
  }

  lemma LessIsIrreflexive(a: seq<nat>)
    ensures !Less(a, a)
  {
  }

  // Where two tuples first differ.
  lemma {:induction false} FirstDifference(a: seq<nat>, b: seq<nat>) returns (p: nat)
    requires |a| == |b| && a != b
    ensures p < |a| && a[..p] == b[..p] && a[p] != b[p]
  {
    if a[0] != b[0] {
      p := 0;
    } else {
      assert a == [a[0]] + a[1..] && b == [b[0]] + b[1..];
      var q := FirstDifference(a[1..], b[1..]);
      p := q + 1;
      assert a[..p] == [a[0]] + a[1..][..q] && b[..p] == [b[0]] + b[1..][..q];
    }
  }

  // ---------------------------------------------------------------------------------------------
  // What an enumerator has given out

  // Strictly increasing, so without repetition; and nothing that belongs before the last is missing.
  ghost predicate InOrder(given: seq<seq<nat>>, wanted: iset<seq<nat>>) {
    && (forall i :: 0 <= i < |given| ==> given[i] in wanted)
    && (forall i, j :: 0 <= i < j < |given| ==> Less(given[i], given[j]))
    && (given != [] ==> forall t :: t in wanted ==> t in given || Less(given[|given| - 1], t))
  }

  // Everything has been given out.
  ghost predicate Exhausts(given: seq<seq<nat>>, wanted: iset<seq<nat>>) {
    forall t :: t in wanted <==> t in given
  }

  // `next` is wanted, comes after `last`, and nothing wanted lies between them.
  ghost predicate IsNext(last: seq<nat>, next: seq<nat>, wanted: iset<seq<nat>>) {
    && next in wanted && Less(last, next)
    && forall t :: t in wanted && Less(last, t) ==> t == next || Less(next, t)
  }

  lemma GiveNext(given: seq<seq<nat>>, next: seq<nat>, wanted: iset<seq<nat>>)
    requires InOrder(given, wanted) && given != [] && IsNext(given[|given| - 1], next, wanted)
    ensures InOrder(given + [next], wanted)
  {
    var more := given + [next];
    var last := given[|given| - 1];
    forall i, j | 0 <= i < j < |more| ensures Less(more[i], more[j]) {
      if j == |given| && i < |given| - 1 {
        LessIsTransitive(given[i], last, next);
      }
    }
    forall t | t in wanted ensures t in more || Less(next, t) {
      assert t in given || Less(last, t);
      assert forall x :: x in given ==> x in more;
      assert next in more;
    }
  }

  lemma GiveFirst(first: seq<nat>, wanted: iset<seq<nat>>)
    requires first in wanted && forall t :: t in wanted ==> t == first || Less(first, t)
    ensures InOrder([first], wanted)
  {
  }

  lemma NothingLeft(given: seq<seq<nat>>, wanted: iset<seq<nat>>)
    requires InOrder(given, wanted) && given != []
    requires forall t :: t in wanted ==> !Less(given[|given| - 1], t)
    ensures Exhausts(given, wanted)
  {
  }

  lemma NothingWanted(given: seq<seq<nat>>, wanted: iset<seq<nat>>)
    requires InOrder(given, wanted) && forall t :: t !in wanted
    ensures Exhausts(given, wanted)
  {
    assert forall i :: 0 <= i < |given| ==> given[i] in wanted;
  }

  /** Given out in order until nothing is left: everything wanted, each exactly once. */
  lemma EachExactlyOnce(given: seq<seq<nat>>, wanted: iset<seq<nat>>)
    requires InOrder(given, wanted) && Exhausts(given, wanted)
    ensures forall t :: t in wanted <==> exists i :: 0 <= i < |given| && given[i] == t
    ensures forall i, j :: 0 <= i < |given| && 0 <= j < |given| && given[i] == given[j] ==> i == j
  {
    forall i, j | 0 <= i < j < |given| ensures given[i] != given[j] {
      assert Less(given[i], given[j]);
      LessIsIrreflexive(given[i]);
    }
  }

  // ---------------------------------------------------------------------------------------------
  // Increasing tuples

  ghost predicate IsCombo(t: seq<nat>, n: nat, k: nat) {
    && |t| == k
    && (forall i :: 0 <= i < k ==> t[i] < n)
    && (forall i, j :: 0 <= i < j < k ==> t[i] < t[j])
  }

  ghost function Combos(n: nat, k: nat): iset<seq<nat>> {
    iset t | IsCombo(t, n, k)
  }

  lemma {:induction false} ComboBounds(t: seq<nat>, n: nat, k: nat, i: nat, j: nat)
    requires IsCombo(t, n, k) && i <= j < k
    ensures t[i] + (j - i) <= t[j] && t[j] + (k - j) <= n && i <= t[i]
  {
    var a := j;
    while a > i
      invariant i <= a <= j && t[a] + (j - a) <= t[j]
    {
      assert t[a - 1] < t[a];
      a := a - 1;
    }
    var b := j;
    while b + 1 < k
      invariant j <= b < k && t[j] + (b - j) <= t[b]
      decreases k - b
    {
      assert t[b] < t[b + 1];
      b := b + 1;
    }
    var c := i;
    while c > 0
      invariant 0 <= c <= i && t[c] + (i - c) <= t[i]
    {
      assert t[c - 1] < t[c];
      c := c - 1;
    }
  }

  // `c` has its positions after `i` as far right as they go; `next` moves position `i` on by one and
  // packs the rest behind it.
  ghost predicate Advances(c: seq<nat>, next: seq<nat>, n: nat, k: nat, i: nat) {
    && IsCombo(c, n, k) && |next| == k && i < k
    && (forall j :: i < j < k ==> c[j] == j + n - k)
    && c[i] != i + n - k
    && next[..i] == c[..i]
    && (forall j :: i <= j < k ==> next[j] == c[i] + 1 + (j - i))
  }

  lemma AdvanceIsNext(c: seq<nat>, next: seq<nat>, n: nat, k: nat, i: nat)
    requires Advances(c, next, n, k, i)
    ensures IsNext(c, next, Combos(n, k))
  {
    ComboBounds(c, n, k, i, i);
    assert forall j :: 0 <= j < i ==> next[j] == next[..i][j] && c[j] == c[..i][j];
    assert IsCombo(next, n, k);
    assert LessAt(c, next, i);
    forall t | t in Combos(n, k) && Less(c, t) ensures t == next || Less(next, t) {
      var p: nat :| LessAt(c, t, p);
      ComboBounds(t, n, k, p, p);
      if t != next {
        var q := FirstDifference(next, t);
        assert q < i ==> next[q] == c[..i][q];
        assert p < i ==> next[p] == c[..i][p];
        if q >= i {
          ComboBounds(t, n, k, i, q);
        }
        assert LessAt(next, t, q);
      }
    }
  }

  lemma LastCombo(c: seq<nat>, n: nat, k: nat, t: seq<nat>)
    requires IsCombo(c, n, k) && IsCombo(t, n, k) && forall j :: 0 <= j < k ==> c[j] == j + n - k
    ensures !Less(c, t)
  {
    forall p: nat ensures !LessAt(c, t, p) {
      if p < k {
        ComboBounds(t, n, k, p, p);
      }
    }
  }

  lemma FirstCombo(c: seq<nat>, n: nat, k: nat)
    requires k <= n && |c| == k && forall j :: 0 <= j < k ==> c[j] == j
    ensures c in Combos(n, k)
    ensures forall t :: t in Combos(n, k) ==> t == c || Less(c, t)
  {
    forall t | t in Combos(n, k) && t != c ensures Less(c, t) {
      var p := FirstDifference(c, t);
      ComboBounds(t, n, k, p, p);
      assert LessAt(c, t, p);
    }
  }

  function Pick<T>(elements: seq<T>, t: seq<nat>): (r: seq<T>)
    requires forall i :: 0 <= i < |t| ==> t[i] < |elements|
    ensures |r| == |t|
  {
    seq(|t|, i requires 0 <= i < |t| => elements[t[i]])
  }

  /** `generate_combinations`: the closure and the state it captures. */
  class Combinations<T> {
    const elements: seq<T>
    const k: nat
    const indices: array<nat>
    var first: bool
    ghost var given: seq<seq<nat>>

    ghost predicate Valid()
      reads this, indices
    {
      && indices.Length == k
      && InOrder(given, Combos(|elements|, k))
      && (first <==> given == [])
      && (first ==> forall j :: 0 <= j < k ==> indices[j] == j)
      && (!first ==> indices[..] == given[|given| - 1])
    }

    constructor (elements: seq<T>, k: nat)
      ensures Valid() && given == [] && this.elements == elements && this.k == k && fresh(indices)
    {
      this.elements, this.k := elements, k;
      first, given := true, [];
      indices := new nat[k](i => i);
    }

    method Next() returns (combination: Option<seq<T>>)
      requires Valid()
      modifies this, indices
      ensures Valid()
      ensures combination.None? ==> given == old(given) && (k == 0 || Exhausts(given, Combos(|elements|, k)))
      ensures combination.Some? ==>
                && k > 0 && given != [] && given == old(given) + [given[|given| - 1]] && given[|given| - 1] in Combos(|elements|, k)
                && combination.value == Pick(elements, given[|given| - 1])
    {
      var n := |elements|;
      if k > n || k == 0 {
        if k > n {
          NoCombos(n, k);
          NothingWanted(given, Combos(n, k));
        }
        return None;
      }
      if first {
        first := false;
        FirstCombo(indices[..], n, k);
        GiveFirst(indices[..], Combos(n, k));
        given := [indices[..]];
        assert forall i :: 0 <= i < k ==> indices[..][i] < n;
        return Some(Pick(elements, indices[..]));
      }
      ghost var c := indices[..];
      assert c in Combos(n, k);
      var i := Rightmost(n);
      if i == k {
        forall t | t in Combos(n, k) ensures !Less(c, t) {
          LastCombo(c, n, k, t);
        }
        NothingLeft(given, Combos(n, k));
        return None;
      }
      Advance(i);
      AdvanceIsNext(c, indices[..], n, k, i);
      GiveNext(given, indices[..], Combos(n, k));
      given := given + [indices[..]];
      assert indices[..] in Combos(n, k);
      return Some(Pick(elements, indices[..]));
    }

    // The rightmost position that can be incremented, or k.
    method Rightmost(n: nat) returns (i: nat)
      requires indices.Length == k <= n
      ensures i <= k && (i < k ==> indices[i] != i + n - k)
      ensures forall j :: (if i < k then i + 1 else 0) <= j < k ==> indices[j] == j + n - k
    {
      i := k;
      var j := k;
      while j > 0
        invariant 0 <= j <= k && i == k
        invariant forall l :: j <= l < k ==> indices[l] == l + n - k
      {
        j := j - 1;
        if indices[j] != j + n - k {
          i := j;
          break;
        }
      }
    }

    method Advance(i: nat)
      requires indices.Length == k && i < k
      modifies indices
      ensures indices[..i] == old(indices[..i])
      ensures forall j :: i <= j < k ==> indices[j] == old(indices[i]) + 1 + (j - i)
    {
      indices[i] := indices[i] + 1;
      for j := i + 1 to k
        invariant indices[..i] == old(indices[..i])
        invariant forall l :: i <= l < j ==> indices[l] == old(indices[i]) + 1 + (l - i)
      {
        indices[j] := indices[j - 1] + 1;
      }
    }
  }

  lemma NoCombos(n: nat, k: nat)
    requires k > n
    ensures forall t :: t !in Combos(n, k)
  {
    forall t ensures t !in Combos(n, k) {
      if IsCombo(t, n, k) {
        ComboBounds(t, n, k, 0, 0);
      }
    }
  }

  // ---------------------------------------------------------------------------------------------
  // One position in each of several lists

  ghost predicate IsChoice(t: seq<nat>, sizes: seq<nat>) {
    |t| == |sizes| && forall i :: 0 <= i < |t| ==> t[i] < sizes[i]
  }

  ghost function Choices(sizes: seq<nat>): iset<seq<nat>> {
    iset t | IsChoice(t, sizes)
  }

  // Counting: position `p` goes up by one, and everything after it wraps to zero.
  ghost predicate Counts(c: seq<nat>, next: seq<nat>, sizes: seq<nat>, p: nat) {
    && IsChoice(c, sizes) && |next| == |c| && p < |c|
    && (forall j :: p < j < |c| ==> c[j] == sizes[j] - 1)
    && next[..p] == c[..p] && next[p] == c[p] + 1 < sizes[p]
    && (forall j :: p < j < |c| ==> next[j] == 0)
  }

  lemma CountIsNext(c: seq<nat>, next: seq<nat>, sizes: seq<nat>, p: nat)
    requires Counts(c, next, sizes, p)
    ensures IsNext(c, next, Choices(sizes))
  {
    assert forall j :: 0 <= j < p ==> next[j] == next[..p][j] && c[j] == c[..p][j];
    assert IsChoice(next, sizes);
    assert LessAt(c, next, p);
    forall t | t in Choices(sizes) && Less(c, t) ensures t == next || Less(next, t) {
      var q: nat :| LessAt(c, t, q);
      if t != next {
        var r := FirstDifference(next, t);
        assert r < p ==> next[r] == c[..p][r];
        assert q < p ==> next[q] == c[..p][q];
        assert LessAt(next, t, r);
      }
    }
  }

  lemma LastChoice(c: seq<nat>, sizes: seq<nat>, t: seq<nat>)
    requires IsChoice(c, sizes) && IsChoice(t, sizes) && forall j :: 0 <= j < |c| ==> c[j] == sizes[j] - 1
    ensures !Less(c, t)
  {
  }

  lemma FirstChoice(c: seq<nat>, sizes: seq<nat>)
    requires |c| == |sizes| && forall j :: 0 <= j < |c| ==> c[j] == 0 < sizes[j]
    ensures c in Choices(sizes)
    ensures forall t :: t in Choices(sizes) ==> t == c || Less(c, t)
  {
    forall t | t in Choices(sizes) && t != c ensures Less(c, t) {
      var p := FirstDifference(c, t);
      assert LessAt(c, t, p);
    }
  }

  function Sizes<T>(lists: seq<seq<T>>): seq<nat> {
    seq(|lists|, i requires 0 <= i < |lists| => |lists[i]|)
  }

  function Choose<T>(lists: seq<seq<T>>, t: seq<nat>): (r: seq<T>)
    requires |t| == |lists| && forall i :: 0 <= i < |t| ==> t[i] < |lists[i]|
    ensures |r| == |t|
  {
    seq(|t|, i requires 0 <= i < |t| => lists[i][t[i]])
  }

  lemma PrefixesAgree(a: seq<nat>, b: seq<nat>, p: nat)
    requires p < |a| && p < |b| && a[..p + 1] == b[..p + 1]
    ensures a[..p] == b[..p]
  {
    assert a[..p] == a[..p + 1][..p];
    assert b[..p] == b[..p + 1][..p];
  }

  /** `generate_share_combinations`: the closure and the state it captures. Its first `None` comes when
      every choice has been given out. After that it starts over behind the first choice. */
  class Product<T> {
    const lists: seq<seq<T>>
    const current: array<nat>
    var first: bool
    ghost var given: seq<seq<nat>>
    ghost var ended: bool

    ghost predicate Valid()
      reads this, current
    {
      && current.Length == |lists|
      && (forall i :: 0 <= i < |lists| ==> lists[i] != [])
      && InOrder(given, Choices(Sizes(lists)))
      && (first <==> given == [])
      && (ended ==> !first && lists != [])
      && (first ==> forall j :: 0 <= j < |lists| ==> current[j] == 0)
      && (!first && !ended ==> current[..] == given[|given| - 1])
      && (!first && ended ==> forall j :: 0 <= j < |lists| ==> current[j] == 0)
    }

    // What counts as given out before the next call: a pass after the first starts behind the first choice.
    ghost function SoFar(): seq<seq<nat>>
      reads this
    {
      if ended then [seq(|lists|, _ => 0)] else given
    }

    constructor (lists: seq<seq<T>>)
      requires forall i :: 0 <= i < |lists| ==> lists[i] != []
      ensures Valid() && given == [] && !ended && this.lists == lists && fresh(current)
    {
      this.lists := lists;
      first, given, ended := true, [], false;
      current := new nat[|lists|](i => 0);
    }

    method Next() returns (combination: Option<seq<T>>)
      requires Valid()
      modifies this, current
      ensures Valid()
      ensures combination.None? ==> given == old(SoFar()) && (lists == [] || (ended && Exhausts(given, Choices(Sizes(lists)))))
      ensures combination.Some? ==>
                && !ended && given != [] && given == old(SoFar()) + [given[|given| - 1]]
                && given[|given| - 1] in Choices(Sizes(lists))
                && combination.value == Choose(lists, given[|given| - 1])
    {
      if |lists| == 0 {
        return None;
      }
      if first {
        first := false;
        FirstChoice(current[..], Sizes(lists));
        GiveFirst(current[..], Choices(Sizes(lists)));
        given := [current[..]];
        return Some(Choose(lists, current[..]));
      }
      if ended {
        Restart();
      }
      combination := Count();
    }

    ghost method Restart()
      requires Valid() && ended && |lists| > 0
      modifies this`given, this`ended
      ensures Valid() && !ended && given == old(SoFar())
    {
      assert current[..] == seq(|lists|, _ => 0);
      FirstChoice(current[..], Sizes(lists));
      GiveFirst(current[..], Choices(Sizes(lists)));
      given, ended := SoFar(), false;
    }

    // A call that is not the first.
    method Count() returns (combination: Option<seq<T>>)
      requires Valid() && !first && !ended && |lists| > 0
      modifies this`given, this`ended, current
      ensures Valid()
      ensures combination.None? ==> given == old(given) && ended && Exhausts(given, Choices(Sizes(lists)))
      ensures combination.Some? ==>
                && !ended && given != [] && given == old(given) + [given[|given| - 1]]
                && given[|given| - 1] in Choices(Sizes(lists))
                && combination.value == Choose(lists, given[|given| - 1])
    {
      ghost var wanted := Choices(Sizes(lists));
      ghost var c := current[..];
      assert c in wanted;
      var more := Increment();
      if !more {
        forall t | t in wanted ensures !Less(c, t) {
          LastChoice(c, Sizes(lists), t);
        }
        NothingLeft(given, wanted);
        ended := true;
        return None;
      }
      GiveNext(given, current[..], wanted);
      given := given + [current[..]];
      return Some(Choose(lists, current[..]));
    }

    // Counting in mixed base. `more` is false when everything has wrapped to zero.
    method Increment() returns (more: bool)
      requires current.Length == |lists| > 0 && IsChoice(current[..], Sizes(lists))
      modifies current
      ensures more ==> IsNext(old(current[..]), current[..], Choices(Sizes(lists))) && IsChoice(current[..], Sizes(lists))
      ensures !more ==> forall j :: 0 <= j < |lists| ==> old(current[j]) == Sizes(lists)[j] - 1 && current[j] == 0
    {
      ghost var c := current[..];
      var position := |lists| - 1;
      while true
        invariant 0 <= position < |lists|
        invariant current[..position + 1] == c[..position + 1]
        invariant forall j :: position < j < |lists| ==> c[j] == Sizes(lists)[j] - 1 && current[j] == 0
        decreases position
      {
        assert current[position] == current[..position + 1][position] == c[..position + 1][position];
        PrefixesAgree(current[..], c, position);
        current[position] := current[position] + 1;
        if current[position] < |lists[position]| {
          CountIsNext(c, current[..], Sizes(lists), position);
          return true;
        }
        current[position] := 0;
        if position == 0 {
          return false;
        }
        position := position - 1;
      }
    }
  }

  // ---------------------------------------------------------------------------------------------
  // What is left to give out, which bounds the number of calls

  ghost function AllChoices(sizes: seq<nat>): (r: set<seq<nat>>)
    ensures forall t :: t in r <==> IsChoice(t, sizes)
  {
    if sizes == [] then {[]}
    else
      var init, last := sizes[..|sizes| - 1], sizes[|sizes| - 1];
      var r := set t, x: nat | t in AllChoices(init) && 0 <= x < last :: t + [x];
      assert forall t :: IsChoice(t, sizes) ==> t in r by {
        forall t | IsChoice(t, sizes) ensures t in r {
          assert t == t[..|t| - 1] + [t[|t| - 1]] && IsChoice(t[..|t| - 1], init);
        }
      }
      r
  }

  ghost function Remaining(given: seq<seq<nat>>, sizes: seq<nat>): set<seq<nat>> {
    AllChoices(sizes) - set t | t in given
  }

  lemma RemainingShrinks(given: seq<seq<nat>>, next: seq<nat>, wanted: iset<seq<nat>>, sizes: seq<nat>)
    requires InOrder(given + [next], wanted) && IsChoice(next, sizes)
    ensures Remaining(given + [next], sizes) < Remaining(given, sizes)
  {
    var more := given + [next];
    if next in given {
      var i :| 0 <= i < |given| && given[i] == next;
      assert Less(more[i], more[|given|]);
      LessIsIrreflexive(next);
    }
    assert next in Remaining(given, sizes) && next in more;
    assert forall t :: t in given ==> t in more;
  }
}
