/** Vocabulary shared by every component: optional values and the 32-bit counters of the firmware. */
module Common {

  datatype Option<+T> = None | Some(value: T)

  const U32_MAX: nat := 0xFFFF_FFFF

  type U32 = x: int | 0 <= x <= 0xFFFF_FFFF

  /** Addition as the release profile compiles it: overflow checks are off, so it wraps. */
  function WrappingInc(x: U32): (r: U32)
    ensures x < U32_MAX ==> r == x + 1
  {
    if x == U32_MAX then 0 else x + 1
  }

  function SaturatingAdd(x: U32, y: nat): (r: U32)
    ensures x <= r
    ensures r < U32_MAX ==> r == x + y
  {
    if x + y > U32_MAX then U32_MAX else x + y
  }

  function Max(x: int, y: int): (r: int)
    ensures r >= x && r >= y && (r == x || r == y)
  {
    if x < y then y else x
  }

  function Min(x: int, y: int): (r: int)
    ensures r <= x && r <= y && (r == x || r == y)
  {
    if y < x then y else x
  }

  lemma {:induction false} HasLeast(s: set<nat>) returns (least: nat)
    requires s != {}
    ensures least in s && forall t :: t in s ==> least <= t
  {
    var x :| x in s;
    if forall t :: t in s ==> x <= t {
      least := x;
    } else {
      var rest := s - {x};
      assert forall t :: t in s ==> t == x || t in rest;
      least := HasLeast(rest);
    }
  }

  lemma {:induction false} HasGreatest(s: set<nat>) returns (greatest: nat)
    requires s != {}
    ensures greatest in s && forall t :: t in s ==> t <= greatest
  {
    var x :| x in s;
    if forall t :: t in s ==> t <= x {
      greatest := x;
    } else {
      var rest := s - {x};
      assert forall t :: t in s ==> t == x || t in rest;
      greatest := HasGreatest(rest);
    }
  }

  // The next key of an ordered iteration.
  method TakeLeast(keys: set<nat>) returns (least: nat, rest: set<nat>)
    requires keys != {}
    ensures least in keys && rest == keys - {least} && |rest| < |keys|
    ensures forall t :: t in rest ==> least < t
    ensures forall t :: t in keys ==> least <= t
  {
    ghost var x := HasLeast(keys);
    least :| least in keys && forall t :: t in keys ==> least <= t;
    rest := keys - {least};
  }
}
