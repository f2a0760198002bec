/**
 Two-copy flash records (frostsnap_embedded/src/ab_write.rs).

 A record lives in two copies. A write erases and programs the older copy, then erases and programs
 the other one. The supply can fail between any two of those four steps; `steps` below counts the
 steps that were completed before it did.
 */
module AbWrite {
  import opened Common

  datatype SlotValue<T> = SlotValue(index: nat, value: T)

  // One copy. An erased copy reads as index u32::MAX, which the code treats as "nothing here".
  type Cell<T> = Option<SlotValue<T>>

  type Cells<T> = s: seq<Cell<T>> | |s| == 2 witness [None, None]

  // Every programmed copy has an index the reader does not mistake for an erased sector.
  ghost predicate ValidCells<T>(c: Cells<T>) {
    forall j :: 0 <= j < 2 && c[j].Some? ==> c[j].value.index < U32_MAX
  }

  function ReadIndex<T>(cell: Cell<T>): Option<nat> {
    match cell
    case None => None
    case Some(v) => if v.index == U32_MAX then None else Some(v.index)
  }

  // `Option` ranks `None` below every `Some`.
  predicate Newer(x: Option<nat>, y: Option<nat>) {
    x.Some? && (y.None? || x.value > y.value)
  }

  function CurrentSlotAndIndex<T>(c: Cells<T>): Option<(nat, nat)> {
    var a := ReadIndex(c[0]);
    var b := ReadIndex(c[1]);
    if Newer(b, a) then Some((1, b.value))
    else if a.Some? then Some((0, a.value))
    else None
  }

  function CurrentSlot<T>(c: Cells<T>): (s: nat)
    ensures s < 2
  {
    match CurrentSlotAndIndex(c)
    case None => 0
    case Some(p) => p.0
  }

  function ReadSlot<T>(cell: Cell<T>): Option<T> {
    if ReadIndex(cell).Some? then Some(cell.value.value) else None
  }

  function Read<T>(c: Cells<T>): Option<T> {
    ReadSlot(c[CurrentSlot(c)])
  }

  // Where the next write goes first, and the index it carries.
  function NextSlotAndIndex<T>(c: Cells<T>): (r: (nat, nat))
    ensures r.0 < 2
  {
    match CurrentSlotAndIndex(c)
    case Some(p) => ((p.0 + 1) % 2, p.1 + 1)
    case None => (0, 0)
  }

  // "slot has been written too many times"
  predicate Exhausted<T>(c: Cells<T>) {
    NextSlotAndIndex(c).1 == U32_MAX
  }

  // The copies after the first `steps` of the four flash steps of writing `value`.
  function Interrupted<T>(c: Cells<T>, value: T, steps: nat): Cells<T> {
    var (next, index) := NextSlotAndIndex(c);
    var other := (next + 1) % 2;
    var programmed := Some(SlotValue(index, value));
    if Exhausted(c) || steps == 0 then c
    else if steps == 1 then c[next := None]
    else if steps == 2 then c[next := programmed]
    else if steps == 3 then c[next := programmed][other := None]
    else [programmed, programmed]
  }

  // The write took effect: the copy that `Read` prefers has been programmed.
  predicate Commits<T>(c: Cells<T>, steps: nat) {
    !Exhausted(c) && steps >= 2
  }

  datatype WriteOutcome = Written | PowerLost | WornOut

  function OutcomeOf<T>(c: Cells<T>, steps: nat): WriteOutcome {
    if Exhausted(c) then WornOut else if steps >= 4 then Written else PowerLost
  }

  /** `AbSlot`: the two copies as the flash holds them. */
  class AbSlot<T> {
    var cells: Cells<T>

    constructor (initial: Cells<T>)
      ensures cells == initial
    {
      cells := initial;
    }

    // `Slot::write`: erase, then program, with `power` steps left in the supply.
    method WriteSlot(slot: nat, value: SlotValue<T>, power: nat) returns (left: nat)
      requires slot < 2
      modifies this
      ensures cells == old(cells)[slot := if power == 0 then old(cells)[slot] else if power == 1 then None else Some(value)]
      ensures left == if power <= 2 then 0 else power - 2
    {
      if power == 0 {
        return 0;
      }
      cells := cells[slot := None];
      if power == 1 {
        return 0;
      }
      cells := cells[slot := Some(value)];
      left := power - 2;
    }

    method Write(value: T, power: nat) returns (outcome: WriteOutcome)
      modifies this
      ensures cells == Interrupted(old(cells), value, power)
      ensures outcome == OutcomeOf(old(cells), power)
    {
      var (nextSlot, nextIndex) := NextSlotAndIndex(cells);
      if nextIndex == U32_MAX {
        return WornOut;
      }
      var slotValue := SlotValue(nextIndex, value);
      var otherSlot := (nextSlot + 1) % 2;
      var left := WriteSlot(nextSlot, slotValue, power);
      if power <= 2 {
        // Nothing is left for the second copy, so the device is off.
        return PowerLost;
      }
      left := WriteSlot(otherSlot, slotValue, left);
      outcome := if power >= 4 then Written else PowerLost;
    }

    method ReadValue() returns (value: Option<T>)
      ensures value == Read(cells)
    {
      var slot := CurrentSlot(cells);
      value := ReadSlot(cells[slot]);
    }
  }

  // The highest index on flash plus one, or zero when both copies are erased: an independent account
  // of "newest" that does not go through `CurrentSlotAndIndex`.
  function NextIndex<T>(c: Cells<T>): nat {
    Max(if c[0].Some? then c[0].value.index + 1 else 0,
        if c[1].Some? then c[1].value.index + 1 else 0)
  }

  lemma NextIndexIsChosen<T>(c: Cells<T>)
    requires ValidCells(c)
    ensures NextSlotAndIndex(c).1 == NextIndex(c)
    ensures Read(c).None? <==> NextIndex(c) == 0
    ensures Read(c).Some? ==> exists j :: 0 <= j < 2 && c[j] == Some(SlotValue(NextIndex(c) - 1, Read(c).value))
  {
    if Read(c).Some? {
      assert c[CurrentSlot(c)] == Some(SlotValue(NextIndex(c) - 1, Read(c).value));
    }
  }

  /** Whatever step the supply fails at, the record reads as the old value or as the new one; it is
      the new one exactly when the first copy was programmed; and the newest index goes up by one
      exactly then, and never down. */
  lemma InterruptedWrite<T>(c: Cells<T>, value: T, steps: nat)
    requires ValidCells(c)
    ensures var d := Interrupted(c, value, steps);
            && ValidCells(d)
            && Read(d) == (if Commits(c, steps) then Some(value) else Read(c))
            && NextIndex(d) == NextIndex(c) + (if Commits(c, steps) then 1 else 0)
  {
    NextIndexIsChosen(c);
  }

  /** What is left on flash after an attempt was, or is now, the current record: an interrupted write
      never brings back a value that was already superseded. */
  lemma InterruptedCells<T>(c: Cells<T>, value: T, steps: nat, j: nat)
    requires j < 2
    ensures var d := Interrupted(c, value, steps);
            && (d[j].Some? ==> d[j] == c[j] || (Commits(c, steps) && d[j].value.value == value))
            && (Commits(c, steps) && steps >= 4 ==> d[j].Some? && d[j].value.value == value)
            && (!Commits(c, steps) && d[j].Some? ==> d[j] == c[j])
  {
  }

  // One attempt at writing a record, and how many of its steps completed.
  datatype Attempt<T> = Attempt(value: T, steps: nat)

  function Run<T>(c: Cells<T>, attempts: seq<Attempt<T>>): Cells<T>
    decreases |attempts|
  {
    if attempts == [] then c
    else Run(Interrupted(c, attempts[0].value, attempts[0].steps), attempts[1..])
  }

  // The values whose first copy got programmed, in order, as many as there are indices left.
  function Committed<T>(attempts: seq<Attempt<T>>, room: nat): seq<T>
    decreases |attempts|
  {
    if attempts == [] || room == 0 then []
    else if attempts[0].steps >= 2 then [attempts[0].value] + Committed(attempts[1..], room - 1)
    else Committed(attempts[1..], room)
  }

  function LastOr<T>(s: seq<T>, default: Option<T>): Option<T> {
    if s == [] then default else Some(s[|s| - 1])
  }

  /** Over any run of writes cut short anywhere, the record reads as the last committed value and the
      newest index has counted the commits. */
  lemma {:induction false} RunReadsLastCommitted<T>(c: Cells<T>, attempts: seq<Attempt<T>>)
    requires ValidCells(c)
    ensures NextIndex(c) <= U32_MAX
    ensures var d := Run(c, attempts);
            var committed := Committed(attempts, U32_MAX - NextIndex(c));
            && ValidCells(d)
            && Read(d) == LastOr(committed, Read(c))
            && NextIndex(d) == NextIndex(c) + |committed|
    decreases |attempts|
  {
    if attempts == [] {
    } else {
      var a := attempts[0];
      var d := Interrupted(c, a.value, a.steps);
      NextIndexIsChosen(c);
      InterruptedWrite(c, a.value, a.steps);
      RunReadsLastCommitted(d, attempts[1..]);
      if NextIndex(c) == U32_MAX {
        assert Committed(attempts[1..], 0) == [];
      }
    }
  }

  // Relabelling the stored values does not change where a write puts them.
  function MapCell<T, U>(f: T -> U, cell: Cell<T>): Cell<U> {
    match cell
    case None => None
    case Some(v) => Some(SlotValue(v.index, f(v.value)))
  }

  function MapCells<T, U>(f: T -> U, c: Cells<T>): Cells<U> {
    [MapCell(f, c[0]), MapCell(f, c[1])]
  }

  lemma MapInterrupted<T, U>(f: T -> U, c: Cells<T>, value: T, steps: nat)
    ensures MapCells(f, Interrupted(c, value, steps)) == Interrupted(MapCells(f, c), f(value), steps)
    ensures Read(MapCells(f, c)) == (if Read(c).None? then None else Some(f(Read(c).value)))
    ensures Commits(MapCells(f, c), steps) == Commits(c, steps)
    ensures OutcomeOf(MapCells(f, c), steps) == OutcomeOf(c, steps)
  {
  }
}
