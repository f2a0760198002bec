/**
 A whole request to open nonce streams (frostsnap_core/src/device.rs): the streams that slots already hold
 are served first, then the new ones, and no more than there are slots.
 */
module NonceMessages {
  import opened Common
  import opened AbWrite
  import opened NonceStream
  import opened DeviceNonces
  import opened NonceSlots
  import opened NonceRuns
  import opened NonceSlotOrder

  // Where the coordinator stands on a stream, the seed that would be drawn for it, and how many flash steps the
  // supply lasts while it is opened.
  datatype Ask = Ask(opening: Opening, index: U32, remaining: U32, power: nat)

  function StateOf(a: Ask): CoordState {
    CoordState(a.opening.stream, a.index, a.remaining)
  }

  function OpeningsOf(asks: seq<Ask>): (r: seq<Opening>)
    ensures |r| == |asks|
  {
    seq(|asks|, k requires 0 <= k < |asks| => asks[k].opening)
  }

  // The asks whose stream a slot holds, or the others, in the order of the message.
  function Part(flash: Flash, asks: seq<Ask>, known: bool): seq<Ask> {
    if asks == [] then []
    else
      var last := asks[|asks| - 1];
      Part(flash, asks[..|asks| - 1], known) + if Find(flash, last.opening.stream).Some? == known then [last] else []
  }

  /** The order in which a message is served, and how much of it. */
  function Served(flash: Flash, asks: seq<Ask>): (r: seq<Ask>)
    ensures |r| <= |flash|
  {
    var all := Part(flash, asks, true) + Part(flash, asks, false);
    if |all| <= |flash| then all else all[..|flash|]
  }

  // ---------------------------------------------------------------------------------------------
  // Serving

  // The jobs to run, or the device stopped: the supply failed, a slot was worn out, or a job is out of range.
  datatype Answer = Answered(device: Device, jobs: seq<JobState>) | Halted(flash: Flash)

  function ReconcileAt(flash: Flash, slot: nat, state: CoordState, batch: nat): JobResult {
    if slot < |flash| && Read(flash[slot]).Some? then Reconcile(Read(flash[slot]).value, state, batch) else NoJob
  }

  ghost function ServeAsk(c: Crypto, batch: nat, d: Device, a: Ask): Answer {
    var (p, out) := DeviceStep(c, batch, d, Open(a.opening.stream, a.opening.seed, a.power));
    if Stops(out) then Halted(p.flash)
    else
      match ReconcileAt(p.flash, out.open.slot, StateOf(a), batch)
      case JobPanics => Halted(p.flash)
      case NoJob => Answered(p, [])
      case Job(j) => Answered(p, [j])
  }

  ghost function Serve(c: Crypto, batch: nat, d: Device, asks: seq<Ask>): Answer {
    if asks == [] then Answered(d, [])
    else
      match Serve(c, batch, d, asks[..|asks| - 1])
      case Halted(flash) => Halted(flash)
      case Answered(p, jobs) =>
        match ServeAsk(c, batch, p, asks[|asks| - 1])
        case Halted(flash) => Halted(flash)
        case Answered(q, more) => Answered(q, jobs + more)
  }

  lemma ServeSteps(c: Crypto, batch: nat, d: Device, asks: seq<Ask>, k: nat)
    requires k < |asks|
    ensures Serve(c, batch, d, asks[..k + 1]) ==
            match Serve(c, batch, d, asks[..k])
            case Halted(flash) => Halted(flash)
            case Answered(p, jobs) =>
              match ServeAsk(c, batch, p, asks[k])
              case Halted(flash) => Halted(flash)
              case Answered(q, more) => Answered(q, jobs + more)
  {
    assert asks[..k + 1][..k] == asks[..k];
  }

  lemma {:induction false} HaltedStays(c: Crypto, batch: nat, d: Device, asks: seq<Ask>, k: nat)
    requires k <= |asks| && Serve(c, batch, d, asks[..k]).Halted?
    ensures Serve(c, batch, d, asks) == Serve(c, batch, d, asks[..k])
    decreases |asks| - k
  {
    if k == |asks| {
      assert asks[..k] == asks;
    } else {
      ServeSteps(c, batch, d, asks, k);
      HaltedStays(c, batch, d, asks, k + 1);
    }
  }

  method Partition(slots: AbSlots, asks: seq<Ask>, known: bool) returns (part: seq<Ask>)
    requires slots.Valid()
    ensures part == Part(slots.Contents(), asks, known)
  {
    part := [];
    for k := 0 to |asks|
      invariant part == Part(slots.Contents(), asks[..k], known)
    {
      assert asks[..k + 1][..k] == asks[..k];
      var slot := slots.Get(asks[k].opening.stream);
      if slot.Some? == known {
        part := part + [asks[k]];
      }
    }
    assert asks[..|asks|] == asks;
  }

  // One stream: `get_or_create`, then `reconcile_coord_nonce_stream_state`. `JobPanics` stands for every way to stop.
  method OpenStream(ghost c: Crypto, batch: nat, slots: AbSlots, a: Ask) returns (task: JobResult)
    requires slots.Valid()
    modifies slots, slots.slots
    ensures slots.Valid()
    ensures match ServeAsk(c, batch, old(Device(slots.Contents(), slots.lastUsed)), a)
            case Halted(flash) => task.JobPanics? && slots.Contents() == flash
            case Answered(p, jobs) =>
              && !task.JobPanics? && Device(slots.Contents(), slots.lastUsed) == p
              && jobs == (if task.Job? then [task.state] else [])
  {
    ghost var flash := slots.Contents();
    var out, ch := slots.GetOrCreate(a.opening.stream, a.opening.seed, a.power);
    ChoiceIsUnique(flash, a.opening.stream, ch, ChoiceFor(flash, a.opening.stream));
    if !out.Opened? {
      return JobPanics;
    }
    if out.slot >= |slots.slots| {
      return NoJob;
    }
    var value := slots.slots[out.slot].ReadValue();
    return if value.Some? then Reconcile(value.value, StateOf(a), batch) else NoJob;
  }

  /** Serving a message is opening its streams and reconciling each at once, known ones first. */
  method OpenNonceStreams(ghost c: Crypto, batch: nat, slots: AbSlots, asks: seq<Ask>) returns (jobs: Option<seq<JobState>>)
    requires slots.Valid()
    modifies slots, slots.slots
    ensures slots.Valid()
    ensures var d := old(Device(slots.Contents(), slots.lastUsed));
            match Serve(c, batch, d, Served(d.flash, asks))
            case Halted(flash) => jobs == None && slots.Contents() == flash
            case Answered(p, tasks) => jobs == Some(tasks) && Device(slots.Contents(), slots.lastUsed) == p
  {
    var existing := Partition(slots, asks, true);
    var new_ := Partition(slots, asks, false);
    var ordered := existing + new_;
    var total := |slots.slots|;
    if |ordered| > total {
      ordered := ordered[..total];
    }
    jobs := OpenEach(c, batch, slots, ordered);
  }

  method OpenEach(ghost c: Crypto, batch: nat, slots: AbSlots, ordered: seq<Ask>) returns (jobs: Option<seq<JobState>>)
    requires slots.Valid()
    modifies slots, slots.slots
    ensures slots.Valid()
    ensures match Serve(c, batch, old(Device(slots.Contents(), slots.lastUsed)), ordered)
            case Halted(flash) => jobs == None && slots.Contents() == flash
            case Answered(p, tasks) => jobs == Some(tasks) && Device(slots.Contents(), slots.lastUsed) == p
  {
    ghost var d := Device(slots.Contents(), slots.lastUsed);
    var tasks: seq<JobState> := [];
    for k := 0 to |ordered|
      invariant slots.Valid()
      invariant Serve(c, batch, d, ordered[..k]) == Answered(Device(slots.Contents(), slots.lastUsed), tasks)
    {
      ServedOneMore(c, batch, d, ordered, k, Device(slots.Contents(), slots.lastUsed), tasks);
      var task := OpenStream(c, batch, slots, ordered[k]);
      if task.JobPanics? {
        return None;
      }
      if task.Job? {
        tasks := tasks + [task.state];
      } else {
        assert tasks + [] == tasks;
      }
    }
    assert ordered[..|ordered|] == ordered;
    return Some(tasks);
  }

  // What the k-th ask adds, or that it is the end.
  lemma ServedOneMore(c: Crypto, batch: nat, d: Device, asks: seq<Ask>, k: nat, p: Device, jobs: seq<JobState>)
    requires k < |asks| && Serve(c, batch, d, asks[..k]) == Answered(p, jobs)
    ensures match ServeAsk(c, batch, p, asks[k])
            case Halted(flash) => Serve(c, batch, d, asks) == Halted(flash)
            case Answered(q, more) => Serve(c, batch, d, asks[..k + 1]) == Answered(q, jobs + more)
  {
    ServeSteps(c, batch, d, asks, k);
    if ServeAsk(c, batch, p, asks[k]).Halted? {
      HaltedStays(c, batch, d, asks, k + 1);
    }
  }

  // ---------------------------------------------------------------------------------------------
  // What a served message has done

  // A write that is finished had power for all four steps.
  lemma OpenedWithPower(c: Crypto, batch: nat, d: Device, o: Opening, power: nat)
    ensures var step := DeviceStep(c, batch, d, Open(o.stream, o.seed, power));
            !Stops(step.1) || power >= 4 ==> step == DeviceStep(c, batch, d, Open(o.stream, o.seed, 4))
  {
  }

  /** A message that is answered has opened its streams one after the other. */
  lemma {:induction false} AnsweredIsRun(c: Crypto, batch: nat, d: Device, asks: seq<Ask>)
    requires Serve(c, batch, d, asks).Answered?
    ensures Serve(c, batch, d, asks).device == RunDevice(c, batch, d, Opens(OpeningsOf(asks)))
  {
    if asks != [] {
      var init, a := asks[..|asks| - 1], asks[|asks| - 1];
      AnsweredIsRun(c, batch, d, init);
      AskIsStep(c, batch, RunDevice(c, batch, d, Opens(OpeningsOf(init))), a);
      RunOneMore(c, batch, d, OpeningsOf(asks));
      assert OpeningsOf(asks)[..|asks| - 1] == OpeningsOf(init);
    }
  }

  lemma AskIsStep(c: Crypto, batch: nat, p: Device, a: Ask)
    requires ServeAsk(c, batch, p, a).Answered?
    ensures ServeAsk(c, batch, p, a).device == DeviceStep(c, batch, p, Open(a.opening.stream, a.opening.seed, 4)).0
  {
    OpenedWithPower(c, batch, p, a.opening, a.power);
  }

  // ---------------------------------------------------------------------------------------------
  // The order in which slots are given away

  // Slot `j` goes before slot `i`: empty slots by position, then taken ones by last use and position.
  ghost predicate Before(flash: Flash, j: nat, i: nat)
    requires i < |flash| && j < |flash|
  {
    if Read(flash[j]).None? then Read(flash[i]).Some? || j < i
    else
      && Read(flash[i]).Some?
      && var x, y := Read(flash[j]).value.lastUsed, Read(flash[i]).value.lastUsed;
         x < y || (x == y && j < i)
  }

  ghost function Ahead(flash: Flash, i: nat): set<nat>
    requires i < |flash|
  {
    set j: nat | j < |flash| && Before(flash, j, i)
  }

  ghost predicate InitialSegment(flash: Flash, over: set<nat>) {
    && (forall i :: i in over ==> i < |flash|)
    && forall i, j :: i in over && 0 <= j < |flash| && Before(flash, j, i) ==> j in over
  }

  // The slots in `over` were given to the streams in `opened_`, everything else is as it was.
  ghost predicate GivenAway(d: Device, p: Device, over: set<nat>, opened_: set<StreamId>, steps: nat) {
    && |p.flash| == |d.flash| && Orderly(p.flash) && InitialSegment(d.flash, over) && |over| == |opened_|
    && p.lastUsed == d.lastUsed + steps
    && Untouched(d, p, over) && AllOpened(d, p, over, opened_) && AllNew(d, p, opened_)
  }

  ghost predicate Untouched(d: Device, p: Device, over: set<nat>) {
    |p.flash| == |d.flash| && forall i :: 0 <= i < |d.flash| && i !in over ==> p.flash[i] == d.flash[i]
  }

  ghost predicate AllOpened(d: Device, p: Device, over: set<nat>, opened_: set<StreamId>) {
    forall i :: i in over ==> WasOpened(d, p, opened_, i)
  }

  ghost predicate AllNew(d: Device, p: Device, opened_: set<StreamId>) {
    forall s :: s in opened_ ==> Present(p.flash, s) && !Present(d.flash, s)
  }

  ghost predicate WasOpened(d: Device, p: Device, opened_: set<StreamId>, i: nat) {
    && i < |p.flash| && Read(p.flash[i]).Some?
    && Read(p.flash[i]).value.stream in opened_ && Read(p.flash[i]).value.lastUsed > d.lastUsed
  }

  lemma FoundChangesNothing(c: Crypto, batch: nat, p: Device, o: Opening)
    requires Orderly(p.flash) && Present(p.flash, o.stream) && p.lastUsed < U32_MAX
    ensures DeviceStep(c, batch, p, Open(o.stream, o.seed, 4)).0 == Device(p.flash, p.lastUsed + 1)
  {
    var i: nat :| Holds(p.flash, i, o.stream);
    assert OthersUpTo(p.flash, o.stream, i);
    ChoiceIsUnique(p.flash, o.stream, ChoiceFor(p.flash, o.stream), Existing(i));
  }

  lemma FreeSlot(over: set<nat>, n: nat) returns (i: nat)
    requires |over| < n
    ensures i < n && i !in over
  {
    if Below(n) <= over {
      SubsetSize(Below(n), over);
      assert false;
    }
    i :| i in Below(n) && i !in over;
  }

  // A new stream takes the first slot that has not been given away.
  lemma NextGiven(d: Device, p: Device, over: set<nat>, opened_: set<StreamId>, steps: nat, stream: StreamId) returns (k: nat)
    requires ClockAhead(d) && GivenAway(d, p, over, opened_, steps) && |over| < |d.flash| && !Present(p.flash, stream)
    ensures var ch := ChoiceFor(p.flash, stream);
            FreshRecordAt(ch) && ch.slot == k < |d.flash| && k !in over
    ensures forall j :: 0 <= j < |d.flash| && Before(d.flash, j, k) ==> j in over
  {
    var ch := ChoiceFor(p.flash, stream);
    assert !ch.Existing? by {
      assert ch.Existing? ==> Holds(p.flash, ch.slot, stream);
    }
    var spare := FreeSlot(over, |d.flash|);
    k := ch.slot;
    assert k in over ==> WasOpened(d, p, opened_, k);
    assert p.flash[spare] == d.flash[spare];
  }

  lemma OneMoreGiven(flash: Flash, over: set<nat>, k: nat)
    requires InitialSegment(flash, over) && k < |flash| && forall j :: 0 <= j < |flash| && Before(flash, j, k) ==> j in over
    ensures InitialSegment(flash, over + {k})
  {
  }

  // What opening a new stream writes.
  lemma NewIsWritten(c: Crypto, batch: nat, p: Device, o: Opening, k: nat)
    requires Orderly(p.flash) && p.lastUsed < U32_MAX && k < |p.flash| && !Exhausted(p.flash[k])
    requires var ch := ChoiceFor(p.flash, o.stream); FreshRecordAt(ch) && ch.slot == k
    ensures var q := DeviceStep(c, batch, p, Open(o.stream, o.seed, 4)).0;
            && q.lastUsed == p.lastUsed + 1 && |q.flash| == |p.flash| && Orderly(q.flash)
            && q.flash[k] == Interrupted(p.flash[k], InitialRecord(o.stream, p.lastUsed + 1, o.seed), 4)
            && Read(q.flash[k]) == Some(InitialRecord(o.stream, p.lastUsed + 1, o.seed))
            && forall i :: 0 <= i < |p.flash| && i != k ==> q.flash[i] == p.flash[i]
  {
    var r := InitialRecord(o.stream, p.lastUsed + 1, o.seed);
    InterruptedWrite(p.flash[k], r, 4);
    OpenKeepsOrder(p.flash, o.stream, r, 4);
  }

  lemma NewTakesNext(c: Crypto, batch: nat, d: Device, p: Device, over: set<nat>, opened_: set<StreamId>, steps: nat, o: Opening) returns (k: nat)
    requires Orderly(d.flash) && ClockAhead(d) && GivenAway(d, p, over, opened_, steps) && |over| < |d.flash|
    requires p.lastUsed < U32_MAX && forall i :: 0 <= i < |d.flash| ==> !Exhausted(d.flash[i])
    requires !Present(p.flash, o.stream) && !Present(d.flash, o.stream)
    ensures GivenAway(d, DeviceStep(c, batch, p, Open(o.stream, o.seed, 4)).0, over + {k}, opened_ + {o.stream}, steps + 1)
  {
    k := NextGiven(d, p, over, opened_, steps, o.stream);
    OneMoreGiven(d.flash, over, k);
    assert p.flash[k] == d.flash[k];
    NewIsWritten(c, batch, p, o, k);
    assert o.stream !in opened_;
    GivenOneMore(d, p, DeviceStep(c, batch, p, Open(o.stream, o.seed, 4)).0, over, opened_, steps, o.stream, k);
  }

  // Slot `k` changes to a record of `stream`, used after everything before.
  ghost predicate Replaces(p: Device, q: Device, stream: StreamId, k: nat) {
    && q.lastUsed == p.lastUsed + 1 && |q.flash| == |p.flash| && k < |q.flash|
    && Read(q.flash[k]).Some? && Read(q.flash[k]).value.stream == stream && Read(q.flash[k]).value.lastUsed > p.lastUsed
    && forall i :: 0 <= i < |p.flash| && i != k ==> q.flash[i] == p.flash[i]
  }

  lemma OpenedStayPresent(d: Device, p: Device, q: Device, over: set<nat>, opened_: set<StreamId>, stream: StreamId, k: nat, s: StreamId)
    requires Untouched(d, p, over) && AllNew(d, p, opened_) && k !in over && k < |d.flash| && Replaces(p, q, stream, k)
    requires s in opened_ + {stream}
    ensures Present(q.flash, s)
  {
    if s == stream {
      assert Holds(q.flash, k, s);
    } else {
      var i: nat :| Holds(p.flash, i, s);
      assert p.flash[k] == d.flash[k] && !Holds(d.flash, k, s);
      assert Holds(q.flash, i, s);
    }
  }

  lemma OpenedOneMore(d: Device, p: Device, q: Device, over: set<nat>, opened_: set<StreamId>, stream: StreamId, k: nat)
    requires AllOpened(d, p, over, opened_) && k !in over && Replaces(p, q, stream, k) && p.lastUsed >= d.lastUsed
    ensures AllOpened(d, q, over + {k}, opened_ + {stream})
  {
    forall i | i in over + {k} ensures WasOpened(d, q, opened_ + {stream}, i) {
      assert i in over ==> WasOpened(d, p, opened_, i);
    }
  }

  lemma GivenOneMore(d: Device, p: Device, q: Device, over: set<nat>, opened_: set<StreamId>, steps: nat, stream: StreamId, k: nat)
    requires GivenAway(d, p, over, opened_, steps) && k !in over && k < |d.flash| && InitialSegment(d.flash, over + {k})
    requires stream !in opened_ && !Present(d.flash, stream)
    requires Orderly(q.flash) && Replaces(p, q, stream, k)
    ensures GivenAway(d, q, over + {k}, opened_ + {stream}, steps + 1)
  {
    OpenedOneMore(d, p, q, over, opened_, stream, k);
    NewOneMore(d, p, q, over, opened_, stream, k);
    SizesGrow(over, k, opened_, stream);
  }

  lemma NewOneMore(d: Device, p: Device, q: Device, over: set<nat>, opened_: set<StreamId>, stream: StreamId, k: nat)
    requires Untouched(d, p, over) && AllNew(d, p, opened_) && k !in over && k < |d.flash| && Replaces(p, q, stream, k)
    requires !Present(d.flash, stream)
    ensures Untouched(d, q, over + {k}) && AllNew(d, q, opened_ + {stream})
  {
    forall s | s in opened_ + {stream} ensures Present(q.flash, s) {
      OpenedStayPresent(d, p, q, over, opened_, stream, k, s);
    }
  }

  lemma SizesGrow(over: set<nat>, k: nat, opened_: set<StreamId>, stream: StreamId)
    requires |over| == |opened_| && k !in over && stream !in opened_
    ensures |over + {k}| == |opened_ + {stream}|
  {
  }

  // ---------------------------------------------------------------------------------------------
  // The whole message

  // Streams of the openings that no slot holds.
  ghost function NewIn(flash: Flash, openings: seq<Opening>): set<StreamId> {
    set k | 0 <= k < |openings| && Find(flash, openings[k].stream).None? :: openings[k].stream
  }

  lemma FindIsPresent(flash: Flash, stream: StreamId)
    ensures Find(flash, stream).Some? <==> Present(flash, stream)
  {
    if Find(flash, stream).Some? {
      assert Holds(flash, Find(flash, stream).value, stream);
    }
  }

  // Streams that slots hold come first.
  ghost predicate KnownFirst(flash: Flash, openings: seq<Opening>) {
    forall i, j :: 0 <= i < j < |openings| && Find(flash, openings[j].stream).Some? ==> Find(flash, openings[i].stream).Some?
  }

  lemma {:induction false} PartIsPart(flash: Flash, asks: seq<Ask>, known: bool)
    ensures forall k :: 0 <= k < |Part(flash, asks, known)| ==> Find(flash, Part(flash, asks, known)[k].opening.stream).Some? == known
  {
    if asks != [] {
      PartIsPart(flash, asks[..|asks| - 1], known);
    }
  }

  lemma ServedKnownFirst(flash: Flash, asks: seq<Ask>)
    ensures KnownFirst(flash, OpeningsOf(Served(flash, asks)))
  {
    PartIsPart(flash, asks, true);
    PartIsPart(flash, asks, false);
  }

  lemma NewInGrows(flash: Flash, openings: seq<Opening>)
    requires openings != []
    ensures var init, o := openings[..|openings| - 1], openings[|openings| - 1];
            NewIn(flash, openings) == NewIn(flash, init) + if Find(flash, o.stream).None? then {o.stream} else {}
  {
  }

  lemma {:induction false} NewInBound(flash: Flash, openings: seq<Opening>)
    ensures |NewIn(flash, openings)| <= |openings|
  {
    if openings != [] {
      NewInGrows(flash, openings);
      NewInBound(flash, openings[..|openings| - 1]);
    } else {
      assert NewIn(flash, openings) == {};
    }
  }

  lemma GivenLater(d: Device, p: Device, q: Device, over: set<nat>, opened_: set<StreamId>, steps: nat)
    requires GivenAway(d, p, over, opened_, steps) && q.flash == p.flash && q.lastUsed == p.lastUsed + 1
    ensures GivenAway(d, q, over, opened_, steps + 1)
  {
  }

  lemma ServeOne(c: Crypto, batch: nat, d: Device, p: Device, q: Device, over: set<nat>, opened_: set<StreamId>, steps: nat, o: Opening)
    returns (grown: set<nat>)
    requires Orderly(d.flash) && ClockAhead(d) && GivenAway(d, p, over, opened_, steps) && |over| < |d.flash|
    requires p.lastUsed < U32_MAX && forall i :: 0 <= i < |d.flash| ==> !Exhausted(d.flash[i])
    requires Find(d.flash, o.stream).Some? ==> opened_ == {}
    requires q == DeviceStep(c, batch, p, Open(o.stream, o.seed, 4)).0
    ensures GivenAway(d, q, grown, opened_ + if Find(d.flash, o.stream).None? then {o.stream} else {}, steps + 1)
  {
    grown := over;
    FindIsPresent(d.flash, o.stream);
    if Find(d.flash, o.stream).Some? || o.stream in opened_ {
      if Find(d.flash, o.stream).Some? {
        UntouchedIsSame(d, p, over, steps);
      }
      FoundChangesNothing(c, batch, p, o);
      GivenLater(d, p, q, over, opened_, steps);
      assert opened_ + (if Find(d.flash, o.stream).None? then {o.stream} else {}) == opened_;
    } else {
      StillAbsent(d, p, over, opened_, steps, o.stream);
      var k := NewTakesNext(c, batch, d, p, over, opened_, steps, o);
      grown := over + {k};
    }
  }

  lemma {:induction false} ServingGivesAway(c: Crypto, batch: nat, d: Device, openings: seq<Opening>) returns (over: set<nat>)
    requires Orderly(d.flash) && ClockAhead(d) && d.lastUsed + |openings| <= U32_MAX
    requires forall i :: 0 <= i < |d.flash| ==> !Exhausted(d.flash[i])
    requires |openings| <= |d.flash| && KnownFirst(d.flash, openings)
    ensures GivenAway(d, RunDevice(c, batch, d, Opens(openings)), over, NewIn(d.flash, openings), |openings|)
  {
    if openings == [] {
      over := {};
      assert NewIn(d.flash, openings) == {};
    } else {
      var init, o := openings[..|openings| - 1], openings[|openings| - 1];
      over := ServingGivesAway(c, batch, d, init);
      RunOneMore(c, batch, d, openings);
      NewInGrows(d.flash, openings);
      NewInBound(d.flash, init);
      if Find(d.flash, o.stream).Some? {
        NothingNewBefore(d.flash, openings);
      }
      var p, q := RunDevice(c, batch, d, Opens(init)), RunDevice(c, batch, d, Opens(openings));
      over := ServeOne(c, batch, d, p, q, over, NewIn(d.flash, init), |init|, o);
    }
  }

  lemma NothingNewBefore(flash: Flash, openings: seq<Opening>)
    requires KnownFirst(flash, openings) && openings != [] && Find(flash, openings[|openings| - 1].stream).Some?
    ensures NewIn(flash, openings[..|openings| - 1]) == {}
  {
  }

  lemma UntouchedIsSame(d: Device, p: Device, over: set<nat>, steps: nat)
    requires GivenAway(d, p, over, {}, steps)
    ensures over == {} && p.flash == d.flash
  {
    assert |over| == 0;
  }

  lemma StillAbsent(d: Device, p: Device, over: set<nat>, opened_: set<StreamId>, steps: nat, stream: StreamId)
    requires GivenAway(d, p, over, opened_, steps) && !Present(d.flash, stream) && stream !in opened_
    ensures !Present(p.flash, stream)
  {
    forall i: nat ensures !Holds(p.flash, i, stream) {
      assert !Holds(d.flash, i, stream);
      if i in over {
        assert WasOpened(d, p, opened_, i);
      }
    }
  }

  // A slot is given away exactly if fewer slots go before it than are given away.
  lemma GivenByRank(flash: Flash, over: set<nat>, i: nat)
    requires InitialSegment(flash, over) && i < |flash|
    ensures i in over <==> |Ahead(flash, i)| < |over|
  {
    if i in over {
      SubsetSize(Ahead(flash, i), over - {i});
    } else {
      assert forall w :: w in over ==> Before(flash, w, i);
      SubsetSize(over, Ahead(flash, i));
    }
  }

  /** Serving a whole message: every new stream it serves ends up in a slot, and a stream that a slot held
      before, matched by the message or not, is still there if and only if at least as many slots go before
      its own as the message serves new streams. */
  lemma MessageSurvivors(c: Crypto, batch: nat, d: Device, asks: seq<Ask>, i: nat)
    requires Orderly(d.flash) && ClockAhead(d) && d.lastUsed + |d.flash| <= U32_MAX
    requires forall j :: 0 <= j < |d.flash| ==> !Exhausted(d.flash[j])
    requires i < |d.flash| && Read(d.flash[i]).Some? && Serve(c, batch, d, Served(d.flash, asks)).Answered?
    ensures var p := Serve(c, batch, d, Served(d.flash, asks)).device;
            var new_ := NewIn(d.flash, OpeningsOf(Served(d.flash, asks)));
            && (forall s :: s in new_ ==> Present(p.flash, s))
            && (Present(p.flash, Read(d.flash[i]).value.stream) <==> |Ahead(d.flash, i)| >= |new_|)
  {
    var served := OpeningsOf(Served(d.flash, asks));
    AnsweredIsRun(c, batch, d, Served(d.flash, asks));
    ServedKnownFirst(d.flash, asks);
    var over := ServingGivesAway(c, batch, d, served);
    SurvivorAt(d, RunDevice(c, batch, d, Opens(served)), over, NewIn(d.flash, served), |served|, i);
    GivenByRank(d.flash, over, i);
  }

  lemma SurvivorAt(d: Device, p: Device, over: set<nat>, opened_: set<StreamId>, steps: nat, i: nat)
    requires Orderly(d.flash) && GivenAway(d, p, over, opened_, steps) && i < |d.flash| && Read(d.flash[i]).Some?
    ensures Present(p.flash, Read(d.flash[i]).value.stream) <==> i !in over
  {
    var s := Read(d.flash[i]).value.stream;
    assert Holds(d.flash, i, s);
    if i in over {
      forall m: nat ensures !Holds(p.flash, m, s) {
        if m in over {
          assert WasOpened(d, p, opened_, m);
        } else if m < |d.flash| {
          assert p.flash[m] == d.flash[m];
        }
      }
    } else {
      assert Holds(p.flash, i, s);
    }
  }

  // ---------------------------------------------------------------------------------------------
  // When a message stops the device

  /** Reconciling panics exactly if a job would reach the last 32-bit index: a new batch from where the slot stands,
      or the way to an index of u32::MAX that the coordinator names. */
  lemma ReconcilePanics(r: Record, state: CoordState, batch: nat)
    ensures Reconcile(r, state, batch).JobPanics? <==>
              if r.index > state.index || state.remaining < batch then r.index + batch >= U32_MAX
              else r.index < state.index == U32_MAX
  {
  }

  // After the first `k` openings the device could open and reconcile the next stream, apart from its job.
  lemma OpensWell(c: Crypto, batch: nat, d: Device, openings: seq<Opening>, o: Opening) returns (i: nat)
    requires Orderly(d.flash) && ClockAhead(d) && d.lastUsed + |openings| < U32_MAX
    requires forall j :: 0 <= j < |d.flash| ==> !Exhausted(d.flash[j])
    requires |openings| < |d.flash| && KnownFirst(d.flash, openings + [o])
    ensures var (q, out) := DeviceStep(c, batch, RunDevice(c, batch, d, Opens(openings)), Open(o.stream, o.seed, 4));
            !Stops(out) && out == OpenOut(Opened(i)) && Holds(q.flash, i, o.stream) && Orderly(q.flash)
  {
    KnownFirstInit(d.flash, openings, o);
    var over := ServingGivesAway(c, batch, d, openings);
    NewInBound(d.flash, openings);
    var p := RunDevice(c, batch, d, Opens(openings));
    var ch := ChoiceFor(p.flash, o.stream);
    i := if ch.NoSlots? then 0 else ch.slot;
    FindIsPresent(p.flash, o.stream);
    if Present(p.flash, o.stream) {
      FoundChangesNothing(c, batch, p, o);
      PresentIsExisting(p.flash, o.stream);
    } else {
      var k := NextGiven(d, p, over, NewIn(d.flash, openings), |openings|, o.stream);
      assert p.flash[k] == d.flash[k];
      NewIsWritten(c, batch, p, o, k);
    }
  }

  lemma KnownFirstInit(flash: Flash, openings: seq<Opening>, o: Opening)
    requires KnownFirst(flash, openings + [o])
    ensures KnownFirst(flash, openings)
  {
    forall i, j | 0 <= i < j < |openings| && Find(flash, openings[j].stream).Some?
      ensures Find(flash, openings[i].stream).Some? {
      assert (openings + [o])[j] == openings[j] && (openings + [o])[i] == openings[i];
    }
  }

  lemma PresentIsExisting(flash: Flash, stream: StreamId)
    requires Orderly(flash) && Present(flash, stream)
    ensures ChoiceFor(flash, stream).Existing? && Holds(flash, ChoiceFor(flash, stream).slot, stream)
  {
    var i: nat :| Holds(flash, i, stream);
    assert OthersUpTo(flash, stream, i);
    ChoiceIsUnique(flash, stream, ChoiceFor(flash, stream), Existing(i));
  }

  // The k-th ask is about a job that cannot be made from the record that its stream has by then.
  ghost predicate Trips(c: Crypto, batch: nat, d: Device, asks: seq<Ask>, k: nat)
    requires k < |asks|
  {
    TripsOn(RunDevice(c, batch, d, Opens(OpeningsOf(asks[..k + 1]))).flash, asks[k], batch)
  }

  ghost predicate TripsOn(flash: Flash, a: Ask, batch: nat) {
    exists i :: 0 <= i < |flash| && Holds(flash, i, a.opening.stream) && Reconcile(Read(flash[i]).value, StateOf(a), batch).JobPanics?
  }

  lemma AskTrips(c: Crypto, batch: nat, p: Device, a: Ask, i: nat)
    requires a.power >= 4
    requires var (q, out) := DeviceStep(c, batch, p, Open(a.opening.stream, a.opening.seed, 4));
             !Stops(out) && out == OpenOut(Opened(i)) && Holds(q.flash, i, a.opening.stream) && Orderly(q.flash)
    ensures ServeAsk(c, batch, p, a).Halted?
       <==> TripsOn(DeviceStep(c, batch, p, Open(a.opening.stream, a.opening.seed, 4)).0.flash, a, batch)
  {
    OpenedWithPower(c, batch, p, a.opening, a.power);
    var q := DeviceStep(c, batch, p, Open(a.opening.stream, a.opening.seed, 4)).0;
    forall j | 0 <= j < |q.flash| && Holds(q.flash, j, a.opening.stream) ensures j == i {
    }
  }

  // A device on which openings succeed, and a message that fits it.
  ghost predicate CanServe(d: Device, asks: seq<Ask>) {
    && Orderly(d.flash) && ClockAhead(d) && d.lastUsed + |d.flash| <= U32_MAX && |asks| <= |d.flash|
    && (forall j :: 0 <= j < |d.flash| ==> !Exhausted(d.flash[j]))
    && (forall k :: 0 <= k < |asks| ==> asks[k].power >= 4)
    && KnownFirst(d.flash, OpeningsOf(asks))
  }

  lemma CanServeInit(d: Device, asks: seq<Ask>)
    requires CanServe(d, asks) && asks != []
    ensures var n := |asks| - 1;
            && CanServe(d, asks[..n]) && OpeningsOf(asks) == OpeningsOf(asks[..n]) + [asks[n].opening]
            && OpeningsOf(asks)[..n] == OpeningsOf(asks[..n])
  {
    var n := |asks| - 1;
    assert OpeningsOf(asks) == OpeningsOf(asks[..n]) + [asks[n].opening];
    KnownFirstInit(d.flash, OpeningsOf(asks[..n]), asks[n].opening);
  }

  ghost predicate AnyTrips(c: Crypto, batch: nat, d: Device, asks: seq<Ask>) {
    exists k :: 0 <= k < |asks| && Trips(c, batch, d, asks, k)
  }

  lemma AnyTripsGrows(c: Crypto, batch: nat, d: Device, asks: seq<Ask>)
    requires asks != []
    ensures var n := |asks| - 1;
            AnyTrips(c, batch, d, asks) <==> AnyTrips(c, batch, d, asks[..n]) || Trips(c, batch, d, asks, n)
  {
    var n := |asks| - 1;
    forall k | 0 <= k < n ensures Trips(c, batch, d, asks, k) <==> Trips(c, batch, d, asks[..n], k) {
      assert asks[..k + 1] == asks[..n][..k + 1];
    }
  }

  lemma {:induction false} ServeHaltsExactly(c: Crypto, batch: nat, d: Device, asks: seq<Ask>)
    requires CanServe(d, asks)
    ensures Serve(c, batch, d, asks).Halted? <==> AnyTrips(c, batch, d, asks)
  {
    if asks != [] {
      CanServeInit(d, asks);
      ServeHaltsExactly(c, batch, d, asks[..|asks| - 1]);
      AnyTripsGrows(c, batch, d, asks);
      if Serve(c, batch, d, asks[..|asks| - 1]).Answered? {
        LastHaltsExactly(c, batch, d, asks);
      }
    }
  }

  lemma LastHaltsExactly(c: Crypto, batch: nat, d: Device, asks: seq<Ask>)
    requires CanServe(d, asks) && asks != [] && Serve(c, batch, d, asks[..|asks| - 1]).Answered?
    ensures Serve(c, batch, d, asks).Halted? <==> Trips(c, batch, d, asks, |asks| - 1)
  {
    var n := |asks| - 1;
    var init, a := asks[..n], asks[n];
    CanServeInit(d, asks);
    AnsweredIsRun(c, batch, d, init);
    var i := OpensWell(c, batch, d, OpeningsOf(init), a.opening);
    AskTrips(c, batch, RunDevice(c, batch, d, Opens(OpeningsOf(init))), a, i);
    LastTrips(c, batch, d, asks);
  }

  lemma LastTrips(c: Crypto, batch: nat, d: Device, asks: seq<Ask>)
    requires asks != []
    ensures var n := |asks| - 1;
            var p := RunDevice(c, batch, d, Opens(OpeningsOf(asks[..n])));
            var q := DeviceStep(c, batch, p, Open(asks[n].opening.stream, asks[n].opening.seed, 4)).0;
            Trips(c, batch, d, asks, n) <==> TripsOn(q.flash, asks[n], batch)
  {
    var n := |asks| - 1;
    RunOneMore(c, batch, d, OpeningsOf(asks));
    assert OpeningsOf(asks)[..n] == OpeningsOf(asks[..n]);
    assert asks[..n + 1] == asks;
  }

  /** A whole message, with power: it stops the device exactly if it names a stream for which, by its turn, reconciling
      panics. No opening does. */
  lemma MessageHaltsExactly(c: Crypto, batch: nat, d: Device, asks: seq<Ask>)
    requires Orderly(d.flash) && ClockAhead(d) && d.lastUsed + |d.flash| <= U32_MAX
    requires forall j :: 0 <= j < |d.flash| ==> !Exhausted(d.flash[j])
    requires forall k :: 0 <= k < |asks| ==> asks[k].power >= 4
    ensures var served := Served(d.flash, asks);
            Serve(c, batch, d, served).Halted? <==> AnyTrips(c, batch, d, served)
  {
    ServedKnownFirst(d.flash, asks);
    ServedArePart(d.flash, asks);
    forall k | 0 <= k < |Served(d.flash, asks)| ensures Served(d.flash, asks)[k].power >= 4 {
      assert Served(d.flash, asks)[k] in asks;
    }
    ServeHaltsExactly(c, batch, d, Served(d.flash, asks));
  }

  lemma {:induction false} PartArePart(flash: Flash, asks: seq<Ask>, known: bool)
    ensures forall a :: a in Part(flash, asks, known) ==> a in asks
  {
    if asks != [] {
      PartArePart(flash, asks[..|asks| - 1], known);
    }
  }

  lemma ServedArePart(flash: Flash, asks: seq<Ask>)
    ensures forall a :: a in Served(flash, asks) ==> a in asks
  {
    PartArePart(flash, asks, true);
    PartArePart(flash, asks, false);
  }

  // ---------------------------------------------------------------------------------------------
  // An instance

  // Two slots that were written once each.
  ghost predicate TwoStreams(d: Device, a: SeedMaterial, b: SeedMaterial) {
    && |d.flash| == 2 && d.lastUsed == 2 && Orderly(d.flash)
    && Read(d.flash[0]) == Some(InitialRecord(10, 1, a)) && Read(d.flash[1]) == Some(InitialRecord(20, 2, b))
    && !Exhausted(d.flash[0]) && !Exhausted(d.flash[1])
  }

  lemma OpenFirst(c: Crypto, batch: nat, a: SeedMaterial)
    ensures var p := DeviceStep(c, batch, Device([[None, None], [None, None]], 0), Open(10, a, 4)).0;
            && |p.flash| == 2 && p.lastUsed == 1 && Orderly(p.flash) && Read(p.flash[0]) == Some(InitialRecord(10, 1, a))
            && p.flash[1] == [None, None] && !Exhausted(p.flash[0])
  {
    var blank := Device([[None, None], [None, None]], 0);
    assert Read(blank.flash[0]).None?;
    ChoiceIsUnique(blank.flash, 10, ChoiceFor(blank.flash, 10), Vacant(0));
    NewIsWritten(c, batch, blank, Opening(10, a), 0);
    InterruptedWrite(blank.flash[0], InitialRecord(10, 1, a), 4);
  }

  lemma OpenSecond(c: Crypto, batch: nat, p: Device, a: SeedMaterial, b: SeedMaterial)
    requires |p.flash| == 2 && p.lastUsed == 1 && Orderly(p.flash) && Read(p.flash[0]) == Some(InitialRecord(10, 1, a))
    requires p.flash[1] == [None, None] && !Exhausted(p.flash[0])
    ensures TwoStreams(DeviceStep(c, batch, p, Open(20, b, 4)).0, a, b)
  {
    assert Read(p.flash[1]).None?;
    ChoiceIsUnique(p.flash, 20, ChoiceFor(p.flash, 20), Vacant(1));
    NewIsWritten(c, batch, p, Opening(20, b), 1);
    InterruptedWrite(p.flash[1], InitialRecord(20, 2, b), 4);
  }

  lemma OpenTwo(c: Crypto, batch: nat, a: SeedMaterial, b: SeedMaterial)
    ensures TwoStreams(RunDevice(c, batch, Device([[None, None], [None, None]], 0), [Open(10, a, 4), Open(20, b, 4)]), a, b)
  {
    var blank := Device([[None, None], [None, None]], 0);
    var events := [Open(10, a, 4), Open(20, b, 4)];
    OpenFirst(c, batch, a);
    OpenSecond(c, batch, DeviceStep(c, batch, blank, Open(10, a, 4)).0, a, b);
    assert events[..1] == [Open(10, a, 4)] && events[..1][..0] == [];
    assert RunDevice(c, batch, blank, events[..1]) == DeviceStep(c, batch, blank, Open(10, a, 4)).0;
  }

  function AskFor(stream: StreamId, seed: SeedMaterial): Ask {
    Ask(Opening(stream, seed), 0, 0, 4)
  }

  lemma MatchedIsEvicted(c: Crypto, batch: nat, d: Device, a: SeedMaterial, b: SeedMaterial)
    requires TwoStreams(d, a, b) && batch < U32_MAX
    ensures var message := [AskFor(10, a), AskFor(30, b)];
            && Present(d.flash, 10) && Served(d.flash, message) == message
            && Serve(c, batch, d, message).Answered? && !Present(Serve(c, batch, d, message).device.flash, 10)
  {
    var message := [AskFor(10, a), AskFor(30, b)];
    assert Holds(d.flash, 0, 10);
    FindIsPresent(d.flash, 10);
    FindIsPresent(d.flash, 30);
    TwoParts(d.flash, message[0], message[1]);
    assert Ahead(d.flash, 0) == {};
    assert NewIn(d.flash, OpeningsOf(message)) == {30} by {
      assert OpeningsOf(message)[1].stream in NewIn(d.flash, OpeningsOf(message));
    }
    TwoAnswered(c, batch, d, a, b);
    MessageSurvivors(c, batch, d, message, 0);
  }

  lemma TwoAnswered(c: Crypto, batch: nat, d: Device, a: SeedMaterial, b: SeedMaterial)
    requires TwoStreams(d, a, b) && batch < U32_MAX && Served(d.flash, [AskFor(10, a), AskFor(30, b)]) == [AskFor(10, a), AskFor(30, b)]
    ensures Serve(c, batch, d, [AskFor(10, a), AskFor(30, b)]).Answered?
  {
    var message := [AskFor(10, a), AskFor(30, b)];
    ServedKnownFirst(d.flash, message);
    assert Holds(d.flash, 0, 10);
    var first, both := message[..1], message;
    assert first == [AskFor(10, a)] && first[..0] == [];
    assert OpeningsOf(both) == OpeningsOf(first) + [Opening(30, b)] && OpeningsOf(first) == [] + [Opening(10, a)];
    assert !Exhausted(d.flash[0]);
    var p := DeviceStep(c, batch, d, Open(10, a, 4)).0;
    FoundChangesNothing(c, batch, d, Opening(10, a));
    PresentIsExisting(d.flash, 10);
    assert Serve(c, batch, d, first[..0]) == Answered(d, []);
    assert Serve(c, batch, d, first).Answered?;
    AnsweredIsRun(c, batch, d, first);
    var i := OpensWell(c, batch, d, OpeningsOf(first), Opening(30, b));
  }

  lemma TwoParts(flash: Flash, known: Ask, new_: Ask)
    requires Find(flash, known.opening.stream).Some? && Find(flash, new_.opening.stream).None? && |flash| >= 2
    ensures Served(flash, [known, new_]) == [known, new_]
  {
    var message := [known, new_];
    assert message[..1] == [known] && message[..1][..0] == [];
    assert Part(flash, [known], true) == [known] && Part(flash, [known], false) == [];
    assert Part(flash, message, true) == [known] && Part(flash, message, false) == [new_];
  }

  /** From blank flash with two slots: streams 10 and 20 are opened, then one message asks for 10 and for a
      new stream. It finds 10, and evicts it for the new stream. */
  lemma MatchedStreamIsLostInARun(c: Crypto, batch: nat, a: SeedMaterial, b: SeedMaterial)
    requires batch < U32_MAX
    ensures var d := RunDevice(c, batch, Device([[None, None], [None, None]], 0), [Open(10, a, 4), Open(20, b, 4)]);
            var message := [AskFor(10, a), AskFor(30, b)];
            && Present(d.flash, 10) && Served(d.flash, message) == message
            && Serve(c, batch, d, message).Answered? && !Present(Serve(c, batch, d, message).device.flash, 10)
  {
    OpenTwo(c, batch, a, b);
    MatchedIsEvicted(c, batch, RunDevice(c, batch, Device([[None, None], [None, None]], 0), [Open(10, a, 4), Open(20, b, 4)]), a, b);
  }
}
