/**
 Devices and coordinator together.

 Each device runs on its own from blank flash; `life` is everything that ever happens to it. The coordinator
 runs on its own too, but the segments it receives were made by the jobs of the devices they come from, at
 any time of their lives: messages may be lost, repeated, reordered and delayed. Then what the coordinator
 holds of a stream are the public nonces of the secrets that the device signs with.
 */
module NonceProtocol {
  import opened Common
  import opened AbWrite
  import opened NonceStream
  import opened DeviceNonces
  import opened NonceSlots
  import opened NonceRuns
  import opened CoordNonces
  import Coordinator
  import CoordinatorRuns
  import CoordinatorSent
  import NonceMessages
  import NonceSlotOrder

  datatype Life = Life(start: Device, events: seq<Event>)

  // ---------------------------------------------------------------------------------------------
  // What a device sends

  // After its first `m` events the device starts a job for slot `i`, asked about `state`, and sends what it made.
  ghost predicate MadeAt(c: Crypto, batch: nat, life: Life, m: nat, i: nat, state: CoordState, segment: Segment) {
    && m <= |life.events|
    && var flash := RunDevice(c, batch, life.start, life.events[..m]).flash;
       && i < |flash| && Read(flash[i]).Some?
       && var job := Reconcile(Read(flash[i]).value, state, batch);
          job.Job? && segment == SegmentOf(Worked(c, job.state, Remaining(job.state)))
  }

  ghost predicate Made(c: Crypto, batch: nat, life: Life, segment: Segment) {
    exists m: nat, i: nat, state :: MadeAt(c, batch, life, m, i, state, segment)
  }

  // The stream is initialised once in the life of the device, with this seed.
  ghost predicate InitialisedOnce(c: Crypto, batch: nat, life: Life, stream: StreamId, seed: SeedMaterial) {
    var inits := InitsOf(c, batch, life.start, life.events);
    && (stream, seed) in inits
    && forall g, h :: 0 <= g < h < |inits| && inits[g].0 == stream ==> inits[h].0 != stream
  }

  ghost function PublicOf(c: Crypto, stream: StreamId, seed: SeedMaterial): nat -> Nonce {
    (i: nat) => c.public(SecretAt(c, stream, seed, i))
  }

  lemma {:induction false} InitsGrow(c: Crypto, batch: nat, d: Device, events: seq<Event>, m: nat)
    requires BlankFlash(d) && m <= |events|
    ensures InitsOf(c, batch, d, events[..m]) <= InitsOf(c, batch, d, events)
  {
    TrackedErases(d);
    InitsAreComplete(c, batch, d, events);
    InitsAreComplete(c, batch, d, events[..m]);
    HistoryGrows(c, batch, Tracked(d), events, m);
  }

  lemma SameSeed(c: Crypto, batch: nat, life: Life, stream: StreamId, seed: SeedMaterial, m: nat, gen: nat)
    requires BlankFlash(life.start) && m <= |life.events| && InitialisedOnce(c, batch, life, stream, seed)
    requires var inits := InitsOf(c, batch, life.start, life.events[..m]);
             gen < |inits| && inits[gen].0 == stream
    ensures InitsOf(c, batch, life.start, life.events[..m])[gen].1 == seed
  {
    InitsGrow(c, batch, life.start, life.events, m);
    var inits := InitsOf(c, batch, life.start, life.events);
    var g :| 0 <= g < |inits| && inits[g] == (stream, seed);
    assert inits[gen].0 == stream;
    assert g == gen;
  }

  lemma MadeAtIsWindow(c: Crypto, batch: nat, life: Life, m: nat, i: nat, state: CoordState, segment: Segment, seed: SeedMaterial)
    requires BlankFlash(life.start) && MadeAt(c, batch, life, m, i, state, segment)
    requires InitialisedOnce(c, batch, life, segment.stream, seed)
    ensures IsWindow(segment, PublicOf(c, segment.stream, seed))
  {
    var past := life.events[..m];
    var r: Record := Read(RunDevice(c, batch, life.start, past).flash[i]).value;
    var job := Reconcile(r, state, batch).state;
    var gen := JobsFollowTheirSeed(c, batch, life.start, past, i, state, Remaining(job));
    JobIsDone(c, r, state, batch, InitsOf(c, batch, life.start, past)[gen].1);
    SameSeed(c, batch, life, r.stream, seed, m, gen);
    FinishedIsWindow(c, Worked(c, job, Remaining(job)), seed);
  }

  /** What a device sends about a stream is a window of the public nonces of the stream's seed. */
  lemma MadeIsWindow(c: Crypto, batch: nat, life: Life, segment: Segment, seed: SeedMaterial)
    requires BlankFlash(life.start) && Made(c, batch, life, segment)
    requires InitialisedOnce(c, batch, life, segment.stream, seed)
    ensures IsWindow(segment, PublicOf(c, segment.stream, seed))
  {
    var m: nat, i: nat, state :| MadeAt(c, batch, life, m, i, state, segment);
    MadeAtIsWindow(c, batch, life, m, i, state, segment, seed);
  }

  // A job ends, on the stream of its record.
  lemma JobIsDone(c: Crypto, r: Record, state: CoordState, batch: nat, seed: SeedMaterial)
    requires DescendsFrom(c, r, seed) && Reconcile(r, state, batch).Job?
    ensures var job := Reconcile(r, state, batch).state;
            var done := Worked(c, job, Remaining(job));
            Finished(done) && done.stream == r.stream && done.skipTo == r.index && done.target == job.target
  {
    var length := if r.index > state.index || state.remaining < batch then batch else state.index - r.index;
    var job := Reconcile(r, state, batch).state;
    JobPublishesStream(c, r, seed, None, length, Remaining(job));
  }

  // The job that comes with shares is what the record just written calls for.
  lemma SigningJobAt(c: Crypto, batch: nat, d: Device, req: Request, power: nat) returns (i: nat)
    requires var out := DeviceStep(c, batch, d, Sign(req, power)).1; out.sign.Released? && out.sign.job.Some?
    ensures var (p, out) := DeviceStep(c, batch, d, Sign(req, power));
            i < |p.flash| && Read(p.flash[i]).Some? && Reconcile(Read(p.flash[i]).value, req.coord, batch) == Job(out.sign.job.value)
  {
    i := Find(d.flash, req.coord.stream).value;
  }

  /** The job that comes with shares is one of these. */
  lemma SigningJobIsMade(c: Crypto, batch: nat, life: Life, a: nat)
    requires a < |life.events| && Releases(OutcomeAt(c, batch, life.start, life.events, a))
    requires OutcomeAt(c, batch, life.start, life.events, a).sign.job.Some?
    ensures var job := OutcomeAt(c, batch, life.start, life.events, a).sign.job.value;
            Made(c, batch, life, SegmentOf(Worked(c, job, Remaining(job))))
  {
    var d, e := RunDevice(c, batch, life.start, life.events[..a]), life.events[a];
    var i := SigningJobAt(c, batch, d, e.req, e.power);
    assert life.events[..a + 1][..a] == life.events[..a];
    var job := OutcomeAt(c, batch, life.start, life.events, a).sign.job.value;
    assert MadeAt(c, batch, life, a + 1, i, e.req.coord, SegmentOf(Worked(c, job, Remaining(job))));
  }

  lemma {:induction false} RunConcat(c: Crypto, batch: nat, d: Device, a: seq<Event>, b: seq<Event>)
    ensures RunDevice(c, batch, d, a + b) == RunDevice(c, batch, RunDevice(c, batch, d, a), b)
  {
    if b == [] {
      assert a + b == a;
    } else {
      RunConcat(c, batch, d, a, b[..|b| - 1]);
      assert (a + b)[..|a + b| - 1] == a + b[..|b| - 1];
    }
  }

  // From its m-th event on the device serves these requests.
  ghost predicate ServesFrom(c: Crypto, batch: nat, life: Life, m: nat, asks: seq<NonceMessages.Ask>) {
    && m + |asks| <= |life.events|
    && life.events[m..m + |asks|] == NonceSlotOrder.Opens(NonceMessages.OpeningsOf(asks))
    && NonceMessages.Serve(c, batch, RunDevice(c, batch, life.start, life.events[..m]), asks).Answered?
  }

  lemma ServedUpTo(c: Crypto, batch: nat, life: Life, m: nat, asks: seq<NonceMessages.Ask>)
    requires ServesFrom(c, batch, life, m, asks)
    ensures NonceMessages.Serve(c, batch, RunDevice(c, batch, life.start, life.events[..m]), asks).device
         == RunDevice(c, batch, life.start, life.events[..m + |asks|])
  {
    NonceMessages.AnsweredIsRun(c, batch, RunDevice(c, batch, life.start, life.events[..m]), asks);
    RunConcat(c, batch, life.start, life.events[..m], life.events[m..m + |asks|]);
    assert life.events[..m] + life.events[m..m + |asks|] == life.events[..m + |asks|];
  }

  lemma OpensInit(asks: seq<NonceMessages.Ask>)
    requires asks != []
    ensures var n := |asks| - 1;
            NonceSlotOrder.Opens(NonceMessages.OpeningsOf(asks))[..n] == NonceSlotOrder.Opens(NonceMessages.OpeningsOf(asks[..n]))
  {
  }

  lemma ServesBefore(c: Crypto, batch: nat, life: Life, m: nat, asks: seq<NonceMessages.Ask>)
    requires ServesFrom(c, batch, life, m, asks) && asks != []
    ensures ServesFrom(c, batch, life, m, asks[..|asks| - 1])
  {
    var n := |asks| - 1;
    OpensInit(asks);
    assert life.events[m..m + n] == life.events[m..m + |asks|][..n];
  }

  /** And so are the jobs of a message that opens streams. */
  lemma {:induction false} MessageJobsAreMade(c: Crypto, batch: nat, life: Life, m: nat, asks: seq<NonceMessages.Ask>, job: JobState)
    requires ServesFrom(c, batch, life, m, asks)
    requires job in NonceMessages.Serve(c, batch, RunDevice(c, batch, life.start, life.events[..m]), asks).jobs
    ensures Made(c, batch, life, SegmentOf(Worked(c, job, Remaining(job))))
  {
    var d, n := RunDevice(c, batch, life.start, life.events[..m]), |asks| - 1;
    ServedUpTo(c, batch, life, m, asks);
    ServesBefore(c, batch, life, m, asks);
    if job in NonceMessages.Serve(c, batch, d, asks[..n]).jobs {
      MessageJobsAreMade(c, batch, life, m, asks[..n], job);
    } else {
      var p := NonceMessages.Serve(c, batch, d, asks[..n]).device;
      var i := LastJobIsMade(c, batch, p, asks[n], job);
      assert MadeAt(c, batch, life, m + |asks|, i, NonceMessages.StateOf(asks[n]), SegmentOf(Worked(c, job, Remaining(job))));
    }
  }

  lemma LastJobIsMade(c: Crypto, batch: nat, p: Device, a: NonceMessages.Ask, job: JobState) returns (i: nat)
    requires NonceMessages.ServeAsk(c, batch, p, a).Answered? && job in NonceMessages.ServeAsk(c, batch, p, a).jobs
    ensures var flash := NonceMessages.ServeAsk(c, batch, p, a).device.flash;
            && i < |flash| && Read(flash[i]).Some?
            && Reconcile(Read(flash[i]).value, NonceMessages.StateOf(a), batch) == Job(job)
  {
    i := DeviceStep(c, batch, p, Open(a.opening.stream, a.opening.seed, a.power)).1.open.slot;
  }

  // ---------------------------------------------------------------------------------------------
  // Whether an answer connects

  /** A device that stands on the stream of the coordinator's window, asked about that window, has nothing to do
      exactly if it stands at its start and the window is long enough; and what it sends otherwise
      connects to the window exactly if the device has not run ahead of its end, or, behind the start of a
      short one, if a batch gets there. */
  lemma AnswerConnects(c: Crypto, r: Record, seed: SeedMaterial, w: Segment, batch: nat)
    requires DescendsFrom(c, r, seed) && Fits(w) && w.stream == r.stream
    requires !Reconcile(r, CoordState(w.stream, w.index, |w.nonces|), batch).JobPanics?
    ensures var answer := Reconcile(r, CoordState(w.stream, w.index, |w.nonces|), batch);
            && (answer.NoJob? <==> r.index == w.index && |w.nonces| >= batch)
            && (answer.Job? ==>
                  (Connects(w, SegmentOf(Worked(c, answer.state, Remaining(answer.state)))) <==>
                    if r.index > w.index then r.index <= End(w) else |w.nonces| >= batch || r.index + batch >= w.index))
  {
    var state := CoordState(w.stream, w.index, |w.nonces|);
    if Reconcile(r, state, batch).Job? {
      JobIsDone(c, r, state, batch, seed);
      var length := if r.index > state.index || state.remaining < batch then batch else state.index - r.index;
      var job := Reconcile(r, state, batch).state;
      JobPublishesStream(c, r, seed, None, length, Remaining(job));
      FinishedIsWindow(c, Worked(c, job, Remaining(job)), seed);
    }
  }

  // ---------------------------------------------------------------------------------------------
  // What the coordinator holds

  ghost predicate WindowOf(cache: Cache, d: DeviceId, stream: StreamId, get: nat -> Nonce) {
    Lookup(cache, d, stream).Some? ==> IsWindow(Lookup(cache, d, stream).value, get)
  }

  lemma ExtendKeepsStream(curr: Segment, new_: Segment, get: nat -> Nonce)
    requires IsWindow(curr, get) && IsWindow(new_, get) && Extend(curr, new_).Extended?
    ensures IsWindow(Extend(curr, new_).segment, get)
  {
    if Connects(curr, new_) && curr.nonces != [] {
      UnionIsOfStream(curr, new_, get);
      TabulatedIsWindow(curr.stream, Min(curr.index, new_.index), Max(End(curr), End(new_)), get);
      assert Extend(curr, new_).segment == Union(curr, new_);
    } else {
      assert Extend(curr, new_).segment == curr || Extend(curr, new_).segment == new_;
    }
  }

  lemma ExtendKeepsWindowOf(cache: Cache, device: DeviceId, segment: Segment, d: DeviceId, stream: StreamId, get: nat -> Nonce)
    requires ValidCache(cache) && WindowOf(cache, d, stream, get)
    requires device == d && segment.stream == stream ==> IsWindow(segment, get)
    ensures WindowOf(ExtendCache(cache, device, segment).0, d, stream, get)
  {
    if device == d && segment.stream == stream && Extend(EntryFor(cache, d, stream), segment).Extended? {
      ExtendKeepsStream(EntryFor(cache, d, stream), segment, get);
    }
  }

  lemma ConsumeKeepsStream(w: Segment, upTo: U32, get: nat -> Nonce)
    requires IsWindow(w, get)
    ensures IsWindow(Deleted(w, upTo), get)
  {
    if upTo <= End(w) {
      DeletedIsWindow(w, upTo, get);
    }
  }

  lemma CloseKeepsWindowOf(s: Coordinator.State, sid: Coordinator.SessionId, signatures: Option<Coordinator.Signatures>,
                           d: DeviceId, stream: StreamId, get: nat -> Nonce)
    requires WindowOf(s.cache, d, stream, get) && Coordinator.Close(s, sid, signatures).Applied?
    ensures WindowOf(Coordinator.Close(s, sid, signatures).state.cache, d, stream, get)
  {
    if sid in s.order {
      var session := s.active[sid];
      if Coordinator.Consumes(session, d) && Lookup(s.cache, d, stream).Some? && Coordinator.ConsumePoint(session, d) <= U32_MAX {
        ConsumeKeepsStream(Lookup(s.cache, d, stream).value, Coordinator.ConsumePoint(session, d), get);
      }
    }
  }

  lemma {:induction false} CloseAllKeepsWindowOf(s: Coordinator.State, sids: set<Coordinator.SessionId>, d: DeviceId, stream: StreamId, get: nat -> Nonce)
    requires WindowOf(s.cache, d, stream, get) && Coordinator.CloseAll(s, sids).Applied?
    ensures WindowOf(Coordinator.CloseAll(s, sids).state.cache, d, stream, get)
    decreases |sids|
  {
    if sids != {} {
      var sid := Coordinator.Least(sids);
      CloseKeepsWindowOf(s, sid, None, d, stream, get);
      CloseAllKeepsWindowOf(Coordinator.Close(s, sid, None).state, sids - {sid}, d, stream, get);
    }
  }

  lemma ApplyKeepsWindowOf(s: Coordinator.State, m: Coordinator.Mutation, d: DeviceId, stream: StreamId, get: nat -> Nonce)
    requires ValidCache(s.cache) && Coordinator.Apply(s, m).Applied? && WindowOf(s.cache, d, stream, get)
    requires m.NewNonces? && m.device == d && m.segment.stream == stream ==> IsWindow(m.segment, get)
    ensures WindowOf(Coordinator.Apply(s, m).state.cache, d, stream, get)
  {
    if m.NewNonces? {
      ExtendKeepsWindowOf(s.cache, m.device, m.segment, d, stream, get);
    } else if m.CloseSession? {
      CloseKeepsWindowOf(s, m.sid, m.signatures, d, stream, get);
    } else if m.DeleteKey? && m.keyId in s.keys {
      CloseAllKeepsWindowOf(s.(keys := s.keys - {m.keyId}, keyOrder := Coordinator.Retain(s.keyOrder, m.keyId)),
        Coordinator.SessionsOf(s, m.keyId), d, stream, get);
    }
  }

  // ---------------------------------------------------------------------------------------------
  // Runs

  // Each of the devices, from blank flash.
  type Fleet = map<DeviceId, Life>

  ghost predicate FromBlank(fleet: Fleet) {
    forall d :: d in fleet ==> BlankFlash(fleet[d].start)
  }

  ghost predicate Sent(c: Crypto, batch: nat, fleet: Fleet, d: DeviceId, segment: Segment) {
    d in fleet && Made(c, batch, fleet[d], segment)
  }

  // Segments come from the device they claim to come from.
  ghost predicate HonestOp(c: Crypto, batch: nat, fleet: Fleet, op: CoordinatorRuns.Op) {
    match op
    case RecvSegment(d, segment) => Sent(c, batch, fleet, d, segment)
    case RecvShares(_, d, _, replenish) => replenish.Some? ==> Sent(c, batch, fleet, d, replenish.value)
    case _ => true
  }

  ghost predicate HonestRun(f: Coordinator.Frost, c: Crypto, batch: nat, fleet: Fleet, ops: seq<CoordinatorRuns.Op>, trace: seq<Coordinator.Coord>) {
    CoordinatorRuns.IsRun(f, ops, trace) && FromBlank(fleet) && forall k :: 0 <= k < |ops| ==> HonestOp(c, batch, fleet, ops[k])
  }

  // A segment that the operation brings for the stream is a window of it.
  ghost predicate Delivers(op: CoordinatorRuns.Op, d: DeviceId, stream: StreamId, get: nat -> Nonce) {
    match op
    case RecvSegment(e, segment) => e == d && segment.stream == stream ==> IsWindow(segment, get)
    case RecvShares(_, e, _, replenish) => replenish.Some? && e == d && replenish.value.stream == stream ==> IsWindow(replenish.value, get)
    case _ => true
  }

  lemma HonestDelivers(c: Crypto, batch: nat, fleet: Fleet, op: CoordinatorRuns.Op, d: DeviceId, stream: StreamId, seed: SeedMaterial)
    requires FromBlank(fleet) && HonestOp(c, batch, fleet, op) && d in fleet && InitialisedOnce(c, batch, fleet[d], stream, seed)
    ensures Delivers(op, d, stream, PublicOf(c, stream, seed))
  {
    if op.RecvSegment? && op.device == d && op.segment.stream == stream {
      MadeIsWindow(c, batch, fleet[d], op.segment, seed);
    }
    if op.RecvShares? && op.device == d && op.replenish.Some? && op.replenish.value.stream == stream {
      MadeIsWindow(c, batch, fleet[d], op.replenish.value, seed);
    }
  }

  lemma RecvKeepsWindowOf(f: Coordinator.Frost, co: Coordinator.Coord, op: CoordinatorRuns.Op, d: DeviceId, stream: StreamId, get: nat -> Nonce)
    requires ValidCache(co.state.cache) && op.RecvShares? && CoordinatorRuns.Step(f, co, op).Some?
    requires WindowOf(co.state.cache, d, stream, get) && Delivers(op, d, stream, get)
    ensures WindowOf(CoordinatorRuns.Step(f, co, op).value.state.cache, d, stream, get)
  {
    var s := co.state;
    if op.sid in s.active && Coordinator.AcceptsShares(f, s, op.sid, op.device, op.shares) {
      var got := Coordinator.Mutated(co, Coordinator.GotShares(op.sid, op.device, op.shares)).value;
      if op.replenish.Some? {
        ApplyKeepsWindowOf(got.state, Coordinator.NewNonces(op.device, op.replenish.value), d, stream, get);
      }
      CompletedKeepsWindowOf(f, Coordinator.SharesStored(co, op.sid, op.device, op.shares, op.replenish).value, op.sid, d, stream, get);
    }
  }

  lemma CompletedKeepsWindowOf(f: Coordinator.Frost, co: Coordinator.Coord, sid: Coordinator.SessionId, d: DeviceId, stream: StreamId, get: nat -> Nonce)
    requires ValidCache(co.state.cache) && WindowOf(co.state.cache, d, stream, get) && Coordinator.Completed(f, co, sid).Some?
    ensures WindowOf(Coordinator.Completed(f, co, sid).value.state.cache, d, stream, get)
  {
    if sid in co.state.active && Coordinator.AllFinished(co.state.active[sid]) {
      CloseKeepsWindowOf(co.state, sid, Some(Coordinator.Combined(f, co.state.active[sid])), d, stream, get);
    }
  }

  lemma StepKeepsWindowOf(f: Coordinator.Frost, co: Coordinator.Coord, op: CoordinatorRuns.Op, d: DeviceId, stream: StreamId, get: nat -> Nonce)
    requires ValidCache(co.state.cache) && CoordinatorRuns.Admissible(co.state, op) && CoordinatorRuns.Step(f, co, op).Some?
    requires WindowOf(co.state.cache, d, stream, get) && Delivers(op, d, stream, get)
    ensures WindowOf(CoordinatorRuns.Step(f, co, op).value.state.cache, d, stream, get)
  {
    var s := co.state;
    match op
    case ChangeKey(m) => ApplyKeepsWindowOf(s, m, d, stream, get);
    case RemoveShare(keyId, access, device) => ApplyKeepsWindowOf(s, Coordinator.DeleteShare(keyId, access, device), d, stream, get);
    case RemoveKey(keyId) => if keyId in s.keys { ApplyKeepsWindowOf(s, Coordinator.DeleteKey(keyId), d, stream, get); }
    case RecvSegment(device, segment) =>
      if CheckCanExtend(s.cache, device, segment).MayExtend? { ApplyKeepsWindowOf(s, Coordinator.NewNonces(device, segment), d, stream, get); }
    case RecvShares(_, _, _, _) => RecvKeepsWindowOf(f, co, op, d, stream, get);
    case Cancel(sid) => CloseKeepsWindowOf(s, sid, None, d, stream, get);
    case RequestSign(sid, device, _) => ApplyKeepsWindowOf(s, Coordinator.SentSignReq(sid, device), d, stream, get);
    case Forget(sid) => ApplyKeepsWindowOf(s, Coordinator.ForgetFinished(sid), d, stream, get);
    case Start(r, nonces) =>
      if CoordinatorRuns.Step(f, co, op) != Some(co) {
        ApplyKeepsWindowOf(s, Coordinator.NewSession(Coordinator.NewSessionFor(r, s.keys[r.keyId].accesses[r.access], nonces.nonces)), d, stream, get);
      }
  }

  /** In every run, whatever is lost, repeated, reordered or late: what the coordinator has cached of a stream that its
      device initialised once is a window of the public nonces of that seed. */
  lemma {:induction false} WindowsFollowTheSeed(f: Coordinator.Frost, c: Crypto, batch: nat, fleet: Fleet, ops: seq<CoordinatorRuns.Op>, trace: seq<Coordinator.Coord>,
                                                i: nat, d: DeviceId, stream: StreamId, seed: SeedMaterial)
    requires HonestRun(f, c, batch, fleet, ops, trace) && i < |trace|
    requires d in fleet && InitialisedOnce(c, batch, fleet[d], stream, seed)
    ensures WindowOf(trace[i].state.cache, d, stream, PublicOf(c, stream, seed))
  {
    if i > 0 {
      WindowsFollowTheSeed(f, c, batch, fleet, ops, trace, i - 1, d, stream, seed);
      var co, op := trace[i - 1], ops[i - 1];
      assert CoordinatorRuns.Admissible(co.state, op) && CoordinatorRuns.Step(f, co, op) == Some(trace[i]);
      HonestDelivers(c, batch, fleet, op, d, stream, seed);
      StepKeepsWindowOf(f, co, op, d, stream, PublicOf(c, stream, seed));
    }
  }

  // ---------------------------------------------------------------------------------------------
  // What sessions sign with

  // For every item the party's nonce is the one of the device's stream at the place that the session took.
  ghost predicate TakesNoncesOf(session: Coordinator.ActiveSession, d: DeviceId, party: Coordinator.ShareIndex, get: nat -> Nonce) {
    d in session.init.nonces
    && forall k :: 0 <= k < |session.progress| ==>
         && party in session.progress[k].item.nonces
         && session.progress[k].item.nonces[party] == get(session.init.nonces[d].index + k)
  }

  lemma SessionTakes(s: Coordinator.State, r: Coordinator.SignRequest, nonces: SessionNonces, d: DeviceId, get: nat -> Nonce)
    requires ValidCache(s.cache) && !Coordinator.StartRefused(s, r) && Coordinator.IsStart(s, r, nonces) && nonces.Selected? && d in r.devices
    requires var shares := s.keys[r.keyId].accesses[r.access].shares; Coordinator.Holder(shares, r.devices, shares[d]) == d
    requires WindowOf(s.cache, d, nonces.nonces[d].segment.stream, get)
    ensures var access := s.keys[r.keyId].accesses[r.access];
            TakesNoncesOf(Coordinator.NewSessionFor(r, access, nonces.nonces), d, access.shares[d], get)
  {
    SelectionIsPrefix(s.cache, r.devices, Coordinator.UsedStreams(s.active), r.nSignatures, nonces.nonces, d);
    var segment := nonces.nonces[d].segment;
    PrefixOfStream(Lookup(s.cache, d, segment.stream).value, segment, get);
    HolderTakes(r, s.keys[r.keyId].accesses[r.access], nonces.nonces, d, get);
  }

  lemma PrefixOfStream(w: Segment, segment: Segment, get: nat -> Nonce)
    requires IsWindow(w, get) && segment.index == w.index && segment.nonces <= w.nonces
    ensures IsWindow(segment, get)
  {
  }

  lemma HolderTakes(r: Coordinator.SignRequest, access: Coordinator.Access, nonces: map<DeviceId, SubSegment>, d: DeviceId, get: nat -> Nonce)
    requires nonces.Keys == r.devices <= access.shares.Keys && d in r.devices
    requires Coordinator.Holder(access.shares, r.devices, access.shares[d]) == d
    requires |nonces[d].segment.nonces| == r.nSignatures && IsWindow(nonces[d].segment, get)
    ensures TakesNoncesOf(Coordinator.NewSessionFor(r, access, nonces), d, access.shares[d], get)
  {
    var session := Coordinator.NewSessionFor(r, access, nonces);
    var byParty := Coordinator.ByParty(access.shares, nonces, r.devices);
    assert access.shares[d] in byParty && byParty[access.shares[d]] == nonces[d].segment;
    forall k | 0 <= k < |session.progress|
      ensures access.shares[d] in session.progress[k].item.nonces
      ensures session.progress[k].item.nonces[access.shares[d]] == get(session.init.nonces[d].index + k) {
      assert session.progress[k].item.nonces == Coordinator.NoncesAt(byParty, k);
    }
  }

  // Answers come and go, items stay.
  ghost predicate SameItems(a: Coordinator.ActiveSession, b: Coordinator.ActiveSession) {
    && b.init == a.init && |b.progress| == |a.progress|
    && forall k :: 0 <= k < |a.progress| ==> b.progress[k].item == a.progress[k].item
  }

  lemma {:induction false} CloseAllKeepsItems(s: Coordinator.State, sids: set<Coordinator.SessionId>, sid: Coordinator.SessionId)
    requires Coordinator.CloseAll(s, sids).Applied? && sid in Coordinator.CloseAll(s, sids).state.active
    ensures sid in s.active && Coordinator.CloseAll(s, sids).state.active[sid] == s.active[sid]
    decreases |sids|
  {
    if sids != {} {
      var a := Coordinator.Least(sids);
      CloseAllKeepsItems(Coordinator.Close(s, a, None).state, sids - {a}, sid);
    }
  }

  lemma ApplyKeepsItems(s: Coordinator.State, m: Coordinator.Mutation, sid: Coordinator.SessionId)
    requires ValidCache(s.cache) && Coordinator.Apply(s, m).Applied? && sid in Coordinator.Apply(s, m).state.active
    requires m.NewSession? ==> m.session.init.group.sessionId != sid
    ensures sid in s.active && SameItems(s.active[sid], Coordinator.Apply(s, m).state.active[sid])
  {
    if m.DeleteKey? && m.keyId in s.keys {
      CloseAllKeepsItems(s.(keys := s.keys - {m.keyId}, keyOrder := Coordinator.Retain(s.keyOrder, m.keyId)),
        Coordinator.SessionsOf(s, m.keyId), sid);
    }
  }

  lemma RecvKeepsItems(f: Coordinator.Frost, co: Coordinator.Coord, op: CoordinatorRuns.Op, sid: Coordinator.SessionId)
    requires ValidCache(co.state.cache) && op.RecvShares? && CoordinatorRuns.Step(f, co, op).Some?
    requires sid in CoordinatorRuns.Step(f, co, op).value.state.active
    ensures sid in co.state.active && SameItems(co.state.active[sid], CoordinatorRuns.Step(f, co, op).value.state.active[sid])
  {
    var s := co.state;
    if op.sid in s.active && Coordinator.AcceptsShares(f, s, op.sid, op.device, op.shares) {
      var more := Coordinator.SharesStored(co, op.sid, op.device, op.shares, op.replenish).value;
      assert more.state.active.Keys == s.active.Keys;
      assert sid in more.state.active;
    }
  }

  lemma StepKeepsItems(f: Coordinator.Frost, co: Coordinator.Coord, op: CoordinatorRuns.Op, sid: Coordinator.SessionId)
    requires ValidCache(co.state.cache) && CoordinatorRuns.Admissible(co.state, op) && CoordinatorRuns.Step(f, co, op).Some?
    requires sid in CoordinatorRuns.Step(f, co, op).value.state.active
    requires op.Start? ==> op.request.sessionId != sid
    ensures sid in co.state.active && SameItems(co.state.active[sid], CoordinatorRuns.Step(f, co, op).value.state.active[sid])
  {
    var s := co.state;
    match op
    case ChangeKey(m) => ApplyKeepsItems(s, m, sid);
    case RemoveShare(keyId, access, device) =>
      if CoordinatorRuns.Step(f, co, op) != Some(co) { ApplyKeepsItems(s, Coordinator.DeleteShare(keyId, access, device), sid); }
    case RemoveKey(keyId) => if keyId in s.keys { ApplyKeepsItems(s, Coordinator.DeleteKey(keyId), sid); }
    case RecvSegment(device, segment) =>
      if CoordinatorRuns.Step(f, co, op) != Some(co) { ApplyKeepsItems(s, Coordinator.NewNonces(device, segment), sid); }
    case Start(r, nonces) =>
      if CoordinatorRuns.Step(f, co, op) != Some(co) {
        ApplyKeepsItems(s, Coordinator.NewSession(Coordinator.NewSessionFor(r, s.keys[r.keyId].accesses[r.access], nonces.nonces)), sid);
      }
    case RequestSign(a, device, _) => ApplyKeepsItems(s, Coordinator.SentSignReq(a, device), sid);
    case RecvShares(_, _, _, _) => RecvKeepsItems(f, co, op, sid);
    case Cancel(a) => ApplyKeepsItems(s, Coordinator.CloseSession(a, None), sid);
    case Forget(a) =>
  }

  // The operation starts session `sid` over nonces of device `d`, which answers for `party`.
  ghost predicate StartsIn(s: Coordinator.State, op: CoordinatorRuns.Op, sid: Coordinator.SessionId, d: DeviceId, stream: StreamId, party: Coordinator.ShareIndex) {
    && op.Start? && op.request.sessionId == sid && op.nonces.Selected?
    && var r := op.request;
       && !Coordinator.StartRefused(s, r) && d in r.devices && d in op.nonces.nonces
       && op.nonces.nonces[d].segment.stream == stream
       && var shares := s.keys[r.keyId].accesses[r.access].shares;
          party == shares[d] && Coordinator.Holder(shares, r.devices, party) == d
  }

  ghost predicate Starts(ops: seq<CoordinatorRuns.Op>, trace: seq<Coordinator.Coord>, j: nat, sid: Coordinator.SessionId, d: DeviceId, stream: StreamId,
                         party: Coordinator.ShareIndex) {
    j < |ops| < |trace| && StartsIn(trace[j].state, ops[j], sid, d, stream, party)
  }

  // A run of honest devices and a coordinator, and a stream that one of the devices initialised once.
  ghost predicate Setting(f: Coordinator.Frost, c: Crypto, batch: nat, fleet: Fleet, ops: seq<CoordinatorRuns.Op>, trace: seq<Coordinator.Coord>,
                          d: DeviceId, stream: StreamId, seed: SeedMaterial) {
    && HonestRun(f, c, batch, fleet, ops, trace) && CoordinatorSent.DistinctSessions(ops)
    && d in fleet && InitialisedOnce(c, batch, fleet[d], stream, seed)
  }

  // The session is active and has the nonces of the device's stream.
  ghost predicate Matches(co: Coordinator.Coord, sid: Coordinator.SessionId, d: DeviceId, stream: StreamId, party: Coordinator.ShareIndex, get: nat -> Nonce) {
    && sid in co.state.active && TakesNoncesOf(co.state.active[sid], d, party, get)
    && co.state.active[sid].init.nonces[d].stream == stream
  }

  lemma StartedSession(f: Coordinator.Frost, co: Coordinator.Coord, r: Coordinator.SignRequest, nonces: SessionNonces, next: Coordinator.Coord)
    requires ValidCache(co.state.cache) && !Coordinator.StartRefused(co.state, r) && nonces.Selected? && nonces.nonces.Keys == r.devices
    requires Coordinator.Started(f, co, r, nonces) == Some(next)
    ensures r.sessionId in next.state.active
    ensures next.state.active[r.sessionId] == Coordinator.NewSessionFor(r, co.state.keys[r.keyId].accesses[r.access], nonces.nonces)
  {
  }

  lemma StartMatches(f: Coordinator.Frost, co: Coordinator.Coord, op: CoordinatorRuns.Op, next: Coordinator.Coord, sid: Coordinator.SessionId, d: DeviceId,
                     stream: StreamId, party: Coordinator.ShareIndex, get: nat -> Nonce)
    requires ValidCache(co.state.cache) && CoordinatorRuns.Admissible(co.state, op) && CoordinatorRuns.Step(f, co, op) == Some(next)
    requires StartsIn(co.state, op, sid, d, stream, party) && WindowOf(co.state.cache, d, stream, get)
    ensures Matches(next, sid, d, stream, party, get)
  {
    var r, nonces := op.request, op.nonces;
    assert Coordinator.Started(f, co, r, nonces) == Some(next);
    StartedSession(f, co, r, nonces, next);
    SessionTakes(co.state, r, nonces, d, get);
  }

  // A session that is active after the k-th operation was so before, with the same items.
  ghost predicate ItemsStay(trace: seq<Coordinator.Coord>, k: nat, sid: Coordinator.SessionId)
    requires k + 1 < |trace|
  {
    sid in trace[k + 1].state.active ==>
      sid in trace[k].state.active && SameItems(trace[k].state.active[sid], trace[k + 1].state.active[sid])
  }

  lemma RunKeepsItems(f: Coordinator.Frost, ops: seq<CoordinatorRuns.Op>, trace: seq<Coordinator.Coord>, k: nat, sid: Coordinator.SessionId)
    requires CoordinatorRuns.IsRun(f, ops, trace) && k < |ops|
    requires ops[k].Start? ==> ops[k].request.sessionId != sid
    ensures ItemsStay(trace, k, sid)
  {
    CoordinatorRuns.RunStep(f, ops, trace, k);
    if sid in trace[k + 1].state.active {
      StepKeepsItems(f, trace[k], ops[k], sid);
    }
  }

  lemma SameItemsMatch(co: Coordinator.Coord, next: Coordinator.Coord, sid: Coordinator.SessionId, d: DeviceId, stream: StreamId,
                       party: Coordinator.ShareIndex, get: nat -> Nonce)
    requires Matches(co, sid, d, stream, party, get) && sid in next.state.active && SameItems(co.state.active[sid], next.state.active[sid])
    ensures Matches(next, sid, d, stream, party, get)
  {
  }

  lemma {:induction false} MatchStays(trace: seq<Coordinator.Coord>, j: nat, i: nat, sid: Coordinator.SessionId, d: DeviceId, stream: StreamId,
                                      party: Coordinator.ShareIndex, get: nat -> Nonce)
    requires j < i < |trace| && forall k :: j < k < i ==> ItemsStay(trace, k, sid)
    requires Matches(trace[j + 1], sid, d, stream, party, get)
    ensures sid in trace[i].state.active ==> Matches(trace[i], sid, d, stream, party, get)
  {
    if i > j + 1 && sid in trace[i].state.active {
      assert ItemsStay(trace, i - 1, sid);
      MatchStays(trace, j, i - 1, sid, d, stream, party, get);
      SameItemsMatch(trace[i - 1], trace[i], sid, d, stream, party, get);
    }
  }

  lemma RunStartMatches(f: Coordinator.Frost, ops: seq<CoordinatorRuns.Op>, trace: seq<Coordinator.Coord>, j: nat,
                        sid: Coordinator.SessionId, d: DeviceId, stream: StreamId, party: Coordinator.ShareIndex, get: nat -> Nonce)
    requires CoordinatorRuns.IsRun(f, ops, trace) && Starts(ops, trace, j, sid, d, stream, party) && WindowOf(trace[j].state.cache, d, stream, get)
    ensures Matches(trace[j + 1], sid, d, stream, party, get)
  {
    CoordinatorRuns.RunStep(f, ops, trace, j);
    StartMatches(f, trace[j], ops[j], trace[j + 1], sid, d, stream, party, get);
  }

  /** In every such run, as long as a session is active: the nonces that it has for a party are the public nonces of the
      secrets of the device's stream, one after the other from the place that the device is told. */
  lemma SessionNoncesMatch(f: Coordinator.Frost, c: Crypto, batch: nat, fleet: Fleet, ops: seq<CoordinatorRuns.Op>, trace: seq<Coordinator.Coord>,
                           j: nat, i: nat, sid: Coordinator.SessionId, d: DeviceId, stream: StreamId, seed: SeedMaterial, party: Coordinator.ShareIndex)
    requires Setting(f, c, batch, fleet, ops, trace, d, stream, seed) && Starts(ops, trace, j, sid, d, stream, party)
    requires j < i < |trace|
    ensures sid in trace[i].state.active ==> Matches(trace[i], sid, d, stream, party, PublicOf(c, stream, seed))
  {
    WindowsFollowTheSeed(f, c, batch, fleet, ops, trace, j, d, stream, seed);
    RunStartMatches(f, ops, trace, j, sid, d, stream, party, PublicOf(c, stream, seed));
    forall k | j < k < i ensures ItemsStay(trace, k, sid) {
      RunKeepsItems(f, ops, trace, k, sid);
    }
    MatchStays(trace, j, i, sid, d, stream, party, PublicOf(c, stream, seed));
  }

  // The a-th event of the life releases shares for the stream.
  ghost predicate ReleasesOn(c: Crypto, batch: nat, life: Life, a: nat, stream: StreamId) {
    && BlankFlash(life.start) && a < |life.events| && Releases(OutcomeAt(c, batch, life.start, life.events, a))
    && SigningBehind(c, batch, life.start, life.events, a).sessionId == life.events[a].req.sessionId
    && life.events[a].req.coord.stream == stream
  }

  ghost function SigningAt(c: Crypto, batch: nat, life: Life, a: nat, stream: StreamId): Signing
    requires ReleasesOn(c, batch, life, a, stream)
  {
    SigningBehind(c, batch, life.start, life.events, a)
  }

  ghost function SharesAt(c: Crypto, batch: nat, life: Life, a: nat, stream: StreamId): seq<SignatureShare>
    requires ReleasesOn(c, batch, life, a, stream)
  {
    OutcomeAt(c, batch, life.start, life.events, a).sign.shares
  }

  // The shares are those of the signing, with the secrets of the stream's one seed.
  lemma ReleasedWithSeed(c: Crypto, batch: nat, life: Life, a: nat, stream: StreamId, seed: SeedMaterial)
    requires ReleasesOn(c, batch, life, a, stream) && InitialisedOnce(c, batch, life, stream, seed)
    ensures var s := SigningAt(c, batch, life, a, stream);
            SharesAt(c, batch, life, a, stream) == SharesOf(c, stream, seed, s.start, s.items)
  {
    ReleasedIsSigned(c, batch, life.start, life.events, a);
    assert life.events[..|life.events|] == life.events;
    SameSeed(c, batch, life, stream, seed, |life.events|, SigningBehind(c, batch, life.start, life.events, a).gen);
  }

  // Item k was signed with a secret whose public nonce is the one the session has for item k.
  ghost predicate SignedWithNonces(c: Crypto, shares: seq<SignatureShare>, s: Signing, session: Coordinator.ActiveSession, party: Coordinator.ShareIndex) {
    |shares| == |s.items| && forall k :: 0 <= k < |shares| && k < |session.progress| ==> SignedWithNonce(c, shares[k], s.items[k], session.progress[k].item, party)
  }

  ghost predicate SignedWithNonce(c: Crypto, share: SignatureShare, item: SignItem, signed: Coordinator.Item, party: Coordinator.ShareIndex) {
    party in signed.nonces && exists x :: share == c.sign(item, x) && c.public(x) == signed.nonces[party]
  }

  lemma SecretsFit(c: Crypto, stream: StreamId, seed: SeedMaterial, s: Signing, session: Coordinator.ActiveSession, d: DeviceId, party: Coordinator.ShareIndex)
    requires TakesNoncesOf(session, d, party, PublicOf(c, stream, seed)) && s.start == session.init.nonces[d].index
    ensures SignedWithNonces(c, SharesOf(c, stream, seed, s.start, s.items), s, session, party)
  {
    var shares := SharesOf(c, stream, seed, s.start, s.items);
    forall k | 0 <= k < |shares| && k < |session.progress| ensures SignedWithNonce(c, shares[k], s.items[k], session.progress[k].item, party) {
      var x := SecretAt(c, stream, seed, s.start + k);
      assert shares[k] == c.sign(s.items[k], x) && c.public(x) == session.progress[k].item.nonces[party];
    }
  }

  /** So whenever in its life the device releases shares of a signing from the place that the session took: item k was
      signed with a secret whose public nonce is the one the session has for item k. */
  lemma SharesUseTheSessionsNonces(f: Coordinator.Frost, c: Crypto, batch: nat, fleet: Fleet, ops: seq<CoordinatorRuns.Op>, trace: seq<Coordinator.Coord>,
                                   j: nat, i: nat, sid: Coordinator.SessionId, d: DeviceId, stream: StreamId, seed: SeedMaterial, party: Coordinator.ShareIndex,
                                   a: nat)
    requires Setting(f, c, batch, fleet, ops, trace, d, stream, seed) && Starts(ops, trace, j, sid, d, stream, party)
    requires j < i < |trace| && sid in trace[i].state.active && d in trace[i].state.active[sid].init.nonces
    requires ReleasesOn(c, batch, fleet[d], a, stream)
    requires SigningAt(c, batch, fleet[d], a, stream).start == trace[i].state.active[sid].init.nonces[d].index
    ensures SignedWithNonces(c, SharesAt(c, batch, fleet[d], a, stream), SigningAt(c, batch, fleet[d], a, stream), trace[i].state.active[sid], party)
  {
    SessionNoncesMatch(f, c, batch, fleet, ops, trace, j, i, sid, d, stream, seed, party);
    ReleasedWithSeed(c, batch, fleet[d], a, stream, seed);
    SecretsFit(c, stream, seed, SigningAt(c, batch, fleet[d], a, stream), trace[i].state.active[sid], d, party);
  }
}
