/**
 Secret nonces on a device: the seed ratchet, signing, nonce jobs and the slots that hold the streams
 (frostsnap_core/src/device_nonces.rs).

 Cryptography is abstract: a `Crypto` value carries one total function for each primitive the code
 calls, and every statement holds for all of them.
 */
module DeviceNonces {
  import opened Common
  import opened AbWrite
  import opened NonceStream

  type SeedMaterial(==, !new)
  type ChaChaSeed(!new)
  type SecretNonce(!new)
  type SignItem(!new)
  type SignatureShare(==, !new)
  type SessionId(==, !new)

  datatype Crypto = Crypto(
    deriveNonceSeed: (StreamId, nat, SeedMaterial) -> ChaChaSeed,  // eFuse HMAC
    nextMaterial: (ChaChaSeed, nat) -> SeedMaterial,               // key stream bytes 0..32
    secretNonce: (ChaChaSeed, nat) -> SecretNonce,                 // key stream bytes 32..96
    public: SecretNonce -> Nonce,
    sign: (SignItem, SecretNonce) -> SignatureShare)

  // ---------------------------------------------------------------------------------------------
  // The ratchet

  function NextMaterial(c: Crypto, stream: StreamId, index: nat, m: SeedMaterial): SeedMaterial {
    c.nextMaterial(c.deriveNonceSeed(stream, index, m), index)
  }

  function SecretFrom(c: Crypto, stream: StreamId, index: nat, m: SeedMaterial): SecretNonce {
    c.secretNonce(c.deriveNonceSeed(stream, index, m), index)
  }

  // The seed material `n` steps after material `m` at `index`.
  function Ratchet(c: Crypto, stream: StreamId, m: SeedMaterial, index: nat, n: nat): SeedMaterial {
    if n == 0 then m else NextMaterial(c, stream, index + n - 1, Ratchet(c, stream, m, index, n - 1))
  }

  // The secret nonce at `index` of the stream that was initialised with `seed`.
  function SecretAt(c: Crypto, stream: StreamId, seed: SeedMaterial, index: nat): SecretNonce {
    SecretFrom(c, stream, index, Ratchet(c, stream, seed, 0, index))
  }

  lemma {:induction false} RatchetComposes(c: Crypto, stream: StreamId, m: SeedMaterial, index: nat, a: nat, b: nat)
    ensures Ratchet(c, stream, m, index, a + b) == Ratchet(c, stream, Ratchet(c, stream, m, index, a), index + a, b)
  {
    if b > 0 {
      RatchetComposes(c, stream, m, index, a, b - 1);
    }
  }

  // ---------------------------------------------------------------------------------------------
  // Slot records

  datatype SigningState = SigningState(sessionId: SessionId, shares: seq<SignatureShare>)

  datatype Record = Record(
    index: U32,
    stream: StreamId,
    material: SeedMaterial,
    lastUsed: U32,
    signing: Option<SigningState>)

  // The record is where the stream initialised with `seed` stands after `r.index` nonces.
  ghost predicate DescendsFrom(c: Crypto, r: Record, seed: SeedMaterial) {
    r.material == Ratchet(c, r.stream, seed, 0, r.index)
  }

  function InitialRecord(stream: StreamId, lastUsed: U32, seed: SeedMaterial): Record {
    Record(0, stream, seed, lastUsed, None)
  }

  /** `iter_secret_nonces`: the iterator's captured state. */
  class NonceIter {
    const stream: StreamId
    var material: SeedMaterial
    var index: U32

    constructor (r: Record)
      ensures stream == r.stream && material == r.material && index == r.index
    {
      stream, material, index := r.stream, r.material, r.index;
    }

    method Next(c: Crypto) returns (item: Option<(nat, SecretNonce, SeedMaterial)>)
      modifies this
      ensures old(index) == U32_MAX ==> item == None && index == old(index) && material == old(material)
      ensures old(index) < U32_MAX ==>
                && index == old(index) + 1
                && material == NextMaterial(c, stream, old(index), old(material))
                && item == Some((old(index) as nat, SecretFrom(c, stream, old(index), old(material)), material))
    {
      if index == U32_MAX {
        return None;
      }
      var currentIndex: nat := index;
      var actualSeed := c.deriveNonceSeed(stream, currentIndex, material);
      var nextSeedMaterial := c.nextMaterial(actualSeed, currentIndex);
      var secretNonce := c.secretNonce(actualSeed, currentIndex);
      material := nextSeedMaterial;
      index := index + 1;
      return Some((currentIndex, secretNonce, nextSeedMaterial));
    }

    // `skip(n)`, which advances the iterator when the first item after it is asked for.
    method Skip(c: Crypto, n: nat)
      modifies this
      ensures index == Min(old(index) + n, U32_MAX)
      ensures material == Ratchet(c, stream, old(material), old(index), index - old(index))
    {
      var i := 0;
      while i < n
        invariant 0 <= i <= n
        invariant index == Min(old(index) + i, U32_MAX)
        invariant material == Ratchet(c, stream, old(material), old(index), index - old(index))
      {
        var _ := Next(c);
        i := i + 1;
      }
    }
  }

  // ---------------------------------------------------------------------------------------------
  // Nonce jobs

  datatype JobState = JobState(
    stream: StreamId,
    material: SeedMaterial,
    index: U32,
    target: U32,
    nonces: seq<Nonce>,
    skipTo: U32)

  datatype JobResult = NoJob | Job(state: JobState) | JobPanics

  // "can't iterate erased nonces", "cannot have an index at u32::MAX"
  function NonceTask(r: Record, start: Option<U32>, length: nat): (j: JobResult)
    ensures !j.NoJob?
  {
    var from := if start.Some? then start.value else r.index;
    if from < r.index then JobPanics
    else
      var last := SaturatingAdd(from, length);
      if last == U32_MAX then JobPanics
      else Job(JobState(r.stream, r.material, r.index, last, [], from))
  }

  // `reconcile_coord_nonce_stream_state`, once the slot has been read.
  function Reconcile(r: Record, state: CoordState, batch: nat): JobResult {
    if r.index > state.index || state.remaining < batch then NonceTask(r, None, batch)
    else if r.index == state.index then NoJob
    else NonceTask(r, None, state.index - r.index)
  }

  function DoneOneUnit(c: Crypto, s: JobState): JobState {
    if s.index >= s.target then s
    else s.(material := NextMaterial(c, s.stream, s.index, s.material),
            index := s.index + 1,
            nonces := if s.index >= s.skipTo then s.nonces + [c.public(SecretFrom(c, s.stream, s.index, s.material))]
                      else s.nonces)
  }

  predicate Finished(s: JobState) {
    s.index >= s.target
  }

  function Remaining(s: JobState): nat {
    if s.index >= s.target then 0 else s.target - s.index
  }

  function SegmentOf(s: JobState): Segment {
    Segment(s.stream, s.nonces, s.skipTo)
  }

  class NonceJob {
    var state: JobState

    constructor (initial: JobState)
      ensures state == initial
    {
      state := initial;
    }

    method DoWork(c: Crypto) returns (finished: bool)
      modifies this
      ensures state == DoneOneUnit(c, old(state))
      ensures finished == Finished(state)
    {
      if state.index >= state.target {
        return true;
      }
      var currentIndex: nat := state.index;
      var actualSeed := c.deriveNonceSeed(state.stream, currentIndex, state.material);
      var nextSeedMaterial := c.nextMaterial(actualSeed, currentIndex);
      var secretNonce := c.secretNonce(actualSeed, currentIndex);
      state := state.(material := nextSeedMaterial);
      state := state.(index := state.index + 1);
      if currentIndex >= state.skipTo {
        state := state.(nonces := state.nonces + [c.public(secretNonce)]);
      }
      return state.index >= state.target;
    }

    method RunUntilFinished(c: Crypto)
      modifies this
      ensures state == Worked(c, old(state), Remaining(old(state)))
      ensures Finished(state)
    {
      ghost var n := 0;
      var done := false;
      while !done
        invariant state == Worked(c, old(state), n)
        invariant Remaining(state) == Max(Remaining(old(state)) - n, 0)
        invariant n <= Max(Remaining(old(state)), 1)
        invariant done <==> n > 0 && Finished(state)
        decreases Max(Remaining(old(state)), 1) - n
      {
        done := DoWork(c);
        n := n + 1;
      }
    }

    method IntoSegment() returns (segment: Segment)
      requires Finished(state)
      ensures segment == SegmentOf(state)
    {
      segment := Segment(state.stream, state.nonces, state.skipTo);
    }
  }

  // `n` calls of `do_work`.
  function Worked(c: Crypto, s: JobState, n: nat): JobState {
    if n == 0 then s else DoneOneUnit(c, Worked(c, s, n - 1))
  }

  // The job stands somewhere on the stream of `seed` and has published exactly the nonces it passed.
  ghost predicate Publishing(c: Crypto, s: JobState, seed: SeedMaterial) {
    && s.skipTo <= s.target
    && s.index <= s.target
    && s.material == Ratchet(c, s.stream, seed, 0, s.index)
    && |s.nonces| == Max(s.index - s.skipTo, 0)
    && forall k :: 0 <= k < |s.nonces| ==> s.nonces[k] == c.public(SecretAt(c, s.stream, seed, s.skipTo + k))
  }

  lemma UnitPublishes(c: Crypto, s: JobState, seed: SeedMaterial)
    requires Publishing(c, s, seed)
    ensures Publishing(c, DoneOneUnit(c, s), seed)
  {
  }

  lemma FinishedIsWindow(c: Crypto, s: JobState, seed: SeedMaterial)
    requires Publishing(c, s, seed) && Finished(s)
    ensures IsWindow(SegmentOf(s), (i: nat) => c.public(SecretAt(c, s.stream, seed, i)))
    ensures |s.nonces| == s.target - s.skipTo
  {
  }

  /** However the `do_work` calls are sliced, position k of a job's segment is the public nonce of
      exactly the secret that the stream has at index `skipTo + k`, and the job finishes after one
      call for each index it has to pass. */
  lemma {:induction false} JobPublishesStream(c: Crypto, r: Record, seed: SeedMaterial, start: Option<U32>, length: nat, n: nat)
    requires DescendsFrom(c, r, seed) && NonceTask(r, start, length).Job?
    ensures var s := NonceTask(r, start, length).state;
            var w := Worked(c, s, n);
            && Publishing(c, w, seed)
            && (w.stream, w.target, w.skipTo) == (s.stream, s.target, s.skipTo)
            && w.index == Min(r.index + n, s.target)
  {
    if n > 0 {
      JobPublishesStream(c, r, seed, start, length, n - 1);
      UnitPublishes(c, Worked(c, NonceTask(r, start, length).state, n - 1), seed);
    }
  }

  // ---------------------------------------------------------------------------------------------
  // Batches of jobs

  datatype BatchState = BatchState(tasks: seq<JobState>, current: nat)

  function BatchUnit(c: Crypto, b: BatchState): BatchState {
    if b.current >= |b.tasks| then b
    else
      var task := DoneOneUnit(c, b.tasks[b.current]);
      BatchState(b.tasks[b.current := task], if Finished(task) then b.current + 1 else b.current)
  }

  function BatchWorked(c: Crypto, b: BatchState, n: nat): BatchState {
    if n == 0 then b else BatchUnit(c, BatchWorked(c, b, n - 1))
  }

  // The calls a batch needs: one for each nonce, and one for a task that has none.
  function CallsNeeded(tasks: seq<JobState>): nat {
    if tasks == [] then 0 else CallsNeeded(tasks[..|tasks| - 1]) + Max(Remaining(tasks[|tasks| - 1]), 1)
  }

  class NonceJobBatch {
    const tasks: seq<NonceJob>
    var current: nat

    ghost predicate Valid() {
      forall i, j :: 0 <= i < j < |tasks| ==> tasks[i] != tasks[j]
    }

    ghost function State(): BatchState
      reads this, tasks
    {
      BatchState(seq(|tasks|, i requires 0 <= i < |tasks| reads tasks => tasks[i].state), current)
    }

    constructor (jobs: seq<NonceJob>)
      requires forall i, j :: 0 <= i < j < |jobs| ==> jobs[i] != jobs[j]
      ensures tasks == jobs && Valid() && current == 0
    {
      tasks, current := jobs, 0;
    }

    method DoWork(c: Crypto) returns (finished: bool)
      requires Valid()
      modifies this, tasks
      ensures State() == BatchUnit(c, old(State()))
      ensures finished == (State().current >= |tasks|)
    {
      if current < |tasks| {
        var done := tasks[current].DoWork(c);
        if done {
          current := current + 1;
        }
      }
      return current >= |tasks|;
    }
  }

  // Where `b` can be after some calls: earlier tasks finished, later ones untouched.
  ghost predicate PartWay(c: Crypto, b: BatchState, w: BatchState, seeds: seq<SeedMaterial>)
    requires |seeds| == |b.tasks|
  {
    && |w.tasks| == |b.tasks| && w.current <= |b.tasks|
    && (forall i :: 0 <= i < |b.tasks| ==> Publishing(c, w.tasks[i], seeds[i]))
    && (forall i :: 0 <= i < w.current ==> Finished(w.tasks[i]))
    && (forall i :: w.current < i < |b.tasks| ==> w.tasks[i] == b.tasks[i])
  }

  // Progress inside the task the batch is at.
  ghost predicate AtTask(b: BatchState, w: BatchState)
    requires |w.tasks| == |b.tasks|
  {
    w.current < |b.tasks| ==>
      && Remaining(w.tasks[w.current]) <= Remaining(b.tasks[w.current])
      && (Remaining(w.tasks[w.current]) == 0 ==> w.tasks[w.current] == b.tasks[w.current])
  }

  // The calls it took to get there.
  ghost function CallsMade(b: BatchState, w: BatchState): int
    requires |w.tasks| == |b.tasks| && w.current < |b.tasks|
  {
    CallsNeeded(b.tasks[..w.current]) + Remaining(b.tasks[w.current]) - Remaining(w.tasks[w.current])
  }

  lemma BatchUnitStep(c: Crypto, b: BatchState, w: BatchState, seeds: seq<SeedMaterial>)
    requires |seeds| == |b.tasks| && PartWay(c, b, w, seeds)
    ensures PartWay(c, b, BatchUnit(c, w), seeds)
  {
    if w.current < |b.tasks| {
      UnitPublishes(c, w.tasks[w.current], seeds[w.current]);
    }
  }

  lemma BatchUnitCounts(c: Crypto, b: BatchState, w: BatchState)
    requires |w.tasks| == |b.tasks| && w.current < |b.tasks|
    requires forall i :: w.current < i < |b.tasks| ==> w.tasks[i] == b.tasks[i]
    requires AtTask(b, w)
    ensures |BatchUnit(c, w).tasks| == |b.tasks| && AtTask(b, BatchUnit(c, w))
    ensures var v := BatchUnit(c, w);
            if v.current < |b.tasks| then CallsMade(b, v) == CallsMade(b, w) + 1
            else CallsNeeded(b.tasks) == CallsMade(b, w) + 1
  {
    CallsStep(b.tasks, w.current);
    assert b.tasks[..|b.tasks|] == b.tasks;
  }

  /** Every slicing of a batch keeps every task on its own stream; a task is finished once the batch
      has moved past it, so a finished batch yields complete segments; and the batch is finished
      after exactly the calls it needs. */
  lemma {:induction false} BatchPublishes(c: Crypto, b: BatchState, seeds: seq<SeedMaterial>, n: nat)
    requires |seeds| == |b.tasks| && b.current == 0
    requires forall i :: 0 <= i < |b.tasks| ==> Publishing(c, b.tasks[i], seeds[i])
    ensures var w := BatchWorked(c, b, n);
            && PartWay(c, b, w, seeds)
            && AtTask(b, w)
            && (w.current < |b.tasks| ==> CallsMade(b, w) == n < CallsNeeded(b.tasks))
            && (w.current == |b.tasks| ==> n >= CallsNeeded(b.tasks))
  {
    if n == 0 {
      if b.tasks != [] {
        CallsMonotone(b.tasks, 0);
      }
    } else {
      BatchPublishes(c, b, seeds, n - 1);
      var p := BatchWorked(c, b, n - 1);
      BatchUnitStep(c, b, p, seeds);
      if p.current < |b.tasks| {
        BatchUnitCounts(c, b, p);
        var w := BatchUnit(c, p);
        if w.current < |b.tasks| {
          CallsMonotone(b.tasks, w.current);
        }
      }
    }
  }

  lemma CallsStep(tasks: seq<JobState>, i: nat)
    requires i < |tasks|
    ensures CallsNeeded(tasks[..i + 1]) == CallsNeeded(tasks[..i]) + Max(Remaining(tasks[i]), 1)
  {
    assert tasks[..i + 1][..i] == tasks[..i];
  }

  // A batch that is at task i with work left there has calls to go.
  lemma {:induction false} CallsMonotone(tasks: seq<JobState>, i: nat)
    requires i < |tasks|
    ensures CallsNeeded(tasks[..i]) + Max(Remaining(tasks[i]), 1) <= CallsNeeded(tasks)
    decreases |tasks|
  {
    CallsStep(tasks, i);
    var init := tasks[..|tasks| - 1];
    if i < |init| {
      CallsMonotone(init, i);
      assert init[..i] == tasks[..i];
    } else {
      assert tasks[..i + 1] == tasks;
    }
  }
}
