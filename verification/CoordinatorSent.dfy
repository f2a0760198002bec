/**
 The nonce indices that the coordinator asks devices to sign with, over whole runs.
 */
module CoordinatorSent {
  import opened Common
  import opened NonceStream
  import opened CoordNonces
  import opened Coordinator
  import opened CoordinatorRuns

  // What one signing request uses of a stream of a device: the indices lo..hi.
  datatype Use = Use(sid: SessionId, device: DeviceId, stream: StreamId, lo: nat, hi: nat)

  ghost predicate IsUseOf(session: ActiveSession, u: Use) {
    && u.device in session.init.nonces
    && u.stream == session.init.nonces[u.device].stream
    && u.lo == session.init.nonces[u.device].index
    && u.hi == ConsumePoint(session, u.device)
  }

  // Once sent, `u` belongs to its session until that closes and the window is moved past it; any other
  // session that holds the stream starts behind it.
  ghost predicate Spent(s: State, u: Use) {
    && (u.sid in s.active ==> IsUseOf(s.active[u.sid], u) && u.device in s.active[u.sid].sent)
    && (u.sid !in s.active ==> EntryFor(s.cache, u.device, u.stream).index >= u.hi)
    && (forall sid :: sid in s.active && sid != u.sid ==> StartsBehind(s.active[sid], u))
  }

  ghost predicate StartsBehind(session: ActiveSession, u: Use) {
    u.device in session.init.nonces && session.init.nonces[u.device].stream == u.stream ==>
      u.hi <= session.init.nonces[u.device].index
  }

  // Every session's windows have an entry in the cache.
  ghost predicate HasEntries(s: State) {
    forall sid, d :: sid in s.active && d in s.active[sid].init.nonces ==>
      Lookup(s.cache, d, s.active[sid].init.nonces[d].stream).Some?
  }

  // A received segment does not start below the cached window.
  ghost predicate NotBelow(c: Cache, d: DeviceId, new_: Segment) {
    new_.index >= EntryFor(c, d, new_.stream).index
  }

  // The session takes its nonces from the start of the cached windows.
  ghost predicate TakesFirst(c: Cache, session: ActiveSession) {
    forall d :: d in session.init.nonces ==>
      var w := Lookup(c, d, session.init.nonces[d].stream);
      w.Some? && w.value.index == session.init.nonces[d].index
  }

  lemma ExtendMovesForward(c: Cache, d: DeviceId, new_: Segment, e: DeviceId, stream: StreamId)
    requires ValidCache(c) && NotBelow(c, d, new_)
    ensures EntryFor(ExtendCache(c, d, new_).0, e, stream).index >= EntryFor(c, e, stream).index
    ensures Lookup(c, e, stream).Some? ==> Lookup(ExtendCache(c, d, new_).0, e, stream).Some?
  {
  }

  lemma CloseMovesForward(c: Cache, session: ActiveSession, e: DeviceId, stream: StreamId)
    requires !ClosePanics(c, session)
    ensures var c' := ConsumedFor(c, session, session.init.nonces.Keys);
            && EntryFor(c', e, stream).index >= EntryFor(c, e, stream).index
            && (Lookup(c', e, stream).Some? <==> Lookup(c, e, stream).Some?)
            && (Consumes(session, e) && stream == session.init.nonces[e].stream && Lookup(c, e, stream).Some? ==>
                  EntryFor(c', e, stream).index >= ConsumePoint(session, e))
  {
    if Consumes(session, e) {
      assert !ClosePanicsAt(c, session, e);
    }
  }

  lemma CloseKeepsSpent(s: State, sid: SessionId, signatures: Option<Signatures>, u: Use)
    requires HasEntries(s) && Spent(s, u) && Close(s, sid, signatures).Applied?
    ensures var t := Close(s, sid, signatures).state;
            HasEntries(t) && Spent(t, u)
  {
    var t := Close(s, sid, signatures).state;
    if sid in s.order {
      var session := s.active[sid];
      CloseMovesForward(s.cache, session, u.device, u.stream);
      forall a, d | a in t.active && d in t.active[a].init.nonces
        ensures Lookup(t.cache, d, t.active[a].init.nonces[d].stream).Some? {
        CloseMovesForward(s.cache, session, d, t.active[a].init.nonces[d].stream);
      }
    }
  }

  lemma {:induction false} CloseAllKeepsSpent(s: State, sids: set<SessionId>, u: Use)
    requires HasEntries(s) && Spent(s, u) && CloseAll(s, sids).Applied?
    ensures var t := CloseAll(s, sids).state;
            HasEntries(t) && Spent(t, u)
    decreases |sids|
  {
    if sids != {} {
      var sid := Least(sids);
      CloseKeepsSpent(s, sid, None, u);
      CloseAllKeepsSpent(Close(s, sid, None).state, sids - {sid}, u);
    }
  }

  lemma ExtendKeepsSpent(s: State, m: Mutation, u: Use)
    requires Inv(s) && HasEntries(s) && Spent(s, u)
    requires m.NewNonces? && Apply(s, m).Applied? && NotBelow(s.cache, m.device, m.segment)
    ensures var t := Apply(s, m).state;
            HasEntries(t) && Spent(t, u)
  {
    var t := Apply(s, m).state;
    ExtendMovesForward(s.cache, m.device, m.segment, u.device, u.stream);
    forall a, d | a in t.active && d in t.active[a].init.nonces
      ensures Lookup(t.cache, d, t.active[a].init.nonces[d].stream).Some? {
      ExtendMovesForward(s.cache, m.device, m.segment, d, t.active[a].init.nonces[d].stream);
    }
  }

  lemma OpenKeepsSpent(s: State, session: ActiveSession, u: Use)
    requires Inv(s) && HasEntries(s) && Spent(s, u)
    requires Opens(s, session) && TakesFirst(s.cache, session) && session.init.group.sessionId != u.sid
    ensures var t := Apply(s, NewSession(session)).state;
            HasEntries(t) && Spent(t, u)
  {
    assert u.sid in s.active ==> u.stream in UsedStreams(s.active);
  }

  lemma WithSessionKeepsSpent(s: State, sid: SessionId, session: ActiveSession, u: Use)
    requires HasEntries(s) && Spent(s, u) && sid in s.active
    requires session.init == s.active[sid].init && s.active[sid].sent <= session.sent
    ensures var t := s.(active := s.active[sid := session]);
            HasEntries(t) && Spent(t, u)
  {
  }

  lemma ProgressKeepsSpent(s: State, m: Mutation, u: Use)
    requires Inv(s) && HasEntries(s) && Spent(s, u) && (m.GotShares? || m.SentSignReq?)
    ensures var t := Apply(s, m).state;
            HasEntries(t) && Spent(t, u)
  {
    if m.sid in s.active && Apply(s, m).recorded {
      WithSessionKeepsSpent(s, m.sid, Apply(s, m).state.active[m.sid], u);
    }
  }

  // The conditions under which mutations are made in the runs considered here.
  ghost predicate Orderly(s: State, m: Mutation) {
    && (m.NewSession? ==> Opens(s, m.session) && TakesFirst(s.cache, m.session))
    && (m.NewNonces? ==> NotBelow(s.cache, m.device, m.segment))
  }

  lemma ApplyKeepsSpent(s: State, m: Mutation, u: Use)
    requires Inv(s) && HasEntries(s) && Spent(s, u) && Apply(s, m).Applied? && Orderly(s, m)
    requires m.NewSession? ==> m.session.init.group.sessionId != u.sid
    ensures var t := Apply(s, m).state;
            Inv(t) && HasEntries(t) && Spent(t, u)
  {
    if m.DeleteKey? {
      if m.keyId in s.keys {
        CloseAllKeepsSpent(s.(keys := s.keys - {m.keyId}, keyOrder := Retain(s.keyOrder, m.keyId)), SessionsOf(s, m.keyId), u);
      }
    } else if m.CloseSession? {
      CloseKeepsSpent(s, m.sid, m.signatures, u);
    } else if m.NewNonces? {
      ExtendKeepsSpent(s, m, u);
    } else if m.NewSession? {
      OpenKeepsSpent(s, m.session, u);
    } else if m.GotShares? || m.SentSignReq? {
      ProgressKeepsSpent(s, m, u);
    } else {
      assert Apply(s, m).state.active == s.active && Apply(s, m).state.cache == s.cache;
    }
    ApplyKeepsInv(s, m);
  }

  lemma StartTakesFirst(s: State, r: SignRequest, nonces: SessionNonces)
    requires Inv(s) && Admissible(s, Start(r, nonces)) && !StartRefused(s, r) && nonces.Selected?
    ensures TakesFirst(s.cache, NewSessionFor(r, s.keys[r.keyId].accesses[r.access], nonces.nonces))
  {
    var session := NewSessionFor(r, s.keys[r.keyId].accesses[r.access], nonces.nonces);
    forall d | d in session.init.nonces
      ensures var w := Lookup(s.cache, d, session.init.nonces[d].stream);
              w.Some? && w.value.index == session.init.nonces[d].index {
      SelectionIsPrefix(s.cache, r.devices, UsedStreams(s.active), r.nSignatures, nonces.nonces, d);
    }
  }

  ghost predicate OrderlyOp(s: State, op: Op) {
    match op
    case RecvSegment(d, new_) => NotBelow(s.cache, d, new_)
    case RecvShares(_, d, _, replenish) => replenish.Some? ==> NotBelow(s.cache, d, replenish.value)
    case _ => true
  }

  lemma StepKeepsSpent(f: Frost, c: Coord, op: Op, u: Use)
    requires Inv(c.state) && HasEntries(c.state) && Spent(c.state, u)
    requires Admissible(c.state, op) && OrderlyOp(c.state, op) && Step(f, c, op).Some?
    requires op.Start? ==> op.request.sessionId != u.sid
    ensures var t := Step(f, c, op).value.state;
            HasEntries(t) && Spent(t, u)
  {
    var s := c.state;
    match op
    case ChangeKey(m) => ApplyKeepsSpent(s, m, u);
    case RemoveShare(keyId, access, device) => ApplyKeepsSpent(s, DeleteShare(keyId, access, device), u);
    case RemoveKey(keyId) => if keyId in s.keys { ApplyKeepsSpent(s, DeleteKey(keyId), u); }
    case RecvSegment(device, segment) =>
      if CheckCanExtend(s.cache, device, segment).MayExtend? { ApplyKeepsSpent(s, NewNonces(device, segment), u); }
    case Start(r, nonces) =>
      if !StartRefused(s, r) && nonces.Selected? {
        StartOpens(s, r, nonces);
        StartTakesFirst(s, r, nonces);
        ApplyKeepsSpent(s, NewSession(NewSessionFor(r, s.keys[r.keyId].accesses[r.access], nonces.nonces)), u);
      }
    case RequestSign(sid, device, _) => ApplyKeepsSpent(s, SentSignReq(sid, device), u);
    case RecvShares(sid, device, shares, replenish) => RecvKeepsSpent(f, c, op, u);
    case Cancel(sid) => ApplyKeepsSpent(s, CloseSession(sid, None), u);
    case Forget(sid) => ApplyKeepsSpent(s, ForgetFinished(sid), u);
  }

  lemma CompletedKeepsSpent(f: Frost, c: Coord, sid: SessionId, u: Use)
    requires Inv(c.state) && HasEntries(c.state) && Spent(c.state, u) && Completed(f, c, sid).Some?
    ensures var t := Completed(f, c, sid).value.state;
            HasEntries(t) && Spent(t, u)
  {
    if sid in c.state.active && AllFinished(c.state.active[sid]) {
      ApplyKeepsSpent(c.state, CloseSession(sid, Some(Combined(f, c.state.active[sid]))), u);
    }
  }

  lemma RecvKeepsSpent(f: Frost, c: Coord, op: Op, u: Use)
    requires Inv(c.state) && HasEntries(c.state) && Spent(c.state, u)
    requires op.RecvShares? && OrderlyOp(c.state, op) && Step(f, c, op).Some?
    ensures var t := Step(f, c, op).value.state;
            HasEntries(t) && Spent(t, u)
  {
    var s := c.state;
    if op.sid in s.active && AcceptsShares(f, s, op.sid, op.device, op.shares) {
      ApplyKeepsSpent(s, GotShares(op.sid, op.device, op.shares), u);
      var got := Mutated(c, GotShares(op.sid, op.device, op.shares)).value;
      var more := got;
      if op.replenish.Some? {
        ApplyKeepsSpent(got.state, NewNonces(op.device, op.replenish.value), u);
        more := Mutated(got, NewNonces(op.device, op.replenish.value)).value;
      }
      CompletedKeepsSpent(f, more, op.sid, u);
    }
  }

  // ---------------------------------------------------------------------------------------------
  // Runs

  // Session ids are hashes of randomised requests: no two starts get the same one.
  ghost predicate DistinctSessions(ops: seq<Op>) {
    forall k, l :: 0 <= k < l < |ops| && ops[k].Start? && ops[l].Start? ==> ops[k].request.sessionId != ops[l].request.sessionId
  }

  // The runs considered here.
  ghost predicate OrderlyRun(f: Frost, ops: seq<Op>, trace: seq<Coord>) {
    && IsRun(f, ops, trace) && DistinctSessions(ops)
    && forall j :: 0 <= j < |ops| ==> OrderlyOp(trace[j].state, ops[j])
  }

  // The k-th operation asks a device to sign, and this is what it uses.
  ghost predicate Sends(f: Frost, ops: seq<Op>, trace: seq<Coord>, k: nat, u: Use)
    requires IsRun(f, ops, trace)
  {
    && k < |ops| && ops[k].RequestSign? && ops[k].sid == u.sid && ops[k].device == u.device
    && u.sid in trace[k].state.active && IsUseOf(trace[k].state.active[u.sid], u)
  }

  ghost predicate WasStarted(ops: seq<Op>, k: nat, sid: SessionId)
    requires k <= |ops|
  {
    exists j :: 0 <= j < k && ops[j].Start? && ops[j].request.sessionId == sid
  }

  // What is known before and after the i-th operation.
  lemma OrderlyStep(f: Frost, ops: seq<Op>, trace: seq<Coord>, i: nat)
    requires OrderlyRun(f, ops, trace) && i < |ops|
    ensures var c, op := trace[i], ops[i];
            Inv(c.state) && Admissible(c.state, op) && OrderlyOp(c.state, op) && Step(f, c, op) == Some(trace[i + 1])
  {
    RunKeepsInv(f, ops, trace, i);
  }

  lemma {:induction false} ActiveWereStarted(f: Frost, ops: seq<Op>, trace: seq<Coord>, i: nat)
    requires OrderlyRun(f, ops, trace) && i <= |ops|
    ensures HasEntries(trace[i].state)
    ensures forall sid :: sid in trace[i].state.active ==> WasStarted(ops, i, sid)
  {
    if i > 0 {
      ActiveWereStarted(f, ops, trace, i - 1);
      OrderlyStep(f, ops, trace, i - 1);
      StartsOrKeeps(f, trace[i - 1], ops[i - 1]);
      StepKeepsEntries(f, trace[i - 1], ops[i - 1]);
      forall sid | sid in trace[i].state.active ensures WasStarted(ops, i, sid) {
        if sid in trace[i - 1].state.active {
          assert WasStarted(ops, i - 1, sid);
        } else {
          assert ops[i - 1].Start? && ops[i - 1].request.sessionId == sid;
        }
      }
    }
  }

  lemma StartedOnce(ops: seq<Op>, k: nat, sid: SessionId, l: nat)
    requires DistinctSessions(ops) && k <= l < |ops| && WasStarted(ops, k, sid)
    ensures ops[l].Start? ==> ops[l].request.sessionId != sid
  {
  }

  lemma {:induction false} HasBound(s: set<nat>) returns (b: nat)
    ensures forall x :: x in s ==> x < b
  {
    if s == {} {
      b := 0;
    } else {
      var x :| x in s;
      var rest := HasBound(s - {x});
      b := Max(rest, x + 1);
      assert forall y :: y in s ==> y == x || y in s - {x};
    }
  }

  // An empty use of a session that does not exist keeps the rest of `Spent` out of the way.
  lemma StepKeepsEntries(f: Frost, c: Coord, op: Op)
    requires Inv(c.state) && HasEntries(c.state)
    requires Admissible(c.state, op) && OrderlyOp(c.state, op) && Step(f, c, op).Some?
    ensures HasEntries(Step(f, c, op).value.state)
  {
    var spare := HasBound(c.state.active.Keys + if op.Start? then {op.request.sessionId} else {});
    StepKeepsSpent(f, c, op, Use(spare, 0, 0, 0, 0));
  }

  lemma ApplyOpensNothingElse(s: State, m: Mutation)
    requires ValidCache(s.cache) && Apply(s, m).Applied?
    ensures Apply(s, m).state.active.Keys <= s.active.Keys + if m.NewSession? then {m.session.init.group.sessionId} else {}
  {
    if m.DeleteKey? && m.keyId in s.keys {
      CloseAllShrinks(s.(keys := s.keys - {m.keyId}, keyOrder := Retain(s.keyOrder, m.keyId)), SessionsOf(s, m.keyId));
    }
  }

  // An operation opens no session but the one it starts.
  lemma StartsOrKeeps(f: Frost, c: Coord, op: Op)
    requires ValidCache(c.state.cache) && Admissible(c.state, op) && Step(f, c, op).Some?
    ensures Step(f, c, op).value.state.active.Keys <= c.state.active.Keys + if op.Start? then {op.request.sessionId} else {}
  {
    var s := c.state;
    match op
    case ChangeKey(m) => ApplyOpensNothingElse(s, m);
    case RemoveShare(keyId, access, device) => ApplyOpensNothingElse(s, DeleteShare(keyId, access, device));
    case RemoveKey(keyId) => if keyId in s.keys { ApplyOpensNothingElse(s, DeleteKey(keyId)); }
    case RecvSegment(device, segment) =>
      if CheckCanExtend(s.cache, device, segment).MayExtend? { ApplyOpensNothingElse(s, NewNonces(device, segment)); }
    case Start(r, nonces) =>
      if !StartRefused(s, r) && nonces.Selected? {
        ApplyOpensNothingElse(s, NewSession(NewSessionFor(r, s.keys[r.keyId].accesses[r.access], nonces.nonces)));
      }
    case RequestSign(sid, device, _) => ApplyOpensNothingElse(s, SentSignReq(sid, device));
    case RecvShares(_, _, _, _) => RecvOpensNothing(f, c, op);
    case Cancel(sid) => ApplyOpensNothingElse(s, CloseSession(sid, None));
    case Forget(sid) => ApplyOpensNothingElse(s, ForgetFinished(sid));
  }

  lemma RecvOpensNothing(f: Frost, c: Coord, op: Op)
    requires ValidCache(c.state.cache) && op.RecvShares? && Step(f, c, op).Some?
    ensures Step(f, c, op).value.state.active.Keys <= c.state.active.Keys
  {
    var s := c.state;
    if op.sid in s.active && AcceptsShares(f, s, op.sid, op.device, op.shares) {
      ApplyOpensNothingElse(s, GotShares(op.sid, op.device, op.shares));
      var got := Mutated(c, GotShares(op.sid, op.device, op.shares)).value;
      var more := got;
      if op.replenish.Some? {
        ApplyOpensNothingElse(got.state, NewNonces(op.device, op.replenish.value));
        more := Mutated(got, NewNonces(op.device, op.replenish.value)).value;
      }
      if op.sid in more.state.active && AllFinished(more.state.active[op.sid]) {
        ApplyOpensNothingElse(more.state, CloseSession(op.sid, Some(Combined(f, more.state.active[op.sid]))));
      }
    }
  }

  lemma {:induction false} CloseAllShrinks(s: State, sids: set<SessionId>)
    ensures CloseAll(s, sids).Applied? ==> CloseAll(s, sids).state.active.Keys <= s.active.Keys
    decreases |sids|
  {
    if sids != {} {
      var sid := Least(sids);
      if Close(s, sid, None).Applied? {
        CloseAllShrinks(Close(s, sid, None).state, sids - {sid});
      }
    }
  }

  lemma SendingSpends(f: Frost, c: Coord, op: Op, u: Use)
    requires Inv(c.state) && op.RequestSign? && Step(f, c, op).Some? && op.sid == u.sid && op.device == u.device
    requires u.sid in c.state.active && IsUseOf(c.state.active[u.sid], u)
    ensures Spent(Step(f, c, op).value.state, u)
  {
    assert StreamsApart(c.state.active);
  }

  lemma RunStepKeepsSpent(f: Frost, ops: seq<Op>, trace: seq<Coord>, u: Use, i: nat, c: Coord, op: Op)
    requires OrderlyRun(f, ops, trace) && i < |ops| && c == trace[i] && op == ops[i]
    requires Spent(c.state, u) && (op.Start? ==> op.request.sessionId != u.sid)
    ensures Spent(trace[i + 1].state, u)
  {
    OrderlyStep(f, ops, trace, i);
    ActiveWereStarted(f, ops, trace, i);
    StepKeepsSpent(f, c, op, u);
  }

  lemma {:induction false} SpentStaysSpent(f: Frost, ops: seq<Op>, trace: seq<Coord>, u: Use, j: nat, i: nat)
    requires OrderlyRun(f, ops, trace) && j <= i <= |ops|
    requires Spent(trace[j].state, u) && WasStarted(ops, j, u.sid)
    ensures Spent(trace[i].state, u)
  {
    if j < i {
      SpentStaysSpent(f, ops, trace, u, j, i - 1);
      StartedOnce(ops, j, u.sid, i - 1);
      RunStepKeepsSpent(f, ops, trace, u, i - 1, trace[i - 1], ops[i - 1]);
    }
  }

  lemma SentStaysSpent(f: Frost, ops: seq<Op>, trace: seq<Coord>, k: nat, u: Use, i: nat)
    requires OrderlyRun(f, ops, trace) && Sends(f, ops, trace, k, u) && k < i <= |ops|
    ensures Spent(trace[i].state, u)
  {
    OrderlyStep(f, ops, trace, k);
    SendingSpends(f, trace[k], ops[k], u);
    ActiveWereStarted(f, ops, trace, k);
    assert WasStarted(ops, k, u.sid);
    SpentStaysSpent(f, ops, trace, u, k + 1, i);
  }

  /** In every run in which received segments do not start below the cached window: the index ranges
      sent to one device on one stream by two different sessions are disjoint, the later behind the
      earlier. */
  lemma SentRangesAreDisjoint(f: Frost, ops: seq<Op>, trace: seq<Coord>, k: nat, u: Use, l: nat, v: Use)
    requires OrderlyRun(f, ops, trace) && Sends(f, ops, trace, k, u) && Sends(f, ops, trace, l, v) && k < l
    requires u.sid != v.sid && u.device == v.device && u.stream == v.stream
    ensures u.hi <= v.lo
  {
    SentStaysSpent(f, ops, trace, k, u, l);
    assert StartsBehind(trace[l].state.active[v.sid], u);
  }

  // ---------------------------------------------------------------------------------------------
  // A segment that starts below the cached window

  // The segment takes the window back below `hi`.
  ghost predicate Rewinds(c: Cache, d: DeviceId, new_: Segment, hi: nat) {
    var w := EntryFor(c, d, new_.stream);
    && Fits(new_) && new_.index < hi
    && (|w.nonces| <= |new_.nonces| || (w.nonces != [] && Connects(w, new_)))
  }

  lemma SegmentRewinds(c: Cache, d: DeviceId, new_: Segment, hi: nat)
    requires ValidCache(c) && EntryFor(c, d, new_.stream).index >= hi
    ensures EntryFor(ExtendCache(c, d, new_).0, d, new_.stream).index < hi <==> Rewinds(c, d, new_, hi)
  {
    NonceStream.ExtendOutcome(EntryFor(c, d, new_.stream), new_);
  }

  ghost predicate Overlap(u: Use, v: Use) {
    u.lo < v.hi && v.lo < u.hi
  }

  // The use is over, and its window has moved past it.
  ghost predicate Closed(s: State, u: Use) {
    u.sid !in s.active && EntryFor(s.cache, u.device, u.stream).index >= u.hi
  }

  // `v` is what a session uses that can be started now.
  ghost predicate NextUse(s: State, r: SignRequest, nonces: SessionNonces, v: Use) {
    && ValidCache(s.cache) && Admissible(s, Start(r, nonces)) && !StartRefused(s, r) && nonces.Selected?
    && IsUseOf(NewSessionFor(r, s.keys[r.keyId].accesses[r.access], nonces.nonces), v)
  }

  lemma StartsAtWindow(s: State, r: SignRequest, nonces: SessionNonces, v: Use)
    requires NextUse(s, r, nonces, v)
    ensures v.lo == EntryFor(s.cache, v.device, v.stream).index
  {
    SelectionIsPrefix(s.cache, r.devices, UsedStreams(s.active), r.nSignatures, nonces.nonces, v.device);
  }

  /** A use whose session is closed, and one more segment of its stream: the next session that takes its nonces from
      that stream starts behind the use unless the segment takes the window back; if it does, the session
      uses an index again exactly if it reaches up to the use. */
  lemma NextSessionOverlaps(s: State, u: Use, new_: Segment, t: State, r: SignRequest, nonces: SessionNonces, v: Use)
    requires ValidCache(s.cache) && Closed(s, u) && new_.stream == u.stream
    requires t.cache == ExtendCache(s.cache, u.device, new_).0
    requires NextUse(t, r, nonces, v) && v.device == u.device && v.stream == u.stream
    ensures u.hi <= v.lo <==> !Rewinds(s.cache, u.device, new_, u.hi)
    ensures Overlap(u, v) <==> Rewinds(s.cache, u.device, new_, u.hi) && v.hi > u.lo
  {
    SegmentRewinds(s.cache, u.device, new_, u.hi);
    StartsAtWindow(t, r, nonces, v);
  }
}
