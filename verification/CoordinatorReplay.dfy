/**
 Rebuilding the coordinator from its recorded mutations.

 Replaying the log gives the state back, up to windows that are empty at index 0: `extend_segment` can
 leave one behind without a mutation being recorded, so the replayed cache need not be equal to the
 cache. Mutations treat such a window like no window at all (`ApplyAlike`); which of the functions that
 read the cache do so is the subject of `CoordinatorReaders`.
 */
module CoordinatorReplay {
  import opened Common
  import opened NonceStream
  import opened CoordNonces
  import opened Coordinator
  import opened CoordinatorRuns

  ghost function Replay(log: seq<Mutation>): (r: Option<State>)
    ensures r.Some? ==> ValidCache(r.value.cache)
  {
    if log == [] then Some(EMPTY)
    else
      match Replay(log[..|log| - 1])
      case None => None
      case Some(s) =>
        match Apply(s, log[|log| - 1])
        case ApplyPanics => None
        case Applied(t, _) => Some(t)
  }

  // Equal if a missing window is taken for the empty one at index 0.
  ghost predicate SameCache(a: Cache, b: Cache) {
    forall d, s :: EntryFor(a, d, s) == EntryFor(b, d, s)
  }

  ghost predicate Alike(s: State, t: State) {
    SameCache(s.cache, t.cache) && t == s.(cache := t.cache)
  }

  // Closing `session` consumes nothing that is not there.
  ghost predicate Backed(c: Cache, session: ActiveSession) {
    forall d :: d in session.init.nonces ==>
      Lookup(c, d, session.init.nonces[d].stream).Some? || ConsumePoint(session, d) == 0
  }

  ghost predicate AllBacked(s: State) {
    forall sid :: sid in s.active ==> Backed(s.cache, s.active[sid])
  }

  // What a new session takes from the cache.
  ghost predicate TakenFrom(c: Cache, session: ActiveSession) {
    forall d :: d in session.init.nonces ==> ConsumePoint(session, d) <= End(EntryFor(c, d, session.init.nonces[d].stream))
  }

  lemma ExtendsAlike(a: Cache, b: Cache, d: DeviceId, new_: Segment)
    requires ValidCache(a) && ValidCache(b) && SameCache(a, b)
    ensures ExtendCache(a, d, new_).1 == ExtendCache(b, d, new_).1
    ensures SameCache(ExtendCache(a, d, new_).0, ExtendCache(b, d, new_).0)
  {
    assert EntryFor(a, d, new_.stream) == EntryFor(b, d, new_.stream);
    var x, y := ExtendCache(a, d, new_).0, ExtendCache(b, d, new_).0;
    forall e, s ensures EntryFor(x, e, s) == EntryFor(y, e, s) {
      assert EntryFor(a, e, s) == EntryFor(b, e, s);
    }
  }

  lemma ConsumedAlike(a: Cache, b: Cache, session: ActiveSession)
    requires SameCache(a, b) && Backed(a, session) && Backed(b, session)
    ensures ClosePanics(a, session) <==> ClosePanics(b, session)
    ensures !ClosePanics(a, session) ==>
              SameCache(ConsumedFor(a, session, session.init.nonces.Keys), ConsumedFor(b, session, session.init.nonces.Keys))
  {
    forall d | Consumes(session, d) ensures ClosePanicsAt(a, session, d) <==> ClosePanicsAt(b, session, d) {
      assert EntryFor(a, d, session.init.nonces[d].stream) == EntryFor(b, d, session.init.nonces[d].stream);
    }
    if !ClosePanics(a, session) {
      var x, y := ConsumedFor(a, session, session.init.nonces.Keys), ConsumedFor(b, session, session.init.nonces.Keys);
      forall d, s ensures EntryFor(x, d, s) == EntryFor(y, d, s) {
        assert EntryFor(a, d, s) == EntryFor(b, d, s);
        if Consumes(session, d) && s == session.init.nonces[d].stream {
          assert !ClosePanicsAt(a, session, d);
        }
      }
    }
  }

  lemma CloseKeepsBacked(s: State, sid: SessionId, signatures: Option<Signatures>)
    requires AllBacked(s) && Close(s, sid, signatures).Applied?
    ensures AllBacked(Close(s, sid, signatures).state)
  {
    var t := Close(s, sid, signatures).state;
    forall a | a in t.active ensures Backed(t.cache, t.active[a]) {
      assert Backed(s.cache, s.active[a]);
    }
  }

  lemma CloseAlike(s: State, t: State, sid: SessionId, signatures: Option<Signatures>)
    requires Alike(s, t) && AllBacked(s) && AllBacked(t)
    ensures Close(t, sid, signatures).Applied? <==> Close(s, sid, signatures).Applied?
    ensures Close(s, sid, signatures).Applied? ==>
              && Alike(Close(s, sid, signatures).state, Close(t, sid, signatures).state)
              && AllBacked(Close(s, sid, signatures).state) && AllBacked(Close(t, sid, signatures).state)
  {
    if sid in s.order && sid in s.active {
      ConsumedAlike(s.cache, t.cache, s.active[sid]);
    }
    if Close(s, sid, signatures).Applied? {
      CloseKeepsBacked(s, sid, signatures);
      CloseKeepsBacked(t, sid, signatures);
    }
  }

  lemma {:induction false} CloseAllAlike(s: State, t: State, sids: set<SessionId>)
    requires Alike(s, t) && AllBacked(s) && AllBacked(t) && CloseAll(s, sids).Applied?
    ensures CloseAll(t, sids).Applied?
    ensures Alike(CloseAll(s, sids).state, CloseAll(t, sids).state)
    ensures AllBacked(CloseAll(s, sids).state) && AllBacked(CloseAll(t, sids).state)
    decreases |sids|
  {
    if sids != {} {
      var sid := Least(sids);
      CloseAlike(s, t, sid, None);
      CloseAllAlike(Close(s, sid, None).state, Close(t, sid, None).state, sids - {sid});
    }
  }

  lemma ExtendKeepsBacked(s: State, m: Mutation)
    requires ValidCache(s.cache) && AllBacked(s) && m.NewNonces? && Apply(s, m).Applied?
    ensures AllBacked(Apply(s, m).state)
  {
    var t := Apply(s, m).state;
    forall a | a in t.active ensures Backed(t.cache, t.active[a]) {
      assert Backed(s.cache, s.active[a]);
    }
  }

  lemma OpenKeepsBacked(s: State, session: ActiveSession)
    requires ValidCache(s.cache) && AllBacked(s) && TakenFrom(s.cache, session)
    ensures AllBacked(Apply(s, NewSession(session)).state)
  {
    var t := Apply(s, NewSession(session)).state;
    forall a | a in t.active ensures Backed(t.cache, t.active[a]) {
      if a in s.active {
        assert Backed(s.cache, s.active[a]);
      }
    }
  }

  lemma ProgressKeepsBacked(s: State, m: Mutation)
    requires ValidCache(s.cache) && AllBacked(s) && (m.GotShares? || m.SentSignReq?)
    ensures AllBacked(Apply(s, m).state)
  {
    var t := Apply(s, m).state;
    forall a | a in t.active ensures Backed(t.cache, t.active[a]) {
      assert Backed(s.cache, s.active[a]);
      assert forall d :: d in t.active[a].init.nonces ==> ConsumePoint(t.active[a], d) == ConsumePoint(s.active[a], d);
    }
  }

  /** States that differ only by windows empty at index 0, and in which every session has its windows, stay so
      under a mutation that applies to one of them: it applies to the other too. */
  lemma ApplyAlike(s: State, t: State, m: Mutation)
    requires ValidCache(s.cache) && ValidCache(t.cache)
    requires Alike(s, t) && AllBacked(s) && AllBacked(t) && Apply(s, m).Applied?
    requires m.NewSession? ==> TakenFrom(s.cache, m.session)
    ensures Apply(t, m).Applied? && Alike(Apply(s, m).state, Apply(t, m).state)
    ensures AllBacked(Apply(s, m).state) && AllBacked(Apply(t, m).state)
  {
    if m.DeleteKey? {
      if m.keyId in s.keys {
        var s' := s.(keys := s.keys - {m.keyId}, keyOrder := Retain(s.keyOrder, m.keyId));
        var t' := t.(keys := t.keys - {m.keyId}, keyOrder := Retain(t.keyOrder, m.keyId));
        assert SessionsOf(s, m.keyId) == SessionsOf(t, m.keyId);
        CloseAllAlike(s', t', SessionsOf(s, m.keyId));
      }
    } else if m.CloseSession? {
      CloseAlike(s, t, m.sid, m.signatures);
    } else if m.NewNonces? {
      ExtendsAlike(s.cache, t.cache, m.device, m.segment);
      ExtendKeepsBacked(s, m);
      ExtendKeepsBacked(t, m);
    } else if m.NewSession? {
      forall d | d in m.session.init.nonces
        ensures ConsumePoint(m.session, d) <= End(EntryFor(t.cache, d, m.session.init.nonces[d].stream)) {
        assert EntryFor(s.cache, d, m.session.init.nonces[d].stream) == EntryFor(t.cache, d, m.session.init.nonces[d].stream);
      }
      OpenKeepsBacked(s, m.session);
      OpenKeepsBacked(t, m.session);
    } else if m.GotShares? || m.SentSignReq? {
      ProgressKeepsBacked(s, m);
      ProgressKeepsBacked(t, m);
    } else {
      assert Apply(s, m).state.active == s.active && Apply(s, m).state.cache == s.cache;
      assert Apply(t, m).state.active == t.active && Apply(t, m).state.cache == t.cache;
    }
  }

  // ---------------------------------------------------------------------------------------------
  // Mutations that are not recorded

  // A segment for a stream without a window, which does not fit 32 bits or is empty at index 0.
  ghost predicate Phantom(s: State, m: Mutation) {
    m.NewNonces? && Lookup(s.cache, m.device, m.segment.stream).None? && (!Fits(m.segment) || EmptyAtZero(m.segment))
  }

  lemma UnrecordedSegment(c: Cache, d: DeviceId, new_: Segment)
    requires ValidCache(c)
    ensures var (cache, outcome) := ExtendCache(c, d, new_);
            !outcome.Changed? && !outcome.CacheExtendPanics? ==>
              && SameCache(c, cache)
              && (cache != c <==> Lookup(c, d, new_.stream).None? && (!Fits(new_) || EmptyAtZero(new_)))
    ensures Lookup(c, d, new_.stream).None? && (!Fits(new_) || EmptyAtZero(new_)) ==>
              ExtendCache(c, d, new_).1.Unchanged? || ExtendCache(c, d, new_).1.Rejected?
  {
    var entry := EntryFor(c, d, new_.stream);
    PutTwice(c, d, new_.stream, entry, entry);
    assert Lookup(Put(c, d, new_.stream, entry), d, new_.stream).Some?;
  }

  /** A mutation changes the state without being recorded exactly when it is a phantom, and then by one
      window empty at index 0. */
  lemma UnrecordedMutation(s: State, m: Mutation)
    requires ValidCache(s.cache)
    ensures Apply(s, m).Applied? && !Apply(s, m).recorded ==> Alike(s, Apply(s, m).state)
    ensures Phantom(s, m) <==> Apply(s, m).Applied? && !Apply(s, m).recorded && Apply(s, m).state != s
  {
    if m.NewNonces? {
      UnrecordedSegment(s.cache, m.device, m.segment);
    } else if m.DeleteKey? && m.keyId in s.keys {
      CloseAllIsRecorded(s.(keys := s.keys - {m.keyId}, keyOrder := Retain(s.keyOrder, m.keyId)), SessionsOf(s, m.keyId));
    }
  }

  // ---------------------------------------------------------------------------------------------
  // Which windows there are

  // A device has an entry only together with a stream.
  ghost predicate NoEmptyDevice(c: Cache) {
    forall d :: d in c ==> exists s :: s in c[d]
  }

  predicate Targets(m: Mutation, d: DeviceId, s: StreamId) {
    m.NewNonces? && m.device == d && m.segment.stream == s
  }

  ghost predicate Named(log: seq<Mutation>, d: DeviceId, s: StreamId) {
    exists k :: 0 <= k < |log| && Targets(log[k], d, s)
  }

  lemma {:induction false} CloseAllKeepsWindows(s: State, sids: set<SessionId>, d: DeviceId, stream: StreamId)
    requires CloseAll(s, sids).Applied?
    ensures var c := CloseAll(s, sids).state.cache;
            && (Lookup(c, d, stream).Some? <==> Lookup(s.cache, d, stream).Some?)
            && (NoEmptyDevice(s.cache) ==> NoEmptyDevice(c))
    decreases |sids|
  {
    if sids != {} {
      var sid := Least(sids);
      CloseKeepsWindows(s, sid, None, d, stream);
      CloseAllKeepsWindows(Close(s, sid, None).state, sids - {sid}, d, stream);
    }
  }

  lemma CloseKeepsWindows(s: State, sid: SessionId, signatures: Option<Signatures>, d: DeviceId, stream: StreamId)
    requires Close(s, sid, signatures).Applied?
    ensures var c := Close(s, sid, signatures).state.cache;
            && (Lookup(c, d, stream).Some? <==> Lookup(s.cache, d, stream).Some?)
            && (NoEmptyDevice(s.cache) ==> NoEmptyDevice(c))
  {
    if sid in s.order {
      var c := Close(s, sid, signatures).state.cache;
      assert forall e :: e in c ==> e in s.cache && c[e].Keys == s.cache[e].Keys;
    }
  }

  /** Windows come into being by segments and never disappear. */
  lemma ApplyKeepsWindows(s: State, m: Mutation, d: DeviceId, stream: StreamId)
    requires ValidCache(s.cache) && Apply(s, m).Applied?
    ensures var c := Apply(s, m).state.cache;
            && (Lookup(c, d, stream).Some? <==> Lookup(s.cache, d, stream).Some? || Targets(m, d, stream))
            && (NoEmptyDevice(s.cache) ==> NoEmptyDevice(c))
  {
    if m.DeleteKey? {
      if m.keyId in s.keys {
        CloseAllKeepsWindows(s.(keys := s.keys - {m.keyId}, keyOrder := Retain(s.keyOrder, m.keyId)), SessionsOf(s, m.keyId), d, stream);
      }
    } else if m.CloseSession? {
      CloseKeepsWindows(s, m.sid, m.signatures, d, stream);
    } else if m.NewNonces? {
      ExtendKeepsWindows(s.cache, m.device, m.segment, d, stream);
    }
  }

  lemma ExtendKeepsWindows(cache: Cache, device: DeviceId, segment: Segment, d: DeviceId, stream: StreamId)
    requires ValidCache(cache)
    ensures var c := ExtendCache(cache, device, segment).0;
            && (Lookup(c, d, stream).Some? <==> Lookup(cache, d, stream).Some? || (device == d && segment.stream == stream))
            && (NoEmptyDevice(cache) ==> NoEmptyDevice(c))
  {
    var c := ExtendCache(cache, device, segment).0;
    assert segment.stream in c[device];
    assert forall e :: e in c && e != device ==> e in cache && c[e] == cache[e];
  }

  lemma NamedAppend(log: seq<Mutation>, m: Mutation, d: DeviceId, s: StreamId)
    ensures Named(log + [m], d, s) <==> Named(log, d, s) || Targets(m, d, s)
  {
    assert (log + [m])[|log|] == m;
    if Named(log, d, s) {
      var k :| 0 <= k < |log| && Targets(log[k], d, s);
      assert Targets((log + [m])[k], d, s);
    }
  }

  // The replayed cache has a window exactly where the log names one.
  lemma {:induction false} ReplayedWindows(log: seq<Mutation>, d: DeviceId, s: StreamId)
    requires Replay(log).Some?
    ensures Lookup(Replay(log).value.cache, d, s).Some? <==> Named(log, d, s)
    ensures NoEmptyDevice(Replay(log).value.cache)
  {
    if log != [] {
      var init, last := log[..|log| - 1], log[|log| - 1];
      ReplayedWindows(init, d, s);
      ApplyKeepsWindows(Replay(init).value, last, d, s);
      NamedAppend(init, last, d, s);
      assert log == init + [last];
    }
  }

  lemma SameWindows(a: Cache, b: Cache)
    requires SameCache(a, b) && NoEmptyDevice(a) && NoEmptyDevice(b)
    requires forall d, s :: Lookup(a, d, s).Some? <==> Lookup(b, d, s).Some?
    ensures a == b
  {
    forall d ensures d in a <==> d in b {
      if d in a {
        var s :| s in a[d];
        assert Lookup(a, d, s).Some?;
      }
      if d in b {
        var s :| s in b[d];
        assert Lookup(b, d, s).Some?;
      }
    }
    forall d | d in a ensures a[d] == b[d] {
      forall s ensures s in a[d] <==> s in b[d] {
        assert Lookup(a, d, s).Some? <==> Lookup(b, d, s).Some?;
      }
      forall s | s in a[d] ensures a[d][s] == b[d][s] {
        assert EntryFor(a, d, s) == EntryFor(b, d, s);
      }
    }
  }

  lemma {:induction false} CloseAllIsRecorded(s: State, sids: set<SessionId>)
    ensures CloseAll(s, sids).Applied? ==> CloseAll(s, sids).recorded
    decreases |sids|
  {
    if sids != {} {
      var sid := Least(sids);
      if Close(s, sid, None).Applied? {
        CloseAllIsRecorded(Close(s, sid, None).state, sids - {sid});
      }
    }
  }

  // ---------------------------------------------------------------------------------------------
  // Replay

  // The log stands for the state.
  ghost predicate StandsFor(c: Coord) {
    && ValidCache(c.state.cache) && AllBacked(c.state)
    && Replay(c.log).Some? && AllBacked(Replay(c.log).value) && Alike(c.state, Replay(c.log).value)
  }

  // Every window the log names is there.
  ghost predicate HasNamed(c: Coord) {
    NoEmptyDevice(c.state.cache) && forall d, s :: Named(c.log, d, s) ==> Lookup(c.state.cache, d, s).Some?
  }

  // Every window that is there, the log names.
  ghost predicate NamesAll(c: Coord) {
    forall d, s :: Lookup(c.state.cache, d, s).Some? ==> Named(c.log, d, s)
  }

  lemma MutationHasNamed(c: Coord, m: Mutation)
    requires ValidCache(c.state.cache) && HasNamed(c) && Mutated(c, m).Some?
    ensures HasNamed(Mutated(c, m).value)
  {
    var next := Mutated(c, m).value;
    ApplyKeepsWindows(c.state, m, 0, 0);
    forall d, s | Named(next.log, d, s) ensures Lookup(next.state.cache, d, s).Some? {
      ApplyKeepsWindows(c.state, m, d, s);
      NamedAppend(c.log, m, d, s);
    }
  }

  lemma StepHasNamed(f: Frost, c: Coord, op: Op)
    requires ValidCache(c.state.cache) && HasNamed(c) && Admissible(c.state, op) && Step(f, c, op).Some?
    ensures HasNamed(Step(f, c, op).value)
  {
    var s := c.state;
    match op
    case ChangeKey(m) => MutationHasNamed(c, m);
    case RemoveShare(keyId, access, device) =>
      if Step(f, c, op) != Some(c) { MutationHasNamed(c, DeleteShare(keyId, access, device)); }
    case RemoveKey(keyId) => if keyId in s.keys { MutationHasNamed(c, DeleteKey(keyId)); }
    case RecvSegment(device, segment) =>
      if CheckCanExtend(s.cache, device, segment).MayExtend? { MutationHasNamed(c, NewNonces(device, segment)); }
    case Start(r, nonces) =>
      if !StartRefused(s, r) && nonces.Selected? {
        MutationHasNamed(c, NewSession(NewSessionFor(r, s.keys[r.keyId].accesses[r.access], nonces.nonces)));
      }
    case RequestSign(sid, device, _) => MutationHasNamed(c, SentSignReq(sid, device));
    case RecvShares(sid, device, shares, replenish) => RecvHasNamed(f, c, op);
    case Cancel(sid) => MutationHasNamed(c, CloseSession(sid, None));
    case Forget(sid) => if sid in s.finished { MutationHasNamed(c, ForgetFinished(sid)); }
  }

  lemma RecvHasNamed(f: Frost, c: Coord, op: Op)
    requires ValidCache(c.state.cache) && HasNamed(c) && op.RecvShares? && Step(f, c, op).Some?
    ensures HasNamed(Step(f, c, op).value)
  {
    var s := c.state;
    if op.sid in s.active && AcceptsShares(f, s, op.sid, op.device, op.shares) {
      MutationHasNamed(c, GotShares(op.sid, op.device, op.shares));
      var got := Mutated(c, GotShares(op.sid, op.device, op.shares)).value;
      var more := got;
      if op.replenish.Some? {
        MutationHasNamed(got, NewNonces(op.device, op.replenish.value));
        more := Mutated(got, NewNonces(op.device, op.replenish.value)).value;
      }
      if op.sid in more.state.active && AllFinished(more.state.active[op.sid]) {
        MutationHasNamed(more, CloseSession(op.sid, Some(Combined(f, more.state.active[op.sid]))));
      }
    }
  }

  // What stands for the state equals it if it has the same windows.
  lemma StandsExactly(c: Coord)
    requires StandsFor(c) && HasNamed(c)
    ensures Replay(c.log) == Some(c.state) <==> NamesAll(c)
  {
    var t := Replay(c.log).value;
    forall d, s ensures Lookup(t.cache, d, s).Some? <==> Named(c.log, d, s) {
      ReplayedWindows(c.log, d, s);
    }
    ReplayedWindows(c.log, 0, 0);
    if NamesAll(c) {
      SameWindows(c.state.cache, t.cache);
    }
  }

  lemma MutationStandsFor(c: Coord, m: Mutation)
    requires StandsFor(c) && Mutated(c, m).Some?
    requires m.NewSession? ==> TakenFrom(c.state.cache, m.session)
    ensures StandsFor(Mutated(c, m).value)
    ensures Replay(c.log).value == c.state && !Phantom(c.state, m) ==> Replay(Mutated(c, m).value.log).value == Mutated(c, m).value.state
  {
    var t := Replay(c.log).value;
    ApplyAlike(c.state, t, m);
    UnrecordedMutation(c.state, m);
    if Apply(c.state, m).recorded {
      assert (c.log + [m])[..|c.log|] == c.log;
    }
  }

  lemma StartTakes(s: State, r: SignRequest, nonces: SessionNonces)
    requires ValidCache(s.cache) && Admissible(s, Start(r, nonces)) && !StartRefused(s, r) && nonces.Selected?
    ensures TakenFrom(s.cache, NewSessionFor(r, s.keys[r.keyId].accesses[r.access], nonces.nonces))
  {
    var session := NewSessionFor(r, s.keys[r.keyId].accesses[r.access], nonces.nonces);
    forall d | d in session.init.nonces
      ensures ConsumePoint(session, d) <= End(EntryFor(s.cache, d, session.init.nonces[d].stream)) {
      SelectionIsPrefix(s.cache, r.devices, UsedStreams(s.active), r.nSignatures, nonces.nonces, d);
    }
  }

  // A step in which a received segment is a phantom.
  ghost predicate PhantomStep(s: State, op: Op) {
    match op
    case RecvSegment(device, segment) => Phantom(s, NewNonces(device, segment))
    case RecvShares(_, device, _, replenish) => replenish.Some? && Phantom(s, NewNonces(device, replenish.value))
    case _ => false
  }

  lemma StepStandsFor(f: Frost, c: Coord, op: Op)
    requires StandsFor(c) && Admissible(c.state, op) && Step(f, c, op).Some?
    ensures StandsFor(Step(f, c, op).value)
    ensures Replay(c.log).value == c.state && !PhantomStep(c.state, op) ==>
              Replay(Step(f, c, op).value.log).value == Step(f, c, op).value.state
  {
    var s := c.state;
    match op
    case ChangeKey(m) => MutationStandsFor(c, m);
    case RemoveShare(keyId, access, device) =>
      if Step(f, c, op) != Some(c) { MutationStandsFor(c, DeleteShare(keyId, access, device)); }
    case RemoveKey(keyId) => if keyId in s.keys { MutationStandsFor(c, DeleteKey(keyId)); }
    case RecvSegment(device, segment) =>
      if CheckCanExtend(s.cache, device, segment).MayExtend? { MutationStandsFor(c, NewNonces(device, segment)); }
    case Start(r, nonces) =>
      if !StartRefused(s, r) && nonces.Selected? {
        StartTakes(s, r, nonces);
        MutationStandsFor(c, NewSession(NewSessionFor(r, s.keys[r.keyId].accesses[r.access], nonces.nonces)));
      }
    case RequestSign(sid, device, _) => MutationStandsFor(c, SentSignReq(sid, device));
    case RecvShares(sid, device, shares, replenish) => RecvStandsFor(f, c, op);
    case Cancel(sid) => MutationStandsFor(c, CloseSession(sid, None));
    case Forget(sid) => if sid in s.finished { MutationStandsFor(c, ForgetFinished(sid)); }
  }

  lemma CompletedStandsFor(f: Frost, c: Coord, sid: SessionId)
    requires StandsFor(c) && Completed(f, c, sid).Some?
    ensures StandsFor(Completed(f, c, sid).value)
    ensures Replay(c.log).value == c.state ==> Replay(Completed(f, c, sid).value.log).value == Completed(f, c, sid).value.state
  {
    if sid in c.state.active && AllFinished(c.state.active[sid]) {
      MutationStandsFor(c, CloseSession(sid, Some(Combined(f, c.state.active[sid]))));
    }
  }

  lemma RecvStandsFor(f: Frost, c: Coord, op: Op)
    requires StandsFor(c) && op.RecvShares? && Step(f, c, op).Some?
    ensures StandsFor(Step(f, c, op).value)
    ensures Replay(c.log).value == c.state && !PhantomStep(c.state, op) ==>
              Replay(Step(f, c, op).value.log).value == Step(f, c, op).value.state
  {
    var s := c.state;
    if op.sid in s.active && AcceptsShares(f, s, op.sid, op.device, op.shares) {
      MutationStandsFor(c, GotShares(op.sid, op.device, op.shares));
      var got := Mutated(c, GotShares(op.sid, op.device, op.shares)).value;
      var more := got;
      if op.replenish.Some? {
        MutationStandsFor(got, NewNonces(op.device, op.replenish.value));
        more := Mutated(got, NewNonces(op.device, op.replenish.value)).value;
      }
      CompletedStandsFor(f, more, op.sid);
    }
  }

  lemma EmptyStandsFor()
    ensures StandsFor(Coord(EMPTY, [])) && Replay([]) == Some(EMPTY)
  {
  }

  // What the log tells of the state before an operation, it tells of the state after it.
  lemma RunStepStandsFor(f: Frost, ops: seq<Op>, trace: seq<Coord>, k: nat)
    requires IsRun(f, ops, trace) && k < |ops| && StandsFor(trace[k]) && HasNamed(trace[k])
    ensures StandsFor(trace[k + 1]) && HasNamed(trace[k + 1])
    ensures Replay(trace[k].log) == Some(trace[k].state) && !PhantomStep(trace[k].state, ops[k]) ==> Replay(trace[k + 1].log) == Some(trace[k + 1].state)
  {
    RunStep(f, ops, trace, k);
    StepStandsFor(f, trace[k], ops[k]);
    StepHasNamed(f, trace[k], ops[k]);
  }

  lemma {:induction false} RunStandsFor(f: Frost, ops: seq<Op>, trace: seq<Coord>, i: nat)
    requires IsRun(f, ops, trace) && i < |trace|
    ensures StandsFor(trace[i]) && HasNamed(trace[i])
    ensures (forall k :: 0 <= k < i ==> !PhantomStep(trace[k].state, ops[k])) ==> Replay(trace[i].log) == Some(trace[i].state)
  {
    if i == 0 {
      EmptyStandsFor();
    } else {
      RunStandsFor(f, ops, trace, i - 1);
      RunStepStandsFor(f, ops, trace, i - 1);
    }
  }

  /** In every run, replaying the recorded mutations from empty succeeds and rebuilds the state, except
      that a window empty at index 0 may be missing. It rebuilds exactly the state if and only if every
      window of the cache is the target of a recorded segment; and that is so if no segment received in
      the run was a phantom. */
  lemma ReplayRebuilds(f: Frost, ops: seq<Op>, trace: seq<Coord>, i: nat)
    requires IsRun(f, ops, trace) && i < |trace|
    ensures StandsFor(trace[i]) && HasNamed(trace[i])
    ensures Replay(trace[i].log) == Some(trace[i].state) <==> NamesAll(trace[i])
    ensures (forall k :: 0 <= k < i ==> !PhantomStep(trace[k].state, ops[k])) ==> Replay(trace[i].log) == Some(trace[i].state)
  {
    RunStandsFor(f, ops, trace, i);
    StandsExactly(trace[i]);
  }

  /** An instance of a run with a phantom that replay still rebuilds: a recorded segment follows. */
  lemma PhantomIsMadeGood(f: Frost, device: DeviceId, stream: StreamId, nonce: Nonce) returns (ops: seq<Op>, trace: seq<Coord>)
    ensures IsRun(f, ops, trace) && |ops| == 2 && PhantomStep(trace[0].state, ops[0])
    ensures Replay(trace[2].log) == Some(trace[2].state) && Lookup(trace[2].state.cache, device, stream).Some?
  {
    var first := Segment(stream, [nonce], 0);
    var c0 := Coord(EMPTY, []);
    var c1 := Coord(EMPTY.(cache := map[device := map[stream := EmptySegment(stream)]]), []);
    PhantomIsNotReplayed(f, device, stream);
    assert Step(f, c0, RecvSegment(device, EmptySegment(stream))) == Some(c1);
    FirstNonceIsRecorded(f, c1, device, first);
    ops, trace := [], [c0];
    RunExtends(f, ops, trace, RecvSegment(device, EmptySegment(stream)));
    ops, trace := ops + [RecvSegment(device, EmptySegment(stream))], trace + [c1];
    RunExtends(f, ops, trace, RecvSegment(device, first));
    ops, trace := ops + [RecvSegment(device, first)], trace + [Step(f, c1, RecvSegment(device, first)).value];
    ReplayRebuilds(f, ops, trace, 2);
    assert Targets(trace[2].log[0], device, stream);
    assert NamesAll(trace[2]);
  }

  lemma FirstNonceIsRecorded(f: Frost, c: Coord, device: DeviceId, first: Segment)
    requires c == Coord(EMPTY.(cache := map[device := map[first.stream := EmptySegment(first.stream)]]), [])
    requires first.index == 0 && |first.nonces| == 1
    ensures ValidCache(c.state.cache) && Step(f, c, RecvSegment(device, first)).Some?
    ensures var next := Step(f, c, RecvSegment(device, first)).value;
            && next.log == [NewNonces(device, first)] && Lookup(next.state.cache, device, first.stream).Some?
            && forall d, s :: Lookup(next.state.cache, d, s).Some? ==> d == device && s == first.stream
  {
    assert Lookup(c.state.cache, device, first.stream) == Some(EmptySegment(first.stream));
    assert Extend(EmptySegment(first.stream), first) == Extended(first);
  }

  /** An instance: the first segment of a stream arrives empty. Nothing is recorded, yet the cache has
      an entry that the replayed one lacks. */
  lemma PhantomIsNotReplayed(f: Frost, device: DeviceId, stream: StreamId)
    ensures var op := RecvSegment(device, EmptySegment(stream));
            var c := Coord(EMPTY, []);
            && Step(f, c, op).Some? && IsRun(f, [op], [c, Step(f, c, op).value])
            && Step(f, c, op).value.log == [] && Replay([]) == Some(EMPTY) && Step(f, c, op).value.state != EMPTY
  {
    UnrecordedMutation(EMPTY, NewNonces(device, EmptySegment(stream)));
  }
}
