/**
 Whole runs of the coordinator's operations on keys and signing sessions.
 */
module CoordinatorRuns {
  import opened Common
  import opened NonceStream
  import opened CoordNonces
  import opened Coordinator

  datatype Op =
    | ChangeKey(mutation: Mutation)
    | RemoveShare(keyId: KeyId, access: AccessId, device: DeviceId)
    | RemoveKey(keyId: KeyId)
    | RecvSegment(device: DeviceId, segment: Segment)
    // `nonces` is what the cache answered.
    | Start(request: SignRequest, nonces: SessionNonces)
    | RequestSign(sid: SessionId, device: DeviceId, encryptionKey: SymmetricKey)
    | RecvShares(sid: SessionId, device: DeviceId, shares: seq<Share>, replenish: Option<Segment>)
    | Cancel(sid: SessionId)
    | Forget(sid: SessionId)

  // What callers must see to: session ids are hashes that do not repeat.
  ghost predicate Admissible(s: State, op: Op) {
    match op
    case ChangeKey(m) => m.NewKey? || m.NewAccess? || m.NewShare?
    case Start(r, nonces) => r.sessionId !in s.active && (!StartRefused(s, r) ==> IsStart(s, r, nonces))
    case _ => true
  }

  // `None` is a panic.
  ghost function Step(f: Frost, c: Coord, op: Op): (r: Option<Coord>)
    requires ValidCache(c.state.cache) && Admissible(c.state, op)
    ensures r.Some? ==> ValidCache(r.value.state.cache)
  {
    var s := c.state;
    match op
    case ChangeKey(m) => Mutated(c, m)
    case RemoveShare(keyId, access, device) => ShareRemoved(c, keyId, access, device)
    case RemoveKey(keyId) => if keyId in s.keys then Mutated(c, DeleteKey(keyId)) else Some(c)
    case RecvSegment(device, segment) => Received(c, device, segment)
    case Start(r, nonces) => if StartRefused(s, r) then Some(c) else Started(f, c, r, nonces)
    case RequestSign(sid, device, encryptionKey) => if RequestPanics(s, sid, device, encryptionKey) then None else Mutated(c, SentSignReq(sid, device))
    case RecvShares(sid, device, shares, replenish) => SharesReceived(f, c, sid, device, shares, replenish)
    case Cancel(sid) => Mutated(c, CloseSession(sid, None))
    case Forget(sid) => if sid in s.finished then Mutated(c, ForgetFinished(sid)) else Some(c)
  }

  // ---------------------------------------------------------------------------------------------
  // Lists that enumerate maps

  ghost predicate Enumerates<T(!new)>(list: seq<T>, keys: set<T>) {
    && (forall i, j :: 0 <= i < j < |list| ==> list[i] != list[j])
    && (forall x :: x in list <==> x in keys)
  }

  lemma {:induction false} RemovedEnumerates<T(!new)>(list: seq<T>, keys: set<T>, x: T)
    requires Enumerates(list, keys) && x in keys
    ensures Enumerates(RemoveFirst(list, x), keys - {x})
  {
    if list[0] == x {
      assert list == [list[0]] + list[1..];
    } else {
      var rest := list[1..];
      assert list == [list[0]] + rest;
      forall y ensures y in rest <==> y in keys - {list[0]} {
        if y in rest {
          var i :| 0 <= i < |rest| && rest[i] == y;
          assert list[i + 1] == y;
        }
      }
      RemovedEnumerates(rest, keys - {list[0]}, x);
      assert keys - {list[0]} - {x} == keys - {x} - {list[0]};
    }
  }

  lemma {:induction false} RetainedEnumerates<T(!new)>(list: seq<T>, keys: set<T>, x: T)
    requires Enumerates(list, keys)
    ensures Enumerates(Retain(list, x), keys - {x})
  {
    if list != [] {
      var rest := list[1..];
      assert list == [list[0]] + rest;
      forall y ensures y in rest <==> y in keys - {list[0]} {
        if y in rest {
          var i :| 0 <= i < |rest| && rest[i] == y;
          assert list[i + 1] == y;
        }
      }
      RetainedEnumerates(rest, keys - {list[0]}, x);
      var kept := Retain(rest, x);
      assert forall i :: 0 <= i < |kept| ==> kept[i] in kept;
    }
  }

  // ---------------------------------------------------------------------------------------------
  // The invariant

  // Every session's key and access structure exist, apart from sessions of a key being deleted.
  ghost predicate SessionsOk(s: State, deleted: Option<KeyId>) {
    forall sid :: sid in s.active ==>
      && s.active[sid].init.group.sessionId == sid
      && (Some(s.active[sid].keyId) == deleted || HasAccess(s.keys, s.active[sid].keyId, s.active[sid].init.group.access))
  }

  // No stream is held by two sessions.
  ghost predicate StreamsApart(active: map<SessionId, ActiveSession>) {
    forall a, b, d, e :: a in active && b in active && a != b && d in active[a].init.nonces && e in active[b].init.nonces ==>
      active[a].init.nonces[d].stream != active[b].init.nonces[e].stream
  }

  ghost predicate InvUpTo(s: State, deleted: Option<KeyId>) {
    && ValidCache(s.cache)
    && Enumerates(s.keyOrder, s.keys.Keys)
    && Enumerates(s.order, s.active.Keys)
    && SessionsOk(s, deleted)
    && StreamsApart(s.active)
  }

  ghost predicate Inv(s: State) {
    InvUpTo(s, None)
  }

  lemma CloseKeepsInv(s: State, deleted: Option<KeyId>, sid: SessionId, signatures: Option<Signatures>)
    requires InvUpTo(s, deleted) && Close(s, sid, signatures).Applied?
    ensures var t := Close(s, sid, signatures).state;
            InvUpTo(t, deleted) && t.active == s.active - {sid} && t.keys == s.keys
  {
    if sid in s.order {
      RemovedEnumerates(s.order, s.active.Keys, sid);
      assert (s.active - {sid}).Keys == s.active.Keys - {sid};
    } else {
      assert s.active - {sid} == s.active;
    }
  }

  lemma {:induction false} CloseAllKeepsInv(s: State, deleted: Option<KeyId>, sids: set<SessionId>)
    requires InvUpTo(s, deleted) && CloseAll(s, sids).Applied?
    ensures var t := CloseAll(s, sids).state;
            InvUpTo(t, deleted) && t.active == s.active - sids && t.keys == s.keys
    decreases |sids|
  {
    if sids == {} {
      assert s.active - sids == s.active;
    } else {
      var sid := Least(sids);
      CloseKeepsInv(s, deleted, sid, None);
      CloseAllKeepsInv(Close(s, sid, None).state, deleted, sids - {sid});
      assert s.active - {sid} - (sids - {sid}) == s.active - sids;
    }
  }

  lemma DeleteKeyKeepsInv(s: State, keyId: KeyId)
    requires Inv(s) && Apply(s, DeleteKey(keyId)).Applied?
    ensures Inv(Apply(s, DeleteKey(keyId)).state)
  {
    if keyId in s.keys {
      var t := s.(keys := s.keys - {keyId}, keyOrder := Retain(s.keyOrder, keyId));
      RetainedEnumerates(s.keyOrder, s.keys.Keys, keyId);
      assert t.keys.Keys == s.keys.Keys - {keyId};
      assert InvUpTo(t, Some(keyId));
      CloseAllKeepsInv(t, Some(keyId), SessionsOf(s, keyId));
    }
  }

  // The mutations that replace an active session by one with the same identity.
  lemma SameSessions(s: State, t: State)
    requires Inv(s) && ValidCache(t.cache) && t.keyOrder == s.keyOrder && t.order == s.order
    requires t.active.Keys == s.active.Keys && t.keys.Keys == s.keys.Keys
    requires forall sid :: sid in s.active ==> t.active[sid].init == s.active[sid].init && t.active[sid].keyId == s.active[sid].keyId
    requires forall k :: k in s.keys ==> s.keys[k].accesses.Keys <= t.keys[k].accesses.Keys
    ensures Inv(t)
  {
  }

  lemma NewKeyKeepsInv(s: State, m: Mutation)
    requires Inv(s) && m.NewKey?
    ensures Inv(ApplyKey(s, m).state)
  {
    var t := ApplyKey(s, m).state;
    assert m.keyId !in s.keys ==> t.keys.Keys == s.keys.Keys + {m.keyId};
  }

  lemma WithAccessKeepsInv(s: State, keyId: KeyId, access: AccessId, value: Access)
    requires Inv(s) && keyId in s.keys
    ensures Inv(s.(keys := WithAccess(s.keys, keyId, access, value)))
  {
    var t := s.(keys := WithAccess(s.keys, keyId, access, value));
    assert t.keys.Keys == s.keys.Keys;
    SameSessions(s, t);
  }

  lemma WithSessionKeepsInv(s: State, sid: SessionId, session: ActiveSession)
    requires Inv(s) && sid in s.active && session.init == s.active[sid].init && session.keyId == s.active[sid].keyId
    ensures Inv(s.(active := s.active[sid := session]))
  {
    var t := s.(active := s.active[sid := session]);
    assert t.active.Keys == s.active.Keys;
    SameSessions(s, t);
  }

  lemma AccessMutationKeepsInv(s: State, m: Mutation)
    requires Inv(s) && (m.NewAccess? || m.NewShare? || m.DeleteShare?)
    ensures Inv(ApplyKey(s, m).state)
  {
    if ApplyKey(s, m).recorded {
      var value := ApplyKey(s, m).state.keys[m.keyId].accesses[m.access];
      WithAccessKeepsInv(s, m.keyId, m.access, value);
    }
  }

  lemma ProgressMutationKeepsInv(s: State, m: Mutation)
    requires Inv(s) && (m.GotShares? || m.SentSignReq?)
    ensures Inv(Apply(s, m).state)
  {
    if m.sid in s.active && Apply(s, m).recorded {
      WithSessionKeepsInv(s, m.sid, Apply(s, m).state.active[m.sid]);
    }
  }

  // A session that may be opened.
  ghost predicate Opens(s: State, session: ActiveSession) {
    && session.init.group.sessionId !in s.active
    && HasAccess(s.keys, session.keyId, session.init.group.access)
    && forall d :: d in session.init.nonces ==> session.init.nonces[d].stream !in UsedStreams(s.active)
  }

  lemma NewSessionKeepsInv(s: State, session: ActiveSession)
    requires Inv(s) && Opens(s, session)
    ensures Inv(Apply(s, NewSession(session)).state)
  {
    var t := Apply(s, NewSession(session)).state;
    var sid := session.init.group.sessionId;
    assert t.active.Keys == s.active.Keys + {sid};
    forall a, d | a in s.active && d in s.active[a].init.nonces
      ensures s.active[a].init.nonces[d].stream in UsedStreams(s.active) {
    }
  }

  lemma ApplyKeepsInv(s: State, m: Mutation)
    requires Inv(s) && Apply(s, m).Applied?
    requires m.NewSession? ==> Opens(s, m.session)
    ensures Inv(Apply(s, m).state)
  {
    if m.DeleteKey? {
      DeleteKeyKeepsInv(s, m.keyId);
    } else if m.NewSession? {
      NewSessionKeepsInv(s, m.session);
    } else if m.CloseSession? {
      CloseKeepsInv(s, None, m.sid, m.signatures);
    } else if m.NewNonces? {
      SameSessions(s, Apply(s, m).state);
    } else if m.NewKey? {
      NewKeyKeepsInv(s, m);
    } else if m.NewAccess? || m.NewShare? || m.DeleteShare? {
      AccessMutationKeepsInv(s, m);
    } else if m.GotShares? || m.SentSignReq? {
      ProgressMutationKeepsInv(s, m);
    }
  }

  lemma StartOpens(s: State, r: SignRequest, nonces: SessionNonces)
    requires Inv(s) && Admissible(s, Start(r, nonces)) && !StartRefused(s, r) && nonces.Selected?
    ensures Opens(s, NewSessionFor(r, s.keys[r.keyId].accesses[r.access], nonces.nonces))
  {
    var session := NewSessionFor(r, s.keys[r.keyId].accesses[r.access], nonces.nonces);
    forall d | d in session.init.nonces ensures session.init.nonces[d].stream !in UsedStreams(s.active) {
      SelectionIsPrefix(s.cache, r.devices, UsedStreams(s.active), r.nSignatures, nonces.nonces, d);
    }
  }

  lemma StepKeepsInv(f: Frost, c: Coord, op: Op)
    requires Inv(c.state) && Admissible(c.state, op) && Step(f, c, op).Some?
    ensures Inv(Step(f, c, op).value.state)
  {
    var s := c.state;
    match op
    case ChangeKey(m) => ApplyKeepsInv(s, m);
    case RemoveShare(keyId, access, device) => ApplyKeepsInv(s, DeleteShare(keyId, access, device));
    case RemoveKey(keyId) => if keyId in s.keys { ApplyKeepsInv(s, DeleteKey(keyId)); }
    case RecvSegment(device, segment) =>
      if CheckCanExtend(s.cache, device, segment).MayExtend? { ApplyKeepsInv(s, NewNonces(device, segment)); }
    case Start(r, nonces) =>
      if !StartRefused(s, r) && nonces.Selected? {
        StartOpens(s, r, nonces);
        ApplyKeepsInv(s, NewSession(NewSessionFor(r, s.keys[r.keyId].accesses[r.access], nonces.nonces)));
      }
    case RequestSign(sid, device, _) => ApplyKeepsInv(s, SentSignReq(sid, device));
    case RecvShares(sid, device, shares, replenish) => RecvKeepsInv(f, c, op);
    case Cancel(sid) => ApplyKeepsInv(s, CloseSession(sid, None));
    case Forget(sid) => ApplyKeepsInv(s, ForgetFinished(sid));
  }

  lemma RecvKeepsInv(f: Frost, c: Coord, op: Op)
    requires Inv(c.state) && op.RecvShares? && Step(f, c, op).Some?
    ensures Inv(Step(f, c, op).value.state)
  {
    var s := c.state;
    if op.sid in s.active && AcceptsShares(f, s, op.sid, op.device, op.shares) {
      ApplyKeepsInv(s, GotShares(op.sid, op.device, op.shares));
      var got := Mutated(c, GotShares(op.sid, op.device, op.shares)).value;
      var more := got;
      if op.replenish.Some? {
        ApplyKeepsInv(got.state, NewNonces(op.device, op.replenish.value));
        more := Mutated(got, NewNonces(op.device, op.replenish.value)).value;
      }
      if op.sid in more.state.active && AllFinished(more.state.active[op.sid]) {
        ApplyKeepsInv(more.state, CloseSession(op.sid, Some(Combined(f, more.state.active[op.sid]))));
      }
    }
  }

  // ---------------------------------------------------------------------------------------------
  // Runs

  // `trace` is a run of `ops` from an empty coordinator in which nothing panicked.
  ghost predicate IsRun(f: Frost, ops: seq<Op>, trace: seq<Coord>) {
    && |trace| == |ops| + 1
    && trace[0] == Coord(EMPTY, [])
    && (forall i :: 0 <= i < |trace| ==> ValidCache(trace[i].state.cache))
    && (forall i :: 0 <= i < |ops| ==> Admissible(trace[i].state, ops[i]) && Step(f, trace[i], ops[i]) == Some(trace[i + 1]))
  }

  lemma RunStep(f: Frost, ops: seq<Op>, trace: seq<Coord>, k: nat)
    requires IsRun(f, ops, trace) && k < |ops|
    ensures ValidCache(trace[k].state.cache) && Admissible(trace[k].state, ops[k]) && Step(f, trace[k], ops[k]) == Some(trace[k + 1])
  {
  }

  lemma RunExtends(f: Frost, ops: seq<Op>, trace: seq<Coord>, op: Op)
    requires IsRun(f, ops, trace) && Admissible(trace[|ops|].state, op) && Step(f, trace[|ops|], op).Some?
    ensures IsRun(f, ops + [op], trace + [Step(f, trace[|ops|], op).value])
  {
  }

  /** In every run, the key and session lists enumerate their maps without duplicates, the key and
      access structure of every active session exist, and no two active sessions hold one stream. */
  lemma {:induction false} RunKeepsInv(f: Frost, ops: seq<Op>, trace: seq<Coord>, i: nat)
    requires IsRun(f, ops, trace) && i < |trace|
    ensures Inv(trace[i].state)
  {
    if i > 0 {
      RunKeepsInv(f, ops, trace, i - 1);
      StepKeepsInv(f, trace[i - 1], ops[i - 1]);
    }
  }
}
