/**
 Active signing sessions and the nonce windows they stand on, over whole runs.
 */
module CoordinatorWindows {
  import opened Common
  import opened NonceStream
  import opened CoordNonces
  import opened Coordinator
  import opened CoordinatorRuns

  // The cached window of each of the session's devices still covers what the session took from it.
  ghost predicate Covered(c: Cache, session: ActiveSession) {
    forall d :: d in session.init.nonces ==> CoversAt(c, session, d)
  }

  ghost predicate CoversAt(c: Cache, session: ActiveSession, d: DeviceId)
    requires d in session.init.nonces
  {
    var w := Lookup(c, d, session.init.nonces[d].stream);
    && w.Some?
    && w.value.index <= session.init.nonces[d].index
    && ConsumePoint(session, d) <= End(w.value) < U32_MAX
  }

  ghost predicate AllCovered(s: State) {
    forall sid :: sid in s.active ==> Covered(s.cache, s.active[sid])
  }

  ghost predicate ShortWindows(c: Cache) {
    forall d, s :: End(EntryFor(c, d, s)) < U32_MAX
  }

  ghost predicate IsHeld(s: State, d: DeviceId, stream: StreamId) {
    exists sid :: sid in s.active && d in s.active[sid].init.nonces && s.active[sid].init.nonces[d].stream == stream
  }

  // What a device may send: a non-empty segment that ends below u32::MAX and, for a stream that a
  // session is using, connects to the cached window.
  ghost predicate Connecting(s: State, d: DeviceId, new_: Segment) {
    && new_.nonces != [] && End(new_) < U32_MAX
    && (IsHeld(s, d, new_.stream) ==> Connects(EntryFor(s.cache, d, new_.stream), new_))
  }

  /** Closing a covered session trips neither the assertion of `consume` nor the debug assertions of
      `delete_up_to`, on any of its devices. */
  lemma CoveredCloses(c: Cache, session: ActiveSession)
    requires Covered(c, session)
    ensures !ClosePanics(c, session)
    ensures forall d :: Consumes(session, d) ==>
              && ConsumePoint(session, d) <= U32_MAX
              && DeletionAsserts(Lookup(c, d, session.init.nonces[d].stream).value, ConsumePoint(session, d))
  {
    forall d | Consumes(session, d)
      ensures !ClosePanicsAt(c, session, d) && ConsumePoint(session, d) <= U32_MAX
      ensures DeletionAsserts(Lookup(c, d, session.init.nonces[d].stream).value, ConsumePoint(session, d))
    {
      assert CoversAt(c, session, d);
    }
  }

  lemma ExtendKeepsRange(curr: Segment, new_: Segment, lo: nat, hi: nat)
    requires Fits(curr) && curr.index <= lo <= hi <= End(curr) < U32_MAX
    requires new_.stream == curr.stream && new_.nonces != [] && End(new_) < U32_MAX && Connects(curr, new_)
    ensures var r := Extend(curr, new_);
            r.Extended? && r.segment.index <= lo && hi <= End(r.segment) < U32_MAX
  {
  }

  lemma ExtendStaysShort(curr: Segment, new_: Segment)
    requires Fits(curr) && End(curr) < U32_MAX
    requires new_.stream == curr.stream && new_.nonces != [] && End(new_) < U32_MAX
    ensures var r := Extend(curr, new_);
            r.Extended? && End(r.segment) < U32_MAX
  {
  }

  // Segments of other streams, and connecting ones of this one, leave a session covered.
  lemma ExtendKeepsCovered(s: State, d: DeviceId, new_: Segment, session: ActiveSession, sid: SessionId)
    requires ValidCache(s.cache) && ShortWindows(s.cache) && Connecting(s, d, new_)
    requires sid in s.active && s.active[sid] == session && Covered(s.cache, session)
    ensures Covered(ExtendCache(s.cache, d, new_).0, session)
  {
    var c' := ExtendCache(s.cache, d, new_).0;
    forall e | e in session.init.nonces ensures CoversAt(c', session, e) {
      assert CoversAt(s.cache, session, e);
      var stream := session.init.nonces[e].stream;
      if e == d && stream == new_.stream {
        assert IsHeld(s, d, new_.stream);
        ExtendKeepsRange(Lookup(s.cache, d, stream).value, new_, session.init.nonces[e].index, ConsumePoint(session, e));
      } else {
        assert Lookup(c', e, stream) == Lookup(s.cache, e, stream);
      }
    }
  }

  lemma ExtendKeepsShort(c: Cache, d: DeviceId, new_: Segment)
    requires ValidCache(c) && ShortWindows(c) && new_.nonces != [] && End(new_) < U32_MAX
    ensures ShortWindows(ExtendCache(c, d, new_).0) && !ExtendCache(c, d, new_).1.CacheExtendPanics?
  {
    assert End(EntryFor(c, d, new_.stream)) < U32_MAX;
    ExtendStaysShort(EntryFor(c, d, new_.stream), new_);
    var c' := ExtendCache(c, d, new_).0;
    forall e, s ensures End(EntryFor(c', e, s)) < U32_MAX {
      assert End(EntryFor(c, e, s)) < U32_MAX;
    }
  }

  lemma ConsumedStaysShort(c: Cache, session: ActiveSession, d: DeviceId, stream: StreamId)
    requires Covered(c, session) && End(EntryFor(c, d, stream)) < U32_MAX
    ensures End(EntryFor(ConsumedFor(c, session, session.init.nonces.Keys), d, stream)) < U32_MAX
  {
    if Consumes(session, d) && stream == session.init.nonces[d].stream {
      assert CoversAt(c, session, d);
    }
  }

  lemma ClosedStaysShort(c: Cache, session: ActiveSession)
    requires Covered(c, session) && ShortWindows(c)
    ensures ShortWindows(ConsumedFor(c, session, session.init.nonces.Keys))
  {
    forall d, stream ensures End(EntryFor(ConsumedFor(c, session, session.init.nonces.Keys), d, stream)) < U32_MAX {
      ConsumedStaysShort(c, session, d, stream);
    }
  }

  // Closing one session consumes nothing that another one holds.
  lemma CloseKeepsCovered(s: State, deleted: Option<KeyId>, sid: SessionId, signatures: Option<Signatures>)
    requires InvUpTo(s, deleted) && AllCovered(s) && ShortWindows(s.cache)
    ensures Close(s, sid, signatures).Applied?
    ensures var t := Close(s, sid, signatures).state;
            AllCovered(t) && ShortWindows(t.cache)
  {
    if sid in s.order {
      assert sid in s.active.Keys;
      CoveredCloses(s.cache, s.active[sid]);
      ClosedStaysShort(s.cache, s.active[sid]);
      var t := Close(s, sid, signatures).state;
      forall a | a in t.active ensures Covered(t.cache, t.active[a]) {
        OthersStayCovered(s, deleted, sid, a);
      }
    }
  }

  lemma OthersStayCovered(s: State, deleted: Option<KeyId>, sid: SessionId, a: SessionId)
    requires InvUpTo(s, deleted) && sid in s.active && a in s.active && a != sid && Covered(s.cache, s.active[a])
    ensures Covered(ConsumedFor(s.cache, s.active[sid], s.active[sid].init.nonces.Keys), s.active[a])
  {
    var c' := ConsumedFor(s.cache, s.active[sid], s.active[sid].init.nonces.Keys);
    forall d | d in s.active[a].init.nonces ensures CoversAt(c', s.active[a], d) {
      assert CoversAt(s.cache, s.active[a], d);
      assert Lookup(c', d, s.active[a].init.nonces[d].stream) == Lookup(s.cache, d, s.active[a].init.nonces[d].stream);
    }
  }

  lemma {:induction false} CloseAllKeepsCovered(s: State, deleted: Option<KeyId>, sids: set<SessionId>)
    requires InvUpTo(s, deleted) && AllCovered(s) && ShortWindows(s.cache)
    ensures CloseAll(s, sids).Applied?
    ensures AllCovered(CloseAll(s, sids).state) && ShortWindows(CloseAll(s, sids).state.cache)
    decreases |sids|
  {
    if sids != {} {
      var sid := Least(sids);
      CloseKeepsCovered(s, deleted, sid, None);
      CloseKeepsInv(s, deleted, sid, None);
      CloseAllKeepsCovered(Close(s, sid, None).state, deleted, sids - {sid});
    }
  }

  ghost predicate Good(s: State) {
    Inv(s) && AllCovered(s) && ShortWindows(s.cache)
  }

  // A new session is covered by the windows it was taken from.
  lemma NewSessionIsCovered(s: State, r: SignRequest, nonces: SessionNonces)
    requires Good(s) && Admissible(s, Start(r, nonces)) && !StartRefused(s, r) && nonces.Selected?
    ensures Covered(s.cache, NewSessionFor(r, s.keys[r.keyId].accesses[r.access], nonces.nonces))
  {
    var session := NewSessionFor(r, s.keys[r.keyId].accesses[r.access], nonces.nonces);
    forall d | d in session.init.nonces ensures CoversAt(s.cache, session, d) {
      SelectionIsPrefix(s.cache, r.devices, UsedStreams(s.active), r.nSignatures, nonces.nonces, d);
      assert End(EntryFor(s.cache, d, session.init.nonces[d].stream)) < U32_MAX;
    }
  }

  lemma ProgressKeepsCovered(s: State, m: Mutation)
    requires Good(s) && (m.GotShares? || m.SentSignReq?)
    ensures AllCovered(Apply(s, m).state)
  {
    var t := Apply(s, m).state;
    forall a | a in t.active ensures Covered(t.cache, t.active[a]) {
      assert Covered(s.cache, s.active[a]);
      forall d | d in t.active[a].init.nonces ensures CoversAt(t.cache, t.active[a], d) {
        assert CoversAt(s.cache, s.active[a], d);
      }
    }
  }

  /** No mutation panics on a good state, and all of them keep it good. */
  lemma ApplyKeepsGood(s: State, m: Mutation)
    requires Good(s)
    requires m.NewSession? ==> Opens(s, m.session) && Covered(s.cache, m.session)
    requires m.NewNonces? ==> Connecting(s, m.device, m.segment)
    ensures Apply(s, m).Applied? && Good(Apply(s, m).state)
  {
    if m.DeleteKey? {
      if m.keyId in s.keys {
        var t := s.(keys := s.keys - {m.keyId}, keyOrder := Retain(s.keyOrder, m.keyId));
        RetainedEnumerates(s.keyOrder, s.keys.Keys, m.keyId);
        assert t.keys.Keys == s.keys.Keys - {m.keyId};
        assert InvUpTo(t, Some(m.keyId));
        CloseAllKeepsCovered(t, Some(m.keyId), SessionsOf(s, m.keyId));
      }
    } else if m.CloseSession? {
      CloseKeepsCovered(s, None, m.sid, m.signatures);
    } else if m.NewNonces? {
      ExtendKeepsShort(s.cache, m.device, m.segment);
      forall a | a in s.active ensures Covered(Apply(s, m).state.cache, s.active[a]) {
        ExtendKeepsCovered(s, m.device, m.segment, s.active[a], a);
      }
    } else if m.GotShares? || m.SentSignReq? {
      ProgressKeepsCovered(s, m);
    }
    ApplyKeepsInv(s, m);
  }

  // The segment replaces the cached window of a device that was sent its request, and starts beyond what
  // the session took.
  ghost predicate Displaces(c: Cache, session: ActiveSession, d: DeviceId, new_: Segment)
    requires Covered(c, session)
  {
    && Consumes(session, d) && new_.stream == session.init.nonces[d].stream && Fits(new_)
    && CoversAt(c, session, d)
    && var w := Lookup(c, d, new_.stream).value;
       !Connects(w, new_) && |w.nonces| <= |new_.nonces| && new_.index > ConsumePoint(session, d)
  }

  lemma DisplacedAt(c: Cache, session: ActiveSession, d: DeviceId, new_: Segment, e: DeviceId)
    requires ValidCache(c) && Covered(c, session) && Consumes(session, e)
    ensures ClosePanicsAt(ExtendCache(c, d, new_).0, session, e) <==> e == d && Displaces(c, session, d, new_)
  {
    assert CoversAt(c, session, e);
    var stream := session.init.nonces[e].stream;
    var w, c' := Lookup(c, e, stream).value, ExtendCache(c, d, new_).0;
    if e != d || stream != new_.stream {
      assert Lookup(c', e, stream) == Some(w);
    } else {
      NonceStream.ExtendOutcome(w, new_);
      if Extend(w, new_).Extended? {
        assert Lookup(c', e, stream) == Some(Extend(w, new_).segment);
      } else {
        assert Lookup(c', e, stream) == Some(w);
      }
    }
  }

  /** After one more segment, closing a session that was covered panics if and only if the segment displaces
      the window of one of the devices that were sent their request. */
  lemma DisconnectedSegmentTripsClose(c: Cache, session: ActiveSession, d: DeviceId, new_: Segment)
    requires ValidCache(c) && Covered(c, session)
    ensures ClosePanics(ExtendCache(c, d, new_).0, session) <==> Displaces(c, session, d, new_)
  {
    forall e | Consumes(session, e)
      ensures ClosePanicsAt(ExtendCache(c, d, new_).0, session, e) <==> e == d && Displaces(c, session, d, new_) {
      DisplacedAt(c, session, d, new_, e);
    }
  }

  /** The coordinator accepts such a segment, and then cancelling the session panics. */
  lemma DisplacedSessionCannotBeCancelled(f: Frost, c: Coord, sid: SessionId, d: DeviceId, new_: Segment)
    requires ValidCache(c.state.cache) && sid in c.state.order && sid in c.state.active
    requires Covered(c.state.cache, c.state.active[sid])
    requires Displaces(c.state.cache, c.state.active[sid], d, new_)
    ensures var next := Step(f, c, RecvSegment(d, new_));
            next.Some? && sid in next.value.state.active && Step(f, next.value, Cancel(sid)) == None
  {
    var session := c.state.active[sid];
    DisconnectedSegmentTripsClose(c.state.cache, session, d, new_);
    assert CoversAt(c.state.cache, session, d);
    NonceStream.ExtendOutcome(Lookup(c.state.cache, d, new_.stream).value, new_);
  }

  // ---------------------------------------------------------------------------------------------
  // Runs with connecting segments

  ghost predicate ConnectingOp(s: State, op: Op) {
    match op
    case RecvSegment(d, new_) => Connecting(s, d, new_)
    case RecvShares(_, d, _, replenish) => replenish.Some? ==> Connecting(s, d, replenish.value)
    case _ => true
  }

  // The operations that can panic although segments connect. A signing request:
  predicate IsBadRequest(s: State, op: Op) {
    op.RequestSign? && RequestPanics(s, op.sid, op.device, op.encryptionKey)
  }

  // a session over nonces that the library does not accept,
  ghost predicate IsBadStart(f: Frost, s: State, op: Op) {
    && op.Start? && Admissible(s, op) && !StartRefused(s, op.request) && op.nonces.Selected?
    && !OpensAll(f, NewSessionFor(op.request, s.keys[op.request.keyId].accesses[op.request.access], op.nonces.nonces))
  }

  function WithShares(session: ActiveSession, device: DeviceId, shares: seq<Share>): ActiveSession {
    session.(progress := AddShares(session.progress, device, shares))
  }

  // and shares that make up the count but not a signature.
  ghost predicate IsBadCompletion(f: Frost, s: State, op: Op) {
    && op.RecvShares? && op.sid in s.active
    && HasAccess(s.keys, s.active[op.sid].keyId, s.active[op.sid].init.group.access)
    && AcceptsShares(f, s, op.sid, op.device, op.shares)
    && var session := WithShares(s.active[op.sid], op.device, op.shares);
       AllFinished(session) && !AllVerify(f, session)
  }

  ghost predicate IsBad(f: Frost, s: State, op: Op) {
    IsBadRequest(s, op) || IsBadStart(f, s, op) || IsBadCompletion(f, s, op)
  }

  lemma StartKeepsGood(f: Frost, c: Coord, op: Op)
    requires Good(c.state) && op.Start? && Admissible(c.state, op)
    ensures Step(f, c, op).None? <==> IsBadStart(f, c.state, op)
    ensures Step(f, c, op).Some? ==> Good(Step(f, c, op).value.state)
  {
    var s, r := c.state, op.request;
    if !StartRefused(s, r) && op.nonces.Selected? {
      StartOpens(s, r, op.nonces);
      NewSessionIsCovered(s, r, op.nonces);
      ApplyKeepsGood(s, NewSession(NewSessionFor(r, s.keys[r.keyId].accesses[r.access], op.nonces.nonces)));
    }
  }

  lemma StepKeepsGood(f: Frost, c: Coord, op: Op)
    requires Good(c.state) && Admissible(c.state, op) && ConnectingOp(c.state, op)
    ensures Step(f, c, op).None? <==> IsBad(f, c.state, op)
    ensures Step(f, c, op).Some? ==> Good(Step(f, c, op).value.state)
  {
    var s := c.state;
    match op
    case ChangeKey(m) => ApplyKeepsGood(s, m);
    case RemoveShare(keyId, access, device) => ApplyKeepsGood(s, DeleteShare(keyId, access, device));
    case RemoveKey(keyId) => ApplyKeepsGood(s, DeleteKey(keyId));
    case RecvSegment(device, segment) => ApplyKeepsGood(s, NewNonces(device, segment));
    case Start(r, nonces) => StartKeepsGood(f, c, op);
    case RequestSign(sid, device, _) => ApplyKeepsGood(s, SentSignReq(sid, device));
    case RecvShares(sid, device, shares, replenish) => RecvKeepsGood(f, c, op);
    case Cancel(sid) => ApplyKeepsGood(s, CloseSession(sid, None));
    case Forget(sid) => ApplyKeepsGood(s, ForgetFinished(sid));
  }

  // Storing shares changes no window and no session's hold on one.
  lemma SharesKeepConnecting(s: State, m: Mutation, d: DeviceId, new_: Segment)
    requires ValidCache(s.cache) && m.GotShares? && Connecting(s, d, new_)
    ensures Connecting(Apply(s, m).state, d, new_)
  {
  }

  lemma StoredKeepsGood(c: Coord, op: Op)
    requires Good(c.state) && op.RecvShares? && op.sid in c.state.active && ConnectingOp(c.state, op)
    ensures var more := SharesStored(c, op.sid, op.device, op.shares, op.replenish);
            && more.Some? && Good(more.value.state) && op.sid in more.value.state.active
            && more.value.state.active[op.sid] == WithShares(c.state.active[op.sid], op.device, op.shares)
  {
    ApplyKeepsGood(c.state, GotShares(op.sid, op.device, op.shares));
    var got := Mutated(c, GotShares(op.sid, op.device, op.shares)).value;
    if op.replenish.Some? {
      SharesKeepConnecting(c.state, GotShares(op.sid, op.device, op.shares), op.device, op.replenish.value);
      ApplyKeepsGood(got.state, NewNonces(op.device, op.replenish.value));
    }
  }

  lemma CompletedKeepsGood(f: Frost, c: Coord, sid: SessionId)
    requires Good(c.state) && sid in c.state.active
    ensures Completed(f, c, sid).None? <==> AllFinished(c.state.active[sid]) && !AllVerify(f, c.state.active[sid])
    ensures Completed(f, c, sid).Some? ==> Good(Completed(f, c, sid).value.state)
  {
    ApplyKeepsGood(c.state, CloseSession(sid, Some(Combined(f, c.state.active[sid]))));
  }

  lemma RecvKeepsGood(f: Frost, c: Coord, op: Op)
    requires Good(c.state) && op.RecvShares? && ConnectingOp(c.state, op)
    ensures Step(f, c, op).None? <==> IsBadCompletion(f, c.state, op)
    ensures Step(f, c, op).Some? ==> Good(Step(f, c, op).value.state)
  {
    var s := c.state;
    if op.sid in s.active && AcceptsShares(f, s, op.sid, op.device, op.shares) {
      StoredKeepsGood(c, op);
      CompletedKeepsGood(f, SharesStored(c, op.sid, op.device, op.shares, op.replenish).value, op.sid);
    }
  }

  /** In every run in which received segments connect to the windows that sessions are using, every
      active session stays covered. So the next such operation panics if and only if it requests a
      signature whose expectations fail, starts over nonces that the library does not accept, or
      completes a session with shares that do not combine to a signature. */
  lemma {:induction false} ConnectingRunsAreGood(f: Frost, ops: seq<Op>, trace: seq<Coord>, i: nat, next: Op)
    requires IsRun(f, ops, trace) && i < |trace|
    requires forall k :: 0 <= k < |ops| ==> ConnectingOp(trace[k].state, ops[k])
    ensures Good(trace[i].state)
    ensures Admissible(trace[i].state, next) && ConnectingOp(trace[i].state, next) ==>
              (Step(f, trace[i], next).None? <==> IsBad(f, trace[i].state, next))
  {
    if i == 0 {
      assert Good(EMPTY);
    } else {
      ConnectingRunsAreGood(f, ops, trace, i - 1, next);
      assert Step(f, trace[i - 1], ops[i - 1]) == Some(trace[i]);
      StepKeepsGood(f, trace[i - 1], ops[i - 1]);
    }
    if Admissible(trace[i].state, next) && ConnectingOp(trace[i].state, next) {
      StepKeepsGood(f, trace[i], next);
    }
  }

  /** Requesting a signature of a device that is part of an active session panics exactly when the caller's
      key does not decrypt the root key, or the device's share was deleted from the access structure in
      the meantime. */
  lemma RequestPanicsWhenShareOrKeyIsGone(f: Frost, ops: seq<Op>, trace: seq<Coord>, i: nat, sid: SessionId, d: DeviceId, encryptionKey: SymmetricKey)
    requires IsRun(f, ops, trace) && i < |trace|
    requires sid in trace[i].state.active && d in trace[i].state.active[sid].init.nonces
    ensures var s := trace[i].state;
            var session := s.active[sid];
            && HasAccess(s.keys, session.keyId, session.init.group.access)
            && (Step(f, trace[i], RequestSign(sid, d, encryptionKey)).None? <==>
                  || d !in s.keys[session.keyId].accesses[session.init.group.access].shares
                  || !encryptionKey(s.keys[session.keyId].info))
  {
    RunKeepsInv(f, ops, trace, i);
  }

  /** And a share can be deleted while a session counts on it: the guard of `delete_share` only looks
      at devices that were already asked or have already answered. */
  lemma UnaskedShareCanBeDeleted(f: Frost, c: Coord, sid: SessionId, d: DeviceId, encryptionKey: SymmetricKey)
    requires Inv(c.state) && sid in c.state.active && d in c.state.active[sid].init.nonces
    requires var session := c.state.active[sid];
             d in c.state.keys[session.keyId].accesses[session.init.group.access].shares
    requires forall a :: a in c.state.active ==>
               !InvolvedIn(c.state.active[a], c.state.active[sid].keyId, c.state.active[sid].init.group.access, d)
    ensures var session := c.state.active[sid];
            var next := Step(f, c, RemoveShare(session.keyId, session.init.group.access, d));
            next.Some? && sid in next.value.state.active && Step(f, next.value, RequestSign(sid, d, encryptionKey)) == None
  {
  }
}
