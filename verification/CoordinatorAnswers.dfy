/**
 What each operation of the coordinator leaves behind, told by what can be looked up afterwards.
 */
module CoordinatorAnswers {
  import opened Common
  import opened NonceStream
  import opened CoordNonces
  import opened Coordinator
  import opened CoordinatorRuns
  import opened CoordinatorWindows

  // ---------------------------------------------------------------------------------------------
  // Starting

  // The session is about what was asked for: item k signs message k, under the key of the access structure, with a nonce
  // of every share that the devices hold, and nobody has answered or been asked yet.
  ghost predicate IsAsAsked(a: Access, r: SignRequest, session: ActiveSession) {
    && session.keyId == r.keyId && session.sent == {}
    && session.init.group.sessionId == r.sessionId && session.init.group.access == r.access
    && session.init.group.nSignatures == r.nSignatures == |session.progress|
    && (forall p :: p in session.init.group.parties <==> exists d :: d in r.devices && d in a.shares && a.shares[d] == p)
    && forall k :: 0 <= k < |session.progress| ==> IsItemAsAsked(a, r, session, k)
  }

  ghost predicate IsItemAsAsked(a: Access, r: SignRequest, session: ActiveSession, k: nat)
    requires k < |session.progress|
  {
    var p := session.progress[k];
    && p.item.message == r.message(k) && p.item.key == a.info && p.item.threshold == a.threshold
    && p.item.nonces.Keys == session.init.group.parties && p.shares == map[]
  }

  // Each device has the first nonces of one of its windows, of a stream that no session was using.
  ghost predicate TakesFreeNonces(s: State, r: SignRequest, session: ActiveSession) {
    && session.init.nonces.Keys == r.devices
    && forall d :: d in r.devices ==> TakesAt(s, r, session.init.nonces[d], d)
  }

  ghost predicate TakesAt(s: State, r: SignRequest, taken: CoordState, d: DeviceId) {
    && (forall sid, e :: sid in s.active && e in s.active[sid].init.nonces ==> s.active[sid].init.nonces[e].stream != taken.stream)
    && var w := Lookup(s.cache, d, taken.stream);
       w.Some? && taken.index == w.value.index && taken.remaining + r.nSignatures == |w.value.nonces|
  }

  // No later device of the session holds the same share.
  predicate IsLastHolder(a: Access, r: SignRequest, d: DeviceId) {
    && d in r.devices && d in a.shares
    && forall e :: e in r.devices && e in a.shares && a.shares[e] == a.shares[d] ==> e <= d
  }

  // Item k has for a party the k-th nonce in the window of the last device that holds its share.
  ghost predicate NoncesAreFromWindows(s: State, a: Access, r: SignRequest, session: ActiveSession) {
    forall k, d :: 0 <= k < |session.progress| && IsLastHolder(a, r, d) ==> NonceIsFromWindow(s, a, session, k, d)
  }

  ghost predicate NonceIsFromWindow(s: State, a: Access, session: ActiveSession, k: nat, d: DeviceId)
    requires k < |session.progress|
  {
    && d in a.shares && d in session.init.nonces && a.shares[d] in session.progress[k].item.nonces
    && var w := Lookup(s.cache, d, session.init.nonces[d].stream);
       w.Some? && k < |w.value.nonces| && session.progress[k].item.nonces[a.shares[d]] == w.value.nonces[k]
  }

  lemma NonceFromSelection(s: State, r: SignRequest, nonces: SessionNonces, k: nat, d: DeviceId)
    requires ValidCache(s.cache) && !StartRefused(s, r) && IsStart(s, r, nonces) && nonces.Selected? && k < r.nSignatures
    requires IsLastHolder(s.keys[r.keyId].accesses[r.access], r, d)
    ensures var a := s.keys[r.keyId].accesses[r.access];
            NonceIsFromWindow(s, a, NewSessionFor(r, a, nonces.nonces), k, d)
  {
    var a := s.keys[r.keyId].accesses[r.access];
    SelectionIsPrefix(s.cache, r.devices, UsedStreams(s.active), r.nSignatures, nonces.nonces, d);
    assert a.shares[d] in PartiesOf(a.shares, r.devices);
    assert Holder(a.shares, r.devices, a.shares[d]) == d;
    var byParty := ByParty(a.shares, nonces.nonces, r.devices);
    assert byParty[a.shares[d]] == nonces.nonces[d].segment;
    assert a.shares[d] in NoncesAt(byParty, k);
  }

  lemma PartiesAreShares(shares: map<DeviceId, ShareIndex>, devices: set<DeviceId>)
    requires devices <= shares.Keys
    ensures forall p :: p in PartiesOf(shares, devices) <==> exists d :: d in devices && d in shares && shares[d] == p
  {
  }

  lemma OverAsAsked(a: Access, r: SignRequest, nonces: map<DeviceId, SubSegment>)
    requires nonces.Keys == r.devices <= a.shares.Keys
    requires forall d :: d in r.devices ==> |nonces[d].segment.nonces| == r.nSignatures
    ensures IsAsAsked(a, r, NewSessionFor(r, a, nonces))
  {
    var session := NewSessionFor(r, a, nonces);
    var byParty := ByParty(a.shares, nonces, r.devices);
    PartiesAreShares(a.shares, r.devices);
    forall k | 0 <= k < |session.progress| ensures IsItemAsAsked(a, r, session, k) {
      forall p | p in byParty ensures k < |byParty[p].nonces| {
        assert byParty[p] == nonces[Holder(a.shares, r.devices, p)].segment;
      }
      assert NoncesAt(byParty, k).Keys == byParty.Keys;
    }
  }

  lemma SelectedAt(s: State, r: SignRequest, nonces: SessionNonces, d: DeviceId)
    requires ValidCache(s.cache) && !StartRefused(s, r) && IsStart(s, r, nonces) && nonces.Selected? && d in r.devices
    ensures |nonces.nonces[d].segment.nonces| == r.nSignatures
    ensures TakesAt(s, r, CoordStateOf(nonces.nonces[d]), d)
  {
    SelectionIsPrefix(s.cache, r.devices, UsedStreams(s.active), r.nSignatures, nonces.nonces, d);
    forall sid, e | sid in s.active && e in s.active[sid].init.nonces
      ensures s.active[sid].init.nonces[e].stream in UsedStreams(s.active) {
    }
  }

  // The session is open, behind the others, and nothing else has changed.
  ghost predicate IsOpened(s: State, r: SignRequest, t: State) {
    && r.sessionId in t.active
    && HasAccess(s.keys, r.keyId, r.access)
    && IsAsAsked(s.keys[r.keyId].accesses[r.access], r, t.active[r.sessionId])
    && TakesFreeNonces(s, r, t.active[r.sessionId])
    && NoncesAreFromWindows(s, s.keys[r.keyId].accesses[r.access], r, t.active[r.sessionId])
    && t.order == s.order + [r.sessionId]
    && (forall sid :: sid != r.sessionId ==> (sid in t.active <==> sid in s.active) && (sid in s.active ==> t.active[sid] == s.active[sid]))
    && t.keys == s.keys && t.keyOrder == s.keyOrder && t.cache == s.cache && t.finished == s.finished
  }

  lemma StartIsOpened(f: Frost, c: Coord, r: SignRequest, nonces: SessionNonces)
    requires ValidCache(c.state.cache) && !StartRefused(c.state, r) && IsStart(c.state, r, nonces) && nonces.Selected?
    requires Started(f, c, r, nonces).Some?
    ensures IsOpened(c.state, r, Started(f, c, r, nonces).value.state)
  {
    forall d | d in r.devices
      ensures |nonces.nonces[d].segment.nonces| == r.nSignatures && TakesAt(c.state, r, CoordStateOf(nonces.nonces[d]), d) {
      SelectedAt(c.state, r, nonces, d);
    }
    var a := c.state.keys[r.keyId].accesses[r.access];
    OverAsAsked(a, r, nonces.nonces);
    forall k, d | 0 <= k < r.nSignatures && IsLastHolder(a, r, d)
      ensures NonceIsFromWindow(c.state, a, NewSessionFor(r, a, nonces.nonces), k, d) {
      NonceFromSelection(c.state, r, nonces, k, d);
    }
  }

  /** Starting a session that is not refused and finds nonces opens it exactly as asked for. */
  lemma StartedAsAsked(f: Frost, c: Coord, r: SignRequest, nonces: SessionNonces)
    requires ValidCache(c.state.cache) && Admissible(c.state, Start(r, nonces)) && !StartRefused(c.state, r) && nonces.Selected?
    requires Step(f, c, Start(r, nonces)).Some?
    ensures IsOpened(c.state, r, Step(f, c, Start(r, nonces)).value.state)
  {
    StartIsOpened(f, c, r, nonces);
  }

  // ---------------------------------------------------------------------------------------------
  // Closing

  // What closing leaves of a window: nothing below `upTo`, and everything from there on as it was.
  ghost predicate IsMovedTo(before: Option<Segment>, after: Option<Segment>, upTo: nat) {
    && (before.Some? <==> after.Some?)
    && (before.Some? ==>
          && after.value.stream == before.value.stream
          && after.value.index == Max(before.value.index, upTo)
          && forall i: nat :: i >= upTo ==> GetNonce(after.value, i) == GetNonce(before.value, i))
  }

  // The windows of the devices that were asked have moved past what the session took, and no others have.
  ghost predicate IsConsumed(session: ActiveSession, before: Cache, after: Cache) {
    forall d, stream :: IsConsumedAt(session, before, after, d, stream)
  }

  ghost predicate IsConsumedAt(session: ActiveSession, before: Cache, after: Cache, d: DeviceId, stream: StreamId) {
    if d in session.sent && d in session.init.nonces && session.init.nonces[d].stream == stream
    then IsMovedTo(Lookup(before, d, stream), Lookup(after, d, stream), session.init.nonces[d].index + session.init.group.nSignatures)
    else Lookup(after, d, stream) == Lookup(before, d, stream)
  }

  lemma ConsumedAtIs(c: Cache, session: ActiveSession, d: DeviceId, stream: StreamId)
    requires !ClosePanics(c, session)
    ensures IsConsumedAt(session, c, ConsumedFor(c, session, session.init.nonces.Keys), d, stream)
  {
    if Consumes(session, d) && session.init.nonces[d].stream == stream && Lookup(c, d, stream).Some? {
      assert !ClosePanicsAt(c, session, d);
      DeletedNonces(Lookup(c, d, stream).value, ConsumePoint(session, d));
    }
  }

  /** Closing a session: the windows of the devices that were asked move past every nonce that the session took; no other
      window changes, and no other session. */
  lemma ClosingConsumes(s: State, sid: SessionId, signatures: Option<Signatures>)
    requires Inv(s) && sid in s.active && Close(s, sid, signatures).Applied?
    ensures var session, t := s.active[sid], Close(s, sid, signatures).state;
            && IsConsumed(session, s.cache, t.cache)
            && sid !in t.active && sid !in t.order
            && (forall a :: a != sid ==> (a in t.active <==> a in s.active) && (a in s.active ==> t.active[a] == s.active[a]))
            && t.keys == s.keys && t.keyOrder == s.keyOrder && (signatures.None? ==> t.finished == s.finished)
  {
    var t := Close(s, sid, signatures).state;
    RemovedEnumerates(s.order, s.active.Keys, sid);
    forall d, stream ensures IsConsumedAt(s.active[sid], s.cache, t.cache, d, stream) {
      ConsumedAtIs(s.cache, s.active[sid], d, stream);
    }
  }

  // ---------------------------------------------------------------------------------------------
  // Segments

  // The window of the segment is what extending makes of it, and every other is as it was.
  ghost predicate IsMerged(before: Cache, after: Cache, device: DeviceId, segment: Segment) {
    forall d, stream :: IsMergedAt(before, after, device, segment, d, stream)
  }

  ghost predicate IsMergedAt(before: Cache, after: Cache, device: DeviceId, segment: Segment, d: DeviceId, stream: StreamId) {
    if d != device || stream != segment.stream then Lookup(after, d, stream) == Lookup(before, d, stream)
    else
      match Extend(EntryFor(before, d, stream), segment)
      case Extended(window) => Lookup(after, d, stream) == Some(window)
      case CannotExtend(_) => Lookup(after, d, stream) == Some(EntryFor(before, d, stream))
      case ExtendPanics => false
  }

  lemma ExtendedIsMerged(c: Cache, device: DeviceId, segment: Segment)
    requires ValidCache(c) && !ExtendCache(c, device, segment).1.CacheExtendPanics?
    ensures IsMerged(c, ExtendCache(c, device, segment).0, device, segment)
  {
  }

  /** A segment that is received makes its window what extending makes of it, and touches no other. A refused one changes
      nothing. */
  lemma SegmentIsMerged(f: Frost, c: Coord, device: DeviceId, segment: Segment)
    requires ValidCache(c.state.cache) && Step(f, c, RecvSegment(device, segment)).Some?
    ensures var s, t := c.state, Step(f, c, RecvSegment(device, segment)).value.state;
            && IsMerged(s.cache, t.cache, device, segment)
            && (CheckCanExtend(s.cache, device, segment).Refuses? ==> t == s)
            && t.keys == s.keys && t.active == s.active && t.order == s.order && t.finished == s.finished
  {
    if CheckCanExtend(c.state.cache, device, segment).MayExtend? {
      ExtendedIsMerged(c.state.cache, device, segment);
    }
  }

  // ---------------------------------------------------------------------------------------------
  // Asking and answering

  /** Asking a device notes it down and changes nothing else. */
  lemma AskingIsNoted(f: Frost, c: Coord, sid: SessionId, device: DeviceId, key: SymmetricKey)
    requires ValidCache(c.state.cache) && Step(f, c, RequestSign(sid, device, key)).Some?
    ensures var s, t := c.state, Step(f, c, RequestSign(sid, device, key)).value.state;
            && sid in s.active && device in t.active[sid].sent
            && (forall d :: d in t.active[sid].sent <==> d in s.active[sid].sent || d == device)
            && t.active[sid].progress == s.active[sid].progress && t.active[sid].init == s.active[sid].init && t.active[sid].keyId == s.active[sid].keyId
            && OnlySession(s, t, sid) && t.cache == s.cache
  {
  }

  // At most this session has changed, apart from the cache.
  ghost predicate OnlySession(s: State, t: State, sid: SessionId) {
    && t.active.Keys == s.active.Keys && (forall a :: a in s.active && a != sid ==> t.active[a] == s.active[a])
    && t.keys == s.keys && t.keyOrder == s.keyOrder && t.order == s.order && t.finished == s.finished
  }

  // The k-th share is filed under the device for the k-th item.
  ghost predicate IsFiled(before: ActiveSession, after: ActiveSession, device: DeviceId, shares: seq<Share>) {
    && after.init == before.init && after.keyId == before.keyId && after.sent == before.sent
    && |after.progress| == |before.progress| == |shares|
    && forall k :: 0 <= k < |shares| ==>
         && after.progress[k].item == before.progress[k].item
         && (forall d :: d in after.progress[k].shares <==> d in before.progress[k].shares || d == device)
         && after.progress[k].shares[device] == shares[k]
         && forall d :: d in before.progress[k].shares && d != device ==> after.progress[k].shares[d] == before.progress[k].shares[d]
  }

  lemma SharesAreFiled(session: ActiveSession, device: DeviceId, shares: seq<Share>)
    requires |shares| == |session.progress|
    ensures IsFiled(session, WithShares(session, device, shares), device, shares)
  {
  }

  // Every device that holds a share answers for every item.
  ghost predicate IsCounted(session: ActiveSession) {
    forall k :: 0 <= k < |session.progress| ==> |session.progress[k].shares| == |session.init.group.parties|
  }

  // One signature for each item, of all its shares in device order.
  ghost predicate AreSignatures(f: Frost, session: ActiveSession, signatures: Signatures) {
    |signatures| == |session.progress| && forall k :: 0 <= k < |signatures| ==> IsSignature(f, session.progress[k], signatures[k])
  }

  ghost predicate IsSignature(f: Frost, p: Progress, signature: Signature) {
    exists devices :: ListsDevices(devices, p.shares.Keys) && signature == f.combine(p.item, SharesBy(p.shares, devices))
  }

  // Each of them once, in id order.
  ghost predicate ListsDevices(devices: seq<DeviceId>, keys: set<DeviceId>) {
    Ascends(devices) && forall d :: d in devices <==> d in keys
  }

  ghost function SharesBy(shares: map<DeviceId, Share>, devices: seq<DeviceId>): (list: seq<Share>)
    requires forall d :: d in devices ==> d in shares
  {
    seq(|devices|, i requires 0 <= i < |devices| => shares[devices[i]])
  }

  ghost function IdOrder(devices: set<DeviceId>): (order: seq<DeviceId>)
    ensures |order| == |devices| && forall d :: d in order <==> d in devices
  {
    if devices == {} then [] else [Least(devices)] + IdOrder(devices - {Least(devices)})
  }

  predicate Ascends(s: seq<DeviceId>) {
    forall i, j :: 0 <= i < j < |s| ==> s[i] < s[j]
  }

  lemma AscendsFrom(d: DeviceId, rest: seq<DeviceId>)
    requires Ascends(rest) && forall e :: e in rest ==> d < e
    ensures Ascends([d] + rest)
  {
    assert forall i :: 0 <= i < |rest| ==> rest[i] in rest;
  }

  lemma {:induction false} IdOrderLists(devices: set<DeviceId>)
    ensures ListsDevices(IdOrder(devices), devices)
  {
    if devices != {} {
      var d := Least(devices);
      IdOrderLists(devices - {d});
      AscendsFrom(d, IdOrder(devices - {d}));
    }
  }

  lemma {:induction false} InOrderBy(shares: map<DeviceId, Share>, devices: set<DeviceId>)
    requires devices <= shares.Keys
    ensures InOrder(shares, devices) == SharesBy(shares, IdOrder(devices))
  {
    if devices != {} {
      var d := Least(devices);
      InOrderBy(shares, devices - {d});
      SharesByFirst(shares, d, IdOrder(devices - {d}));
    }
  }

  lemma SharesByFirst(shares: map<DeviceId, Share>, d: DeviceId, rest: seq<DeviceId>)
    requires d in shares && forall e :: e in rest ==> e in shares
    ensures SharesBy(shares, [d] + rest) == [shares[d]] + SharesBy(shares, rest)
  {
  }

  lemma CombinedAreSignatures(f: Frost, session: ActiveSession)
    ensures AreSignatures(f, session, Combined(f, session))
  {
    forall k | 0 <= k < |session.progress| ensures IsSignature(f, session.progress[k], Combined(f, session)[k]) {
      var shares := session.progress[k].shares;
      IdOrderLists(shares.Keys);
      InOrderBy(shares, shares.Keys);
    }
  }

  // The session has gone to the finished ones, with these signatures.
  ghost predicate IsFinished(s: State, t: State, sid: SessionId, session: ActiveSession, signatures: Signatures) {
    && sid !in t.active && sid !in t.order && sid in t.finished
    && t.finished[sid].init == session.init && t.finished[sid].keyId == session.keyId && t.finished[sid].signatures == signatures
    && forall a :: a != sid ==> (a in t.finished <==> a in s.finished) && (a in s.finished ==> t.finished[a] == s.finished[a])
  }

  lemma ClosedIsFinished(s: State, sid: SessionId, signatures: Signatures)
    requires Inv(s) && sid in s.active && Close(s, sid, Some(signatures)).Applied?
    ensures IsFinished(s, Close(s, sid, Some(signatures)).state, sid, s.active[sid], signatures)
  {
    RemovedEnumerates(s.order, s.active.Keys, sid);
  }

  // Below the count the session goes on with what was filed, at the count it is finished and what it took is consumed.
  ghost predicate GoesOnOrFinishes(f: Frost, s: State, t: State, sid: SessionId, session: ActiveSession) {
    if !IsCounted(session) then sid in t.active && t.active[sid] == session && OnlySession(s, t, sid) && t.cache == s.cache
    else
      && IsConsumed(session, s.cache, t.cache)
      && exists signatures :: AreSignatures(f, session, signatures) && IsFinished(s, t, sid, session, signatures)
  }

  // A segment that came with the answer has been merged, and nothing else has changed.
  ghost predicate IsReplenished(s: State, mid: State, device: DeviceId, replenish: Option<Segment>) {
    mid == s.(cache := mid.cache)
    && match replenish
       case None => mid.cache == s.cache
       case Some(segment) => IsMerged(s.cache, mid.cache, device, segment)
  }

  lemma StoringKeepsLists(s: State, sid: SessionId, device: DeviceId, shares: seq<Share>)
    requires Inv(s) && sid in s.active
    ensures Inv(s.(active := s.active[sid := WithShares(s.active[sid], device, shares)]))
  {
    ApplyKeepsInv(s, GotShares(sid, device, shares));
  }

  lemma FiledGoesOnOrFinishes(f: Frost, c: Coord, s: State, sid: SessionId, session: ActiveSession)
    requires Inv(c.state) && sid in s.active && c.state == s.(active := s.active[sid := session]) && Completed(f, c, sid).Some?
    ensures GoesOnOrFinishes(f, s, Completed(f, c, sid).value.state, sid, session)
  {
    if IsCounted(session) {
      CombinedAreSignatures(f, session);
      ClosedIsFinished(c.state, sid, Combined(f, session));
      ClosingConsumes(c.state, sid, Some(Combined(f, session)));
    }
  }

  // Shares are filed, and the segment merged.
  lemma StoredIs(c: Coord, sid: SessionId, device: DeviceId, shares: seq<Share>, replenish: Option<Segment>) returns (mid: State)
    requires Inv(c.state) && sid in c.state.active && SharesStored(c, sid, device, shares, replenish).Some?
    ensures var more := SharesStored(c, sid, device, shares, replenish).value.state;
            && Inv(more) && more == mid.(active := mid.active[sid := WithShares(c.state.active[sid], device, shares)])
    ensures IsReplenished(c.state, mid, device, replenish)
  {
    StoringKeepsLists(c.state, sid, device, shares);
    mid := c.state;
    if replenish.Some? {
      var got := Mutated(c, GotShares(sid, device, shares)).value;
      ExtendedIsMerged(c.state.cache, device, replenish.value);
      mid := c.state.(cache := ExtendCache(c.state.cache, device, replenish.value).0);
      ApplyKeepsInv(got.state, NewNonces(device, replenish.value));
    }
  }

  // What an accepted answer does to the state.
  ghost predicate IsAnswered(f: Frost, s: State, t: State, sid: SessionId, device: DeviceId, shares: seq<Share>, replenish: Option<Segment>)
    requires sid in s.active
  {
    exists session, mid :: IsFiled(s.active[sid], session, device, shares) && IsReplenished(s, mid, device, replenish)
                           && GoesOnOrFinishes(f, mid, t, sid, session)
  }

  lemma StoredIsAnswered(f: Frost, c: Coord, sid: SessionId, device: DeviceId, shares: seq<Share>, replenish: Option<Segment>)
    requires Inv(c.state) && sid in c.state.active && |shares| == |c.state.active[sid].progress|
    requires var more := SharesStored(c, sid, device, shares, replenish); more.Some? && Completed(f, more.value, sid).Some?
    ensures IsAnswered(f, c.state, Completed(f, SharesStored(c, sid, device, shares, replenish).value, sid).value.state, sid, device, shares, replenish)
  {
    var session := WithShares(c.state.active[sid], device, shares);
    SharesAreFiled(c.state.active[sid], device, shares);
    var mid := StoredIs(c, sid, device, shares, replenish);
    FiledGoesOnOrFinishes(f, SharesStored(c, sid, device, shares, replenish).value, mid, sid, session);
  }

  /** Accepted shares are filed and a segment that came with them is merged; below the count the session goes on, at the
      count it is finished with one signature for each item, made of all the shares for that item. */
  lemma AnswersAreFiled(f: Frost, c: Coord, sid: SessionId, device: DeviceId, shares: seq<Share>, replenish: Option<Segment>)
    requires Inv(c.state) && sid in c.state.active
    requires HasAccess(c.state.keys, c.state.active[sid].keyId, c.state.active[sid].init.group.access) && AcceptsShares(f, c.state, sid, device, shares)
    requires Step(f, c, RecvShares(sid, device, shares, replenish)).Some?
    ensures IsAnswered(f, c.state, Step(f, c, RecvShares(sid, device, shares, replenish)).value.state, sid, device, shares, replenish)
  {
    StoredIsAnswered(f, c, sid, device, shares, replenish);
  }

  // ---------------------------------------------------------------------------------------------
  // Keys

  // The share index of a device, if it has one.
  function ShareOf(s: State, keyId: KeyId, access: AccessId, d: DeviceId): Option<ShareIndex> {
    if HasAccess(s.keys, keyId, access) && d in s.keys[keyId].accesses[access].shares then Some(s.keys[keyId].accesses[access].shares[d]) else None
  }

  function AccessAt(s: State, keyId: KeyId, access: AccessId): Option<(AccessInfo, nat)> {
    if HasAccess(s.keys, keyId, access) then Some((s.keys[keyId].accesses[access].info, s.keys[keyId].accesses[access].threshold)) else None
  }

  /** Adding and removing shares and access structures, looked up one by one: nothing but what the mutation names changes,
      an access structure starts without shares, and what is there already stays. */
  lemma KeyMutationIs(s: State, m: Mutation, keyId: KeyId, access: AccessId, d: DeviceId)
    requires m.NewAccess? || m.NewShare? || m.DeleteShare?
    ensures var r := ApplyKey(s, m);
            r.Applied? && r.state.active == s.active && r.state.cache == s.cache && r.state.finished == s.finished
            && r.state.keyOrder == s.keyOrder && r.state.keys.Keys == s.keys.Keys && (r.recorded <==> r.state != s)
    ensures var t := ApplyKey(s, m).state;
            && AccessAt(t, keyId, access) ==
               (if m.NewAccess? && (m.keyId, m.access) == (keyId, access) && keyId in s.keys && AccessAt(s, keyId, access).None?
                then Some((m.info, m.threshold)) else AccessAt(s, keyId, access))
            && ShareOf(t, keyId, access, d) ==
               (if !m.NewAccess? && (m.keyId, m.access, m.device) == (keyId, access, d) && HasAccess(s.keys, keyId, access)
                then (if m.NewShare? then Some(m.index) else None) else ShareOf(s, keyId, access, d))
  {
    var t := ApplyKey(s, m).state;
    if ApplyKey(s, m).recorded {
      assert if m.NewAccess? then AccessAt(t, m.keyId, m.access) != AccessAt(s, m.keyId, m.access)
             else ShareOf(t, m.keyId, m.access, m.device) != ShareOf(s, m.keyId, m.access, m.device);
    }
  }

  /** A key that is new is added as given, behind the others; one that is there stays. */
  lemma NewKeyIs(s: State, keyId: KeyId, key: Key, k: KeyId)
    ensures var t := ApplyKey(s, NewKey(keyId, key)).state;
            && (k in t.keys <==> k in s.keys || k == keyId)
            && (k in s.keys ==> t.keys[k] == s.keys[k]) && (k == keyId && k !in s.keys ==> t.keys[k] == key)
            && t.keyOrder == (if keyId in s.keys then s.keyOrder else s.keyOrder + [keyId])
            && t.active == s.active && t.cache == s.cache && t.finished == s.finished
  {
  }

  /** Deleting a key takes it away with all its sessions, and leaves the other keys and sessions alone. */
  lemma DeletedKeyIsGone(s: State, keyId: KeyId)
    requires Inv(s) && keyId in s.keys && Apply(s, DeleteKey(keyId)).Applied?
    ensures var t := Apply(s, DeleteKey(keyId)).state;
            && (forall k :: k in t.keys <==> k in s.keys && k != keyId) && (forall k :: k in t.keys ==> t.keys[k] == s.keys[k])
            && (forall sid :: sid in t.active <==> sid in s.active && s.active[sid].keyId != keyId)
            && (forall sid :: sid in t.active ==> t.active[sid] == s.active[sid])
            && keyId !in t.keyOrder && (forall sid :: sid in t.order <==> sid in t.active)
  {
    var p := s.(keys := s.keys - {keyId}, keyOrder := Retain(s.keyOrder, keyId));
    RetainedEnumerates(s.keyOrder, s.keys.Keys, keyId);
    assert p.keys.Keys == s.keys.Keys - {keyId};
    assert InvUpTo(p, Some(keyId));
    CloseAllKeepsInv(p, Some(keyId), SessionsOf(s, keyId));
    DeleteKeyKeepsInv(s, keyId);
  }

  // The session is over this access structure and has asked the device, or the device has answered.
  predicate HasDealtWith(session: ActiveSession, keyId: KeyId, access: AccessId, d: DeviceId) {
    && session.keyId == keyId && session.init.group.access == access
    && (d in session.sent || (|session.progress| > 0 && d in session.progress[0].shares))
  }

  /** A share is deleted exactly if no active session over its access structure has asked or heard from the device. */
  lemma DeletedShareIsGone(f: Frost, c: Coord, keyId: KeyId, access: AccessId, d: DeviceId)
    requires ValidCache(c.state.cache)
    ensures var next := Step(f, c, RemoveShare(keyId, access, d));
            && next.Some?
            && (ShareOf(next.value.state, keyId, access, d).None? <==>
                  ShareOf(c.state, keyId, access, d).None? || forall sid :: sid in c.state.active ==> !HasDealtWith(c.state.active[sid], keyId, access, d))
  {
    KeyMutationIs(c.state, DeleteShare(keyId, access, d), keyId, access, d);
    assert forall sid :: sid in c.state.active ==>
             (InvolvedIn(c.state.active[sid], keyId, access, d) <==> HasDealtWith(c.state.active[sid], keyId, access, d));
  }

  /** Forgetting takes one finished session away and nothing else. */
  lemma ForgottenIsGone(f: Frost, c: Coord, sid: SessionId)
    requires ValidCache(c.state.cache)
    ensures var next := Step(f, c, Forget(sid));
            && next.Some?
            && var s, t := c.state, next.value.state;
               && (forall a :: a in t.finished <==> a in s.finished && a != sid) && (forall a :: a in t.finished ==> t.finished[a] == s.finished[a])
               && t.active == s.active && t.keys == s.keys && t.cache == s.cache && t.order == s.order && t.keyOrder == s.keyOrder
  {
  }

  // ---------------------------------------------------------------------------------------------
  // Opening requests

  /** The opening request begins with as many new streams as are missing, with nothing, and then names every cached window
      with its own start and its own number of nonces, and nothing else. */
  lemma RequestTellsWindows(c: Cache, d: DeviceId, minStreams: nat, draws: seq<StreamId>, r: seq<CoordState>)
    requires ValidCache(c) && minStreams <= |draws| && IsOpeningRequest(c, d, minStreams, draws, r)
    ensures forall s :: Lookup(c, d, s).Some? ==> CoordState(s, Lookup(c, d, s).value.index, |Lookup(c, d, s).value.nonces|) in r
    ensures forall k :: 0 <= k < |r| ==>
              if k + |SegmentsOf(c, d)| < minStreams then r[k] == CoordState(draws[k], 0, 0) else TellsWindow(c, d, r[k])
    ensures |r| + |SegmentsOf(c, d)| >= minStreams
  {
    var n := Needed(c, d, minStreams);
    var listed := r[n..];
    forall s | Lookup(c, d, s).Some? ensures CoordState(s, Lookup(c, d, s).value.index, |Lookup(c, d, s).value.nonces|) in r {
      assert StateOf(SegmentsOf(c, d), s) in listed;
    }
    forall k | 0 <= k < |r|
      ensures if k + |SegmentsOf(c, d)| < minStreams then r[k] == CoordState(draws[k], 0, 0) else TellsWindow(c, d, r[k]) {
      if k < n {
        assert r[k] == r[..n][k];
      } else {
        assert r[k] == listed[k - n];
      }
    }
  }

  ghost predicate TellsWindow(c: Cache, d: DeviceId, state: CoordState) {
    var w := Lookup(c, d, state.stream);
    w.Some? && state.index == w.value.index && state.remaining == |w.value.nonces|
  }
}
