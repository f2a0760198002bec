/**
 Completing a signing session.

 `complete_sign_session` counts the devices that answered against the number of parties, while shares are
 verified by share index. The two agree as long as no two devices hold one share. Several devices may hold
 one (`recover_share` adds the share of a backup to a new device), and then the combined signature need not
 verify and the assertion fires.
 */
module CoordinatorSigning {
  import opened Common
  import opened NonceStream
  import opened CoordNonces
  import opened Coordinator
  import opened CoordinatorRuns
  import opened CoordinatorWindows

  // No two devices hold one share.
  predicate Distinct(shares: map<DeviceId, ShareIndex>) {
    forall d, e :: d in shares && e in shares && shares[d] == shares[e] ==> d == e
  }

  ghost predicate NoRepeats(s: seq<ShareIndex>) {
    forall i, j :: 0 <= i < j < |s| ==> s[i] != s[j]
  }

  // `parties` says which share is whose: each party has one, and it verifies.
  ghost predicate OneEach(f: Frost, item: Item, parties: seq<ShareIndex>, list: seq<Share>) {
    && |parties| == |list|
    && NoRepeats(parties)
    && (forall x :: x in parties <==> x in item.nonces)
    && forall i :: 0 <= i < |list| ==> f.verifies(item, parties[i], list[i])
  }

  // Enough parties, and one verified share of each.
  ghost predicate Suffices(f: Frost, item: Item, list: seq<Share>) {
    |item.nonces| >= item.threshold && exists parties :: OneEach(f, item, parties, list)
  }

  // What FROST promises: with at least the threshold of parties a session can be opened, and one verified
  // share of each of them combine to a valid signature.
  ghost predicate Correct(f: Frost) {
    && (forall item: Item :: |item.nonces| >= item.threshold ==> f.opens(item))
    && forall item, list :: Suffices(f, item, list) ==> f.valid(item, f.combine(item, list))
  }

  // Nothing else combines to a valid signature.
  ghost predicate Sound(f: Frost) {
    forall item, list {:trigger f.combine(item, list)} :: f.valid(item, f.combine(item, list)) ==> Suffices(f, item, list)
  }

  // Both can be had, whichever shares verify.
  lemma PromisesCanBeKept(opens: Item -> bool, verifies: (Item, ShareIndex, Share) -> bool, good: Signature, bad: Signature) returns (f: Frost)
    requires good != bad && forall item: Item :: |item.nonces| >= item.threshold ==> opens(item)
    ensures f.opens == opens && f.verifies == verifies && Correct(f) && Sound(f)
  {
    var base := Frost(opens, verifies, (_, _) => bad, (_, s) => s == good);
    f := base.(combine := (item, list) => if Suffices(base, item, list) then good else bad);
    forall item, list ensures Suffices(f, item, list) <==> Suffices(base, item, list) {
      SameVerdicts(base, f, item, list);
      SameVerdicts(f, base, item, list);
    }
  }

  lemma SameVerdicts(f: Frost, g: Frost, item: Item, list: seq<Share>)
    requires f.verifies == g.verifies
    ensures Suffices(f, item, list) ==> Suffices(g, item, list)
  {
    if Suffices(f, item, list) {
      var parties :| OneEach(f, item, parties, list);
      assert OneEach(g, item, parties, list);
    }
  }

  ghost predicate HasEnough(f: Frost, p: Progress) {
    Suffices(f, p.item, InOrder(p.shares, p.shares.Keys))
  }

  /** When the count is reached, the assertion fires exactly if some item lacks enough parties or a share of
      one of them. */
  lemma BadCompletionLacksAParty(f: Frost, s: State, op: Op)
    requires Correct(f) && Sound(f)
    ensures IsBadCompletion(f, s, op) <==>
              && op.RecvShares? && op.sid in s.active
              && HasAccess(s.keys, s.active[op.sid].keyId, s.active[op.sid].init.group.access)
              && AcceptsShares(f, s, op.sid, op.device, op.shares)
              && var session := WithShares(s.active[op.sid], op.device, op.shares);
                 AllFinished(session) && exists p :: p in session.progress && !HasEnough(f, p)
  {
    if op.RecvShares? && op.sid in s.active {
      AllVerifyMeansEnough(f, WithShares(s.active[op.sid], op.device, op.shares));
    }
  }

  lemma AllVerifyMeansEnough(f: Frost, session: ActiveSession)
    requires Correct(f) && Sound(f)
    ensures AllVerify(f, session) <==> forall p :: p in session.progress ==> HasEnough(f, p)
  {
    forall i | 0 <= i < |session.progress|
      ensures f.valid(session.progress[i].item, CombinedShares(f, session.progress[i])) <==> HasEnough(f, session.progress[i]) {
    }
  }

  // ---------------------------------------------------------------------------------------------
  // Counting

  lemma {:induction false} PartiesCount(shares: map<DeviceId, ShareIndex>, devices: set<DeviceId>)
    requires devices <= shares.Keys && Distinct(shares)
    ensures |PartiesOf(shares, devices)| == |devices|
  {
    if devices == {} {
      assert PartiesOf(shares, devices) == {};
    } else {
      var d :| d in devices;
      PartiesCount(shares, devices - {d});
      assert PartiesOf(shares, devices) == PartiesOf(shares, devices - {d}) + {shares[d]};
      assert shares[d] !in PartiesOf(shares, devices - {d});
    }
  }

  lemma SameSizeIsSame<T>(a: set<T>, b: set<T>)
    requires a <= b && |a| == |b|
    ensures a == b
  {
    assert |b - a| == |b| - |a|;
    assert b - a == {};
  }

  // The indices of `devices` in device order.
  ghost function PartyList(shares: map<DeviceId, ShareIndex>, devices: set<DeviceId>): (r: seq<ShareIndex>)
    requires devices <= shares.Keys
    ensures |r| == |devices|
  {
    if devices == {} then [] else [shares[Least(devices)]] + PartyList(shares, devices - {Least(devices)})
  }

  lemma {:induction false} PartyListElements(shares: map<DeviceId, ShareIndex>, devices: set<DeviceId>)
    requires devices <= shares.Keys
    ensures forall x :: x in PartyList(shares, devices) <==> x in PartiesOf(shares, devices)
  {
    if devices != {} {
      var d := Least(devices);
      PartyListElements(shares, devices - {d});
      assert PartiesOf(shares, devices) == PartiesOf(shares, devices - {d}) + {shares[d]};
    }
  }

  lemma {:induction false} PartyListIsDistinct(shares: map<DeviceId, ShareIndex>, devices: set<DeviceId>)
    requires devices <= shares.Keys && Distinct(shares)
    ensures NoRepeats(PartyList(shares, devices))
  {
    if devices != {} {
      var d := Least(devices);
      var rest := PartyList(shares, devices - {d});
      PartyListIsDistinct(shares, devices - {d});
      PartyListElements(shares, devices - {d});
      assert shares[d] !in PartiesOf(shares, devices - {d});
      var parties := PartyList(shares, devices);
      assert parties == [shares[d]] + rest;
      forall i, j | 0 <= i < j < |parties| ensures parties[i] != parties[j] {
        assert rest[j - 1] in rest;
        assert NoRepeats(rest);
      }
    }
  }

  lemma {:induction false} PartyListVerifies(f: Frost, item: Item, shares: map<DeviceId, ShareIndex>, got: map<DeviceId, Share>, devices: set<DeviceId>)
    requires devices <= shares.Keys && devices <= got.Keys
    requires forall d :: d in devices ==> f.verifies(item, shares[d], got[d])
    ensures forall i :: 0 <= i < |devices| ==> f.verifies(item, PartyList(shares, devices)[i], InOrder(got, devices)[i])
  {
    if devices != {} {
      var d := Least(devices);
      PartyListVerifies(f, item, shares, got, devices - {d});
    }
  }

  // If every device that answered has its own party, reaching the count means that all of them did.
  lemma CountMeansOneEach(f: Frost, shares: map<DeviceId, ShareIndex>, p: Progress)
    requires Distinct(shares) && p.shares.Keys <= shares.Keys && |p.shares| == |p.item.nonces|
    requires forall d :: d in p.shares ==> shares[d] in p.item.nonces && f.verifies(p.item, shares[d], p.shares[d])
    requires |p.item.nonces| >= p.item.threshold
    ensures HasEnough(f, p)
  {
    PartiesCount(shares, p.shares.Keys);
    assert |p.shares.Keys| == |p.shares| && |p.item.nonces.Keys| == |p.item.nonces|;
    SameSizeIsSame(PartiesOf(shares, p.shares.Keys), p.item.nonces.Keys);
    PartyListElements(shares, p.shares.Keys);
    PartyListIsDistinct(shares, p.shares.Keys);
    PartyListVerifies(f, p.item, shares, p.shares, p.shares.Keys);
    assert OneEach(f, p.item, PartyList(shares, p.shares.Keys), InOrder(p.shares, p.shares.Keys));
  }

  // ---------------------------------------------------------------------------------------------
  // Runs in which no two devices come to hold one share

  ghost predicate AllDistinct(keys: map<KeyId, Key>) {
    forall k, a :: k in keys && a in keys[k].accesses ==> Distinct(keys[k].accesses[a].shares)
  }

  // A caller can check this: a new share is not held by another device, and its device holds no other share.
  predicate KeepsDistinct(s: State, op: Op) {
    match op
    case ChangeKey(NewKey(keyId, key)) => keyId in s.keys || forall a :: a in key.accesses ==> Distinct(key.accesses[a].shares)
    case ChangeKey(NewShare(keyId, access, device, index)) =>
      HasAccess(s.keys, keyId, access) ==>
        var shares := s.keys[keyId].accesses[access].shares;
        && (device in shares ==> shares[device] == index)
        && forall e :: e in shares && shares[e] == index ==> e == device
    case _ => true
  }

  // What has been stored for an item: verified shares of parties, by devices that still hold them.
  ghost predicate Answered(f: Frost, shares: map<DeviceId, ShareIndex>, session: ActiveSession, p: Progress) {
    && p.item.nonces.Keys == session.init.group.parties && |p.item.nonces| >= p.item.threshold
    && (forall d :: d in p.shares <==> HasReceivedFrom(session, d))
    && forall d :: d in p.shares ==> d in shares && shares[d] in p.item.nonces && f.verifies(p.item, shares[d], p.shares[d])
  }

  ghost predicate AllAnswered(f: Frost, keys: map<KeyId, Key>, session: ActiveSession) {
    && HasAccess(keys, session.keyId, session.init.group.access)
    && forall i :: 0 <= i < |session.progress| ==>
         Answered(f, keys[session.keyId].accesses[session.init.group.access].shares, session, session.progress[i])
  }

  ghost predicate SigningOk(f: Frost, s: State) {
    AllDistinct(s.keys) && forall sid :: sid in s.active ==> AllAnswered(f, s.keys, s.active[sid])
  }

  // Sessions that go on as they were, over access structures that keep the shares they answered with.
  lemma SameAnswers(f: Frost, s: State, t: State)
    requires SigningOk(f, s) && AllDistinct(t.keys)
    requires forall sid :: sid in t.active ==>
      && sid in s.active && t.active[sid].progress == s.active[sid].progress && t.active[sid].init == s.active[sid].init
      && t.active[sid].keyId == s.active[sid].keyId && KeepsShares(s, t, s.active[sid])
    ensures SigningOk(f, t)
  {
    forall sid | sid in t.active ensures AllAnswered(f, t.keys, t.active[sid]) {
      SameAnswer(f, s, t, s.active[sid], t.active[sid]);
    }
  }

  lemma SameAnswer(f: Frost, s: State, t: State, session: ActiveSession, session': ActiveSession)
    requires AllAnswered(f, s.keys, session) && KeepsShares(s, t, session)
    requires session'.progress == session.progress && session'.init == session.init && session'.keyId == session.keyId
    ensures AllAnswered(f, t.keys, session')
  {
    var before := s.keys[session.keyId].accesses[session.init.group.access].shares;
    forall i | 0 <= i < |session.progress|
      ensures Answered(f, t.keys[session.keyId].accesses[session.init.group.access].shares, session', session.progress[i]) {
      assert Answered(f, before, session, session.progress[i]);
    }
  }

  // Mutations of other parts of the state.
  lemma OtherMutationKeepsSigning(f: Frost, s: State, m: Mutation)
    requires Inv(s) && SigningOk(f, s) && (m.NewNonces? || m.SentSignReq? || m.ForgetFinished?) && Apply(s, m).Applied?
    ensures SigningOk(f, Apply(s, m).state)
  {
    var t := Apply(s, m).state;
    assert t.keys == s.keys;
    if m.SentSignReq? && t != s {
      SameAnswer(f, s, t, s.active[m.sid], t.active[m.sid]);
    }
  }

  ghost predicate KeepsShares(s: State, t: State, session: ActiveSession) {
    HasAccess(s.keys, session.keyId, session.init.group.access) ==>
      && HasAccess(t.keys, session.keyId, session.init.group.access)
      && var before, after := s.keys[session.keyId].accesses[session.init.group.access].shares,
                              t.keys[session.keyId].accesses[session.init.group.access].shares;
         forall d :: HasReceivedFrom(session, d) && d in before ==> d in after && after[d] == before[d]
  }

  lemma KeyMutationKeepsSigning(f: Frost, s: State, m: Mutation)
    requires SigningOk(f, s) && (m.NewKey? || m.NewAccess? || m.NewShare?) && KeepsDistinct(s, ChangeKey(m))
    ensures SigningOk(f, ApplyKey(s, m).state)
  {
    SameAnswers(f, s, ApplyKey(s, m).state);
  }

  // `delete_share` looks out for devices that have answered.
  lemma DeletionKeepsSigning(f: Frost, s: State, keyId: KeyId, access: AccessId, device: DeviceId)
    requires SigningOk(f, s)
    requires forall sid :: sid in s.active ==> !InvolvedIn(s.active[sid], keyId, access, device)
    ensures SigningOk(f, ApplyKey(s, DeleteShare(keyId, access, device)).state)
  {
    SameAnswers(f, s, ApplyKey(s, DeleteShare(keyId, access, device)).state);
  }

  lemma CloseKeepsSigning(f: Frost, s: State, sid: SessionId, signatures: Option<Signatures>)
    requires Inv(s) && SigningOk(f, s) && Close(s, sid, signatures).Applied?
    ensures SigningOk(f, Close(s, sid, signatures).state)
  {
    CloseKeepsInv(s, None, sid, signatures);
    SameAnswers(f, s, Close(s, sid, signatures).state);
  }

  lemma DeleteKeyKeepsSigning(f: Frost, s: State, keyId: KeyId)
    requires Inv(s) && SigningOk(f, s) && keyId in s.keys && Apply(s, DeleteKey(keyId)).Applied?
    ensures SigningOk(f, Apply(s, DeleteKey(keyId)).state)
  {
    var t := s.(keys := s.keys - {keyId}, keyOrder := Retain(s.keyOrder, keyId));
    RetainedEnumerates(s.keyOrder, s.keys.Keys, keyId);
    assert t.keys.Keys == s.keys.Keys - {keyId};
    assert InvUpTo(t, Some(keyId));
    CloseAllKeepsInv(t, Some(keyId), SessionsOf(s, keyId));
    SameAnswers(f, s, Apply(s, DeleteKey(keyId)).state);
  }

  // A new session has enough parties, because its devices hold different shares.
  lemma NewSessionIsAnswered(f: Frost, s: State, r: SignRequest, nonces: SessionNonces)
    requires ValidCache(s.cache) && AllDistinct(s.keys) && Admissible(s, Start(r, nonces)) && !StartRefused(s, r) && nonces.Selected?
    ensures AllAnswered(f, s.keys, NewSessionFor(r, s.keys[r.keyId].accesses[r.access], nonces.nonces))
  {
    forall d | d in r.devices ensures |nonces.nonces[d].segment.nonces| == r.nSignatures {
      SelectionIsPrefix(s.cache, r.devices, UsedStreams(s.active), r.nSignatures, nonces.nonces, d);
    }
    FullSessionIsAnswered(f, r, s.keys[r.keyId].accesses[r.access], nonces.nonces);
  }

  lemma FullSessionIsAnswered(f: Frost, r: SignRequest, access: Access, nonces: map<DeviceId, SubSegment>)
    requires Distinct(access.shares) && nonces.Keys == r.devices <= access.shares.Keys && |r.devices| >= access.threshold
    requires forall d :: d in r.devices ==> |nonces[d].segment.nonces| == r.nSignatures
    ensures var session := NewSessionFor(r, access, nonces);
            forall i :: 0 <= i < |session.progress| ==> Answered(f, access.shares, session, session.progress[i])
  {
    PartiesCount(access.shares, r.devices);
    forall i | 0 <= i < r.nSignatures
      ensures var session := NewSessionFor(r, access, nonces); Answered(f, access.shares, session, session.progress[i]) {
      EveryPartyHasANonce(access.shares, nonces, r.devices, i);
    }
  }

  lemma EveryPartyHasANonce(shares: map<DeviceId, ShareIndex>, nonces: map<DeviceId, SubSegment>, devices: set<DeviceId>, i: nat)
    requires devices <= shares.Keys && devices <= nonces.Keys
    requires forall d :: d in devices ==> i < |nonces[d].segment.nonces|
    ensures var byParty := ByParty(shares, nonces, devices);
            NoncesAt(byParty, i).Keys == byParty.Keys == PartiesOf(shares, devices)
  {
    var byParty := ByParty(shares, nonces, devices);
    forall p | p in byParty ensures i < |byParty[p].nonces| {
      assert byParty[p] == nonces[Holder(shares, devices, p)].segment;
    }
  }

  lemma StartNeverTrips(f: Frost, c: Coord, op: Op)
    requires Correct(f) && Inv(c.state) && SigningOk(f, c.state) && op.Start? && Admissible(c.state, op)
    ensures !IsBadStart(f, c.state, op)
  {
    var s, r := c.state, op.request;
    if !StartRefused(s, r) && op.nonces.Selected? {
      NewSessionIsAnswered(f, s, r, op.nonces);
      var session := NewSessionFor(r, s.keys[r.keyId].accesses[r.access], op.nonces.nonces);
      forall i | 0 <= i < |session.progress| ensures f.opens(session.progress[i].item) {
        assert Answered(f, s.keys[r.keyId].accesses[r.access].shares, session, session.progress[i]);
      }
    }
  }

  lemma StartKeepsSigning(f: Frost, c: Coord, op: Op)
    requires Inv(c.state) && SigningOk(f, c.state) && op.Start? && Admissible(c.state, op) && Step(f, c, op).Some?
    ensures SigningOk(f, Step(f, c, op).value.state)
  {
    var s, r := c.state, op.request;
    if !StartRefused(s, r) && op.nonces.Selected? {
      NewSessionIsAnswered(f, s, r, op.nonces);
    }
  }

  // ---------------------------------------------------------------------------------------------

  lemma SharesAreAnswers(f: Frost, s: State, sid: SessionId, device: DeviceId, shares: seq<Share>)
    requires sid in s.active && AllAnswered(f, s.keys, s.active[sid]) && AcceptsShares(f, s, sid, device, shares)
    ensures AllAnswered(f, s.keys, WithShares(s.active[sid], device, shares))
  {
    var session, next := s.active[sid], WithShares(s.active[sid], device, shares);
    var indices := s.keys[session.keyId].accesses[session.init.group.access].shares;
    forall i | 0 <= i < |next.progress| ensures Answered(f, indices, next, next.progress[i]) {
      assert Answered(f, indices, session, session.progress[i]) && Answered(f, indices, session, session.progress[0]);
      assert AcceptsShare(f, session.progress[i].item, indices[device], shares[i]);
    }
  }

  lemma AnsweredVerifies(f: Frost, s: State, session: ActiveSession)
    requires Correct(f) && AllDistinct(s.keys) && AllAnswered(f, s.keys, session) && AllFinished(session)
    ensures AllVerify(f, session)
  {
    var shares := s.keys[session.keyId].accesses[session.init.group.access].shares;
    forall i | 0 <= i < |session.progress|
      ensures f.valid(session.progress[i].item, CombinedShares(f, session.progress[i])) {
      assert Answered(f, shares, session, session.progress[i]);
      CountMeansOneEach(f, shares, session.progress[i]);
    }
  }

  lemma SharesNeverTrip(f: Frost, c: Coord, op: Op)
    requires Correct(f) && SigningOk(f, c.state) && op.RecvShares?
    ensures !IsBadCompletion(f, c.state, op)
  {
    var s := c.state;
    if op.sid in s.active && HasAccess(s.keys, s.active[op.sid].keyId, s.active[op.sid].init.group.access)
      && AcceptsShares(f, s, op.sid, op.device, op.shares) {
      var session := WithShares(s.active[op.sid], op.device, op.shares);
      SharesAreAnswers(f, s, op.sid, op.device, op.shares);
      if AllFinished(session) {
        AnsweredVerifies(f, s, session);
      }
    }
  }

  lemma StoringKeepsSigning(f: Frost, c: Coord, sid: SessionId, device: DeviceId, shares: seq<Share>)
    requires Inv(c.state) && SigningOk(f, c.state) && sid in c.state.active && AcceptsShares(f, c.state, sid, device, shares)
    ensures var t := Apply(c.state, GotShares(sid, device, shares)).state;
            Inv(t) && SigningOk(f, t)
  {
    ApplyKeepsInv(c.state, GotShares(sid, device, shares));
    SharesAreAnswers(f, c.state, sid, device, shares);
  }

  lemma StoredKeepsSigning(f: Frost, c: Coord, op: Op)
    requires Inv(c.state) && SigningOk(f, c.state) && op.RecvShares?
    requires op.sid in c.state.active && AcceptsShares(f, c.state, op.sid, op.device, op.shares)
    requires SharesStored(c, op.sid, op.device, op.shares, op.replenish).Some?
    ensures var t := SharesStored(c, op.sid, op.device, op.shares, op.replenish).value.state;
            Inv(t) && SigningOk(f, t)
  {
    StoringKeepsSigning(f, c, op.sid, op.device, op.shares);
    var got := Mutated(c, GotShares(op.sid, op.device, op.shares)).value;
    if op.replenish.Some? {
      ApplyKeepsInv(got.state, NewNonces(op.device, op.replenish.value));
      OtherMutationKeepsSigning(f, got.state, NewNonces(op.device, op.replenish.value));
    }
  }

  lemma RecvKeepsSigning(f: Frost, c: Coord, op: Op)
    requires Inv(c.state) && SigningOk(f, c.state) && op.RecvShares? && Step(f, c, op).Some?
    ensures SigningOk(f, Step(f, c, op).value.state)
  {
    var s := c.state;
    if op.sid in s.active && AcceptsShares(f, s, op.sid, op.device, op.shares) {
      StoredKeepsSigning(f, c, op);
      CompletedKeepsSigning(f, SharesStored(c, op.sid, op.device, op.shares, op.replenish).value, op.sid);
    }
  }

  lemma CompletedKeepsSigning(f: Frost, c: Coord, sid: SessionId)
    requires Inv(c.state) && SigningOk(f, c.state) && Completed(f, c, sid).Some?
    ensures SigningOk(f, Completed(f, c, sid).value.state)
  {
    if sid in c.state.active && AllFinished(c.state.active[sid]) {
      CloseKeepsSigning(f, c.state, sid, Some(Combined(f, c.state.active[sid])));
    }
  }

  lemma StepKeepsSigning(f: Frost, c: Coord, op: Op)
    requires Inv(c.state) && SigningOk(f, c.state) && Admissible(c.state, op) && KeepsDistinct(c.state, op)
    ensures Step(f, c, op).Some? ==> SigningOk(f, Step(f, c, op).value.state)
  {
    var s := c.state;
    if Step(f, c, op).Some? {
      match op
      case ChangeKey(m) => KeyMutationKeepsSigning(f, s, m);
      case RemoveShare(keyId, access, device) =>
        if Step(f, c, op) != Some(c) { DeletionKeepsSigning(f, s, keyId, access, device); }
      case RemoveKey(keyId) => if keyId in s.keys { DeleteKeyKeepsSigning(f, s, keyId); }
      case RecvSegment(device, segment) =>
        if Step(f, c, op) != Some(c) { OtherMutationKeepsSigning(f, s, NewNonces(device, segment)); }
      case RequestSign(sid, device, _) => OtherMutationKeepsSigning(f, s, SentSignReq(sid, device));
      case Cancel(sid) => CloseKeepsSigning(f, s, sid, None);
      case Forget(sid) => OtherMutationKeepsSigning(f, s, ForgetFinished(sid));
      case Start(_, _) => StartKeepsSigning(f, c, op);
      case RecvShares(_, _, _, _) => RecvKeepsSigning(f, c, op);
    }
  }

  lemma NothingTrips(f: Frost, c: Coord, op: Op)
    requires Correct(f) && Inv(c.state) && SigningOk(f, c.state) && Admissible(c.state, op)
    ensures !IsBadStart(f, c.state, op) && !IsBadCompletion(f, c.state, op)
  {
    if op.Start? {
      StartNeverTrips(f, c, op);
    }
    if op.RecvShares? {
      SharesNeverTrip(f, c, op);
    }
  }

  lemma RunStepKeepsSigning(f: Frost, ops: seq<Op>, trace: seq<Coord>, k: nat)
    requires IsRun(f, ops, trace) && k < |ops| && KeepsDistinct(trace[k].state, ops[k])
    ensures SigningOk(f, trace[k].state) ==> SigningOk(f, trace[k + 1].state)
  {
    RunKeepsInv(f, ops, trace, k);
    RunStep(f, ops, trace, k);
    if SigningOk(f, trace[k].state) {
      StepKeepsSigning(f, trace[k], ops[k]);
    }
  }

  lemma {:induction false} RunKeepsSigning(f: Frost, ops: seq<Op>, trace: seq<Coord>, i: nat)
    requires IsRun(f, ops, trace) && i < |trace|
    requires forall k :: 0 <= k < |ops| ==> KeepsDistinct(trace[k].state, ops[k])
    ensures SigningOk(f, trace[i].state)
  {
    if i == 0 {
      assert SigningOk(f, EMPTY);
    } else {
      RunKeepsSigning(f, ops, trace, i - 1);
      RunStepKeepsSigning(f, ops, trace, i - 1);
    }
  }

  /** In every run in which no two devices come to hold one share and received segments connect to the windows
      that sessions are using, completing a session never trips the assertion and the library accepts
      every session: the next operation panics if and only if it requests a signature whose expectations fail. */
  lemma DistinctRunsNeverTrip(f: Frost, ops: seq<Op>, trace: seq<Coord>, i: nat, next: Op)
    requires Correct(f) && IsRun(f, ops, trace) && i < |trace|
    requires forall k :: 0 <= k < |ops| ==> ConnectingOp(trace[k].state, ops[k]) && KeepsDistinct(trace[k].state, ops[k])
    requires Admissible(trace[i].state, next) && ConnectingOp(trace[i].state, next)
    ensures Step(f, trace[i], next).None? <==> IsBadRequest(trace[i].state, next)
  {
    RunKeepsInv(f, ops, trace, i);
    RunKeepsSigning(f, ops, trace, i);
    ConnectingRunsAreGood(f, ops, trace, i, next);
    NothingTrips(f, trace[i], next);
  }

  // ---------------------------------------------------------------------------------------------
  // What is stored as finished

  // One valid signature for each item of the session.
  ghost predicate SignedBy(f: Frost, session: ActiveSession, done: FinishedSession) {
    && done.init == session.init && done.keyId == session.keyId && |done.signatures| == |session.progress|
    && forall k :: 0 <= k < |done.signatures| ==> f.valid(session.progress[k].item, done.signatures[k])
  }

  lemma {:induction false} CloseAllFinishesNothing(s: State, sids: set<SessionId>)
    ensures CloseAll(s, sids).Applied? ==> CloseAll(s, sids).state.finished == s.finished
    decreases |sids|
  {
    if sids != {} && Close(s, Least(sids), None).Applied? {
      CloseAllFinishesNothing(Close(s, Least(sids), None).state, sids - {Least(sids)});
    }
  }

  // Only closing with signatures finishes a session.
  lemma ApplyFinishesNothing(s: State, m: Mutation)
    requires ValidCache(s.cache) && Apply(s, m).Applied? && (m.CloseSession? ==> m.signatures.None?)
    ensures forall sid :: sid in Apply(s, m).state.finished ==> sid in s.finished && Apply(s, m).state.finished[sid] == s.finished[sid]
  {
    if m.DeleteKey? && m.keyId in s.keys {
      CloseAllFinishesNothing(s.(keys := s.keys - {m.keyId}, keyOrder := Retain(s.keyOrder, m.keyId)), SessionsOf(s, m.keyId));
    }
  }

  // A finished session was finished before, or it has just been signed.
  ghost predicate FinishedBy(f: Frost, c: Coord, next: Coord, sid: SessionId) {
    sid in next.state.finished ==>
      || (sid in c.state.finished && c.state.finished[sid] == next.state.finished[sid])
      || (sid in c.state.active && SignedBy(f, c.state.active[sid], next.state.finished[sid]))
  }

  lemma CompletedFinishes(f: Frost, c: Coord, a: SessionId, sid: SessionId)
    requires ValidCache(c.state.cache) && Completed(f, c, a).Some?
    ensures FinishedBy(f, c, Completed(f, c, a).value, sid)
  {
  }

  lemma StoringFinishesNothing(c: Coord, op: Op)
    requires ValidCache(c.state.cache) && op.RecvShares? && op.sid in c.state.active
    requires SharesStored(c, op.sid, op.device, op.shares, op.replenish).Some?
    ensures var more := SharesStored(c, op.sid, op.device, op.shares, op.replenish).value;
            && more.state.finished == c.state.finished
            && more.state.active == c.state.active[op.sid := WithShares(c.state.active[op.sid], op.device, op.shares)]
  {
  }

  lemma RecvFinishes(f: Frost, c: Coord, op: Op, sid: SessionId)
    requires ValidCache(c.state.cache) && op.RecvShares? && Step(f, c, op).Some?
    ensures FinishedBy(f, c, Step(f, c, op).value, sid)
  {
    var s := c.state;
    if op.sid in s.active && AcceptsShares(f, s, op.sid, op.device, op.shares) {
      var more := SharesStored(c, op.sid, op.device, op.shares, op.replenish).value;
      StoringFinishesNothing(c, op);
      CompletedFinishes(f, more, op.sid, sid);
      SharesSignSame(f, s.active[op.sid], op.device, op.shares);
    }
  }

  // Storing shares changes nothing that signatures are about.
  lemma SharesSignSame(f: Frost, session: ActiveSession, device: DeviceId, shares: seq<Share>)
    ensures forall done :: SignedBy(f, WithShares(session, device, shares), done) ==> SignedBy(f, session, done)
  {
  }

  lemma StepFinishes(f: Frost, c: Coord, op: Op, sid: SessionId)
    requires ValidCache(c.state.cache) && Admissible(c.state, op) && Step(f, c, op).Some?
    ensures FinishedBy(f, c, Step(f, c, op).value, sid)
  {
    var s := c.state;
    match op
    case ChangeKey(m) => ApplyFinishesNothing(s, m);
    case RemoveShare(keyId, access, device) => ApplyFinishesNothing(s, DeleteShare(keyId, access, device));
    case RemoveKey(keyId) => if keyId in s.keys { ApplyFinishesNothing(s, DeleteKey(keyId)); }
    case RecvSegment(device, segment) =>
      if Step(f, c, op) != Some(c) { ApplyFinishesNothing(s, NewNonces(device, segment)); }
    case Start(r, nonces) =>
      if Step(f, c, op) != Some(c) { ApplyFinishesNothing(s, NewSession(NewSessionFor(r, s.keys[r.keyId].accesses[r.access], nonces.nonces))); }
    case RequestSign(sid, device, _) => ApplyFinishesNothing(s, SentSignReq(sid, device));
    case RecvShares(_, _, _, _) => RecvFinishes(f, c, op, sid);
    case Cancel(a) => ApplyFinishesNothing(s, CloseSession(a, None));
    case Forget(a) => ApplyFinishesNothing(s, ForgetFinished(a));
  }

  lemma RunStepFinishes(f: Frost, ops: seq<Op>, trace: seq<Coord>, k: nat, sid: SessionId)
    requires IsRun(f, ops, trace) && k < |ops|
    ensures FinishedBy(f, trace[k], trace[k + 1], sid)
  {
    RunStep(f, ops, trace, k);
    StepFinishes(f, trace[k], ops[k], sid);
  }

  lemma {:induction false} SignedAt(f: Frost, trace: seq<Coord>, i: nat, sid: SessionId) returns (j: nat)
    requires i < |trace| && (forall k :: 0 <= k < i ==> FinishedBy(f, trace[k], trace[k + 1], sid))
    requires sid !in trace[0].state.finished && sid in trace[i].state.finished
    ensures j < i && sid in trace[j].state.active && SignedBy(f, trace[j].state.active[sid], trace[i].state.finished[sid])
  {
    assert i > 0 && FinishedBy(f, trace[i - 1], trace[i - 1 + 1], sid);
    if sid in trace[i - 1].state.finished && trace[i - 1].state.finished[sid] == trace[i].state.finished[sid] {
      j := SignedAt(f, trace, i - 1, sid);
    } else {
      j := i - 1;
    }
  }

  /** In every run, whatever devices hold which shares: a session is stored as finished only with one valid
      signature for each of its items. */
  lemma FinishedSignaturesVerify(f: Frost, ops: seq<Op>, trace: seq<Coord>, i: nat, sid: SessionId) returns (j: nat)
    requires IsRun(f, ops, trace) && i < |trace| && sid in trace[i].state.finished
    ensures j < i && sid in trace[j].state.active && SignedBy(f, trace[j].state.active[sid], trace[i].state.finished[sid])
  {
    forall k | 0 <= k < i ensures FinishedBy(f, trace[k], trace[k + 1], sid) {
      RunStepFinishes(f, ops, trace, k, sid);
    }
    j := SignedAt(f, trace, i, sid);
  }
}
