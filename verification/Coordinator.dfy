/**
 The coordinator's keys, nonce cache and signing sessions, and the mutations that change them
 (frostsnap_core/src/coordinator.rs).

 `Apply` gives each mutation its meaning on values; the class `FrostCoordinator` carries it out in
 place. Key and share cryptography is abstract: a key id, an access structure id and a session id are
 taken as given where the source hashes for them, and a `Frost` value answers for the library.
 */
module Coordinator {
  import opened Common
  import opened NonceStream
  import opened CoordNonces

  type KeyId(==, !new)
  type AccessId(==, !new)
  type KeyInfo(==, !new)      // name, purpose, encrypted root key
  type AccessInfo(==, !new)   // shared key, kind

  // A symmetric key, as the caller hands it over: which encrypted root keys it decrypts.
  type SymmetricKey = KeyInfo -> bool
  type ShareIndex(==, !new)
  type Share(==, !new)
  type Message(==, !new)      // what an item signs, its tweak, and the randomness of its session
  type Signature(==, !new)

  type Signatures = seq<Signature>

  // Hash bytes, in the order a BTreeMap keeps them.
  type SessionId = nat

  datatype Access = Access(info: AccessInfo, threshold: nat, shares: map<DeviceId, ShareIndex>)

  datatype Key = Key(info: KeyInfo, accesses: map<AccessId, Access>)

  datatype GroupRequest = GroupRequest(sessionId: SessionId, access: AccessId, parties: set<ShareIndex>, nSignatures: U32)

  // One FROST session: the key it signs with, and the nonce of each party.
  datatype Item = Item(key: AccessInfo, threshold: nat, message: Message, nonces: map<ShareIndex, Nonce>)

  // The FROST library, as the code calls it. Nothing is assumed about its answers.
  datatype Frost = Frost(
    opens: Item -> bool,                       // `randomized_coordinator_sign_session` does not panic
    verifies: (Item, ShareIndex, Share) -> bool,
    combine: (Item, seq<Share>) -> Signature,
    valid: (Item, Signature) -> bool)

  datatype Progress = Progress(item: Item, shares: map<DeviceId, Share>)

  datatype StartSign = StartSign(nonces: map<DeviceId, CoordState>, group: GroupRequest)

  datatype ActiveSession = ActiveSession(
    progress: seq<Progress>,
    init: StartSign,
    keyId: KeyId,
    sent: set<DeviceId>)

  datatype FinishedSession = FinishedSession(init: StartSign, signatures: Signatures, keyId: KeyId)

  datatype Mutation =
    | NewKey(keyId: KeyId, key: Key)
    | NewAccess(keyId: KeyId, access: AccessId, info: AccessInfo, threshold: nat)
    | NewShare(keyId: KeyId, access: AccessId, device: DeviceId, index: ShareIndex)
    | DeleteShare(keyId: KeyId, access: AccessId, device: DeviceId)
    | DeleteKey(keyId: KeyId)
    | NewNonces(device: DeviceId, segment: Segment)
    | NewSession(session: ActiveSession)
    | GotShares(sid: SessionId, device: DeviceId, signatureShares: seq<Share>)
    | SentSignReq(sid: SessionId, device: DeviceId)
    | CloseSession(sid: SessionId, signatures: Option<Signatures>)
    | ForgetFinished(sid: SessionId)

  datatype State = State(
    keys: map<KeyId, Key>,
    keyOrder: seq<KeyId>,
    cache: Cache,
    active: map<SessionId, ActiveSession>,
    order: seq<SessionId>,
    finished: map<SessionId, FinishedSession>)

  // `recorded` is whether `mutate` appends the mutation to the staged log.
  datatype Result = Applied(state: State, recorded: bool) | ApplyPanics

  const EMPTY: State := State(map[], [], map[], map[], [], map[])

  // ---------------------------------------------------------------------------------------------
  // Closing a session

  function ConsumePoint(session: ActiveSession, d: DeviceId): nat
    requires d in session.init.nonces
  {
    session.init.nonces[d].index + session.init.group.nSignatures
  }

  // Closing consumes what was sent to `d`.
  predicate Consumes(session: ActiveSession, d: DeviceId) {
    d in session.init.nonces && d in session.sent
  }

  // "no overflow" or the assertion of `consume`
  ghost predicate ClosePanicsAt(c: Cache, session: ActiveSession, d: DeviceId)
    requires Consumes(session, d)
  {
    ConsumePoint(session, d) > U32_MAX || ConsumePanics(c, d, session.init.nonces[d].stream, ConsumePoint(session, d))
  }

  ghost predicate ClosePanics(c: Cache, session: ActiveSession) {
    exists d :: Consumes(session, d) && ClosePanicsAt(c, session, d)
  }

  // What closing does to the windows of one device.
  ghost function ConsumedAt(segments: map<StreamId, Segment>, stream: StreamId, upTo: nat): (r: map<StreamId, Segment>)
    ensures r.Keys == segments.Keys
  {
    if stream in segments && upTo <= U32_MAX then segments[stream := Deleted(segments[stream], upTo)] else segments
  }

  // Closing has been carried out for the devices in `ds`.
  ghost function ConsumedFor(c: Cache, session: ActiveSession, ds: set<DeviceId>): (r: Cache)
    ensures ValidCache(c) ==> ValidCache(r)
  {
    map d | d in c :: if d in ds && Consumes(session, d) then ConsumedAt(c[d], session.init.nonces[d].stream, ConsumePoint(session, d)) else c[d]
  }

  lemma ConsumeOneMore(c: Cache, session: ActiveSession, ds: set<DeviceId>, d: DeviceId)
    requires !ClosePanics(c, session) && d !in ds && Consumes(session, d)
    ensures ConsumePoint(session, d) <= U32_MAX
    ensures !ConsumePanics(ConsumedFor(c, session, ds), d, session.init.nonces[d].stream, ConsumePoint(session, d))
    ensures ConsumedFor(c, session, ds + {d})
            == Consumed(ConsumedFor(c, session, ds), d, session.init.nonces[d].stream, ConsumePoint(session, d))
  {
    assert !ClosePanicsAt(c, session, d);
    var e := ConsumedFor(c, session, ds);
    assert Lookup(e, d, session.init.nonces[d].stream) == Lookup(c, d, session.init.nonces[d].stream);
  }

  lemma ConsumeNothing(c: Cache, session: ActiveSession, ds: set<DeviceId>, d: DeviceId)
    ensures ConsumedFor(c, session, {}) == c
    ensures !Consumes(session, d) ==> ConsumedFor(c, session, ds + {d}) == ConsumedFor(c, session, ds)
  {
  }

  function RemoveFirst<T(==)>(s: seq<T>, x: T): seq<T> {
    if s == [] then [] else if s[0] == x then s[1..] else [s[0]] + RemoveFirst(s[1..], x)
  }

  function Retain<T(==)>(s: seq<T>, x: T): seq<T> {
    if s == [] then [] else if s[0] == x then Retain(s[1..], x) else [s[0]] + Retain(s[1..], x)
  }

  ghost function Close(s: State, sid: SessionId, signatures: Option<Signatures>): (r: Result)
    ensures r.Applied? && ValidCache(s.cache) ==> ValidCache(r.state.cache)
  {
    if sid !in s.order then Applied(s, false)
    else if sid !in s.active then ApplyPanics
    else
      var session := s.active[sid];
      if ClosePanics(s.cache, session) then ApplyPanics
      else Applied(
        s.(order := RemoveFirst(s.order, sid),
           active := s.active - {sid},
           cache := ConsumedFor(s.cache, session, session.init.nonces.Keys),
           finished := if signatures.Some? then s.finished[sid := FinishedSession(session.init, signatures.value, session.keyId)]
                       else s.finished),
        true)
  }

  ghost function Least(s: set<nat>): (x: nat)
    requires s != {}
    ensures x in s && forall t :: t in s ==> x <= t
  {
    assert exists x :: x in s && forall t :: t in s ==> x <= t by {
      var least := HasLeast(s);
    }
    var x :| x in s && forall t :: t in s ==> x <= t;
    x
  }

  // The nested closes of `DeleteKey`, in session id order.
  ghost function CloseAll(s: State, sids: set<SessionId>): (r: Result)
    ensures r.Applied? && ValidCache(s.cache) ==> ValidCache(r.state.cache)
    decreases |sids|
  {
    if sids == {} then Applied(s, true)
    else
      var sid := Least(sids);
      match Close(s, sid, None)
      case ApplyPanics => ApplyPanics
      case Applied(next, _) => CloseAll(next, sids - {sid})
  }

  ghost function SessionsOf(s: State, keyId: KeyId): set<SessionId> {
    set sid | sid in s.active && s.active[sid].keyId == keyId
  }

  // ---------------------------------------------------------------------------------------------
  // Mutations

  function WithAccess(keys: map<KeyId, Key>, keyId: KeyId, access: AccessId, value: Access): map<KeyId, Key>
    requires keyId in keys
  {
    keys[keyId := keys[keyId].(accesses := keys[keyId].accesses[access := value])]
  }

  predicate HasAccess(keys: map<KeyId, Key>, keyId: KeyId, access: AccessId) {
    keyId in keys && access in keys[keyId].accesses
  }

  // Each received share joins the progress of its signature.
  function AddShares(progress: seq<Progress>, device: DeviceId, shares: seq<Share>): seq<Progress> {
    seq(|progress|, i requires 0 <= i < |progress| =>
      if i < |shares| then progress[i].(shares := progress[i].shares[device := shares[i]]) else progress[i])
  }

  ghost function ApplyKey(s: State, m: Mutation): Result
    requires m.NewKey? || m.NewAccess? || m.NewShare? || m.DeleteShare?
  {
    match m
    case NewKey(keyId, key) =>
      Applied(if keyId in s.keys then s else s.(keys := s.keys[keyId := key], keyOrder := s.keyOrder + [keyId]), true)
    case NewAccess(keyId, access, info, threshold) =>
      if keyId !in s.keys || access in s.keys[keyId].accesses then Applied(s, false)
      else Applied(s.(keys := WithAccess(s.keys, keyId, access, Access(info, threshold, map[]))), true)
    case NewShare(keyId, access, device, index) =>
      if !HasAccess(s.keys, keyId, access) then Applied(s, false)
      else
        var a := s.keys[keyId].accesses[access];
        if device in a.shares && a.shares[device] == index then Applied(s, false)
        else Applied(s.(keys := WithAccess(s.keys, keyId, access, a.(shares := a.shares[device := index]))), true)
    case DeleteShare(keyId, access, device) =>
      if !HasAccess(s.keys, keyId, access) || device !in s.keys[keyId].accesses[access].shares then Applied(s, false)
      else
        var a := s.keys[keyId].accesses[access];
        Applied(s.(keys := WithAccess(s.keys, keyId, access, a.(shares := a.shares - {device}))), true)
  }

  ghost function Apply(s: State, m: Mutation): (r: Result)
    requires ValidCache(s.cache)
    ensures r.Applied? ==> ValidCache(r.state.cache)
  {
    match m
    case DeleteKey(keyId) =>
      if keyId !in s.keys then Applied(s, false)
      else CloseAll(s.(keys := s.keys - {keyId}, keyOrder := Retain(s.keyOrder, keyId)), SessionsOf(s, keyId))
    case NewNonces(device, segment) =>
      var (cache, outcome) := ExtendCache(s.cache, device, segment);
      if outcome.CacheExtendPanics? then ApplyPanics else Applied(s.(cache := cache), outcome.Changed?)
    case NewSession(session) =>
      var sid := session.init.group.sessionId;
      Applied(s.(active := s.active[sid := session], order := s.order + [sid]), true)
    case GotShares(sid, device, shares) =>
      if sid !in s.active then Applied(s, true)
      else Applied(s.(active := s.active[sid := s.active[sid].(progress := AddShares(s.active[sid].progress, device, shares))]), true)
    case SentSignReq(sid, device) =>
      if sid !in s.active || device in s.active[sid].sent then Applied(s, false)
      else Applied(s.(active := s.active[sid := s.active[sid].(sent := s.active[sid].sent + {device})]), true)
    case CloseSession(sid, signatures) => Close(s, sid, signatures)
    case ForgetFinished(sid) => Applied(s.(finished := s.finished - {sid}), true)
    case _ => ApplyKey(s, m)
  }

  // ---------------------------------------------------------------------------------------------
  // Operations

  // The coordinator with its log of recorded mutations.
  datatype Coord = Coord(state: State, log: seq<Mutation>)

  datatype SignRequest = SignRequest(
    keyId: KeyId,
    access: AccessId,
    devices: set<DeviceId>,
    taskOk: bool,          // `check` accepted the task
    nSignatures: U32,
    message: nat -> Message,
    sessionId: SessionId)  // the hash of the group request this call builds

  ghost function Mutated(c: Coord, m: Mutation): (r: Option<Coord>)
    requires ValidCache(c.state.cache)
    ensures r.Some? ==> ValidCache(r.value.state.cache)
  {
    match Apply(c.state, m)
    case ApplyPanics => None
    case Applied(s, recorded) => Some(Coord(s, if recorded then c.log + [m] else c.log))
  }

  function UsedStreams(active: map<SessionId, ActiveSession>): set<StreamId> {
    set sid, d | sid in active && d in active[sid].init.nonces :: active[sid].init.nonces[d].stream
  }

  datatype StartError =
    | UnknownKey
    | NoSuchAccessStructure
    | DeviceNotPartOfKey(device: DeviceId)
    | NotEnoughDevicesSelected(selected: nat, threshold: nat)
    | BadSignTask
    | NotEnoughNoncesForDevice(device: DeviceId, available: nat, need: nat)

  datatype StartOutcome = Opened(sid: SessionId) | Refused(error: StartError) | StartPanics

  // The checks of `start_sign` up to the choice of nonces fail.
  predicate StartRefused(s: State, r: SignRequest) {
    || !HasAccess(s.keys, r.keyId, r.access)
    || !(r.devices <= s.keys[r.keyId].accesses[r.access].shares.Keys)
    || |r.devices| < s.keys[r.keyId].accesses[r.access].threshold
    || !r.taskOk
  }

  // Each error is about one check and means that the earlier ones passed.
  ghost predicate RefusedWith(s: State, r: SignRequest, e: StartError) {
    if e.UnknownKey? then r.keyId !in s.keys
    else if e.NoSuchAccessStructure? then r.keyId in s.keys && r.access !in s.keys[r.keyId].accesses
    else
      && HasAccess(s.keys, r.keyId, r.access)
      && var a := s.keys[r.keyId].accesses[r.access];
         match e
         case DeviceNotPartOfKey(d) =>
           d in r.devices && d !in a.shares && forall x :: x in r.devices && x < d ==> x in a.shares
         case NotEnoughDevicesSelected(selected, threshold) =>
           r.devices <= a.shares.Keys && selected == |r.devices| < threshold == a.threshold
         case BadSignTask => r.devices <= a.shares.Keys && |r.devices| >= a.threshold && !r.taskOk
         case _ => false
  }

  /** A request is refused for one reason. */
  lemma RefusalIsUnique(s: State, r: SignRequest, e: StartError, e': StartError)
    requires RefusedWith(s, r, e)
    ensures StartRefused(s, r)
    ensures RefusedWith(s, r, e') ==> e == e'
  {
  }

  // Of several devices that hold one share, the last in order: its nonces are those the party gets.
  ghost function Holder(shares: map<DeviceId, ShareIndex>, devices: set<DeviceId>, party: ShareIndex): (d: DeviceId)
    requires devices <= shares.Keys && party in PartiesOf(shares, devices)
    ensures d in devices && shares[d] == party
    ensures forall e :: e in devices && shares[e] == party ==> e <= d
  {
    var holders := set d | d in devices && shares[d] == party;
    var h :| h in devices && shares[h] == party;
    assert h in holders;
    assert exists d :: d in holders && forall e :: e in holders ==> e <= d by {
      var greatest := HasGreatest(holders);
    }
    var d :| d in holders && forall e :: e in holders ==> e <= d;
    assert forall e :: e in devices && shares[e] == party ==> e in holders;
    d
  }

  function PartiesOf(shares: map<DeviceId, ShareIndex>, devices: set<DeviceId>): set<ShareIndex>
    requires devices <= shares.Keys
  {
    set d | d in devices :: shares[d]
  }

  // `nonces_by_party`, for some of the devices.
  ghost function ByParty(shares: map<DeviceId, ShareIndex>, nonces: map<DeviceId, SubSegment>, devices: set<DeviceId>): map<ShareIndex, Segment>
    requires devices <= shares.Keys && devices <= nonces.Keys
  {
    map p | p in PartiesOf(shares, devices) :: nonces[Holder(shares, devices, p)].segment
  }

  // The i-th nonce of every party.
  function NoncesAt(byParty: map<ShareIndex, Segment>, i: nat): map<ShareIndex, Nonce> {
    map p | p in byParty && i < |byParty[p].nonces| :: byParty[p].nonces[i]
  }

  function SessionOver(r: SignRequest, access: Access, byParty: map<ShareIndex, Segment>, nonces: map<DeviceId, SubSegment>): ActiveSession {
    ActiveSession(
      seq(r.nSignatures, i requires i >= 0 => Progress(Item(access.info, access.threshold, r.message(i), NoncesAt(byParty, i)), map[])),
      StartSign(map d | d in nonces :: CoordStateOf(nonces[d]), GroupRequest(r.sessionId, r.access, byParty.Keys, r.nSignatures)),
      r.keyId, {})
  }

  ghost function NewSessionFor(r: SignRequest, access: Access, nonces: map<DeviceId, SubSegment>): ActiveSession
    requires nonces.Keys <= access.shares.Keys
  {
    SessionOver(r, access, ByParty(access.shares, nonces, nonces.Keys), nonces)
  }

  lemma OneMoreParty(shares: map<DeviceId, ShareIndex>, nonces: map<DeviceId, SubSegment>, done: set<DeviceId>, d: DeviceId)
    requires done + {d} <= shares.Keys && done + {d} <= nonces.Keys && forall e :: e in done ==> e < d
    ensures ByParty(shares, nonces, done + {d}) == ByParty(shares, nonces, done)[shares[d] := nonces[d].segment]
  {
    var before, after := ByParty(shares, nonces, done), ByParty(shares, nonces, done + {d});
    assert after.Keys == before.Keys + {shares[d]};
    forall p | p in after ensures after[p] == before[shares[d] := nonces[d].segment][p] {
      var h := Holder(shares, done + {d}, p);
      if p == shares[d] {
        assert h == d;
      } else {
        assert h == Holder(shares, done, p);
      }
    }
  }

  // The library opens a session for every item.
  predicate OpensAll(f: Frost, session: ActiveSession) {
    forall i :: 0 <= i < |session.progress| ==> f.opens(session.progress[i].item)
  }

  ghost predicate IsStart(s: State, r: SignRequest, nonces: SessionNonces) {
    IsSessionNonces(s.cache, r.devices, UsedStreams(s.active), r.nSignatures, nonces)
  }

  // The expectations of `request_device_sign`: session, device, key, and "must be able to decrypt rootkey",
  // which also looks for the device's share.
  predicate RequestPanics(s: State, sid: SessionId, device: DeviceId, encryptionKey: SymmetricKey) {
    || sid !in s.active
    || device !in s.active[sid].init.nonces
    || s.active[sid].keyId !in s.keys
    || !Contributes(s.keys[s.active[sid].keyId], s.active[sid].init.group.access, device, encryptionKey)
  }

  // `coord_share_decryption_contrib`: access structure, root key and share are all there.
  predicate Contributes(key: Key, access: AccessId, device: DeviceId, encryptionKey: SymmetricKey) {
    access in key.accesses && encryptionKey(key.info) && device in key.accesses[access].shares
  }

  predicate HasReceivedFrom(session: ActiveSession, device: DeviceId) {
    session.progress != [] && device in session.progress[0].shares
  }

  // `DeviceInActiveSignSession`
  predicate InvolvedIn(session: ActiveSession, keyId: KeyId, access: AccessId, device: DeviceId) {
    session.keyId == keyId && session.init.group.access == access && (device in session.sent || HasReceivedFrom(session, device))
  }

  // As many devices have answered for each item as there are parties.
  predicate AllFinished(session: ActiveSession) {
    forall i :: 0 <= i < |session.progress| ==> |session.progress[i].shares| == |session.init.group.parties|
  }

  // The shares of `devices`, in device order.
  ghost function InOrder(shares: map<DeviceId, Share>, devices: set<DeviceId>): (r: seq<Share>)
    requires devices <= shares.Keys
    ensures |r| == |devices|
  {
    if devices == {} then [] else [shares[Least(devices)]] + InOrder(shares, devices - {Least(devices)})
  }

  ghost function CombinedShares(f: Frost, p: Progress): Signature {
    f.combine(p.item, InOrder(p.shares, p.shares.Keys))
  }

  ghost function Combined(f: Frost, session: ActiveSession): Signatures {
    seq(|session.progress|, i requires 0 <= i < |session.progress| => CombinedShares(f, session.progress[i]))
  }

  // "we have verified the signature shares so combined should be correct"
  ghost predicate AllVerify(f: Frost, session: ActiveSession) {
    forall i :: 0 <= i < |session.progress| ==> f.valid(session.progress[i].item, CombinedShares(f, session.progress[i]))
  }

  // The first `k` items have their signatures, and these verify.
  ghost predicate CombinedUpTo(f: Frost, session: ActiveSession, k: nat, combined: Signatures)
    requires k <= |session.progress|
  {
    |combined| == k
    && forall j :: 0 <= j < k ==>
         combined[j] == CombinedShares(f, session.progress[j]) && f.valid(session.progress[j].item, CombinedShares(f, session.progress[j]))
  }

  // `None` is a panic.
  ghost function Completed(f: Frost, c: Coord, sid: SessionId): (r: Option<Coord>)
    requires ValidCache(c.state.cache)
    ensures r.Some? ==> ValidCache(r.value.state.cache)
  {
    if sid !in c.state.active || !AllFinished(c.state.active[sid]) then Some(c)
    else if !AllVerify(f, c.state.active[sid]) then None
    else Mutated(c, CloseSession(sid, Some(Combined(f, c.state.active[sid]))))
  }

  datatype Completion = NotComplete | Complete(signatures: Signatures) | WrongSignature

  // Shares from a device: it has a share of the key, that share is a party of every item, and every share verifies.
  predicate AcceptsShares(f: Frost, s: State, sid: SessionId, device: DeviceId, shares: seq<Share>)
    requires sid in s.active && HasAccess(s.keys, s.active[sid].keyId, s.active[sid].init.group.access)
  {
    var session := s.active[sid];
    var indices := s.keys[session.keyId].accesses[session.init.group.access].shares;
    && device in indices
    && |shares| == |session.progress|
    && forall i :: 0 <= i < |shares| ==> AcceptsShare(f, session.progress[i].item, indices[device], shares[i])
  }

  predicate AcceptsShare(f: Frost, item: Item, index: ShareIndex, share: Share) {
    index in item.nonces && f.verifies(item, index, share)
  }

  // Accepted shares are stored and a segment that came with them is merged.
  ghost function SharesStored(c: Coord, sid: SessionId, device: DeviceId, shares: seq<Share>, replenish: Option<Segment>): (r: Option<Coord>)
    requires ValidCache(c.state.cache)
    ensures r.Some? ==> ValidCache(r.value.state.cache)
  {
    match Mutated(c, GotShares(sid, device, shares))
    case None => None
    case Some(got) => if replenish.Some? then Mutated(got, NewNonces(device, replenish.value)) else Some(got)
  }

  // "session exists access structure exists"
  ghost function SharesReceived(f: Frost, c: Coord, sid: SessionId, device: DeviceId, shares: seq<Share>, replenish: Option<Segment>): (r: Option<Coord>)
    requires ValidCache(c.state.cache)
    ensures r.Some? ==> ValidCache(r.value.state.cache)
  {
    var s := c.state;
    if sid !in s.active then Some(c)
    else if !HasAccess(s.keys, s.active[sid].keyId, s.active[sid].init.group.access) then None
    else if !AcceptsShares(f, s, sid, device, shares) then Some(c)
    else
      match SharesStored(c, sid, device, shares, replenish)
      case None => None
      case Some(more) => Completed(f, more, sid)
  }

  // A segment from a device, after the check that the handler of nonce responses makes.
  ghost function Received(c: Coord, device: DeviceId, segment: Segment): Option<Coord>
    requires ValidCache(c.state.cache)
  {
    match CheckCanExtend(c.state.cache, device, segment)
    case Refuses(_) => Some(c)
    case CheckPanics => None
    case MayExtend => Mutated(c, NewNonces(device, segment))
  }

  // `None` is a panic of the library.
  ghost function Started(f: Frost, c: Coord, r: SignRequest, nonces: SessionNonces): Option<Coord>
    requires ValidCache(c.state.cache) && !StartRefused(c.state, r)
    requires nonces.Selected? ==> nonces.nonces.Keys == r.devices
  {
    match nonces
    case NotEnoughNonces(_, _, _) => Some(c)
    case Selected(chosen) =>
      var session := NewSessionFor(r, c.state.keys[r.keyId].accesses[r.access], chosen);
      if OpensAll(f, session) then Mutated(c, NewSession(session)) else None
  }

  ghost function ShareRemoved(c: Coord, keyId: KeyId, access: AccessId, device: DeviceId): Option<Coord>
    requires ValidCache(c.state.cache)
  {
    if exists sid :: sid in c.state.active && InvolvedIn(c.state.active[sid], keyId, access, device) then Some(c)
    else if HasAccess(c.state.keys, keyId, access) && device in c.state.keys[keyId].accesses[access].shares then
      Mutated(c, DeleteShare(keyId, access, device))
    else Some(c)
  }

  // ---------------------------------------------------------------------------------------------

  /** `FrostCoordinator`. */
  class FrostCoordinator {
    var keys: map<KeyId, Key>
    var keyOrder: seq<KeyId>
    const nonceCache: NonceCache
    var mutations: seq<Mutation>
    var active: map<SessionId, ActiveSession>
    var order: seq<SessionId>
    var finished: map<SessionId, FinishedSession>

    ghost function Snapshot(): State
      reads this, nonceCache
    {
      State(keys, keyOrder, nonceCache.byDevice, active, order, finished)
    }

    constructor ()
      ensures Snapshot() == EMPTY && mutations == [] && fresh(nonceCache)
    {
      keys, keyOrder, mutations := map[], [], [];
      active, order, finished := map[], [], map[];
      nonceCache := new NonceCache();
    }

    method Mutate(m: Mutation)
      requires ValidCache(nonceCache.byDevice) && Apply(Snapshot(), m).Applied?
      modifies this, nonceCache
      ensures Some(Value()) == Mutated(old(Value()), m)
    {
      var reduced := ApplyMutation(m);
      if reduced {
        mutations := mutations + [m];
      }
    }

    method ApplyMutation(m: Mutation) returns (recorded: bool)
      requires ValidCache(nonceCache.byDevice) && Apply(Snapshot(), m).Applied?
      modifies this, nonceCache
      ensures Apply(old(Snapshot()), m) == Applied(Snapshot(), recorded)
      ensures mutations == old(mutations)
    {
      match m
      case DeleteKey(keyId) => recorded := ApplyDeleteKey(keyId);
      case NewNonces(device, segment) =>
        var outcome := nonceCache.ExtendSegment(device, segment);
        recorded := outcome.Changed?;
      case NewSession(session) =>
        var sid := session.init.group.sessionId;
        active := active[sid := session];
        order := order + [sid];
        recorded := true;
      case GotShares(sid, device, shares) =>
        if sid in active {
          active := active[sid := active[sid].(progress := AddShares(active[sid].progress, device, shares))];
        }
        recorded := true;
      case SentSignReq(sid, device) =>
        if sid !in active || device in active[sid].sent {
          return false;
        }
        active := active[sid := active[sid].(sent := active[sid].sent + {device})];
        recorded := true;
      case CloseSession(sid, signatures) => recorded := ApplyClose(sid, signatures);
      case ForgetFinished(sid) =>
        finished := finished - {sid};
        recorded := true;
      case _ => recorded := ApplyKeyMutation(m);
    }

    method ApplyKeyMutation(m: Mutation) returns (recorded: bool)
      requires m.NewKey? || m.NewAccess? || m.NewShare? || m.DeleteShare?
      modifies this
      ensures ApplyKey(old(Snapshot()), m) == Applied(Snapshot(), recorded)
      ensures mutations == old(mutations)
    {
      match m
      case NewKey(keyId, key) =>
        if keyId !in keys {
          keys := keys[keyId := key];
          keyOrder := keyOrder + [keyId];
        }
        recorded := true;
      case NewAccess(keyId, access, info, threshold) =>
        if keyId !in keys || access in keys[keyId].accesses {
          return false;
        }
        keys := WithAccess(keys, keyId, access, Access(info, threshold, map[]));
        recorded := true;
      case NewShare(keyId, access, device, index) =>
        if !HasAccess(keys, keyId, access) {
          return false;
        }
        var a := keys[keyId].accesses[access];
        if device in a.shares && a.shares[device] == index {
          return false;
        }
        keys := WithAccess(keys, keyId, access, a.(shares := a.shares[device := index]));
        recorded := true;
      case DeleteShare(keyId, access, device) =>
        if !HasAccess(keys, keyId, access) || device !in keys[keyId].accesses[access].shares {
          return false;
        }
        var a := keys[keyId].accesses[access];
        keys := WithAccess(keys, keyId, access, a.(shares := a.shares - {device}));
        recorded := true;
    }

    method ConsumeSent(session: ActiveSession)
      requires !ClosePanics(nonceCache.byDevice, session)
      modifies nonceCache
      ensures nonceCache.byDevice == ConsumedFor(old(nonceCache.byDevice), session, session.init.nonces.Keys)
    {
      ghost var cache0 := nonceCache.byDevice;
      var rest := session.init.nonces.Keys;
      ghost var done: set<DeviceId> := {};
      ConsumeNothing(cache0, session, done, 0);
      while rest != {}
        invariant done + rest == session.init.nonces.Keys && done !! rest
        invariant !ClosePanics(cache0, session)
        invariant nonceCache.byDevice == ConsumedFor(cache0, session, done)
        decreases |rest|
      {
        var device: DeviceId;
        device, rest := TakeLeast(rest);
        if device in session.sent {
          ConsumeOneMore(cache0, session, done, device);
          var consumeTo := ConsumePoint(session, device);
          var _ := nonceCache.Consume(device, session.init.nonces[device].stream, consumeTo);
        } else {
          ConsumeNothing(cache0, session, done, device);
        }
        done := done + {device};
      }
      assert done == session.init.nonces.Keys;
    }

    method ApplyClose(sid: SessionId, signatures: Option<Signatures>) returns (recorded: bool)
      requires Close(Snapshot(), sid, signatures).Applied?
      modifies this, nonceCache
      ensures Close(old(Snapshot()), sid, signatures) == Applied(Snapshot(), recorded)
      ensures mutations == old(mutations)
    {
      if sid !in order {
        return false;
      }
      order := RemoveFirst(order, sid);
      var session := active[sid];
      active := active - {sid};
      ConsumeSent(session);
      if signatures.Some? {
        finished := finished[sid := FinishedSession(session.init, signatures.value, session.keyId)];
      }
      recorded := true;
    }

    method ApplyDeleteKey(keyId: KeyId) returns (recorded: bool)
      requires ValidCache(nonceCache.byDevice) && Apply(Snapshot(), DeleteKey(keyId)).Applied?
      modifies this, nonceCache
      ensures Apply(old(Snapshot()), DeleteKey(keyId)) == Applied(Snapshot(), recorded)
      ensures mutations == old(mutations)
    {
      if keyId !in keys {
        return false;
      }
      keys := keys - {keyId};
      keyOrder := Retain(keyOrder, keyId);
      var rest := set sid | sid in active && active[sid].keyId == keyId;
      ghost var all := CloseAll(Snapshot(), rest);
      while rest != {}
        invariant CloseAll(Snapshot(), rest) == all && all.Applied?
        invariant mutations == old(mutations)
        decreases |rest|
      {
        ghost var first := Least(rest);
        var sid: SessionId;
        sid, rest := TakeLeast(rest);
        assert sid == first;
        var _ := ApplyClose(sid, None);
      }
      recorded := true;
    }

    ghost function Value(): Coord
      reads this, nonceCache
    {
      Coord(Snapshot(), mutations)
    }

    method AllUsedNonceStreams() returns (used: set<StreamId>)
      ensures used == UsedStreams(active)
    {
      used := UsedStreams(active);
    }

    method FirstWithoutShare(devices: set<DeviceId>, access: Access) returns (missing: Option<DeviceId>)
      ensures missing.None? ==> devices <= access.shares.Keys
      ensures missing.Some? ==>
                && missing.value in devices && missing.value !in access.shares
                && forall x :: x in devices && x < missing.value ==> x in access.shares
    {
      var rest := devices;
      while rest != {}
        invariant rest <= devices && forall x :: x in devices && x !in rest ==> x in access.shares
        decreases |rest|
      {
        ghost var before := rest;
        var device: DeviceId;
        device, rest := TakeLeast(rest);
        if device !in access.shares {
          return Some(device);
        }
      }
      return None;
    }

    // Collecting into a map by party: of two devices with one share the later one stays.
    method CollectByParty(shares: map<DeviceId, ShareIndex>, nonces: map<DeviceId, SubSegment>) returns (byParty: map<ShareIndex, Segment>)
      requires nonces.Keys <= shares.Keys
      ensures byParty == ByParty(shares, nonces, nonces.Keys)
    {
      byParty := map[];
      var rest := nonces.Keys;
      ghost var done: set<DeviceId> := {};
      while rest != {}
        invariant done + rest == nonces.Keys && forall d, e :: d in done && e in rest ==> d < e
        invariant byParty == ByParty(shares, nonces, done)
        decreases |rest|
      {
        var device: DeviceId;
        device, rest := TakeLeast(rest);
        OneMoreParty(shares, nonces, done, device);
        byParty := byParty[shares[device] := nonces[device].segment];
        done := done + {device};
      }
      assert done == nonces.Keys;
    }

    method StartSigning(f: Frost, r: SignRequest) returns (outcome: StartOutcome, ghost nonces: SessionNonces)
      requires ValidCache(nonceCache.byDevice)
      modifies this, nonceCache
      ensures StartRefused(old(Snapshot()), r) ==>
                outcome.Refused? && RefusedWith(old(Snapshot()), r, outcome.error) && Value() == old(Value())
      ensures !StartRefused(old(Snapshot()), r) ==>
                && IsStart(old(Snapshot()), r, nonces)
                && (outcome.StartPanics? <==> Started(f, old(Value()), r, nonces) == None)
                && Value() == (if outcome.StartPanics? then old(Value()) else Started(f, old(Value()), r, nonces).value)
                && (match nonces
                    case Selected(_) => outcome.StartPanics? || outcome == Opened(r.sessionId)
                    case NotEnoughNonces(d, available, need) => outcome == Refused(NotEnoughNoncesForDevice(d, available, need)))
    {
      nonces := NotEnoughNonces(0, 0, 0);
      if r.keyId !in keys {
        return Refused(UnknownKey), nonces;
      }
      var key := keys[r.keyId];
      if r.access !in key.accesses {
        return Refused(NoSuchAccessStructure), nonces;
      }
      var access := key.accesses[r.access];
      var missing := FirstWithoutShare(r.devices, access);
      if missing.Some? {
        return Refused(DeviceNotPartOfKey(missing.value)), nonces;
      }
      var selected := |r.devices|;
      if selected < access.threshold {
        return Refused(NotEnoughDevicesSelected(selected, access.threshold)), nonces;
      }
      if !r.taskOk {
        return Refused(BadSignTask), nonces;
      }
      var used := AllUsedNonceStreams();
      var chosen := nonceCache.NewSigningSession(r.devices, r.nSignatures, used);
      nonces := chosen;
      if chosen.NotEnoughNonces? {
        return Refused(NotEnoughNoncesForDevice(chosen.device, chosen.available, chosen.need)), nonces;
      }
      var opened_ := OpenSession(f, r, access, chosen.nonces);
      return if opened_ then Opened(r.sessionId) else StartPanics, nonces;
    }

    method OpenSession(f: Frost, r: SignRequest, access: Access, chosen: map<DeviceId, SubSegment>) returns (opened_: bool)
      requires ValidCache(nonceCache.byDevice) && chosen.Keys <= access.shares.Keys
      modifies this, nonceCache
      ensures opened_ <==> OpensAll(f, NewSessionFor(r, access, chosen))
      ensures if opened_ then Some(Value()) == Mutated(old(Value()), NewSession(NewSessionFor(r, access, chosen))) else Value() == old(Value())
    {
      var byParty := CollectByParty(access.shares, chosen);
      var session := SessionOver(r, access, byParty, chosen);
      var i := 0;
      while i < |session.progress|
        invariant 0 <= i <= |session.progress|
        invariant forall j :: 0 <= j < i ==> f.opens(session.progress[j].item)
      {
        if !f.opens(session.progress[i].item) {
          return false;
        }
        i := i + 1;
      }
      Mutate(NewSession(session));
      return true;
    }

    // `None` is a panic.
    method RequestDeviceSign(sid: SessionId, device: DeviceId, encryptionKey: SymmetricKey) returns (sent: Option<CoordState>)
      requires ValidCache(nonceCache.byDevice)
      modifies this, nonceCache
      ensures sent.None? <==> RequestPanics(old(Snapshot()), sid, device, encryptionKey)
      ensures sent.None? ==> Value() == old(Value())
      ensures sent.Some? ==>
                && Some(Value()) == Mutated(old(Value()), SentSignReq(sid, device))
                && sent.value == old(active)[sid].init.nonces[device]
    {
      if sid !in active {
        // "signing session doesn't exist"
        return None;
      }
      var session := active[sid];
      if device !in session.init.nonces {
        // "device must be part of the signing session"
        return None;
      }
      if session.keyId !in keys {
        // "key exists"
        return None;
      }
      if !Contributes(keys[session.keyId], session.init.group.access, device, encryptionKey) {
        // "must be able to decrypt rootkey"
        return None;
      }
      Mutate(SentSignReq(sid, device));
      return Some(session.init.nonces[device]);
    }

    method RecvNonceSegment(device: DeviceId, segment: Segment) returns (ok: bool)
      requires ValidCache(nonceCache.byDevice) && Received(Value(), device, segment).Some?
      modifies this, nonceCache
      ensures Some(Value()) == Received(old(Value()), device, segment)
      ensures ok <==> CheckCanExtend(old(nonceCache.byDevice), device, segment).MayExtend?
    {
      var check := nonceCache.CheckExtends(device, segment);
      if check.Refuses? {
        return false;
      }
      Mutate(NewNonces(device, segment));
      return true;
    }

    method ListShares(shares: map<DeviceId, Share>) returns (list: seq<Share>)
      ensures list == InOrder(shares, shares.Keys)
    {
      list := [];
      var rest := shares.Keys;
      while rest != {}
        invariant rest <= shares.Keys && list + InOrder(shares, rest) == InOrder(shares, shares.Keys)
        decreases |rest|
      {
        ghost var first := Least(rest);
        var device: DeviceId;
        device, rest := TakeLeast(rest);
        assert device == first;
        list := list + [shares[device]];
      }
    }

    method CombineOne(f: Frost, p: Progress) returns (signature: Signature)
      ensures signature == CombinedShares(f, p)
    {
      var list := ListShares(p.shares);
      signature := f.combine(p.item, list);
    }

    method CombineAll(f: Frost, session: ActiveSession) returns (signatures: Option<Signatures>)
      ensures signatures.Some? <==> AllVerify(f, session)
      ensures signatures.Some? ==> signatures.value == Combined(f, session)
    {
      var combined := [];
      for k := 0 to |session.progress|
        invariant CombinedUpTo(f, session, k, combined)
      {
        var signature := CombineOne(f, session.progress[k]);
        if !f.valid(session.progress[k].item, signature) {
          return None;
        }
        combined := combined + [signature];
      }
      assert combined == Combined(f, session);
      return Some(combined);
    }

    method CompleteSignSession(f: Frost, sid: SessionId) returns (r: Completion)
      requires ValidCache(nonceCache.byDevice)
      requires sid in active && AllFinished(active[sid]) && AllVerify(f, active[sid]) ==> Close(Snapshot(), sid, None).Applied?
      modifies this, nonceCache
      ensures r.NotComplete? <==> sid !in old(active) || !AllFinished(old(active)[sid])
      ensures r.WrongSignature? <==> !r.NotComplete? && !AllVerify(f, old(active)[sid])
      ensures r.Complete? ==> r.signatures == Combined(f, old(active)[sid])
      ensures r.Complete? && sid in old(order) ==>
                && sid !in active && sid in finished
                && finished[sid] == FinishedSession(old(active)[sid].init, r.signatures, old(active)[sid].keyId)
      ensures r.WrongSignature? <==> Completed(f, old(Value()), sid) == None
      ensures Value() == (if r.WrongSignature? then old(Value()) else Completed(f, old(Value()), sid).value)
    {
      if sid !in active {
        return NotComplete;
      }
      var session := active[sid];
      var i := 0;
      while i < |session.progress|
        invariant 0 <= i <= |session.progress|
        invariant forall j :: 0 <= j < i ==> |session.progress[j].shares| == |session.init.group.parties|
      {
        if |session.progress[i].shares| != |session.init.group.parties| {
          return NotComplete;
        }
        i := i + 1;
      }
      var signatures := CombineAll(f, session);
      if signatures.None? {
        return WrongSignature;
      }
      Mutate(CloseSession(sid, signatures));
      return Complete(signatures.value);
    }

    method RecvSignatureShares(f: Frost, sid: SessionId, device: DeviceId, shares: seq<Share>, replenish: Option<Segment>)
      returns (accepted: bool, completion: Completion)
      requires ValidCache(nonceCache.byDevice) && SharesReceived(f, Value(), sid, device, shares, replenish).Some?
      modifies this, nonceCache
      ensures Some(Value()) == SharesReceived(f, old(Value()), sid, device, shares, replenish)
      ensures accepted <==> sid in old(active) && AcceptsShares(f, old(Snapshot()), sid, device, shares)
      ensures accepted ==>
                var more := SharesStored(old(Value()), sid, device, shares, replenish).value.state;
                completion == if sid in more.active && AllFinished(more.active[sid]) then Complete(Combined(f, more.active[sid])) else NotComplete
    {
      if sid !in active {
        return false, NotComplete;
      }
      var session := active[sid];
      var access := keys[session.keyId].accesses[session.init.group.access];
      if device !in access.shares || |shares| != |session.progress| {
        return false, NotComplete;
      }
      var i := 0;
      while i < |shares|
        invariant 0 <= i <= |shares|
        invariant forall j :: 0 <= j < i ==> AcceptsShare(f, session.progress[j].item, access.shares[device], shares[j])
      {
        if !AcceptsShare(f, session.progress[i].item, access.shares[device], shares[i]) {
          return false, NotComplete;
        }
        i := i + 1;
      }
      Mutate(GotShares(sid, device, shares));
      if replenish.Some? {
        Mutate(NewNonces(device, replenish.value));
      }
      completion := CompleteSignSession(f, sid);
      accepted := true;
    }

    method DeleteShareOf(keyId: KeyId, access: AccessId, device: DeviceId) returns (ok: bool)
      requires ValidCache(nonceCache.byDevice)
      modifies this, nonceCache
      ensures Some(Value()) == ShareRemoved(old(Value()), keyId, access, device)
      ensures ok <==> forall sid :: sid in old(active) ==> !InvolvedIn(old(active)[sid], keyId, access, device)
    {
      var rest := active.Keys;
      while rest != {}
        invariant Value() == old(Value()) && rest <= active.Keys
        invariant forall sid :: sid in active && sid !in rest ==> !InvolvedIn(active[sid], keyId, access, device)
        decreases |rest|
      {
        var sid: SessionId;
        sid, rest := TakeLeast(rest);
        if InvolvedIn(active[sid], keyId, access, device) {
          return false;
        }
      }
      if HasAccess(keys, keyId, access) && device in keys[keyId].accesses[access].shares {
        Mutate(DeleteShare(keyId, access, device));
      }
      return true;
    }
  }
}
