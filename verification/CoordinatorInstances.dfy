/**
 Runs of the coordinator that end where its comments say it cannot get.
 */
module CoordinatorInstances {
  import opened Common
  import opened NonceStream
  import opened CoordNonces
  import opened Coordinator
  import opened CoordinatorRuns
  import opened CoordinatorWindows
  import opened CoordinatorSigning
  import opened CoordinatorSent
  import opened CoordinatorAnswers

  // The names and values that do not matter.
  datatype Setup = Setup(
    keyId: KeyId, access: AccessId, info: KeyInfo, accessInfo: AccessInfo,
    encryptionKey: SymmetricKey, message: Message, nonce: Nonce)

  function AccessOf(x: Setup, threshold: nat, shares: map<DeviceId, ShareIndex>): Access {
    Access(x.accessInfo, threshold, shares)
  }

  function KeyOf(x: Setup, access: Access): Key {
    Key(x.info, map[x.access := access])
  }

  // A key and a cache, and nothing else.
  function Idle(x: Setup, access: Access, cache: Cache): State {
    EMPTY.(keys := map[x.keyId := KeyOf(x, access)], keyOrder := [x.keyId], cache := cache)
  }

  function Window(x: Setup, stream: StreamId, index: U32, n: nat): Segment {
    Segment(stream, seq(n, _ => x.nonce), index)
  }

  // The device has one window, with `n` nonces, from index 0.
  function OneWindow(x: Setup, stream: StreamId, n: nat): map<StreamId, Segment> {
    map[stream := Window(x, stream, 0, n)]
  }

  function RequestOf(x: Setup, devices: set<DeviceId>, sid: SessionId): SignRequest {
    SignRequest(x.keyId, x.access, devices, true, 1, _ => x.message, sid)
  }

  // The first nonce of a window of `n`.
  function FirstOf(x: Setup, stream: StreamId, n: nat): SubSegment
    requires 0 < n <= U32_MAX
  {
    SubSegment(Window(x, stream, 0, 1), n - 1)
  }

  // ---------------------------------------------------------------------------------------------
  // Steps

  lemma Appended(f: Frost, ops: seq<Op>, trace: seq<Coord>, op: Op) returns (ops1: seq<Op>, trace1: seq<Coord>)
    requires IsRun(f, ops, trace) && Admissible(trace[|ops|].state, op) && Step(f, trace[|ops|], op).Some?
    ensures IsRun(f, ops1, trace1) && ops1 == ops + [op] && trace1 == trace + [Step(f, trace[|ops|], op).value]
  {
    RunExtends(f, ops, trace, op);
    ops1, trace1 := ops + [op], trace + [Step(f, trace[|ops|], op).value];
  }

  lemma ImportedRun(f: Frost, x: Setup, access: Access) returns (ops: seq<Op>, trace: seq<Coord>)
    ensures IsRun(f, ops, trace) && |ops| == 1 && !ops[0].Start? && trace[1].state == Idle(x, access, map[])
  {
    var op := ChangeKey(NewKey(x.keyId, KeyOf(x, access)));
    ops, trace := [], [Coord(EMPTY, [])];
    assert EMPTY.keys[x.keyId := KeyOf(x, access)] == map[x.keyId := KeyOf(x, access)] && EMPTY.keyOrder + [x.keyId] == [x.keyId];
    ops, trace := Appended(f, ops, trace, op);
  }

  // The first window of a device.
  lemma SuppliedRun(f: Frost, x: Setup, access: Access, cache: Cache, d: DeviceId, n: nat, ops: seq<Op>, trace: seq<Coord>)
    returns (ops1: seq<Op>, trace1: seq<Coord>)
    requires IsRun(f, ops, trace) && trace[|ops|].state == Idle(x, access, cache) && d !in cache && 0 < n <= U32_MAX
    ensures IsRun(f, ops1, trace1) && ops1 == ops + [RecvSegment(d, Window(x, d, 0, n))] && trace1[|ops1|].state == Idle(x, access, cache[d := OneWindow(x, d, n)])
  {
    var segment := Window(x, d, 0, n);
    var s := trace[|ops|].state;
    var none: map<StreamId, Segment> := map[];
    assert none[d := segment] == OneWindow(x, d, n);
    assert ExtendCache(s.cache, d, segment) == (cache[d := OneWindow(x, d, n)], Changed);
    ops1, trace1 := Appended(f, ops, trace, RecvSegment(d, segment));
  }

  lemma FirstIsSelected(x: Setup, cache: Cache, d: DeviceId, used: set<StreamId>, n: nat)
    requires d in cache && cache[d] == OneWindow(x, d, n) && 0 < n <= U32_MAX && d !in used
    ensures IsSelectionFor(SegmentsOf(cache, d), used, 1, FirstOf(x, d, n))
  {
    assert Eligible(SegmentsOf(cache, d), used, 1, d);
    assert cache[d][d].nonces[..1] == Window(x, d, 0, 1).nonces;
  }

  lemma StartIs(f: Frost, c: Coord, r: SignRequest, chosen: map<DeviceId, SubSegment>)
    requires ValidCache(c.state.cache) && c.state.active == map[]
    requires !StartRefused(c.state, r) && IsSessionNonces(c.state.cache, r.devices, {}, r.nSignatures, Selected(chosen))
    requires OpensAll(f, NewSessionFor(r, c.state.keys[r.keyId].accesses[r.access], chosen))
    ensures Admissible(c.state, Start(r, Selected(chosen)))
    ensures Step(f, c, Start(r, Selected(chosen))) == Mutated(c, NewSession(NewSessionFor(r, c.state.keys[r.keyId].accesses[r.access], chosen)))
  {
    assert UsedStreams(c.state.active) == {};
  }

  // Starting a session over selected nonces, when no other is active.
  lemma StartedRun(f: Frost, x: Setup, c: Coord, r: SignRequest, chosen: map<DeviceId, SubSegment>, ops: seq<Op>, trace: seq<Coord>)
    returns (ops1: seq<Op>, trace1: seq<Coord>)
    requires IsRun(f, ops, trace) && trace[|ops|] == c && c.state.active == map[] && c.state.order == []
    requires !StartRefused(c.state, r) && IsSessionNonces(c.state.cache, r.devices, {}, r.nSignatures, Selected(chosen))
    requires OpensAll(f, NewSessionFor(r, c.state.keys[r.keyId].accesses[r.access], chosen))
    ensures IsRun(f, ops1, trace1) && |ops1| == |ops| + 1 && ops1 == ops + [Start(r, Selected(chosen))] && trace == trace1[..|trace|]
    ensures var session := NewSessionFor(r, c.state.keys[r.keyId].accesses[r.access], chosen);
            trace1[|ops1|].state == c.state.(active := map[r.sessionId := session], order := [r.sessionId])
  {
    StartIs(f, c, r, chosen);
    OpenedAlone(c, NewSessionFor(r, c.state.keys[r.keyId].accesses[r.access], chosen));
    ops1, trace1 := Appended(f, ops, trace, Start(r, Selected(chosen)));
  }

  lemma SentRun(f: Frost, x: Setup, sid: SessionId, d: DeviceId, ops: seq<Op>, trace: seq<Coord>) returns (ops1: seq<Op>, trace1: seq<Coord>)
    requires IsRun(f, ops, trace) && !RequestPanics(trace[|ops|].state, sid, d, x.encryptionKey)
    requires trace[|ops|].state.active[sid].sent == {} && trace[|ops|].state.active.Keys == {sid}
    ensures IsRun(f, ops1, trace1) && ops1 == ops + [RequestSign(sid, d, x.encryptionKey)] && trace == trace1[..|trace|]
    ensures var s := trace[|ops|].state;
            trace1[|ops1|].state == s.(active := map[sid := s.active[sid].(sent := {d})])
  {
    var s := trace[|ops|].state;
    assert {} + {d} == {d};
    assert s.active[sid := s.active[sid].(sent := {d})] == map[sid := s.active[sid].(sent := {d})];
    ops1, trace1 := Appended(f, ops, trace, RequestSign(sid, d, x.encryptionKey));
  }

  // ---------------------------------------------------------------------------------------------
  // One device, one share

  // One device with one window, and a session of its first nonce that was sent to it.
  function SessionOf(x: Setup, access: Access, sid: SessionId, n: nat, index: ShareIndex): ActiveSession
    requires 0 < n <= U32_MAX
  {
    ActiveSession([Progress(Item(access.info, access.threshold, x.message, map[index := x.nonce]), map[])],
      StartSign(map[0 := CoordState(0, 0, n - 1)], GroupRequest(sid, x.access, {index}, 1)), x.keyId, {})
  }

  lemma OneHolder(shares: map<DeviceId, ShareIndex>, chosen: map<DeviceId, SubSegment>, d: DeviceId)
    requires d in shares && d in chosen
    ensures ByParty(shares, chosen, {d}) == map[shares[d] := chosen[d].segment]
  {
    assert PartiesOf(shares, {d}) == {shares[d]};
    assert Holder(shares, {d}, shares[d]) == d;
  }

  lemma SessionIsNew(x: Setup, access: Access, sid: SessionId, n: nat, index: ShareIndex)
    requires 0 < n <= U32_MAX && access.shares == map[0 := index]
    ensures NewSessionFor(RequestOf(x, {0}, sid), access, map[0 := FirstOf(x, 0, n)]) == SessionOf(x, access, sid, n, index)
  {
    var chosen := map[0 := FirstOf(x, 0, n)];
    OneHolder(access.shares, chosen, 0);
    assert chosen.Keys == {0};
    OnePartySession(x, access, sid, n, index, chosen);
  }

  lemma OnePartySession(x: Setup, access: Access, sid: SessionId, n: nat, index: ShareIndex, chosen: map<DeviceId, SubSegment>)
    requires 0 < n <= U32_MAX && chosen == map[0 := FirstOf(x, 0, n)]
    ensures SessionOver(RequestOf(x, {0}, sid), access, map[index := Window(x, 0, 0, 1)], chosen) == SessionOf(x, access, sid, n, index)
  {
    var byParty := map[index := Window(x, 0, 0, 1)];
    assert NoncesAt(byParty, 0) == map[index := x.nonce];
    var session, one := SessionOver(RequestOf(x, {0}, sid), access, byParty, chosen), SessionOf(x, access, sid, n, index);
    assert session.init.nonces == one.init.nonces;
    assert session.progress == one.progress;
  }

  lemma OneCanStart(f: Frost, x: Setup, index: ShareIndex, n: nat, sid: SessionId, c: Coord)
    requires Correct(f) && 0 < n <= U32_MAX
    requires c.state == Idle(x, AccessOf(x, 1, map[0 := index]), map[0 := OneWindow(x, 0, n)])
    ensures var r, chosen := RequestOf(x, {0}, sid), map[0 := FirstOf(x, 0, n)];
            && !StartRefused(c.state, r) && IsSessionNonces(c.state.cache, r.devices, {}, r.nSignatures, Selected(chosen))
            && NewSessionFor(r, c.state.keys[r.keyId].accesses[r.access], chosen)
               == SessionOf(x, AccessOf(x, 1, map[0 := index]), sid, n, index)
            && OpensAll(f, NewSessionFor(r, c.state.keys[r.keyId].accesses[r.access], chosen))
  {
    var chosen := map[0 := FirstOf(x, 0, n)];
    FirstIsSelected(x, c.state.cache, 0, {}, n);
    assert chosen.Keys == {0};
    SessionIsNew(x, AccessOf(x, 1, map[0 := index]), sid, n, index);
    assert |map[index := x.nonce]| == 1;
  }

  function Started1(x: Setup, access: Access, n: nat, session: ActiveSession): State
    requires 0 < n <= U32_MAX
  {
    Idle(x, access, map[0 := OneWindow(x, 0, n)]).(
      active := map[session.init.group.sessionId := session], order := [session.init.group.sessionId])
  }

  lemma OneStartedRun(f: Frost, x: Setup, index: ShareIndex, n: nat, sid: SessionId, ops: seq<Op>, trace: seq<Coord>)
    returns (ops1: seq<Op>, trace1: seq<Coord>)
    requires Correct(f) && 0 < n <= U32_MAX && IsRun(f, ops, trace)
    requires trace[|ops|].state == Idle(x, AccessOf(x, 1, map[0 := index]), map[0 := OneWindow(x, 0, n)])
    ensures IsRun(f, ops1, trace1) && |ops1| == |ops| + 1 && trace == trace1[..|trace|]
    ensures ops1 == ops + [Start(RequestOf(x, {0}, sid), Selected(map[0 := FirstOf(x, 0, n)]))]
    ensures var access := AccessOf(x, 1, map[0 := index]);
            trace1[|ops1|].state == Started1(x, access, n, SessionOf(x, access, sid, n, index))
  {
    OneCanStart(f, x, index, n, sid, trace[|ops|]);
    ops1, trace1 := StartedRun(f, x, trace[|ops|], RequestOf(x, {0}, sid), map[0 := FirstOf(x, 0, n)], ops, trace);
  }

  lemma OneSentRun(f: Frost, x: Setup, index: ShareIndex, n: nat, sid: SessionId, ops: seq<Op>, trace: seq<Coord>)
    returns (ops1: seq<Op>, trace1: seq<Coord>)
    requires x.encryptionKey(x.info) && 0 < n <= U32_MAX && IsRun(f, ops, trace)
    requires var access := AccessOf(x, 1, map[0 := index]);
             trace[|ops|].state == Started1(x, access, n, SessionOf(x, access, sid, n, index))
    ensures IsRun(f, ops1, trace1) && |ops1| == |ops| + 1 && trace == trace1[..|trace|]
    ensures ops1 == ops + [RequestSign(sid, 0, x.encryptionKey)]
    ensures var access := AccessOf(x, 1, map[0 := index]);
            trace1[|ops1|].state == Started1(x, access, n, SessionOf(x, access, sid, n, index).(sent := {0}))
  {
    ops1, trace1 := SentRun(f, x, sid, 0, ops, trace);
  }

  lemma OneSuppliedRun(f: Frost, x: Setup, access: Access, n: nat) returns (ops: seq<Op>, trace: seq<Coord>)
    requires 0 < n <= U32_MAX
    ensures IsRun(f, ops, trace) && |ops| == 2 && !ops[0].Start? && !ops[1].Start?
    ensures trace[2].state == Idle(x, access, map[0 := OneWindow(x, 0, n)])
  {
    ops, trace := ImportedRun(f, x, access);
    ops, trace := SuppliedRun(f, x, access, map[], 0, n, ops, trace);
  }

  lemma FarSegmentDisplaces(x: Setup, access: Access, index: ShareIndex)
    ensures var cache: Cache := map[0 := OneWindow(x, 0, 1)];
            var session := SessionOf(x, access, 7, 1, index).(sent := {0});
            ValidCache(cache) && Covered(cache, session) && Displaces(cache, session, 0, Window(x, 0, 5, 1))
  {
    var cache: Cache := map[0 := OneWindow(x, 0, 1)];
    assert CoversAt(cache, SessionOf(x, access, 7, 1, index).(sent := {0}), 0);
  }

  /** Import a key, receive one nonce, start a session that takes it, send the request, receive a nonce from
      further along the stream: now the session cannot be cancelled. */
  lemma DisconnectedRunTripsClose(f: Frost, x: Setup, index: ShareIndex) returns (ops: seq<Op>, trace: seq<Coord>)
    requires Correct(f) && x.encryptionKey(x.info)
    ensures IsRun(f, ops, trace) && |ops| == 5
    ensures 7 in trace[5].state.active && Step(f, trace[5], Cancel(7)) == None
  {
    var access := AccessOf(x, 1, map[0 := index]);
    var far := Window(x, 0, 5, 1);
    ops, trace := OneSuppliedRun(f, x, access, 1);
    ops, trace := OneStartedRun(f, x, index, 1, 7, ops, trace);
    ops, trace := OneSentRun(f, x, index, 1, 7, ops, trace);
    FarSegmentDisplaces(x, access, index);
    DisplacedSessionCannotBeCancelled(f, trace[4], 7, 0, far);
    ops, trace := Appended(f, ops, trace, RecvSegment(0, far));
  }

  /** A first nonce, then an empty segment at index 0 of the same stream: the coordinator panics when it checks it. */
  lemma EmptySegmentPanics(f: Frost, d: DeviceId, stream: StreamId, nonce: Nonce) returns (ops: seq<Op>, trace: seq<Coord>)
    ensures IsRun(f, ops, trace) && ops == [RecvSegment(d, Segment(stream, [nonce], 0))]
    ensures Step(f, trace[1], RecvSegment(d, EmptySegment(stream))) == None
  {
    var first := Segment(stream, [nonce], 0);
    ops, trace := [], [Coord(EMPTY, [])];
    assert ExtendCache(EMPTY.cache, d, first).1 == Changed;
    ops, trace := Appended(f, ops, trace, RecvSegment(d, first));
    assert Lookup(trace[1].state.cache, d, stream) == Some(first);
    NonceStream.ExtendOutcome(first, EmptySegment(stream));
  }

  // ---------------------------------------------------------------------------------------------
  // One stream, sent twice

  lemma CancelledRun(f: Frost, x: Setup, access: Access, index: ShareIndex, ops: seq<Op>, trace: seq<Coord>)
    returns (ops1: seq<Op>, trace1: seq<Coord>)
    requires IsRun(f, ops, trace) && trace[|ops|].state == Started1(x, access, 2, SessionOf(x, access, 7, 2, index).(sent := {0}))
    ensures IsRun(f, ops1, trace1) && ops1 == ops + [Cancel(7)] && trace == trace1[..|trace|]
    ensures trace1[|ops1|].state == Idle(x, access, map[0 := map[0 := Window(x, 0, 1, 1)]])
  {
    var s := trace[|ops|].state;
    var session := s.active[7];
    var w := Window(x, 0, 0, 2);
    assert Lookup(s.cache, 0, 0) == Some(w);
    assert Deleted(w, 1) == Window(x, 0, 1, 1);
    assert OneWindow(x, 0, 2)[0 := Window(x, 0, 1, 1)] == map[0 := Window(x, 0, 1, 1)];
    assert ConsumedFor(s.cache, session, session.init.nonces.Keys) == map[0 := map[0 := Window(x, 0, 1, 1)]];
    assert s.active - {7} == map[] && RemoveFirst(s.order, 7) == [];
    ops1, trace1 := Appended(f, ops, trace, Cancel(7));
  }

  lemma ResuppliedRun(f: Frost, x: Setup, access: Access, ops: seq<Op>, trace: seq<Coord>) returns (ops1: seq<Op>, trace1: seq<Coord>)
    requires IsRun(f, ops, trace) && trace[|ops|].state == Idle(x, access, map[0 := map[0 := Window(x, 0, 1, 1)]])
    ensures IsRun(f, ops1, trace1) && ops1 == ops + [RecvSegment(0, Window(x, 0, 0, 2))] && trace == trace1[..|trace|]
    ensures trace1[|ops1|].state == Idle(x, access, map[0 := OneWindow(x, 0, 2)])
  {
    var s := trace[|ops|].state;
    var old_, new_ := Window(x, 0, 1, 1), Window(x, 0, 0, 2);
    assert Lookup(s.cache, 0, 0) == Some(old_);
    assert CoversBoth(old_, new_, new_);
    CoveringIsUnique(old_, new_, Union(old_, new_), new_);
    assert s.cache[0][0 := new_] == OneWindow(x, 0, 2);
    assert ExtendCache(s.cache, 0, new_).0 == map[0 := OneWindow(x, 0, 2)];
    ops1, trace1 := Appended(f, ops, trace, RecvSegment(0, new_));
  }

  // A session is sent,
  lemma FirstSentRun(f: Frost, x: Setup, index: ShareIndex) returns (ops: seq<Op>, trace: seq<Coord>)
    requires Correct(f) && x.encryptionKey(x.info)
    ensures IsRun(f, ops, trace) && |ops| == 4 && ops[3] == RequestSign(7, 0, x.encryptionKey)
    ensures !ops[0].Start? && !ops[1].Start? && (ops[2].Start? ==> ops[2].request.sessionId == 7)
    ensures var access := AccessOf(x, 1, map[0 := index]);
            && trace[3].state == Started1(x, access, 2, SessionOf(x, access, 7, 2, index))
            && trace[4].state == Started1(x, access, 2, SessionOf(x, access, 7, 2, index).(sent := {0}))
  {
    ops, trace := OneSuppliedRun(f, x, AccessOf(x, 1, map[0 := index]), 2);
    ops, trace := OneStartedRun(f, x, index, 2, 7, ops, trace);
    ops, trace := OneSentRun(f, x, index, 2, 7, ops, trace);
  }

  // cancelled, and everything is received again.
  lemma RewoundRun(f: Frost, x: Setup, index: ShareIndex) returns (ops: seq<Op>, trace: seq<Coord>)
    requires Correct(f) && x.encryptionKey(x.info)
    ensures IsRun(f, ops, trace) && |ops| == 6 && ops[3] == RequestSign(7, 0, x.encryptionKey)
    ensures forall k :: 0 <= k < 6 && ops[k].Start? ==> k == 2 && ops[k].request.sessionId == 7
    ensures var access := AccessOf(x, 1, map[0 := index]);
            && trace[3].state == Started1(x, access, 2, SessionOf(x, access, 7, 2, index))
            && trace[6].state == Idle(x, access, map[0 := OneWindow(x, 0, 2)])
  {
    var access := AccessOf(x, 1, map[0 := index]);
    var ops4, trace4 := FirstSentRun(f, x, index);
    var ops5, trace5 := CancelledRun(f, x, access, index, ops4, trace4);
    ops, trace := ResuppliedRun(f, x, access, ops5, trace5);
    NoMoreStarts(ops4, ops5[4], ops[5]);
    assert ops == ops4 + [ops5[4], ops[5]];
    assert trace[3] == trace5[3] && trace5[3] == trace4[3];
  }

  lemma NoMoreStarts(ops: seq<Op>, a: Op, b: Op)
    requires |ops| == 4 && !ops[0].Start? && !ops[1].Start? && (ops[2].Start? ==> ops[2].request.sessionId == 7) && !ops[3].Start?
    requires !a.Start? && !b.Start?
    ensures forall k :: 0 <= k < 6 && (ops + [a, b])[k].Start? ==> k == 2 && (ops + [a, b])[k].request.sessionId == 7
  {
  }

  lemma SendsFirst(f: Frost, x: Setup, index: ShareIndex, sid: SessionId, ops: seq<Op>, trace: seq<Coord>, k: nat)
    requires IsRun(f, ops, trace) && k < |ops| && ops[k] == RequestSign(sid, 0, x.encryptionKey)
    requires var access := AccessOf(x, 1, map[0 := index]);
             trace[k].state == Started1(x, access, 2, SessionOf(x, access, sid, 2, index))
    ensures Sends(f, ops, trace, k, Use(sid, 0, 0, 0, 1))
  {
  }

  // A second session is started and sent.
  lemma ContinuedRun(f: Frost, x: Setup, index: ShareIndex, ops0: seq<Op>, trace0: seq<Coord>) returns (ops: seq<Op>, trace: seq<Coord>)
    requires Correct(f) && x.encryptionKey(x.info) && IsRun(f, ops0, trace0) && |ops0| == 6
    requires trace0[6].state == Idle(x, AccessOf(x, 1, map[0 := index]), map[0 := OneWindow(x, 0, 2)])
    ensures IsRun(f, ops, trace) && |ops| == 8 && trace[..7] == trace0
    ensures ops == ops0 + [Start(RequestOf(x, {0}, 8), Selected(map[0 := FirstOf(x, 0, 2)])), RequestSign(8, 0, x.encryptionKey)]
    ensures var access := AccessOf(x, 1, map[0 := index]);
            trace[7].state == Started1(x, access, 2, SessionOf(x, access, 8, 2, index))
  {
    var ops1, trace1 := OneStartedRun(f, x, index, 2, 8, ops0, trace0);
    ops, trace := OneSentRun(f, x, index, 2, 8, ops1, trace1);
    assert trace[7] == trace1[7];
  }

  lemma OneMoreStart(ops: seq<Op>, start: Op, last: Op)
    requires |ops| == 6 && start.Start? && start.request.sessionId == 8 && !last.Start?
    requires forall k :: 0 <= k < 6 && ops[k].Start? ==> k == 2 && ops[k].request.sessionId == 7
    ensures DistinctSessions(ops + [start, last])
  {
  }

  /** Two nonces, a session that takes the first and is sent, cancelled; the device sends both nonces again, and a
      second session is sent the first one too. */
  lemma OverlappingRun(f: Frost, x: Setup, index: ShareIndex) returns (ops: seq<Op>, trace: seq<Coord>)
    requires Correct(f) && x.encryptionKey(x.info)
    ensures IsRun(f, ops, trace) && |ops| == 8 && DistinctSessions(ops)
    ensures Sends(f, ops, trace, 3, Use(7, 0, 0, 0, 1)) && Sends(f, ops, trace, 7, Use(8, 0, 0, 0, 1))
  {
    var ops0, trace0 := RewoundRun(f, x, index);
    ops, trace := ContinuedRun(f, x, index, ops0, trace0);
    OneMoreStart(ops0, ops[6], ops[7]);
    assert ops == ops0 + [ops[6], ops[7]] && trace[3] == trace0[3];
    SendsFirst(f, x, index, 7, ops, trace, 3);
    SendsFirst(f, x, index, 8, ops, trace, 7);
  }

  // ---------------------------------------------------------------------------------------------
  // Two items

  function TwoItems(x: Setup, first: Message, second: Message): SignRequest {
    SignRequest(x.keyId, x.access, {0}, true, 2, k => if k == 0 then first else second, 7)
  }

  function BothOf(x: Setup): map<DeviceId, SubSegment> {
    map[0 := SubSegment(Window(x, 0, 0, 2), 0)]
  }

  lemma BothAreSelected(x: Setup, first: Message, second: Message, c: Coord)
    requires c.state.cache == map[0 := OneWindow(x, 0, 2)] && c.state.active == map[]
    ensures ValidCache(c.state.cache) && IsStart(c.state, TwoItems(x, first, second), Selected(BothOf(x)))
  {
    var cache := c.state.cache;
    assert Eligible(SegmentsOf(cache, 0), {}, 2, 0);
    assert cache[0][0].nonces[..2] == Window(x, 0, 0, 2).nonces;
    assert BothOf(x).Keys == {0} && UsedStreams(c.state.active) == {};
  }

  lemma BothCanStart(f: Frost, x: Setup, index: ShareIndex, first: Message, second: Message, c: Coord)
    requires Correct(f) && c.state == Idle(x, AccessOf(x, 1, map[0 := index]), map[0 := OneWindow(x, 0, 2)])
    ensures var r := TwoItems(x, first, second);
            && ValidCache(c.state.cache) && !StartRefused(c.state, r) && IsStart(c.state, r, Selected(BothOf(x)))
            && Started(f, c, r, Selected(BothOf(x))).Some?
  {
    var r := TwoItems(x, first, second);
    var access := AccessOf(x, 1, map[0 := index]);
    BothAreSelected(x, first, second, c);
    OverAsAsked(access, r, BothOf(x));
    OnePartyIsEnough(f, access, r, NewSessionFor(r, access, BothOf(x)), 0);
    StartsIfOpened(f, c, r, BothOf(x));
  }

  lemma OnePartyIsEnough(f: Frost, access: Access, r: SignRequest, session: ActiveSession, d: DeviceId)
    requires Correct(f) && access.threshold <= 1 && IsAsAsked(access, r, session) && d in r.devices && d in access.shares
    ensures OpensAll(f, session)
  {
    assert access.shares[d] in session.init.group.parties;
    forall k | 0 <= k < |session.progress| ensures f.opens(session.progress[k].item) {
      assert IsItemAsAsked(access, r, session, k);
      assert access.shares[d] in session.progress[k].item.nonces.Keys;
    }
  }

  lemma StartsIfOpened(f: Frost, c: Coord, r: SignRequest, chosen: map<DeviceId, SubSegment>)
    requires ValidCache(c.state.cache) && !StartRefused(c.state, r) && chosen.Keys == r.devices
    requires OpensAll(f, NewSessionFor(r, c.state.keys[r.keyId].accesses[r.access], chosen))
    ensures Started(f, c, r, Selected(chosen)).Some?
  {
  }

  /** An instance: a task of two messages. Each item of the session has its own. */
  lemma EachItemHasItsMessage(f: Frost, x: Setup, index: ShareIndex, first: Message, second: Message) returns (ops: seq<Op>, trace: seq<Coord>)
    requires Correct(f) && first != second
    ensures IsRun(f, ops, trace) && |ops| == 3 && 7 in trace[3].state.active
    ensures var progress := trace[3].state.active[7].progress;
            |progress| == 2 && progress[0].item.message == first && progress[1].item.message == second
  {
    ops, trace := OneSuppliedRun(f, x, AccessOf(x, 1, map[0 := index]), 2);
    var r, c := TwoItems(x, first, second), trace[2];
    BothCanStart(f, x, index, first, second, c);
    StartedAsAsked(f, c, r, Selected(BothOf(x)));
    ops, trace := Appended(f, ops, trace, Start(r, Selected(BothOf(x))));
    var session := trace[3].state.active[7];
    assert IsItemAsAsked(AccessOf(x, 1, map[0 := index]), r, session, 0) && IsItemAsAsked(AccessOf(x, 1, map[0 := index]), r, session, 1);
  }

  // ---------------------------------------------------------------------------------------------
  // Two devices

  function TwoCaches(x: Setup): Cache {
    map[0 := OneWindow(x, 0, 1), 1 := OneWindow(x, 1, 1)]
  }

  function TwoFirst(x: Setup): map<DeviceId, SubSegment> {
    map[0 := FirstOf(x, 0, 1), 1 := FirstOf(x, 1, 1)]
  }

  lemma TwoSuppliedRun(f: Frost, x: Setup, access: Access) returns (ops: seq<Op>, trace: seq<Coord>)
    ensures IsRun(f, ops, trace) && |ops| == 3 && trace[3].state == Idle(x, access, TwoCaches(x))
  {
    ops, trace := OneSuppliedRun(f, x, access, 1);
    var cache: Cache := map[0 := OneWindow(x, 0, 1)];
    assert cache[1 := OneWindow(x, 1, 1)] == TwoCaches(x);
    ops, trace := SuppliedRun(f, x, access, cache, 1, 1, ops, trace);
  }

  lemma TwoAreSelected(x: Setup)
    ensures IsSessionNonces(TwoCaches(x), {0, 1}, {}, 1, Selected(TwoFirst(x)))
  {
    FirstIsSelected(x, TwoCaches(x), 0, {}, 1);
    FirstIsSelected(x, TwoCaches(x), 1, {}, 1);
    assert TwoFirst(x).Keys == {0, 1};
  }

  ghost function TwoSession(x: Setup, access: Access): ActiveSession
    requires {0, 1} <= access.shares.Keys
  {
    NewSessionFor(RequestOf(x, {0, 1}, 7), access, TwoFirst(x))
  }

  lemma TwoStart(f: Frost, x: Setup, access: Access, c: Coord)
    requires {0, 1} <= access.shares.Keys && access.threshold <= 2 && c.state == Idle(x, access, TwoCaches(x))
    ensures !StartRefused(c.state, RequestOf(x, {0, 1}, 7))
    ensures var start, session := Start(RequestOf(x, {0, 1}, 7), Selected(TwoFirst(x))), TwoSession(x, access);
            && ValidCache(c.state.cache) && Admissible(c.state, start)
            && (Step(f, c, start) == None <==> !OpensAll(f, session))
            && (Step(f, c, start).Some? ==> Step(f, c, start).value.state == c.state.(active := map[7 := session], order := [7]))
  {
    TwoAreSelected(x);
    assert UsedStreams(c.state.active) == {};
    TwoNotRefused(x, access);
    OpenedAlone(c, TwoSession(x, access));
  }

  lemma TwoNotRefused(x: Setup, access: Access)
    requires {0, 1} <= access.shares.Keys && access.threshold <= 2
    ensures !StartRefused(Idle(x, access, TwoCaches(x)), RequestOf(x, {0, 1}, 7))
    ensures ValidCache(TwoCaches(x))
  {
    var devices: set<DeviceId> := {0, 1};
    assert |devices| == 2;
  }

  lemma OpenedAlone(c: Coord, session: ActiveSession)
    requires ValidCache(c.state.cache) && c.state.active == map[] && c.state.order == []
    ensures var sid := session.init.group.sessionId;
            Mutated(c, NewSession(session))
              == Some(Coord(c.state.(active := map[sid := session], order := [sid]), c.log + [NewSession(session)]))
  {
    var sid := session.init.group.sessionId;
    assert c.state.active[sid := session] == map[sid := session] && c.state.order + [sid] == [sid];
  }

  // One session of one item, on the two caches.
  function Busy(x: Setup, access: Access, session: ActiveSession): State {
    Idle(x, access, TwoCaches(x)).(active := map[7 := session], order := [7])
  }

  // One more verified answer: below the count it is stored, at the count it has to make a signature.
  lemma AnswerStep(f: Frost, x: Setup, access: Access, session: ActiveSession, item: Item, got: map<DeviceId, Share>, d: DeviceId, share: Share, c: Coord)
    requires c.state == Busy(x, access, session) && session.keyId == x.keyId && session.init.group.access == x.access
    requires session.progress == [Progress(item, got)]
    requires d in access.shares && AcceptsShare(f, item, access.shares[d], share)
    ensures var next := Progress(item, got[d := share]);
            var step := Step(f, c, RecvShares(7, d, [share], None));
            && ValidCache(c.state.cache)
            && (|next.shares| != |session.init.group.parties| ==>
                  step.Some? && step.value.state == Busy(x, access, session.(progress := [next])))
            && (|next.shares| == |session.init.group.parties| && !f.valid(item, CombinedShares(f, next)) ==> step == None)
  {
    var next := session.(progress := [Progress(item, got[d := share])]);
    AnswerIsStored(x, access, session, item, got, d, share, c);
    assert AcceptsShares(f, c.state, 7, d, [share]);
    assert next.progress[0] == Progress(item, got[d := share]);
    var more := SharesStored(c, 7, d, [share], None).value;
    assert Step(f, c, RecvShares(7, d, [share], None)) == Completed(f, more, 7);
    assert AllFinished(next) <==> |got[d := share]| == |session.init.group.parties|;
  }

  lemma AnswerIsStored(x: Setup, access: Access, session: ActiveSession, item: Item, got: map<DeviceId, Share>, d: DeviceId, share: Share, c: Coord)
    requires c.state == Busy(x, access, session) && session.progress == [Progress(item, got)]
    ensures var more := SharesStored(c, 7, d, [share], None);
            && more.Some? && more.value.state == Busy(x, access, session.(progress := [Progress(item, got[d := share])]))
  {
    var next := session.(progress := [Progress(item, got[d := share])]);
    assert WithShares(session, d, [share]) == next;
    assert c.state.active[7 := next] == map[7 := next];
  }

  function OnePartyItem(x: Setup, index: ShareIndex): Item {
    Item(x.accessInfo, 2, x.message, map[index := x.nonce])
  }

  lemma OnePartyOfTwo(x: Setup, index: ShareIndex)
    ensures var session := TwoSession(x, AccessOf(x, 2, map[0 := index, 1 := index]));
            && session.progress == [Progress(OnePartyItem(x, index), map[])]
            && session.init.group.parties == {index} && session.init.group.access == x.access && session.keyId == x.keyId
  {
    var access := AccessOf(x, 2, map[0 := index, 1 := index]);
    var chosen := TwoFirst(x);
    assert chosen.Keys == {0, 1};
    assert PartiesOf(access.shares, {0, 1}) == {index};
    var byParty := ByParty(access.shares, chosen, {0, 1});
    assert byParty.Keys == {index};
    assert NoncesAt(byParty, 0) == map[index := x.nonce];
  }

  /** A 2-of-n key whose one share is on two devices: both are selected, and there is one party. Unless the library
      refuses to open the session, one verified share is taken for all of them and the assertion fires. */
  lemma SharedShareTripsCompletion(f: Frost, x: Setup, index: ShareIndex, share: Share) returns (ops: seq<Op>, trace: seq<Coord>)
    requires Sound(f)
    ensures IsRun(f, ops, trace) && |ops| == 3
    ensures var start := Start(RequestOf(x, {0, 1}, 7), Selected(TwoFirst(x)));
            && Admissible(trace[3].state, start) && !StartRefused(trace[3].state, start.request)
            && (Step(f, trace[3], start) == None <==> !f.opens(OnePartyItem(x, index)))
            && (f.opens(OnePartyItem(x, index)) && f.verifies(OnePartyItem(x, index), index, share) ==>
                  Step(f, Step(f, trace[3], start).value, RecvShares(7, 1, [share], None)) == None)
  {
    var access := AccessOf(x, 2, map[0 := index, 1 := index]);
    var start := Start(RequestOf(x, {0, 1}, 7), Selected(TwoFirst(x)));
    ops, trace := TwoSuppliedRun(f, x, access);
    TwoStart(f, x, access, trace[3]);
    OnePartyOpens(f, x, index);
    if f.opens(OnePartyItem(x, index)) && f.verifies(OnePartyItem(x, index), index, share) {
      OneAnswerTrips(f, x, index, share, Step(f, trace[3], start).value);
    }
  }

  lemma OnePartyOpens(f: Frost, x: Setup, index: ShareIndex)
    ensures OpensAll(f, TwoSession(x, AccessOf(x, 2, map[0 := index, 1 := index]))) <==> f.opens(OnePartyItem(x, index))
  {
    OnePartyOfTwo(x, index);
    assert TwoSession(x, AccessOf(x, 2, map[0 := index, 1 := index])).progress[0].item == OnePartyItem(x, index);
  }

  lemma OneAnswerTrips(f: Frost, x: Setup, index: ShareIndex, share: Share, c: Coord)
    requires Sound(f) && f.verifies(OnePartyItem(x, index), index, share)
    requires var access := AccessOf(x, 2, map[0 := index, 1 := index]);
             c.state == Busy(x, access, TwoSession(x, access))
    ensures ValidCache(c.state.cache) && Step(f, c, RecvShares(7, 1, [share], None)) == None
  {
    var access, item := AccessOf(x, 2, map[0 := index, 1 := index]), OnePartyItem(x, index);
    OnePartyOfTwo(x, index);
    var none: map<DeviceId, Share> := map[];
    assert none[1 := share] == map[1 := share];
    assert |map[1 := share]| == 1 && |{index}| == 1 && |map[index := x.nonce]| == 1;
    assert !Suffices(f, item, InOrder(none[1 := share], none[1 := share].Keys));
    AnswerStep(f, x, access, TwoSession(x, access), item, none, 1, share, c);
  }

  // ---------------------------------------------------------------------------------------------
  // A third device that holds the share of the first

  function Three(a: ShareIndex, b: ShareIndex): map<DeviceId, ShareIndex> {
    map[0 := a, 1 := b, 2 := a]
  }

  function TwoPartyItem(x: Setup, a: ShareIndex, b: ShareIndex): Item {
    Item(x.accessInfo, 2, x.message, map[a := x.nonce, b := x.nonce])
  }

  lemma TwoPartiesOfTwo(x: Setup, a: ShareIndex, b: ShareIndex)
    requires a != b
    ensures var session := TwoSession(x, AccessOf(x, 2, Three(a, b)));
            && session.progress == [Progress(TwoPartyItem(x, a, b), map[])]
            && session.init.group.parties == {a, b} && session.init.group.access == x.access && session.keyId == x.keyId
  {
    var shares, chosen := Three(a, b), TwoFirst(x);
    assert chosen.Keys == {0, 1};
    assert PartiesOf(shares, {0, 1}) == {a, b};
    var byParty := ByParty(shares, chosen, {0, 1});
    assert byParty.Keys == {a, b};
    assert NoncesAt(byParty, 0) == map[a := x.nonce, b := x.nonce];
  }

  lemma FirstAnswers(f: Frost, x: Setup, a: ShareIndex, b: ShareIndex, share: Share, c: Coord)
    requires a != b && f.verifies(TwoPartyItem(x, a, b), a, share)
    requires c.state == Busy(x, AccessOf(x, 2, Three(a, b)), TwoSession(x, AccessOf(x, 2, Three(a, b))))
    ensures var next := Step(f, c, RecvShares(7, 0, [share], None));
            && ValidCache(c.state.cache) && next.Some?
            && next.value.state == Busy(x, AccessOf(x, 2, Three(a, b)),
                 TwoSession(x, AccessOf(x, 2, Three(a, b))).(progress := [Progress(TwoPartyItem(x, a, b), map[0 := share])]))
  {
    TwoPartiesOfTwo(x, a, b);
    var none: map<DeviceId, Share> := map[];
    assert none[0 := share] == map[0 := share];
    assert |map[0 := share]| == 1 && |{a, b}| == 2;
    AnswerStep(f, x, AccessOf(x, 2, Three(a, b)), TwoSession(x, AccessOf(x, 2, Three(a, b))), TwoPartyItem(x, a, b), none, 0, share, c);
  }

  lemma ThirdTrips(f: Frost, x: Setup, a: ShareIndex, b: ShareIndex, share: Share, c: Coord)
    requires Sound(f) && a != b && f.verifies(TwoPartyItem(x, a, b), a, share) && !f.verifies(TwoPartyItem(x, a, b), b, share)
    requires c.state == Busy(x, AccessOf(x, 2, Three(a, b)),
               TwoSession(x, AccessOf(x, 2, Three(a, b))).(progress := [Progress(TwoPartyItem(x, a, b), map[0 := share])]))
    ensures ValidCache(c.state.cache) && Step(f, c, RecvShares(7, 2, [share], None)) == None
  {
    TwoPartiesOfTwo(x, a, b);
    var one, both := map[0 := share], map[0 := share, 2 := share];
    assert one[2 := share] == both;
    assert |both| == 2 && |{a, b}| == 2;
    SameShareTwice(f, x, a, b, share, both);
    AnswerStep(f, x, AccessOf(x, 2, Three(a, b)), c.state.active[7], TwoPartyItem(x, a, b), one, 2, share, c);
  }

  lemma SameShareTwice(f: Frost, x: Setup, a: ShareIndex, b: ShareIndex, share: Share, both: map<DeviceId, Share>)
    requires Sound(f) && !f.verifies(TwoPartyItem(x, a, b), b, share) && both == map[0 := share, 2 := share]
    ensures var p := Progress(TwoPartyItem(x, a, b), both);
            !f.valid(p.item, CombinedShares(f, p))
  {
    var item := TwoPartyItem(x, a, b);
    var list := InOrder(both, both.Keys);
    InOrderIsOf(both, both.Keys);
    forall parties ensures !OneEach(f, item, parties, list) {
      if b in parties && |parties| == |list| {
        var i :| 0 <= i < |parties| && parties[i] == b;
        assert list[i] in list;
        assert !f.verifies(item, parties[i], list[i]);
      }
    }
  }

  lemma {:induction false} InOrderIsOf(shares: map<DeviceId, Share>, devices: set<DeviceId>)
    requires devices <= shares.Keys
    ensures forall s :: s in InOrder(shares, devices) ==> exists d :: d in devices && shares[d] == s
  {
    if devices != {} {
      InOrderIsOf(shares, devices - {Least(devices)});
    }
  }

  /** Two devices with different shares are selected. The first answers, and then a device that holds the same share
      sends that answer again: two answers for two parties, and the assertion fires. */
  lemma ReplayedShareTripsCompletion(f: Frost, x: Setup, a: ShareIndex, b: ShareIndex, share: Share) returns (ops: seq<Op>, trace: seq<Coord>)
    requires Correct(f) && Sound(f) && a != b
    requires f.verifies(TwoPartyItem(x, a, b), a, share) && !f.verifies(TwoPartyItem(x, a, b), b, share)
    ensures IsRun(f, ops, trace) && |ops| == 5
    ensures Step(f, trace[5], RecvShares(7, 2, [share], None)) == None
  {
    ops, trace := TwoStartedRun(f, x, a, b);
    FirstAnswers(f, x, a, b, share, trace[4]);
    ops, trace := Appended(f, ops, trace, RecvShares(7, 0, [share], None));
    ThirdTrips(f, x, a, b, share, trace[5]);
  }

  lemma TwoOpen(f: Frost, x: Setup, a: ShareIndex, b: ShareIndex)
    requires Correct(f) && a != b
    ensures OpensAll(f, TwoSession(x, AccessOf(x, 2, Three(a, b))))
  {
    TwoPartiesOfTwo(x, a, b);
    var item := TwoPartyItem(x, a, b);
    assert item.nonces.Keys == {a, b} && |{a, b}| == 2;
    assert f.opens(item);
  }

  lemma TwoStartedRun(f: Frost, x: Setup, a: ShareIndex, b: ShareIndex) returns (ops: seq<Op>, trace: seq<Coord>)
    requires Correct(f) && a != b
    ensures IsRun(f, ops, trace) && |ops| == 4
    ensures trace[4].state == Busy(x, AccessOf(x, 2, Three(a, b)), TwoSession(x, AccessOf(x, 2, Three(a, b))))
  {
    var access := AccessOf(x, 2, Three(a, b));
    ops, trace := TwoSuppliedRun(f, x, access);
    TwoStart(f, x, access, trace[3]);
    TwoOpen(f, x, a, b);
    ops, trace := Appended(f, ops, trace, Start(RequestOf(x, {0, 1}, 7), Selected(TwoFirst(x))));
  }
}
