/**
 Whole runs of the genuine check: connections, disconnections and messages in any order.

 A `World` is the check together with what it has emitted so far and, for each connected device, the
 messages of its current connection.
 */
module GenuineRuns {
  import opened Common
  import opened GenuineCheck

  datatype Exchange = Sent(request: CoordinatorMessage) | Got(message: DeviceMessage)

  datatype World = World(
    state: State,
    updates: seq<Update>,                     // everything queued for the store
    delivered: seq<(DeviceId, Status)>,       // events already taken
    talk: map<DeviceId, seq<Exchange>>)

  datatype Input =
    | Connect(id: DeviceId, supportsCheck: bool, challenge: Challenge)
    | Disconnect(id: DeviceId)
    | Receive(from: DeviceId, message: DeviceMessage, next: Challenge, order: seq<DeviceId>)
    | Take

  // A check that has just been loaded from a table.
  function Resumed(c: Crypto, rows: map<DeviceId, FactoryAttestation>): World {
    World(State(Loaded(c, rows), map[], []), [], [], map[])
  }

  ghost predicate Admissible(c: Crypto, s: State, input: Input) {
    input.Receive? ==> OrderFor(c, s, input.from, input.message, input.order)
  }

  function SentOf(request: Option<CoordinatorMessage>): seq<Exchange> {
    if request.None? then [] else [Sent(request.value)]
  }

  function Next(c: Crypto, w: World, input: Input): World {
    match input
    case Connect(id, supportsCheck, challenge) =>
      w.(state := ConnectedState(c, w.state, id, supportsCheck, challenge),
         talk := w.talk[id := SentOf(FirstRequest(c, w.state, id, supportsCheck, challenge))])
    case Disconnect(id) => w.(state := w.state.(sessions := w.state.sessions - {id}), talk := w.talk - {id})
    case Receive(from, message, next, order) =>
      var r := RecvStep(c, w.state, from, message, next, order);
      w.(state := r.state, updates := w.updates + r.updates,
         talk := if from in w.talk
                 then w.talk[from := w.talk[from] + [Got(message)] + (if r.reply.Fine? then SentOf(r.reply.request) else [])]
                 else w.talk)
    case Take => w.(state := w.state.(events := []), delivered := w.delivered + w.state.events)
  }

  // ---------------------------------------------------------------------------------------------
  // The invariant of records and sessions

  // In this conversation `id` proved itself over `digest`: it was asked to, and its answer verified.
  ghost predicate ProvedIn(c: Crypto, talk: seq<Exchange>, id: DeviceId, digest: Digest) {
    exists a, b :: 0 <= a < b < |talk| && IsProof(c, talk[a], talk[b], id, digest)
  }

  ghost predicate IsProof(c: Crypto, asked: Exchange, answered: Exchange, id: DeviceId, digest: Digest) {
    && asked.Sent? && asked.request.RequestIdentity? && asked.request.digest == digest
    && answered.Got? && answered.message.Identity?
    && c.checkIdentity(id, asked.request.challenge, digest, answered.message.signature)
  }

  ghost predicate RecordOk(c: Crypto, id: DeviceId, r: Record) {
    VerifyFactory(c, r.0.attested, r.0.challenge, id, r.0.signature) == Some(r.1)
  }

  ghost predicate CertsOk(c: Crypto, certs: map<DeviceId, Record>) {
    forall id :: id in certs ==> RecordOk(c, id, certs[id])
  }

  ghost predicate KeysDistinct(c: Crypto, certs: map<DeviceId, Record>) {
    forall x, y :: x in certs && y in certs && x != y ==> c.dsKey(certs[x].1) != c.dsKey(certs[y].1)
  }

  ghost predicate SessionOk(c: Crypto, certs: map<DeviceId, Record>, id: DeviceId, session: Session, talk: seq<Exchange>) {
    && (session.outstanding.Some? ==> Sent(session.outstanding.value) in talk)
    && (session.outstanding.Some? && session.outstanding.value.RequestIdentity? && session.pending.None? ==>
          id in certs && session.outstanding.value.digest == c.digest(certs[id].0.attested))
    && (session.pending.Some? ==>
          && session.outstanding.Some? && session.outstanding.value.RequestIdentity?
          && session.outstanding.value.digest == c.digest(session.pending.value.0.attested)
          && RecordOk(c, id, session.pending.value))
    && (session.proven ==>
          && id in certs && session.outstanding.None? && session.pending.None?
          && ProvedIn(c, talk, id, c.digest(certs[id].0.attested)))
  }

  ghost predicate Inv(c: Crypto, w: World) {
    && CertsOk(c, w.state.certs)
    && w.talk.Keys == w.state.sessions.Keys
    && forall id :: id in w.state.sessions ==> SessionOk(c, w.state.certs, id, w.state.sessions[id], w.talk[id])
  }

  lemma {:induction false} RemovedAllMeans(s: State, order: seq<DeviceId>)
    requires Lists(order, set x | x in order) && forall x :: x in order ==> x in s.certs
    ensures var t := RemovedAll(s, order);
            && t.certs == (map id | id in s.certs && id !in order :: s.certs[id])
            && t.sessions.Keys == s.sessions.Keys
            && forall id :: id in s.sessions ==>
                 t.sessions[id] == if id in order then s.sessions[id].(proven := false, outstanding := None, pending := None) else s.sessions[id]
  {
    if order != [] {
      var init := order[..|order| - 1];
      assert forall x :: x in order <==> x in init || x == order[|order| - 1];
      RemovedAllMeans(s, init);
    }
  }

  lemma ProvedSession(c: Crypto, w: World, from: DeviceId, message: DeviceMessage)
    requires Inv(c, w) && Proves(c, w.state, from, message)
    ensures var p := Proved(w.state, from);
            && from in p.certs && CertsOk(c, p.certs)
            && (forall id :: id in w.state.certs && id != from ==> id in p.certs && p.certs[id] == w.state.certs[id])
            && (forall id :: id in p.certs && id != from ==> id in w.state.certs)
            && SessionOk(c, p.certs, from, p.sessions[from], w.talk[from] + [Got(message)])
  {
    var session := w.state.sessions[from];
    assert SessionOk(c, w.state.certs, from, session, w.talk[from]);
    var talk := w.talk[from] + [Got(message)];
    var a :| 0 <= a < |w.talk[from]| && w.talk[from][a] == Sent(session.outstanding.value);
    assert IsProof(c, talk[a], talk[|w.talk[from]|], from, session.outstanding.value.digest);
  }

  // Taking away other ids' records cannot disturb `id`'s session.
  lemma SessionFrame(c: Crypto, certs: map<DeviceId, Record>, certs': map<DeviceId, Record>, id: DeviceId, session: Session, talk: seq<Exchange>)
    requires SessionOk(c, certs, id, session, talk)
    requires id in certs ==> id in certs' && certs'[id] == certs[id]
    ensures SessionOk(c, certs', id, session, talk)
  {
  }

  // Superseding leaves one record for the DS key.
  lemma SupersedingSeparates(c: Crypto, p: State, from: DeviceId, order: seq<DeviceId>)
    requires CertsOk(c, p.certs) && from in p.certs && Lists(order, Superseded(c, p, from))
    ensures CertsOk(c, RemovedAll(p, order).certs)
    ensures (forall x, y :: x in p.certs && y in p.certs && x != y && x != from && y != from ==> c.dsKey(p.certs[x].1) != c.dsKey(p.certs[y].1))
            ==> KeysDistinct(c, RemovedAll(p, order).certs)
    ensures forall id :: id in RemovedAll(p, order).certs <==> id in p.certs && id !in order
    ensures forall id :: id in p.certs && id !in order ==> RemovedAll(p, order).certs[id] == p.certs[id]
  {
    assert Lists(order, set x | x in order);
    RemovedAllMeans(p, order);
  }

  lemma SessionsAfterProving(c: Crypto, w: World, from: DeviceId, message: DeviceMessage, order: seq<DeviceId>, id: DeviceId)
    requires Inv(c, w) && Proves(c, w.state, from, message) && id in w.state.sessions
    requires Lists(order, Superseded(c, Proved(w.state, from), from))
    ensures var q := RemovedAll(Proved(w.state, from), order);
            && q.sessions.Keys == w.state.sessions.Keys
            && SessionOk(c, q.certs, id, q.sessions[id], if id == from then w.talk[from] + [Got(message)] else w.talk[id])
  {
    var p := Proved(w.state, from);
    var q := RemovedAll(p, order);
    ProvedSession(c, w, from, message);
    assert Lists(order, set x | x in order);
    RemovedAllMeans(p, order);
    if id !in order {
      if id == from {
        SessionFrame(c, p.certs, q.certs, from, p.sessions[from], w.talk[from] + [Got(message)]);
      } else {
        SessionFrame(c, w.state.certs, q.certs, id, w.state.sessions[id], w.talk[id]);
      }
    }
  }

  lemma ProvingKeepsInv(c: Crypto, w: World, from: DeviceId, message: DeviceMessage, next: Challenge, order: seq<DeviceId>)
    requires Inv(c, w) && Proves(c, w.state, from, message)
    requires Lists(order, Superseded(c, Proved(w.state, from), from))
    ensures Inv(c, Next(c, w, Receive(from, message, next, order)))
  {
    var w' := Next(c, w, Receive(from, message, next, order));
    var q := RemovedAll(Proved(w.state, from), order);
    assert w'.state == PushedEvent(q, from);
    assert w'.talk == w.talk[from := w.talk[from] + [Got(message)] + []];
    assert w.talk[from] + [Got(message)] + [] == w.talk[from] + [Got(message)];
    ProvedSession(c, w, from, message);
    SupersedingSeparates(c, Proved(w.state, from), from, order);
    SessionsAfterProving(c, w, from, message, order, from);
    forall id | id in w.state.sessions ensures SessionOk(c, q.certs, id, q.sessions[id], w'.talk[id]) {
      SessionsAfterProving(c, w, from, message, order, id);
    }
  }

  lemma TalkGrows(c: Crypto, certs: map<DeviceId, Record>, id: DeviceId, session: Session, talk: seq<Exchange>, more: seq<Exchange>)
    requires SessionOk(c, certs, id, session, talk)
    ensures SessionOk(c, certs, id, session, talk + more)
  {
    if session.proven {
      var digest := c.digest(certs[id].0.attested);
      var a, b :| 0 <= a < b < |talk| && IsProof(c, talk[a], talk[b], id, digest);
      assert IsProof(c, (talk + more)[a], (talk + more)[b], id, digest);
    }
  }

  lemma NotProvingKeepsInv(c: Crypto, w: World, from: DeviceId, message: DeviceMessage, next: Challenge)
    requires Inv(c, w) && !Proves(c, w.state, from, message)
    ensures Inv(c, Next(c, w, Receive(from, message, next, [])))
  {
    var w' := Next(c, w, Receive(from, message, next, []));
    var r := RecvStep(c, w.state, from, message, next, []);
    if from in w.state.sessions {
      var session, session' := w.state.sessions[from], w'.state.sessions[from];
      var more := [Got(message)] + (if r.reply.Fine? then SentOf(r.reply.request) else []);
      assert w'.talk[from] == w.talk[from] + more;
      TalkGrows(c, w.state.certs, from, session, w.talk[from], more);
      if session' != session {
        assert w'.talk[from][|w.talk[from]| + 1] == Sent(session'.outstanding.value);
      }
    }
  }

  lemma NextKeepsInv(c: Crypto, w: World, input: Input)
    requires Inv(c, w) && Admissible(c, w.state, input)
    ensures Inv(c, Next(c, w, input))
  {
    match input
    case Connect(id, supportsCheck, challenge) =>
      var w' := Next(c, w, input);
      assert w'.talk[id] == SentOf(FirstRequest(c, w.state, id, supportsCheck, challenge));
    case Disconnect(id) =>
    case Receive(from, message, next, order) =>
      if Proves(c, w.state, from, message) {
        ProvingKeepsInv(c, w, from, message, next, order);
      } else {
        NotProvingKeepsInv(c, w, from, message, next);
      }
    case Take =>
  }

  lemma NextKeepsDistinct(c: Crypto, w: World, input: Input)
    requires Inv(c, w) && Admissible(c, w.state, input) && KeysDistinct(c, w.state.certs)
    ensures KeysDistinct(c, Next(c, w, input).state.certs)
  {
    if input.Receive? && Proves(c, w.state, input.from, input.message) {
      ProvedSession(c, w, input.from, input.message);
      SupersedingSeparates(c, Proved(w.state, input.from), input.from, input.order);
    }
  }

  // ---------------------------------------------------------------------------------------------
  // The store

  // What `persist_update` makes of a row for each id.
  function Persisted(table: map<DeviceId, FactoryAttestation>, updates: seq<Update>): map<DeviceId, FactoryAttestation> {
    if updates == [] then table
    else
      var t := Persisted(table, updates[..|updates| - 1]);
      match updates[|updates| - 1]
      case Insert(attestation, _) => t[attestation.attested.deviceId := attestation]
      case Remove(id) => t - {id}
  }

  ghost function Rows(certs: map<DeviceId, Record>): map<DeviceId, FactoryAttestation> {
    map id | id in certs :: certs[id].0
  }

  lemma {:induction false} PersistedAppend(table: map<DeviceId, FactoryAttestation>, a: seq<Update>, b: seq<Update>)
    ensures Persisted(table, a + b) == Persisted(Persisted(table, a), b)
  {
    if b == [] {
      assert a + b == a;
    } else {
      assert (a + b)[..|a + b| - 1] == a + b[..|b| - 1];
      PersistedAppend(table, a, b[..|b| - 1]);
    }
  }

  // The table holds the records and, beyond them, only rows of `junk` as they were.
  ghost predicate Stores(junk: map<DeviceId, FactoryAttestation>, table: map<DeviceId, FactoryAttestation>, certs: map<DeviceId, Record>) {
    && (forall id :: id in certs ==> id in table && table[id] == certs[id].0)
    && (forall id :: id in table && id !in certs ==> id in junk && table[id] == junk[id])
  }

  lemma {:induction false} RemovesPersist(junk: map<DeviceId, FactoryAttestation>, table: map<DeviceId, FactoryAttestation>, s: State, order: seq<DeviceId>)
    requires Stores(junk, table, s.certs)
    ensures Stores(junk, Persisted(table, Removes(order)), RemovedAll(s, order).certs)
  {
    if order != [] {
      var init := order[..|order| - 1];
      assert Removes(order)[..|order| - 1] == Removes(init);
      RemovesPersist(junk, table, s, init);
    }
  }

  lemma ProvedPersist(junk: map<DeviceId, FactoryAttestation>, table: map<DeviceId, FactoryAttestation>, s: State, from: DeviceId, order: seq<DeviceId>)
    requires from in s.sessions && Stores(junk, table, s.certs)
    ensures Stores(junk, Persisted(table, ProvedUpdates(s, from) + Removes(order)), RemovedAll(Proved(s, from), order).certs)
  {
    PersistedAppend(table, ProvedUpdates(s, from), Removes(order));
    assert Stores(junk, Persisted(table, ProvedUpdates(s, from)), Proved(s, from).certs);
    RemovesPersist(junk, Persisted(table, ProvedUpdates(s, from)), Proved(s, from), order);
  }

  lemma UpdatesPersist(c: Crypto, rows: map<DeviceId, FactoryAttestation>, w: World, input: Input)
    requires Admissible(c, w.state, input)
    requires Stores(Unloadable(c, rows), Persisted(rows, w.updates), w.state.certs)
    ensures Stores(Unloadable(c, rows), Persisted(rows, Next(c, w, input).updates), Next(c, w, input).state.certs)
  {
    if input.Receive? {
      if Proves(c, w.state, input.from, input.message) {
        ProvedPersist(Unloadable(c, rows), Persisted(rows, w.updates), w.state, input.from, input.order);
        PersistedAppend(rows, w.updates, ProvedUpdates(w.state, input.from) + Removes(input.order));
      } else {
        assert w.updates + [] == w.updates;
      }
    }
  }

  predicate Verifies(c: Crypto, id: DeviceId, row: FactoryAttestation) {
    VerifyFactory(c, row.attested, row.challenge, id, row.signature).Some?
  }

  // Rows that loading skips. They stay in the table.
  function Unloadable(c: Crypto, rows: map<DeviceId, FactoryAttestation>): map<DeviceId, FactoryAttestation> {
    map id | id in rows && !Verifies(c, id, rows[id]) :: rows[id]
  }

  /** `load`: keep the rows that verify again under their own challenge. */
  function Loaded(c: Crypto, rows: map<DeviceId, FactoryAttestation>): map<DeviceId, Record> {
    map id | id in rows && Verifies(c, id, rows[id]) ::
      (rows[id], VerifyFactory(c, rows[id].attested, rows[id].challenge, id, rows[id].signature).value)
  }

  method Load(c: Crypto, rows: map<DeviceId, FactoryAttestation>) returns (check: GenuineCheck)
    ensures check.crypto == c && check.Value() == State(Loaded(c, rows), map[], [])
  {
    check := new GenuineCheck(c);
    var rest := rows.Keys;
    while rest != {}
      invariant rest <= rows.Keys
      invariant check.Value() == State(map id | id in Loaded(c, rows) && id !in rest :: Loaded(c, rows)[id], map[], []) && check.crypto == c
      invariant fresh(check)
      decreases rest
    {
      var id :| id in rest;
      rest := rest - {id};
      var row := rows[id];
      var body := VerifyFactory(c, row.attested, row.challenge, id, row.signature);
      if body.Some? {
        var _ := check.ApplyMutation(Insert(row, body.value));
      }
    }
    assert check.certs == Loaded(c, rows);
  }

  // ---------------------------------------------------------------------------------------------
  // Events

  function LastStatus(events: seq<(DeviceId, Status)>, id: DeviceId): Option<Status> {
    if events == [] then None
    else if events[|events| - 1].0 == id then Some(events[|events| - 1].1)
    else LastStatus(events[..|events| - 1], id)
  }

  // The last event about every connected device, apart from `except`, tells its status.
  ghost predicate EventsTell(delivered: seq<(DeviceId, Status)>, s: State, except: Option<DeviceId>) {
    forall id :: id in s.sessions && Some(id) != except ==> LastStatus(delivered + s.events, id) == StatusOf(s, id)
  }

  lemma PushTells(delivered: seq<(DeviceId, Status)>, s: State, id: DeviceId)
    requires EventsTell(delivered, s, Some(id))
    ensures EventsTell(delivered, PushedEvent(s, id), None)
  {
    var t := PushedEvent(s, id);
    if StatusOf(s, id).Some? {
      var all := delivered + t.events;
      assert all[..|all| - 1] == delivered + s.events;
    }
  }

  // The status of a device depends on its own record and session.
  lemma {:induction false} RemovedAllTells(delivered: seq<(DeviceId, Status)>, s: State, order: seq<DeviceId>, from: DeviceId)
    requires EventsTell(delivered, s, Some(from))
    requires from !in order
    ensures EventsTell(delivered, RemovedAll(s, order), Some(from))
  {
    if order != [] {
      var init, last := order[..|order| - 1], order[|order| - 1];
      assert forall x :: x in order <==> x in init || x == last;
      RemovedAllTells(delivered, s, init, from);
      var p := RemovedAll(s, init);
      if last in p.certs {
        var t := p.(certs := p.certs - {last});
        var u := if last in p.sessions then t.(sessions := p.sessions[last := p.sessions[last].(proven := false, outstanding := None, pending := None)]) else t;
        RemovalTells(delivered, p, u, last, from);
      }
    }
  }

  lemma RemovalTells(delivered: seq<(DeviceId, Status)>, p: State, u: State, last: DeviceId, from: DeviceId)
    requires EventsTell(delivered, p, Some(from)) && last != from && u.events == p.events
    requires forall id :: id in u.sessions && id != last ==> id in p.sessions && StatusOf(u, id) == StatusOf(p, id)
    ensures EventsTell(delivered, PushedEvent(u, last), Some(from))
  {
    var t := PushedEvent(u, last);
    var all := delivered + t.events;
    if StatusOf(u, last).Some? {
      assert all[..|all| - 1] == delivered + u.events;
    }
  }

  lemma NextTells(c: Crypto, w: World, input: Input)
    requires Inv(c, w) && Admissible(c, w.state, input) && EventsTell(w.delivered, w.state, None)
    ensures EventsTell(Next(c, w, input).delivered, Next(c, w, input).state, None)
  {
    match input
    case Connect(id, supportsCheck, challenge) =>
      var t := w.state.(sessions := w.state.sessions[id := Session(supportsCheck, false, FirstRequest(c, w.state, id, supportsCheck, challenge), None)]);
      assert EventsTell(w.delivered, t, Some(id)) by {
        forall x | x in t.sessions && x != id ensures LastStatus(w.delivered + t.events, x) == StatusOf(t, x) {
          assert StatusOf(t, x) == StatusOf(w.state, x);
        }
      }
      PushTells(w.delivered, t, id);
    case Disconnect(id) =>
      var t := w.state.(sessions := w.state.sessions - {id});
      assert forall x :: x in t.sessions ==> StatusOf(t, x) == StatusOf(w.state, x);
    case Receive(from, message, next, order) => ReceiveTells(c, w, from, message, next, order);
    case Take =>
      assert w.delivered + w.state.events + [] == w.delivered + w.state.events;
      assert forall x :: StatusOf(w.state.(events := []), x) == StatusOf(w.state, x);
  }

  lemma ProvingTells(c: Crypto, w: World, from: DeviceId, message: DeviceMessage)
    requires Inv(c, w) && EventsTell(w.delivered, w.state, None) && Proves(c, w.state, from, message)
    ensures EventsTell(w.delivered, Proved(w.state, from), Some(from))
  {
    var p := Proved(w.state, from);
    ProvedSession(c, w, from, message);
    forall x | x in p.sessions && x != from ensures LastStatus(w.delivered + p.events, x) == StatusOf(p, x) {
      assert StatusOf(p, x) == StatusOf(w.state, x);
    }
  }

  lemma ReceiveTells(c: Crypto, w: World, from: DeviceId, message: DeviceMessage, next: Challenge, order: seq<DeviceId>)
    requires Inv(c, w) && EventsTell(w.delivered, w.state, None)
    requires OrderFor(c, w.state, from, message, order)
    ensures EventsTell(w.delivered, RecvStep(c, w.state, from, message, next, order).state, None)
  {
    if Proves(c, w.state, from, message) {
      ProvingTells(c, w, from, message);
      var p := Proved(w.state, from);
      RemovedAllTells(w.delivered, p, order, from);
      PushTells(w.delivered, RemovedAll(p, order), from);
    } else {
      NotProvingTells(c, w, from, message, next);
    }
  }

  lemma NotProvingTells(c: Crypto, w: World, from: DeviceId, message: DeviceMessage, next: Challenge)
    requires Inv(c, w) && EventsTell(w.delivered, w.state, None) && !Proves(c, w.state, from, message)
    ensures EventsTell(w.delivered, RecvStep(c, w.state, from, message, next, []).state, None)
  {
    var t := RecvStep(c, w.state, from, message, next, []).state;
    assert t.events == w.state.events;
    forall x | x in t.sessions ensures StatusOf(t, x) == StatusOf(w.state, x) {
    }
  }

  // ---------------------------------------------------------------------------------------------
  // Runs

  // A run from a check that was loaded from `rows`; the very first one starts from no rows.
  ghost predicate IsRun(c: Crypto, rows: map<DeviceId, FactoryAttestation>, inputs: seq<Input>, trace: seq<World>) {
    && |trace| == |inputs| + 1 && trace[0] == Resumed(c, rows)
    && forall i :: 0 <= i < |inputs| ==> Admissible(c, trace[i].state, inputs[i]) && trace[i + 1] == Next(c, trace[i], inputs[i])
  }

  lemma {:induction false} RunKeeps(c: Crypto, rows: map<DeviceId, FactoryAttestation>, inputs: seq<Input>, trace: seq<World>, i: nat)
    requires IsRun(c, rows, inputs, trace) && i < |trace|
    ensures Inv(c, trace[i])
    ensures Stores(Unloadable(c, rows), Persisted(rows, trace[i].updates), trace[i].state.certs)
    ensures EventsTell(trace[i].delivered, trace[i].state, None)
    ensures KeysDistinct(c, Loaded(c, rows)) ==> KeysDistinct(c, trace[i].state.certs)
  {
    if i > 0 {
      RunKeeps(c, rows, inputs, trace, i - 1);
      var w, input := trace[i - 1], inputs[i - 1];
      assert Admissible(c, w.state, input) && trace[i] == Next(c, w, input);
      NextKeepsInv(c, w, input);
      UpdatesPersist(c, rows, w, input);
      NextTells(c, w, input);
      if KeysDistinct(c, Loaded(c, rows)) {
        NextKeepsDistinct(c, w, input);
      }
    }
  }

  /** In every run, a device that is shown as genuine has, in its current connection, answered a request
      for its identity with a signature that verifies over the challenge of that request and the digest
      of the very attestation on file whose certificate is shown. */
  lemma GenuineMeansProved(c: Crypto, rows: map<DeviceId, FactoryAttestation>, inputs: seq<Input>, trace: seq<World>, i: nat, id: DeviceId)
    requires IsRun(c, rows, inputs, trace) && i < |trace|
    requires StatusOf(trace[i].state, id).Some? && StatusOf(trace[i].state, id).value.Genuine?
    ensures var w := trace[i];
            && id in w.state.certs && id in w.talk
            && RecordOk(c, id, w.state.certs[id])
            && StatusOf(w.state, id).value.certificate == w.state.certs[id].1
            && ProvedIn(c, w.talk[id], id, c.digest(w.state.certs[id].0.attested))
  {
    RunKeeps(c, rows, inputs, trace, i);
    assert SessionOk(c, trace[i].state.certs, id, trace[i].state.sessions[id], trace[i].talk[id]);
  }

  /** In every run from any table: every record is about the id it is filed under, and loading the table as
      the updates so far leave it gives exactly the records. The table holds nothing else if the run
      started from rows that all verify, and no two records name the same DS key if no two loaded ones
      did; so both hold from an empty table through any number of restarts. */
  lemma StoreIsTheRecords(c: Crypto, rows: map<DeviceId, FactoryAttestation>, inputs: seq<Input>, trace: seq<World>, i: nat)
    requires IsRun(c, rows, inputs, trace) && i < |trace|
    ensures var certs, table := trace[i].state.certs, Persisted(rows, trace[i].updates);
            && (forall x :: x in certs ==> certs[x].0.attested.deviceId == x)
            && Loaded(c, table) == certs
            && ((forall x :: x in rows ==> Verifies(c, x, rows[x])) ==> table == Rows(certs))
            && (KeysDistinct(c, Loaded(c, rows)) ==> KeysDistinct(c, certs))
  {
    RunKeeps(c, rows, inputs, trace, i);
    var certs, table := trace[i].state.certs, Persisted(rows, trace[i].updates);
    assert forall x :: x in certs ==> RecordOk(c, x, certs[x]);
    assert forall x :: x in table && x !in certs ==> !Verifies(c, x, table[x]);
    assert Loaded(c, table) == certs;
  }

  // One life of the process: what it is told, and how the check develops.
  datatype Life = Life(inputs: seq<Input>, trace: seq<World>)

  // The table after some lives, each loading what the one before left.
  function TableAfter(lives: seq<Life>): map<DeviceId, FactoryAttestation> {
    if lives == [] then map[]
    else
      var last := lives[|lives| - 1];
      Persisted(TableAfter(lives[..|lives| - 1]), if last.trace == [] then [] else last.trace[|last.trace| - 1].updates)
  }

  ghost predicate AreLives(c: Crypto, lives: seq<Life>) {
    forall k :: 0 <= k < |lives| ==> IsRun(c, TableAfter(lives[..k]), lives[k].inputs, lives[k].trace)
  }

  // All rows verify, each is about the id it is filed under, and no two name the same DS key.
  ghost predicate SoundTable(c: Crypto, table: map<DeviceId, FactoryAttestation>) {
    && (forall x :: x in table ==> Verifies(c, x, table[x]) && table[x].attested.deviceId == x)
    && KeysDistinct(c, Loaded(c, table))
  }

  lemma LifeKeepsTheStore(c: Crypto, rows: map<DeviceId, FactoryAttestation>, inputs: seq<Input>, trace: seq<World>)
    requires SoundTable(c, rows) && IsRun(c, rows, inputs, trace)
    ensures SoundTable(c, Persisted(rows, trace[|inputs|].updates))
  {
    StoreIsTheRecords(c, rows, inputs, trace, |inputs|);
    RunKeeps(c, rows, inputs, trace, |inputs|);
    var certs := trace[|inputs|].state.certs;
    assert forall x :: x in certs ==> RecordOk(c, x, certs[x]);
  }

  /** Through any number of restarts from an empty table, the table stays sound. */
  lemma {:induction false} RestartsKeepTheStore(c: Crypto, lives: seq<Life>)
    requires AreLives(c, lives)
    ensures SoundTable(c, TableAfter(lives))
  {
    if lives != [] {
      var init, last := lives[..|lives| - 1], lives[|lives| - 1];
      forall k | 0 <= k < |init| ensures IsRun(c, TableAfter(init[..k]), init[k].inputs, init[k].trace) {
        assert init[..k] == lives[..k];
      }
      RestartsKeepTheStore(c, init);
      LifeKeepsTheStore(c, TableAfter(init), last.inputs, last.trace);
    }
  }

  /** In every run, whoever follows the events knows the status of every connected device. */
  lemma EventsAreComplete(c: Crypto, rows: map<DeviceId, FactoryAttestation>, inputs: seq<Input>, trace: seq<World>, i: nat, id: DeviceId)
    requires IsRun(c, rows, inputs, trace) && i < |trace| && id in trace[i].state.sessions
    ensures LastStatus(trace[i].delivered + trace[i].state.events, id) == StatusOf(trace[i].state, id)
  {
    RunKeeps(c, rows, inputs, trace, i);
  }
}
