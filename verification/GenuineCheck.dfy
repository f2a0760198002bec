/**
 Whether each connected device is genuine hardware (frostsnap_coordinator/src/genuine_check.rs).

 Digests and signature checks are the functions of a `Crypto` value, challenges are the draws of the
 caller's generator, and every statement holds for all of them.
 */
module GenuineCheck {
  import opened Common

  type DeviceId(==, !new)
  type Certificate(==, !new)
  type Challenge(==, !new)
  type Digest(==, !new)
  type DsSignature(==, !new)
  type IdSignature(==, !new)
  type Body(==, !new)
  type DsKey(==, !new)

  datatype Attested = Attested(deviceId: DeviceId, certificate: Certificate)

  datatype FactoryAttestation = FactoryAttestation(attested: Attested, signature: DsSignature, challenge: Challenge)

  datatype Crypto = Crypto(
    digest: Attested -> Digest,
    // The certificate body, if the factory certified it and the DS key signed under the challenge.
    checkFactory: (Attested, Challenge, DsSignature) -> Option<Body>,
    checkIdentity: (DeviceId, Challenge, Digest, IdSignature) -> bool,
    dsKey: Body -> DsKey)

  datatype CoordinatorMessage =
    | RequestFactory(challenge: Challenge)
    | RequestIdentity(challenge: Challenge, digest: Digest)

  datatype DeviceMessage =
    | Factory(attested: Attested, dsSignature: DsSignature)
    | Identity(signature: IdSignature)

  datatype GenuineError = DeviceIdMismatch | FactoryInvalid | IdentityInvalid | AttestedAgain

  datatype Reply = Fine(request: Option<CoordinatorMessage>) | Fails(error: GenuineError)

  datatype Status = Unverified(supportsCheck: bool) | Genuine(certificate: Body)

  type Record = (FactoryAttestation, Body)

  datatype Session = Session(
    supportsCheck: bool,
    proven: bool,
    outstanding: Option<CoordinatorMessage>,
    pending: Option<Record>)

  datatype Update = Insert(attestation: FactoryAttestation, body: Body) | Remove(id: DeviceId)

  datatype State = State(
    certs: map<DeviceId, Record>,
    sessions: map<DeviceId, Session>,
    events: seq<(DeviceId, Status)>)

  // ---------------------------------------------------------------------------------------------
  // Meaning of the operations

  function VerifyFactory(c: Crypto, a: Attested, challenge: Challenge, from: DeviceId, signature: DsSignature): Option<Body> {
    if a.deviceId != from then None else c.checkFactory(a, challenge, signature)
  }

  function StatusOf(s: State, id: DeviceId): Option<Status> {
    if id !in s.sessions then None
    else if id in s.certs && s.sessions[id].proven then Some(Genuine(s.certs[id].1))
    else Some(Unverified(s.sessions[id].supportsCheck))
  }

  function PushedEvent(s: State, id: DeviceId): State {
    match StatusOf(s, id)
    case None => s
    case Some(status) => s.(events := s.events + [(id, status)])
  }

  function FirstRequest(c: Crypto, s: State, id: DeviceId, supportsCheck: bool, challenge: Challenge): Option<CoordinatorMessage> {
    if !supportsCheck then None
    else if id in s.certs then Some(RequestIdentity(challenge, c.digest(s.certs[id].0.attested)))
    else Some(RequestFactory(challenge))
  }

  function ConnectedState(c: Crypto, s: State, id: DeviceId, supportsCheck: bool, challenge: Challenge): State {
    PushedEvent(
      s.(sessions := s.sessions[id := Session(supportsCheck, false, FirstRequest(c, s, id, supportsCheck, challenge), None)]), id)
  }

  function Inserted(s: State, attestation: FactoryAttestation, body: Body): State {
    s.(certs := s.certs[attestation.attested.deviceId := (attestation, body)])
  }

  function Removed(s: State, id: DeviceId): State {
    if id !in s.certs then s
    else
      var t := s.(certs := s.certs - {id});
      PushedEvent(if id in s.sessions then t.(sessions := s.sessions[id := s.sessions[id].(proven := false, outstanding := None, pending := None)]) else t, id)
  }

  // The mutation changes something, so it is persisted.
  predicate Matters(s: State, u: Update) {
    match u
    case Insert(attestation, body) =>
      !(attestation.attested.deviceId in s.certs && s.certs[attestation.attested.deviceId] == (attestation, body))
    case Remove(id) => id in s.certs
  }

  function Applied(s: State, u: Update): State {
    match u
    case Insert(attestation, body) => Inserted(s, attestation, body)
    case Remove(id) => Removed(s, id)
  }

  // Other ids on file whose certificate names the DS key of `id`'s.
  function Superseded(c: Crypto, s: State, id: DeviceId): set<DeviceId> {
    if id !in s.certs then {}
    else set other | other in s.certs && other != id && c.dsKey(s.certs[other].1) == c.dsKey(s.certs[id].1)
  }

  // The order in which a hash map lists them.
  ghost predicate Lists(order: seq<DeviceId>, ids: set<DeviceId>) {
    && (forall i, j :: 0 <= i < j < |order| ==> order[i] != order[j])
    && (forall x :: x in order <==> x in ids)
  }

  function RemovedAll(s: State, order: seq<DeviceId>): State {
    if order == [] then s else Removed(RemovedAll(s, order[..|order| - 1]), order[|order| - 1])
  }

  function Removes(order: seq<DeviceId>): seq<Update> {
    seq(|order|, i requires 0 <= i < |order| => Remove(order[i]))
  }

  // What an identity attestation that verifies does before others are superseded.
  function Proved(s: State, from: DeviceId): State
    requires from in s.sessions
  {
    var session := s.sessions[from];
    var t := s.(sessions := s.sessions[from := session.(outstanding := None, proven := true, pending := None)]);
    match session.pending
    case None => t
    case Some((attestation, body)) => Inserted(t, attestation, body)
  }

  function ProvedUpdates(s: State, from: DeviceId): seq<Update>
    requires from in s.sessions
  {
    match s.sessions[from].pending
    case None => []
    case Some((attestation, body)) => if Matters(s, Insert(attestation, body)) then [Insert(attestation, body)] else []
  }

  datatype Received = Received(state: State, reply: Reply, updates: seq<Update>)

  // `order` is how the superseded ids come out of the hash map.
  function RecvStep(c: Crypto, s: State, from: DeviceId, message: DeviceMessage, challenge: Challenge, order: seq<DeviceId>): Received {
    if from !in s.sessions then Received(s, Fine(None), [])
    else
      var session := s.sessions[from];
      match (session.outstanding, message)
      case (Some(RequestFactory(asked)), Factory(attested, signature)) =>
        (match VerifyFactory(c, attested, asked, from, signature)
         case None => Received(s, Fails(if attested.deviceId != from then DeviceIdMismatch else FactoryInvalid), [])
         case Some(body) =>
           var request := RequestIdentity(challenge, c.digest(attested));
           Received(
             s.(sessions := s.sessions[from := session.(outstanding := Some(request),
                                                        pending := Some((FactoryAttestation(attested, signature, asked), body)))]),
             Fine(Some(request)), []))
      case (Some(RequestIdentity(_, _)), Factory(_, _)) =>
        if session.pending.Some? then Received(s, Fails(AttestedAgain), [])
        else
          var request := RequestFactory(challenge);
          Received(s.(sessions := s.sessions[from := session.(outstanding := Some(request))]), Fine(Some(request)), [])
      case (Some(RequestIdentity(asked, digest)), Identity(signature)) =>
        if !c.checkIdentity(from, asked, digest, signature) then Received(s, Fails(IdentityInvalid), [])
        else
          Received(PushedEvent(RemovedAll(Proved(s, from), order), from), Fine(None), ProvedUpdates(s, from) + Removes(order))
      case (_, _) => Received(s, Fine(None), [])
  }

  // The message is an identity attestation that verifies.
  predicate Proves(c: Crypto, s: State, from: DeviceId, message: DeviceMessage) {
    && from in s.sessions && s.sessions[from].outstanding.Some? && s.sessions[from].outstanding.value.RequestIdentity?
    && message.Identity?
    && c.checkIdentity(from, s.sessions[from].outstanding.value.challenge, s.sessions[from].outstanding.value.digest, message.signature)
  }

  ghost predicate OrderFor(c: Crypto, s: State, from: DeviceId, message: DeviceMessage, order: seq<DeviceId>) {
    if Proves(c, s, from, message) then Lists(order, Superseded(c, Proved(s, from), from)) else order == []
  }

  // ---------------------------------------------------------------------------------------------

  /** `GenuineCheck`. */
  class GenuineCheck {
    const crypto: Crypto
    var certs: map<DeviceId, Record>
    var sessions: map<DeviceId, Session>
    var events: seq<(DeviceId, Status)>

    ghost function Value(): State
      reads this
    {
      State(certs, sessions, events)
    }

    constructor (crypto: Crypto)
      ensures this.crypto == crypto && Value() == State(map[], map[], [])
    {
      this.crypto := crypto;
      certs, sessions, events := map[], map[], [];
    }

    method Connected(id: DeviceId, supportsCheck: bool, challenge: Challenge) returns (request: Option<CoordinatorMessage>)
      modifies this
      ensures request == FirstRequest(crypto, old(Value()), id, supportsCheck, challenge)
      ensures Value() == ConnectedState(crypto, old(Value()), id, supportsCheck, challenge)
    {
      request := None;
      if supportsCheck {
        if id in certs {
          request := Some(RequestIdentity(challenge, crypto.digest(certs[id].0.attested)));
        } else {
          request := Some(RequestFactory(challenge));
        }
      }
      sessions := sessions[id := Session(supportsCheck, false, request, None)];
      PushEvent(id);
    }

    method Disconnected(id: DeviceId)
      modifies this
      ensures Value() == old(Value()).(sessions := old(sessions) - {id})
    {
      sessions := sessions - {id};
    }

    method PushEvent(id: DeviceId)
      modifies this
      ensures Value() == PushedEvent(old(Value()), id)
    {
      var status := Status(id);
      if status.Some? {
        events := events + [(id, status.value)];
      }
    }

    method Status(id: DeviceId) returns (status: Option<Status>)
      ensures status == StatusOf(Value(), id)
    {
      if id !in sessions {
        return None;
      }
      if id in certs && sessions[id].proven {
        return Some(Genuine(certs[id].1));
      }
      return Some(Unverified(sessions[id].supportsCheck));
    }

    method TakeEvents() returns (taken: seq<(DeviceId, Status)>)
      modifies this
      ensures taken == old(events) && Value() == old(Value()).(events := [])
    {
      taken := events;
      events := [];
    }

    method ApplyMutation(u: Update) returns (changed: bool)
      modifies this
      ensures Value() == Applied(old(Value()), u)
      ensures changed == Matters(old(Value()), u)
    {
      match u
      case Insert(attestation, body) =>
        var entry := (attestation, body);
        var id := attestation.attested.deviceId;
        if id in certs && certs[id] == entry {
          return false;
        }
        certs := certs[id := entry];
        return true;
      case Remove(id) =>
        if id !in certs {
          return false;
        }
        certs := certs - {id};
        if id in sessions {
          sessions := sessions[id := sessions[id].(proven := false, outstanding := None, pending := None)];
        }
        PushEvent(id);
        return true;
    }

    method Mutate(u: Update, queue: seq<Update>) returns (updated: seq<Update>)
      modifies this
      ensures Value() == Applied(old(Value()), u)
      ensures updated == queue + if Matters(old(Value()), u) then [u] else []
    {
      var changed := ApplyMutation(u);
      updated := if changed then queue + [u] else queue;
    }

    method Supersede(id: DeviceId, queue: seq<Update>) returns (updated: seq<Update>, ghost order: seq<DeviceId>)
      modifies this
      ensures Lists(order, Superseded(crypto, old(Value()), id))
      ensures Value() == RemovedAll(old(Value()), order)
      ensures updated == queue + Removes(order)
    {
      order := [];
      updated := queue;
      var rest := Superseded(crypto, State(certs, sessions, events), id);
      ghost var all := rest;
      assert Removes(order) == [];
      while rest != {}
        invariant forall i, j :: 0 <= i < j < |order| ==> order[i] != order[j]
        invariant forall x :: x in order <==> x in all && x !in rest
        invariant rest <= all && all == Superseded(crypto, old(Value()), id)
        invariant Value() == RemovedAll(old(Value()), order)
        invariant updated == queue + Removes(order)
        invariant forall x :: x in rest ==> x in certs
        decreases rest
      {
        var oldId :| oldId in rest;
        rest := rest - {oldId};
        updated := Mutate(Remove(oldId), updated);
        assert (order + [oldId])[..|order|] == order;
        assert Removes(order + [oldId]) == Removes(order) + [Remove(oldId)];
        order := order + [oldId];
      }
    }

    /** `recv`. `challenge` is the draw used if the reply asks again. */
    method Recv(from: DeviceId, message: DeviceMessage, queue: seq<Update>, challenge: Challenge)
      returns (reply: Reply, updated: seq<Update>, ghost order: seq<DeviceId>)
      modifies this
      ensures OrderFor(crypto, old(Value()), from, message, order)
      ensures var r := RecvStep(crypto, old(Value()), from, message, challenge, order);
              Value() == r.state && reply == r.reply && updated == queue + r.updates
    {
      updated, order := queue, [];
      if from !in sessions {
        return Fine(None), updated, order;
      }
      var session := sessions[from];
      match (session.outstanding, message)
      case (Some(RequestFactory(asked)), Factory(attested, signature)) =>
        var body := VerifyFactory(crypto, attested, asked, from, signature);
        if body.None? {
          return Fails(if attested.deviceId != from then DeviceIdMismatch else FactoryInvalid), updated, order;
        }
        var request := RequestIdentity(challenge, crypto.digest(attested));
        sessions := sessions[from := session.(outstanding := Some(request), pending := Some((FactoryAttestation(attested, signature, asked), body.value)))];
        return Fine(Some(request)), updated, order;
      case (Some(RequestIdentity(_, _)), Factory(_, _)) =>
        if session.pending.Some? {
          return Fails(AttestedAgain), updated, order;
        }
        var request := RequestFactory(challenge);
        sessions := sessions[from := session.(outstanding := Some(request))];
        return Fine(Some(request)), updated, order;
      case (Some(RequestIdentity(asked, digest)), Identity(signature)) =>
        if !crypto.checkIdentity(from, asked, digest, signature) {
          return Fails(IdentityInvalid), updated, order;
        }
        sessions := sessions[from := session.(outstanding := None, proven := true, pending := None)];
        if session.pending.Some? {
          var (attestation, body) := session.pending.value;
          updated := Mutate(Insert(attestation, body), updated);
        }
        assert Value() == Proved(old(Value()), from);
        assert updated == queue + ProvedUpdates(old(Value()), from);
        updated, order := Supersede(from, updated);
        PushEvent(from);
        return Fine(None), updated, order;
      case (_, _) =>
        return Fine(None), updated, order;
    }
  }
}
