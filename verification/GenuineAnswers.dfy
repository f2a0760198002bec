/**
 When a device is shown as genuine: what its answers lead to, and that a device which answers what it is asked gets there.
 */
module GenuineAnswers {
  import opened Common
  import opened GenuineCheck
  import opened GenuineRuns

  // ---------------------------------------------------------------------------------------------
  // One message

  /** A device that connects is unproven, and is asked for its identity over the digest on file, or for its factory
      attestation if nothing is on file, or for nothing if it does not support the check. */
  lemma ConnectedIsAsked(c: Crypto, s: State, id: DeviceId, supportsCheck: bool, challenge: Challenge)
    ensures var t, request := ConnectedState(c, s, id, supportsCheck, challenge), FirstRequest(c, s, id, supportsCheck, challenge);
            && id in t.sessions && t.sessions[id].outstanding == request && t.sessions[id].pending.None? && !t.sessions[id].proven
            && StatusOf(t, id) == Some(Unverified(supportsCheck))
            && t.events == s.events + [(id, Unverified(supportsCheck))] && t.certs == s.certs
            && (forall x :: x != id ==> (x in t.sessions <==> x in s.sessions) && (x in s.sessions ==> t.sessions[x] == s.sessions[x]))
            && (request.None? <==> !supportsCheck)
            && (supportsCheck && id in s.certs ==> request == Some(RequestIdentity(challenge, c.digest(s.certs[id].0.attested))))
            && (supportsCheck && id !in s.certs ==> request == Some(RequestFactory(challenge)))
  {
  }

  /** A factory attestation of the device itself that verifies under the challenge it was asked with: it becomes pending, and
      the device is asked for its identity over the digest of just that attestation. */
  lemma AttestedIsAskedForIdentity(c: Crypto, s: State, from: DeviceId, asked: Challenge, attested: Attested, signature: DsSignature, next: Challenge)
    requires from in s.sessions && s.sessions[from].outstanding == Some(RequestFactory(asked))
    requires attested.deviceId == from && c.checkFactory(attested, asked, signature).Some?
    ensures var r := RecvStep(c, s, from, Factory(attested, signature), next, []);
            && r.reply == Fine(Some(RequestIdentity(next, c.digest(attested)))) && r.updates == []
            && r.state.sessions[from].outstanding == Some(RequestIdentity(next, c.digest(attested)))
            && r.state.sessions[from].pending == Some((FactoryAttestation(attested, signature, asked), c.checkFactory(attested, asked, signature).value))
            && r.state.certs == s.certs && r.state.events == s.events
  {
  }

  /** Any other message changes no record, no status and no event. One that does not verify, or a second factory attestation
      while one is pending, is an error; a factory attestation instead of an identity has the device asked for one again. */
  lemma OtherMessages(c: Crypto, s: State, from: DeviceId, message: DeviceMessage, next: Challenge)
    requires !AnswersIdentity(c, s, from, message)
    ensures var r := RecvStep(c, s, from, message, next, []);
            && r.state.certs == s.certs && r.state.events == s.events && r.updates == []
            && (forall x :: StatusOf(r.state, x) == StatusOf(s, x))
            && (from !in s.sessions || s.sessions[from].outstanding.None? ==> r.reply == Fine(None) && r.state == s)
            && (from in s.sessions ==>
                  match (s.sessions[from].outstanding, message)
                  case (Some(RequestFactory(asked)), Factory(attested, signature)) =>
                    (attested.deviceId != from ==> r.reply == Fails(DeviceIdMismatch) && r.state == s)
                    && (attested.deviceId == from && c.checkFactory(attested, asked, signature).None? ==> r.reply == Fails(FactoryInvalid) && r.state == s)
                  case (Some(RequestIdentity(_, _)), Factory(_, _)) =>
                    if s.sessions[from].pending.Some? then r.reply == Fails(AttestedAgain) && r.state == s
                    else r.reply == Fine(Some(RequestFactory(next))) && r.state.sessions[from].outstanding == Some(RequestFactory(next))
                  case (Some(RequestIdentity(_, _)), Identity(_)) => r.reply == Fails(IdentityInvalid) && r.state == s
                  case _ => r.reply == Fine(None) && r.state == s)
  {
  }

  // The record that an identity attestation would prove: the pending one, or the one on file.
  function RecordAtStake(s: State, id: DeviceId): Option<Record>
    requires id in s.sessions
  {
    if s.sessions[id].pending.Some? then s.sessions[id].pending
    else if id in s.certs then Some(s.certs[id]) else None
  }

  // The message is an identity attestation that verifies over what the device was asked.
  predicate AnswersIdentity(c: Crypto, s: State, from: DeviceId, message: DeviceMessage) {
    && from in s.sessions && message.Identity?
    && match s.sessions[from].outstanding
       case Some(RequestIdentity(asked, digest)) => c.checkIdentity(from, asked, digest, message.signature)
       case _ => false
  }

  // Records and sessions are filed under the ids they are about.
  ghost predicate PendingIsOwn(s: State, id: DeviceId)
    requires id in s.sessions
  {
    s.sessions[id].pending.Some? ==> s.sessions[id].pending.value.0.attested.deviceId == id
  }

  lemma {:induction false} RemovedLeaves(s: State, order: seq<DeviceId>, id: DeviceId)
    requires id !in order
    ensures var t := RemovedAll(s, order);
            && (id in t.certs <==> id in s.certs) && (id in s.certs ==> t.certs[id] == s.certs[id])
            && (id in t.sessions <==> id in s.sessions) && (id in s.sessions ==> t.sessions[id] == s.sessions[id])
  {
    if order != [] {
      var init := order[..|order| - 1];
      assert forall x :: x in init ==> x in order;
      RemovedLeaves(s, init, id);
    }
  }

  /** An identity attestation that verifies: the device is genuine, with the certificate of just the record it was asked
      about, that record is on file, and the last event says so. */
  lemma VerifiedIdentityIsGenuine(c: Crypto, s: State, from: DeviceId, message: DeviceMessage, next: Challenge, order: seq<DeviceId>)
    requires AnswersIdentity(c, s, from, message) && PendingIsOwn(s, from) && RecordAtStake(s, from).Some?
    requires OrderFor(c, s, from, message, order)
    ensures var r, record := RecvStep(c, s, from, message, next, order), RecordAtStake(s, from).value;
            && r.reply == Fine(None)
            && StatusOf(r.state, from) == Some(Genuine(record.1))
            && from in r.state.certs && r.state.certs[from] == record
            && r.state.events != [] && r.state.events[|r.state.events| - 1] == (from, Genuine(record.1))
            && r.state.sessions[from].outstanding.None? && r.state.sessions[from].pending.None? && r.state.sessions[from].proven
  {
    RemovedLeaves(Proved(s, from), order, from);
  }

  lemma {:induction false} RemovedTakes(s: State, order: seq<DeviceId>, id: DeviceId)
    requires id in order
    ensures id !in RemovedAll(s, order).certs
    ensures id in s.sessions && id in s.certs ==> id in RemovedAll(s, order).sessions && !RemovedAll(s, order).sessions[id].proven
  {
    var init, last := order[..|order| - 1], order[|order| - 1];
    assert order == init + [last];
    if id in init {
      RemovedTakes(s, init, id);
    } else {
      RemovedLeaves(s, init, id);
    }
  }

  /** And every other device on file under the same DS key loses its record and is no longer shown as genuine. */
  lemma OthersAreSuperseded(c: Crypto, s: State, from: DeviceId, message: DeviceMessage, next: Challenge, order: seq<DeviceId>, other: DeviceId)
    requires AnswersIdentity(c, s, from, message) && PendingIsOwn(s, from) && RecordAtStake(s, from).Some?
    requires OrderFor(c, s, from, message, order) && other != from && other in s.certs
    ensures var t := RecvStep(c, s, from, message, next, order).state;
            if c.dsKey(s.certs[other].1) == c.dsKey(RecordAtStake(s, from).value.1)
            then other !in t.certs && (StatusOf(t, other).Some? ==> StatusOf(t, other).value.Unverified?)
            else other in t.certs && t.certs[other] == s.certs[other] && StatusOf(t, other) == StatusOf(s, other)
  {
    if other in order {
      RemovedTakes(Proved(s, from), order, other);
    } else {
      RemovedLeaves(Proved(s, from), order, other);
    }
  }

  // ---------------------------------------------------------------------------------------------
  // Runs

  // What an honest device may answer to what it was asked.
  predicate IsAnswer(c: Crypto, s: State, id: DeviceId, message: DeviceMessage) {
    id in s.sessions ==>
      match s.sessions[id].outstanding
      case None => true
      case Some(RequestFactory(asked)) =>
        message.Factory? && message.attested.deviceId == id && c.checkFactory(message.attested, asked, message.dsSignature).Some?
      case Some(RequestIdentity(_, _)) => AnswersIdentity(c, s, id, message)
  }

  // The input makes another device prove itself under the DS key of the record of `id`.
  ghost predicate Supersedes(c: Crypto, s: State, input: Input, id: DeviceId) {
    && input.Receive? && input.from != id && AnswersIdentity(c, s, input.from, input.message)
    && RecordAtStake(s, input.from).Some? && id in s.certs && c.dsKey(s.certs[id].1) == c.dsKey(RecordAtStake(s, input.from).value.1)
  }

  // The input leaves the connection of `id` alone, and anything the device itself sends is an answer.
  ghost predicate Undisturbed(c: Crypto, s: State, input: Input, id: DeviceId) {
    match input
    case Connect(x, _, _) => x != id
    case Disconnect(x) => x != id
    case Receive(from, message, _, _) => (from == id ==> IsAnswer(c, s, id, message)) && !Supersedes(c, s, input, id)
    case Take => true
  }

  // How many answers are missing.
  ghost predicate Missing(c: Crypto, s: State, id: DeviceId, n: nat) {
    && id in s.sessions && PendingIsOwn(s, id)
    && var session := s.sessions[id];
       if n == 0 then session.proven && id in s.certs && session.outstanding.None?
       else if n == 1 then session.outstanding.Some? && session.outstanding.value.RequestIdentity? && RecordAtStake(s, id).Some?
       else n == 2 && session.outstanding.Some? && session.outstanding.value.RequestFactory?
  }

  predicate IsFrom(input: Input, id: DeviceId) {
    input.Receive? && input.from == id
  }

  lemma AnswerCounts(c: Crypto, w: World, input: Input, id: DeviceId, n: nat)
    requires Missing(c, w.state, id, n) && Admissible(c, w.state, input) && IsFrom(input, id) && Undisturbed(c, w.state, input, id)
    ensures Missing(c, Next(c, w, input).state, id, if n > 0 then n - 1 else 0)
  {
    var s := w.state;
    if n == 1 {
      VerifiedIdentityIsGenuine(c, s, id, input.message, input.next, input.order);
    } else if n == 2 {
      AttestedIsAskedForIdentity(c, s, id, s.sessions[id].outstanding.value.challenge, input.message.attested, input.message.dsSignature, input.next);
    }
  }

  lemma OthersDoNotCount(c: Crypto, w: World, input: Input, id: DeviceId, n: nat)
    requires Missing(c, w.state, id, n) && Admissible(c, w.state, input) && !IsFrom(input, id) && Undisturbed(c, w.state, input, id)
    requires forall x :: x in w.state.sessions ==> PendingIsOwn(w.state, x)
    ensures Missing(c, Next(c, w, input).state, id, n)
  {
    if input.Receive? && Proves(c, w.state, input.from, input.message) {
      var p := Proved(w.state, input.from);
      assert id in p.certs && id in w.state.certs ==> p.certs[id] == w.state.certs[id];
      assert id !in Superseded(c, p, input.from);
      RemovedLeaves(p, input.order, id);
    }
  }

  lemma PendingAreOwn(c: Crypto, w: World, x: DeviceId)
    requires Inv(c, w) && x in w.state.sessions
    ensures PendingIsOwn(w.state, x)
  {
    assert SessionOk(c, w.state.certs, x, w.state.sessions[x], w.talk[x]);
  }

  // The answers of `id` among the inputs from `i` to `j`.
  ghost function Answers(inputs: seq<Input>, i: nat, j: nat, id: DeviceId): nat
    requires i <= j <= |inputs|
  {
    if i == j then 0 else Answers(inputs, i, j - 1, id) + if IsFrom(inputs[j - 1], id) then 1 else 0
  }

  lemma {:induction false} AnswersAreCounted(c: Crypto, rows: map<DeviceId, FactoryAttestation>, inputs: seq<Input>, trace: seq<World>, i: nat, j: nat, id: DeviceId, n: nat)
    requires IsRun(c, rows, inputs, trace) && i <= j <= |inputs| && Missing(c, trace[i].state, id, n)
    requires forall k :: i <= k < j ==> Undisturbed(c, trace[k].state, inputs[k], id)
    ensures var m := Answers(inputs, i, j, id); Missing(c, trace[j].state, id, if m < n then n - m else 0)
    decreases j
  {
    if i < j {
      AnswersAreCounted(c, rows, inputs, trace, i, j - 1, id, n);
      var w, input := trace[j - 1], inputs[j - 1];
      var m := Answers(inputs, i, j - 1, id);
      assert Admissible(c, w.state, input) && trace[j] == Next(c, w, input);
      if IsFrom(input, id) {
        AnswerCounts(c, w, input, id, if m < n then n - m else 0);
      } else {
        RunKeeps(c, rows, inputs, trace, j - 1);
        forall x | x in w.state.sessions ensures PendingIsOwn(w.state, x) {
          PendingAreOwn(c, w, x);
        }
        OthersDoNotCount(c, w, input, id, if m < n then n - m else 0);
      }
    }
  }

  /** In every run from any loaded table: a device that connects and answers what it is asked is genuine after two answers, or
      after one if it was on file, with the certificate on file, and the events say so. It stays so, whatever else
      happens, until it disconnects, connects again or another device proves itself under the same DS key. */
  lemma AnsweringMakesGenuine(c: Crypto, rows: map<DeviceId, FactoryAttestation>, inputs: seq<Input>, trace: seq<World>, i: nat, j: nat, id: DeviceId)
    requires IsRun(c, rows, inputs, trace) && i < j <= |inputs|
    requires inputs[i].Connect? && inputs[i].id == id && inputs[i].supportsCheck
    requires forall k :: i < k < j ==> Undisturbed(c, trace[k].state, inputs[k], id)
    requires Answers(inputs, i + 1, j, id) >= if id in trace[i].state.certs then 1 else 2
    ensures id in trace[j].state.certs && StatusOf(trace[j].state, id) == Some(Genuine(trace[j].state.certs[id].1))
    ensures LastStatus(trace[j].delivered + trace[j].state.events, id) == Some(Genuine(trace[j].state.certs[id].1))
  {
    assert trace[i + 1] == Next(c, trace[i], inputs[i]);
    ConnectedIsAsked(c, trace[i].state, id, true, inputs[i].challenge);
    AnswersAreCounted(c, rows, inputs, trace, i + 1, j, id, if id in trace[i].state.certs then 1 else 2);
    EventsAreComplete(c, rows, inputs, trace, j, id);
  }
}
