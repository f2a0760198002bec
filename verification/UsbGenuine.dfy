/**
 The registry and the genuine check together: the application feeds every change to the check
 (frostsnapp/rust/src/coordinator.rs), so what the check knows follows the cable.
 */
module UsbGenuine {
  import opened Common
  import opened GenuineCheck
  import opened GenuineRuns
  import Usb = UsbSerial

  // What the application's loop makes of one change.
  predicate Answers(supports: Usb.FirmwareDigest -> bool, change: Usb.Change, input: Input) {
    match change
    case Connected(id, digest, _) => input.Connect? && input.id == id && input.supportsCheck == supports(digest)
    case Disconnected(id) => input == Disconnect(id)
    case GenuineMessage(from, message) => input.Receive? && input.from == from && input.message == message
    case _ => false
  }

  // The genuine check is told of it.
  predicate Concerns(change: Usb.Change) {
    change.Connected? || change.Disconnected? || change.GenuineMessage?
  }

  /** The inputs answer the changes that concern the check, in order. At any time in between, its events may
      be taken. */
  predicate Feeds(supports: Usb.FirmwareDigest -> bool, log: seq<Usb.Change>, inputs: seq<Input>)
    decreases |log| + |inputs|
  {
    if inputs != [] && inputs[|inputs| - 1].Take? then Feeds(supports, log, inputs[..|inputs| - 1])
    else if log != [] && !Concerns(log[|log| - 1]) then Feeds(supports, log[..|log| - 1], inputs)
    else if log == [] || inputs == [] then log == [] && inputs == []
    else Answers(supports, log[|log| - 1], inputs[|inputs| - 1]) && Feeds(supports, log[..|log| - 1], inputs[..|inputs| - 1])
  }

  /** The check's messages from `id` since it last connected. */
  function SaidSince(log: seq<Usb.Change>, id: DeviceId): seq<DeviceMessage> {
    if log == [] then []
    else
      var before := SaidSince(log[..|log| - 1], id);
      match log[|log| - 1]
      case Connected(x, _, _) => if x == id then [] else before
      case Disconnected(x) => if x == id then [] else before
      case GenuineMessage(from, message) => if from == id then before + [message] else before
      case _ => before
  }

  function Heard(talk: seq<Exchange>): seq<DeviceMessage> {
    if talk == [] then []
    else
      Heard(talk[..|talk| - 1]) + if talk[|talk| - 1].Got? then [talk[|talk| - 1].message] else []
  }

  lemma HeardMore(talk: seq<Exchange>, message: DeviceMessage, request: Option<CoordinatorMessage>)
    ensures Heard(talk + [Got(message)] + SentOf(request)) == Heard(talk) + [message]
  {
    var got := talk + [Got(message)];
    assert got[..|talk|] == talk;
    if request.Some? {
      assert (got + SentOf(request))[..|got|] == got;
    } else {
      assert got + SentOf(request) == got;
    }
  }

  lemma {:induction false} HeardContains(talk: seq<Exchange>, k: nat)
    requires k < |talk| && talk[k].Got?
    ensures talk[k].message in Heard(talk)
  {
    if k < |talk| - 1 {
      HeardContains(talk[..|talk| - 1], k);
    }
  }

  // The conversations are those of the connected devices, since they connected.
  ghost predicate InStep(log: seq<Usb.Change>, w: World) {
    && Usb.Follow(log).Some? && w.talk.Keys == Usb.Follow(log).value.Keys
    && forall id :: id in w.talk ==> Heard(w.talk[id]) == SaidSince(log, id)
  }

  lemma StaysInStep(supports: Usb.FirmwareDigest -> bool, log: seq<Usb.Change>, change: Usb.Change, c: Crypto, w: World, input: Input)
    requires InStep(log, w) && Usb.Follow(log + [change]).Some? && Answers(supports, change, input)
    ensures InStep(log + [change], Next(c, w, input))
  {
    Usb.FollowLast(log, change);
    assert (log + [change])[..|log|] == log;
    var w' := Next(c, w, input);
    match change
    case Connected(id, _, _) => assert Heard(w'.talk[id]) == [];
    case Disconnected(id) =>
    case GenuineMessage(from, message) =>
      if from in w.talk {
        var r := RecvStep(c, w.state, from, message, input.next, input.order);
        HeardMore(w.talk[from], message, if r.reply.Fine? then r.reply.request else None);
      }
  }

  lemma OthersDoNotMatter(log: seq<Usb.Change>, change: Usb.Change, w: World)
    requires InStep(log, w) && !Concerns(change) && Usb.Follow(log + [change]).Some?
    ensures InStep(log + [change], w)
  {
    Usb.FollowLast(log, change);
    assert (log + [change])[..|log|] == log;
  }

  lemma {:induction false} FeedingKeepsInStep(supports: Usb.FirmwareDigest -> bool, log: seq<Usb.Change>, c: Crypto,
                                              rows: map<DeviceId, FactoryAttestation>, inputs: seq<Input>, trace: seq<World>)
    requires IsRun(c, rows, inputs, trace) && Feeds(supports, log, inputs) && Usb.Follow(log).Some?
    ensures InStep(log, trace[|inputs|])
    decreases |log| + |inputs|
  {
    if log != [] {
      Usb.PrefixFollows(log, |log| - 1);
      assert log == log[..|log| - 1] + [log[|log| - 1]];
    }
    if inputs != [] {
      RunShortens(c, rows, inputs, trace);
    }
    if inputs != [] && inputs[|inputs| - 1].Take? {
      FeedingKeepsInStep(supports, log, c, rows, inputs[..|inputs| - 1], trace[..|trace| - 1]);
    } else if log != [] && !Concerns(log[|log| - 1]) {
      FeedingKeepsInStep(supports, log[..|log| - 1], c, rows, inputs, trace);
      OthersDoNotMatter(log[..|log| - 1], log[|log| - 1], trace[|inputs|]);
    } else if log != [] {
      FeedingKeepsInStep(supports, log[..|log| - 1], c, rows, inputs[..|inputs| - 1], trace[..|trace| - 1]);
      StaysInStep(supports, log[..|log| - 1], log[|log| - 1], c, trace[|inputs| - 1], inputs[|inputs| - 1]);
    }
  }

  lemma RunShortens(c: Crypto, rows: map<DeviceId, FactoryAttestation>, inputs: seq<Input>, trace: seq<World>)
    requires IsRun(c, rows, inputs, trace) && inputs != []
    ensures IsRun(c, rows, inputs[..|inputs| - 1], trace[..|trace| - 1])
    ensures trace[|inputs|] == Next(c, trace[|inputs| - 1], inputs[|inputs| - 1])
    ensures trace[..|trace| - 1][|inputs| - 1] == trace[|inputs| - 1]
  {
  }

  // `message` is an identity attestation by `id` over `digest`, for a challenge sent in this conversation.
  ghost predicate Attests(c: Crypto, talk: seq<Exchange>, id: DeviceId, digest: Digest, message: DeviceMessage) {
    && message.Identity?
    && exists challenge :: Sent(RequestIdentity(challenge, digest)) in talk && c.checkIdentity(id, challenge, digest, message.signature)
  }

  /** Over every run of the registry, with its changes fed to the check: a device has a session exactly if it
      is on a port, and one that is shown as genuine proved it by a message of its current connection. So
      announcing itself again, on whatever port, makes it unverified until it proves itself anew. */
  lemma GenuineOnThisConnection(latest: Option<Usb.FirmwareDigest>, ops: seq<Usb.Op>, manager: seq<Usb.World>, j: nat,
                                supports: Usb.FirmwareDigest -> bool, c: Crypto, rows: map<DeviceId, FactoryAttestation>,
                                inputs: seq<Input>, trace: seq<World>, id: DeviceId)
    requires Usb.IsRun(latest, ops, manager) && j < |manager|
    requires IsRun(c, rows, inputs, trace) && Feeds(supports, manager[j].log, inputs)
    ensures var w := trace[|inputs|];
            && (id in w.state.sessions <==> id in manager[j].registry.ports)
            && (StatusOf(w.state, id).Some? && StatusOf(w.state, id).value.Genuine? ==>
                 && id in w.state.certs && id in w.talk
                 && exists message :: message in SaidSince(manager[j].log, id)
                                   && Attests(c, w.talk[id], id, c.digest(w.state.certs[id].0.attested), message))
  {
    var log, w := manager[j].log, trace[|inputs|];
    Usb.RunKeepsInv(latest, ops, manager, j);
    FeedingKeepsInStep(supports, log, c, rows, inputs, trace);
    RunKeeps(c, rows, inputs, trace, |inputs|);
    if StatusOf(w.state, id).Some? && StatusOf(w.state, id).value.Genuine? {
      GenuineMeansProved(c, rows, inputs, trace, |inputs|, id);
      var digest := c.digest(w.state.certs[id].0.attested);
      var a, b :| 0 <= a < b < |w.talk[id]| && IsProof(c, w.talk[id][a], w.talk[id][b], id, digest);
      HeardContains(w.talk[id], b);
      assert w.talk[id][a] == Sent(RequestIdentity(w.talk[id][a].request.challenge, digest));
      assert Attests(c, w.talk[id], id, digest, w.talk[id][b].message);
    }
  }
}
