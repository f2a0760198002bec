/**
 What each frame does to the registry, told by the order in which devices connected.
 */
module UsbAnswers {
  import opened Common
  import opened GenuineCheck
  import opened UsbSerial

  // `b` connected after `a` did, and both still are.
  ghost predicate JoinedAfter(order: seq<DeviceId>, a: DeviceId, b: DeviceId) {
    exists i, j :: 0 <= i < j < |order| && order[i] == a && order[j] == b
  }

  predicate IsOn(r: Registry, id: DeviceId, port: Port) {
    id in r.ports && r.ports[id].port == port
  }

  lemma JoinedAfterMore(order: seq<DeviceId>, more: seq<DeviceId>, a: DeviceId, b: DeviceId)
    requires JoinedAfter(order, a, b)
    ensures JoinedAfter(order + more, a, b)
  {
    var i, j :| 0 <= i < j < |order| && order[i] == a && order[j] == b;
    assert (order + more)[i] == a && (order + more)[j] == b;
  }

  // Leaving some out keeps the order of the others.
  lemma {:induction false} MinusKeepsOrder(order: seq<DeviceId>, drop: set<DeviceId>, i: nat, j: nat)
    requires i < j < |Minus(order, drop)|
    ensures JoinedAfter(order, Minus(order, drop)[i], Minus(order, drop)[j])
  {
    var n := |order| - 1;
    var init, last := order[..n], order[n];
    assert order == init + [last];
    if j < |Minus(init, drop)| {
      MinusKeepsOrder(init, drop, i, j);
      JoinedAfterMore(init, [last], Minus(init, drop)[i], Minus(init, drop)[j]);
    } else {
      var a := Minus(init, drop)[i];
      MinusElems(init, drop);
      assert a in Minus(init, drop);
      var k :| 0 <= k < |init| && init[k] == a;
      assert order[k] == a && order[n] == last;
    }
  }

  // Two places of a list, by when their devices connected.
  lemma ListedInOrder(w: World, port: Port, i: nat, j: nat)
    requires Inv(w) && i < |Listed(w.registry, port)| && j < |Listed(w.registry, port)|
    ensures var ids := Listed(w.registry, port); i < j <==> JoinedAfter(Joined(w.log), ids[i], ids[j])
  {
    var ids, order := Listed(w.registry, port), Joined(w.log);
    var drop := Elsewhere(w.registry.ports, port);
    assert ids == Minus(order, drop);
    ListedAreConnected(w, port);
    if i < j {
      MinusKeepsOrder(order, drop, i, j);
    } else if j < i {
      MinusKeepsOrder(order, drop, j, i);
    }
    JoinedOnce(order, ids[i], ids[j]);
  }

  lemma JoinedOnce(order: seq<DeviceId>, a: DeviceId, b: DeviceId)
    requires Distinct(order)
    ensures JoinedAfter(order, a, b) ==> !JoinedAfter(order, b, a)
  {
  }

  // These devices, and no others, have left, each with one change, in this order.
  ghost predicate HaveLeft(w: World, t: World, gone: seq<DeviceId>) {
    && Distinct(gone) && t.log == w.log + Drops(gone)
    && (forall id :: id in t.registry.ports <==> id in w.registry.ports && id !in gone)
    && (forall id :: id in t.registry.ports ==> t.registry.ports[id] == w.registry.ports[id])
    && (forall id :: id in t.registry.registered <==> id in w.registry.registered && id !in gone)
    && t.registry.names == w.registry.names
  }

  // A device of the port that connected after the sender.
  ghost predicate IsBehind(w: World, port: Port, from: DeviceId, id: DeviceId) {
    IsOn(w.registry, from, port) && IsOn(w.registry, id, port) && JoinedAfter(Joined(w.log), from, id)
  }

  lemma TailIsBehind(w: World, port: Port, from: DeviceId, k: nat, id: DeviceId)
    requires Inv(w) && k < |Listed(w.registry, port)| && Listed(w.registry, port)[k] == from
    ensures id in Listed(w.registry, port)[k + 1..] <==> IsBehind(w, port, from, id)
  {
    var ids := Listed(w.registry, port);
    ListedAreConnected(w, port);
    if id in ids {
      var j :| 0 <= j < |ids| && ids[j] == id;
      ListedInOrder(w, port, k, j);
      assert j > k ==> ids[k + 1..][j - k - 1] == id;
      if id in ids[k + 1..] {
        var m :| 0 <= m < |ids[k + 1..]| && ids[k + 1..][m] == id;
        assert ids[k + 1 + m] == id && j == k + 1 + m;
      }
    }
  }

  // The devices `gone` have been taken out and reported.
  lemma TakenOut(w: World, s: Stepped, gone: seq<DeviceId>)
    requires Distinct(gone) && s.changes == Drops(gone) && s.registry.names == w.registry.names
    requires s.registry.ports == w.registry.ports - Elems(gone) && s.registry.registered == w.registry.registered - Elems(gone)
    ensures HaveLeft(w, Grown(w, s), gone)
  {
  }

  lemma CutHasLeft(w: World, port: Port, from: DeviceId, k: nat)
    requires Distinct(Listed(w.registry, port)) && k < |Listed(w.registry, port)| && Listed(w.registry, port)[k] == from
    ensures HaveLeft(w, Grown(w, Cut(w.registry, port, from)), Backwards(Listed(w.registry, port)[k + 1..]))
  {
    var ids := Listed(w.registry, port);
    IndexIs(ids, from, k);
    CutPieces(ids, k + 1);
    TakenOut(w, Cut(w.registry, port, from), Backwards(ids[k + 1..]));
  }

  lemma IndexIs(ids: seq<DeviceId>, from: DeviceId, k: nat)
    requires Distinct(ids) && k < |ids| && ids[k] == from
    ensures IndexOf(ids, from) == k
  {
  }

  lemma TailOrder(w: World, port: Port, k: nat)
    requires UsbSerial.Inv(w) && k < |Listed(w.registry, port)|
    ensures var gone := Backwards(Listed(w.registry, port)[k + 1..]);
            forall i, j :: 0 <= i < j < |gone| ==> JoinedAfter(Joined(w.log), gone[j], gone[i])
  {
    var tail := Listed(w.registry, port)[k + 1..];
    var gone := Backwards(tail);
    forall i, j | 0 <= i < j < |gone| ensures JoinedAfter(Joined(w.log), gone[j], gone[i]) {
      ListedInOrder(w, port, k + 1 + (|tail| - 1 - j), k + 1 + (|tail| - 1 - i));
    }
  }

  lemma CutLeaves(w: World, port: Port, from: DeviceId) returns (gone: seq<DeviceId>)
    requires UsbSerial.Inv(w)
    ensures HaveLeft(w, Grown(w, Cut(w.registry, port, from)), gone)
    ensures forall id :: id in gone <==> IsBehind(w, port, from, id)
    ensures forall k, l :: 0 <= k < l < |gone| ==> JoinedAfter(Joined(w.log), gone[l], gone[k])
  {
    var ids := Listed(w.registry, port);
    ListedAreConnected(w, port);
    gone := [];
    if from !in ids {
      TakenOut(w, Cut(w.registry, port, from), gone);
    } else {
      var k: nat :| k < |ids| && ids[k] == from;
      gone := Backwards(ids[k + 1..]);
      CutHasLeft(w, port, from, k);
      BackwardsElems(ids[k + 1..]);
      forall id ensures id in gone <==> IsBehind(w, port, from, id) {
        TailIsBehind(w, port, from, k, id);
      }
      TailOrder(w, port, k);
    }
  }

  /** `from` says that what is behind it is gone: exactly the devices of that port that connected after it leave, the last to
      connect first. If `from` is not on that port nothing happens. */
  lemma DownstreamLeaves(latest: Option<FirmwareDigest>, w: World, port: Port, from: DeviceId) returns (gone: seq<DeviceId>)
    requires UsbSerial.Inv(w)
    ensures HaveLeft(w, Next(latest, w, Handle(port, Message(from, Some(DisconnectDownstream)))), gone)
    ensures forall id :: id in gone <==> IsBehind(w, port, from, id)
    ensures forall k, l :: 0 <= k < l < |gone| ==> JoinedAfter(Joined(w.log), gone[l], gone[k])
  {
    gone := CutLeaves(w, port, from);
  }

  /** The sender itself stays where it is. */
  lemma SenderStays(latest: Option<FirmwareDigest>, w: World, port: Port, from: DeviceId)
    requires UsbSerial.Inv(w) && from in w.registry.ports
    ensures var t := Next(latest, w, Handle(port, Message(from, Some(DisconnectDownstream))));
            && from in t.registry.ports && t.registry.ports[from] == w.registry.ports[from]
            && (from in t.registry.registered <==> from in w.registry.registered)
  {
    var gone := DownstreamLeaves(latest, w, port, from);
    JoinedOnce(Joined(w.log), from, from);
  }

  // The frames after which a port is given up.
  predicate Unplugs(frame: Frame) {
    frame.ReadError? || frame.MagicBytes? || frame.Reset?
  }

  /** A port that is given up: exactly its devices leave, the first to connect first. */
  lemma PortLeaves(latest: Option<FirmwareDigest>, w: World, port: Port, frame: Frame) returns (gone: seq<DeviceId>)
    requires UsbSerial.Inv(w) && Unplugs(frame)
    ensures HaveLeft(w, Next(latest, w, Handle(port, frame)), gone)
    ensures forall id :: id in gone <==> IsOn(w.registry, id, port)
    ensures forall k, l :: 0 <= k < l < |gone| ==> JoinedAfter(Joined(w.log), gone[k], gone[l])
  {
    gone := Listed(w.registry, port);
    ListedAreConnected(w, port);
    forall i, j | 0 <= i < j < |gone| ensures JoinedAfter(Joined(w.log), gone[i], gone[j]) {
      ListedInOrder(w, port, i, j);
    }
  }

  /** A device that announces itself is on the port it came through, with the firmware it names, last on that port's list and
      not registered; if it was connected it disconnects first. Nobody else is affected. */
  lemma AnnouncedIsLast(latest: Option<FirmwareDigest>, w: World, port: Port, from: DeviceId, digest: FirmwareDigest)
    requires UsbSerial.Inv(w)
    ensures var t := Next(latest, w, Handle(port, Message(from, Some(Announce(digest)))));
            && from in t.registry.ports && t.registry.ports[from] == DevicePort(port, digest) && from !in t.registry.registered
            && (forall id :: id != from ==> (id in t.registry.ports <==> id in w.registry.ports) && (id in w.registry.ports ==> t.registry.ports[id] == w.registry.ports[id]))
            && (forall id :: id != from ==> (id in t.registry.registered <==> id in w.registry.registered))
            && Listed(t.registry, port) != [] && Listed(t.registry, port)[|Listed(t.registry, port)| - 1] == from
            && t.log == w.log + (if from in w.registry.ports then [Disconnected(from), Connected(from, digest, latest)] else [Connected(from, digest, latest)])
            && t.registry.names == w.registry.names
  {
    assert from in w.registry.registered ==> from in w.registry.ports;
    assert [Disconnected(from)] + [Connected(from, digest, latest)] == [Disconnected(from), Connected(from, digest, latest)];
    assert [] + [Connected(from, digest, latest)] == [Connected(from, digest, latest)];
  }

  /** Registration: afterwards every connected device with a name is registered, and one change was made for each that was not,
      with its name. Nothing else changes. */
  lemma RegistrationIsComplete(latest: Option<FirmwareDigest>, w: World, order: seq<DeviceId>)
    requires UsbSerial.Inv(w) && Lists(order, Registrable(w.registry))
    ensures var t := Next(latest, w, Register(order));
            && NamedAreRegistered(t.registry) && t.registry.ports == w.registry.ports && t.registry.names == w.registry.names
            && (forall id :: id in t.registry.registered <==> id in w.registry.registered || (id in w.registry.ports && id in w.registry.names))
            && |t.log| == |w.log| + |order| && t.log[..|w.log|] == w.log
            && (forall k :: 0 <= k < |order| ==> t.log[|w.log| + k] == Registered(order[k], w.registry.names[order[k]]))
            && (forall id :: id in order <==> id in w.registry.ports && id in w.registry.names && id !in w.registry.registered)
  {
  }

  /** The other frames only pass something on. */
  lemma OthersOnlyTell(latest: Option<FirmwareDigest>, w: World, port: Port, from: DeviceId, body: Option<DeviceBody>)
    requires body.Some? ==> !body.value.Announce? && !body.value.DisconnectDownstream?
    ensures var t := Next(latest, w, Handle(port, Message(from, body)));
            && t.registry == w.registry
            && t.log == w.log + match body
                                case Some(NeedName) => [NeedsName(from)]
                                case Some(SetName(name)) => if from in w.registry.names && w.registry.names[from] == name then [] else [NameChange(from, name)]
                                case Some(App(app)) => [AppMessage(from, app)]
                                case Some(Genuine(message)) => [GenuineMessage(from, message)]
                                case _ => []
  {
  }
}
