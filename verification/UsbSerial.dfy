/**
 The registry of devices on USB ports (frostsnap_coordinator/src/usb_serial_manager.rs).

 Devices announce themselves through a port, in daisy-chain order. The manager keeps a map from devices
 to ports, the reverse lists, and a set of registered devices, and tells the application about every
 change. `World` pairs the registry with all the changes emitted so far.
 */
module UsbSerial {
  import opened Common
  import opened GenuineCheck

  type Port(==, !new)
  type FirmwareDigest(==, !new)
  type Name(==, !new)
  type AppBody(==, !new)

  datatype DevicePort = DevicePort(port: Port, digest: FirmwareDigest)

  datatype Change =
    | Connected(id: DeviceId, digest: FirmwareDigest, latest: Option<FirmwareDigest>)
    | NeedsName(id: DeviceId)
    | NameChange(id: DeviceId, name: Name)
    | Registered(id: DeviceId, name: Name)
    | Disconnected(id: DeviceId)
    | AppMessage(from: DeviceId, app: AppBody)
    | GenuineMessage(from: DeviceId, message: DeviceMessage)

  datatype DeviceBody =
    | NeedName
    | DisconnectDownstream
    | SetName(name: Name)
    | Announce(digest: FirmwareDigest)
    | App(app: AppBody)
    | Genuine(message: DeviceMessage)
    | Ignored            // debug messages and a retired one

  // What reading a ready port gives; a body that does not decode is None.
  datatype Frame =
    | ReadError
    | MagicBytes
    | Reset
    | Message(from: DeviceId, body: Option<DeviceBody>)
    | Unused

  datatype Registry = Registry(
    ports: map<DeviceId, DevicePort>,
    reverse: map<Port, seq<DeviceId>>,
    registered: set<DeviceId>,
    names: map<DeviceId, Name>)

  datatype Stepped = Stepped(registry: Registry, changes: seq<Change>)

  // ---------------------------------------------------------------------------------------------
  // Lists of devices

  function Elems(s: seq<DeviceId>): set<DeviceId> {
    set x | x in s
  }

  ghost predicate Distinct(s: seq<DeviceId>) {
    forall i, j :: 0 <= i < j < |s| ==> s[i] != s[j]
  }

  // `s` without the members of `drop`, in the same order.
  function Minus(s: seq<DeviceId>, drop: set<DeviceId>): seq<DeviceId> {
    if s == [] then []
    else
      var last := s[|s| - 1];
      Minus(s[..|s| - 1], drop) + if last in drop then [] else [last]
  }

  function IndexOf(s: seq<DeviceId>, x: DeviceId): (i: nat)
    requires x in s
    ensures i < |s| && s[i] == x && x !in s[..i]
  {
    if s[0] == x then 0 else 1 + IndexOf(s[1..], x)
  }

  function Backwards(s: seq<DeviceId>): seq<DeviceId> {
    seq(|s|, i requires 0 <= i < |s| => s[|s| - 1 - i])
  }

  function Registers(names: map<DeviceId, Name>, s: seq<DeviceId>): seq<Change>
    requires forall x :: x in s ==> x in names
  {
    seq(|s|, i requires 0 <= i < |s| => Registered(s[i], names[s[i]]))
  }

  function Drops(s: seq<DeviceId>): seq<Change> {
    seq(|s|, i requires 0 <= i < |s| => Disconnected(s[i]))
  }

  lemma MinusLast(s: seq<DeviceId>, x: DeviceId, drop: set<DeviceId>)
    ensures Minus(s + [x], drop) == Minus(s, drop) + if x in drop then [] else [x]
  {
    assert (s + [x])[..|s|] == s;
  }

  lemma {:induction false} MinusElems(s: seq<DeviceId>, drop: set<DeviceId>)
    ensures forall x :: x in Minus(s, drop) <==> x in s && x !in drop
    ensures Distinct(s) ==> Distinct(Minus(s, drop))
  {
    if s != [] {
      var init, last := s[..|s| - 1], s[|s| - 1];
      MinusElems(init, drop);
      assert s == init + [last];
      AppendedElems(init, last);
      if Distinct(s) {
        assert forall i :: 0 <= i < |init| ==> init[i] == s[i] && init[i] != last;
        assert Distinct(init) && last !in init;
        AppendedElems(Minus(init, drop), last);
      }
    }
  }

  lemma AppendedElems(s: seq<DeviceId>, x: DeviceId)
    ensures forall y :: y in s + [x] <==> y in s || y == x
    ensures x !in s && Distinct(s) ==> Distinct(s + [x])
  {
  }

  lemma {:induction false} MinusNone(s: seq<DeviceId>, drop: set<DeviceId>)
    requires forall x :: x in s ==> x !in drop
    ensures Minus(s, drop) == s
  {
    if s != [] {
      assert s == s[..|s| - 1] + [s[|s| - 1]];
      MinusNone(s[..|s| - 1], drop);
    }
  }

  lemma {:induction false} MinusAll(s: seq<DeviceId>, drop: set<DeviceId>)
    requires forall x :: x in s ==> x in drop
    ensures Minus(s, drop) == []
  {
    if s != [] {
      MinusAll(s[..|s| - 1], drop);
    }
  }

  lemma {:induction false} MinusTwice(s: seq<DeviceId>, a: set<DeviceId>, b: set<DeviceId>)
    ensures Minus(Minus(s, a), b) == Minus(s, a + b)
  {
    if s != [] {
      var init, last := s[..|s| - 1], s[|s| - 1];
      MinusTwice(init, a, b);
      if last in a {
        assert Minus(s, a) == Minus(init, a);
      } else {
        MinusLast(Minus(init, a), last, b);
      }
    }
  }

  lemma {:induction false} MinusConcat(a: seq<DeviceId>, b: seq<DeviceId>, drop: set<DeviceId>)
    ensures Minus(a + b, drop) == Minus(a, drop) + Minus(b, drop)
  {
    if b == [] {
      assert a + b == a;
    } else {
      var init, last := b[..|b| - 1], b[|b| - 1];
      MinusConcat(a, init, drop);
      assert a + b == a + init + [last];
      MinusLast(a + init, last, drop);
    }
  }

  lemma MinusTail(s: seq<DeviceId>, k: nat)
    requires Distinct(s) && k <= |s|
    ensures Minus(s, Elems(s[k..])) == s[..k]
  {
    var drop := Elems(s[k..]);
    assert s == s[..k] + s[k..];
    MinusConcat(s[..k], s[k..], drop);
    MinusNone(s[..k], drop);
    MinusAll(s[k..], drop);
  }

  // ---------------------------------------------------------------------------------------------
  // What each operation does to the registry, and the changes it emits

  // A known id leaves the list of the port it was on.
  function Freed(r: Registry, from: DeviceId): map<Port, seq<DeviceId>> {
    if from in r.ports then r.reverse[r.ports[from].port := Minus(Listed(r, r.ports[from].port), {from})] else r.reverse
  }

  function Gone(r: Registry, from: DeviceId): seq<Change> {
    if from in r.ports then [Disconnected(from)] else []
  }

  function Announced(r: Registry, port: Port, from: DeviceId, digest: FirmwareDigest, latest: Option<FirmwareDigest>): Stepped {
    var freed := Freed(r, from);
    Stepped(
      r.(ports := r.ports[from := DevicePort(port, digest)],
         reverse := freed[port := (if port in freed then freed[port] else []) + [from]],
         registered := if from in r.ports then r.registered - {from} else r.registered),
      Gone(r, from) + [Connected(from, digest, latest)])
  }

  // The devices behind one port are gone.
  function Unplugged(r: Registry, port: Port): Stepped {
    var ids := Listed(r, port);
    Stepped(
      r.(ports := r.ports - Elems(ids), reverse := r.reverse - {port}, registered := r.registered - Elems(ids)),
      Drops(ids))
  }

  // `from` says that everything behind it on the chain is gone.
  function Cut(r: Registry, port: Port, from: DeviceId): Stepped {
    var ids := Listed(r, port);
    if from !in ids then Stepped(r, [])
    else
      var k := IndexOf(ids, from) + 1;
      var gone := ids[k..];
      Stepped(
        r.(ports := r.ports - Elems(gone), reverse := r.reverse[port := ids[..k]], registered := r.registered - Elems(gone)),
        Drops(Backwards(gone)))
  }

  // Connected devices with a name that are not registered yet.
  function Registrable(r: Registry): set<DeviceId> {
    set id | id in r.ports && id !in r.registered && id in r.names
  }

  // `order` is how they come out of the hash map.
  function RegisteredAll(r: Registry, order: seq<DeviceId>): Stepped
    requires forall x :: x in order ==> x in r.names
  {
    Stepped(r.(registered := r.registered + Elems(order)), Registers(r.names, order))
  }

  function Listed(r: Registry, port: Port): seq<DeviceId> {
    if port in r.reverse then r.reverse[port] else []
  }

  function Handled(r: Registry, port: Port, frame: Frame, latest: Option<FirmwareDigest>): Stepped {
    match frame
    case ReadError => Unplugged(r, port)
    case MagicBytes => Unplugged(r, port)
    case Reset => Unplugged(r, port)
    case Unused => Stepped(r, [])
    case Message(from, body) =>
      match body
      case None => Stepped(r, [])
      case Some(NeedName) => Stepped(r, [NeedsName(from)])
      case Some(DisconnectDownstream) => Cut(r, port, from)
      case Some(SetName(name)) => Stepped(r, if from in r.names && r.names[from] == name then [] else [NameChange(from, name)])
      case Some(Announce(digest)) => Announced(r, port, from, digest, latest)
      case Some(App(app)) => Stepped(r, [AppMessage(from, app)])
      case Some(Genuine(message)) => Stepped(r, [GenuineMessage(from, message)])
      case Some(Ignored) => Stepped(r, [])
  }

  // ---------------------------------------------------------------------------------------------
  // What the changes alone tell

  datatype Seen = Seen(digest: FirmwareDigest, registered: bool)

  /** What an observer of the changes knows about every connected device, or None if a change made no
      sense: connecting a connected device, disconnecting an absent one, registering an absent or a
      registered one. */
  function Follow(log: seq<Change>): Option<map<DeviceId, Seen>> {
    if log == [] then Some(map[])
    else if Follow(log[..|log| - 1]).None? then None
    else Noted(Follow(log[..|log| - 1]).value, log[|log| - 1])
  }

  function Noted(m: map<DeviceId, Seen>, change: Change): Option<map<DeviceId, Seen>> {
    match change
    case Connected(id, digest, _) => if id in m then None else Some(m[id := Seen(digest, false)])
    case Disconnected(id) => if id in m then Some(m - {id}) else None
    case Registered(id, _) => if id in m && !m[id].registered then Some(m[id := m[id].(registered := true)]) else None
    case _ => Some(m)
  }

  /** The connected devices in the order in which they connected. */
  function Joined(log: seq<Change>): seq<DeviceId> {
    if log == [] then []
    else
      Reordered(Joined(log[..|log| - 1]), log[|log| - 1])
  }

  function Reordered(order: seq<DeviceId>, change: Change): seq<DeviceId> {
    match change
    case Connected(id, _, _) => order + [id]
    case Disconnected(id) => Minus(order, {id})
    case _ => order
  }

  function SeenOf(r: Registry): map<DeviceId, Seen> {
    map id | id in r.ports :: Seen(r.ports[id].digest, id in r.registered)
  }

  function Elsewhere(ports: map<DeviceId, DevicePort>, port: Port): set<DeviceId> {
    set id | id in ports && ports[id].port != port
  }

  datatype World = World(registry: Registry, log: seq<Change>)

  // An observer knows the connected devices; a port lists its own in the order in which they connected.
  ghost predicate Inv(w: World) {
    && Follow(w.log) == Some(SeenOf(w.registry))
    && w.registry.registered <= w.registry.ports.Keys
    && (forall id :: id in Joined(w.log) <==> id in w.registry.ports)
    && Distinct(Joined(w.log))
    && ListsFollow(w.registry, Joined(w.log))
  }

  ghost predicate ListsFollow(r: Registry, order: seq<DeviceId>) {
    forall port :: Listed(r, port) == Minus(order, Elsewhere(r.ports, port))
  }

  lemma ListedAreConnected(w: World, port: Port)
    requires Inv(w)
    ensures Distinct(Listed(w.registry, port))
    ensures forall id :: id in Listed(w.registry, port) <==> id in w.registry.ports && w.registry.ports[id].port == port
  {
    var order, ids := Joined(w.log), Listed(w.registry, port);
    MinusElems(order, Elsewhere(w.registry.ports, port));
    assert ids == Minus(order, Elsewhere(w.registry.ports, port));
  }

  // ---------------------------------------------------------------------------------------------
  // Logs grow one change, or one batch, at a time

  lemma FollowLast(log: seq<Change>, change: Change)
    ensures Follow(log + [change]) == if Follow(log).None? then None else Noted(Follow(log).value, change)
    ensures Joined(log + [change]) == Reordered(Joined(log), change)
  {
    assert (log + [change])[..|log|] == log;
  }

  lemma {:induction false} FollowDrops(log: seq<Change>, ids: seq<DeviceId>)
    requires Follow(log).Some? && Distinct(ids) && forall x :: x in ids ==> x in Follow(log).value
    ensures Follow(log + Drops(ids)) == Some(Follow(log).value - Elems(ids))
    ensures Joined(log + Drops(ids)) == Minus(Joined(log), Elems(ids))
  {
    if ids == [] {
      assert log + Drops(ids) == log;
      MinusNone(Joined(log), Elems(ids));
      assert Follow(log).value - Elems(ids) == Follow(log).value;
    } else {
      var init, last := ids[..|ids| - 1], ids[|ids| - 1];
      assert forall i :: 0 <= i < |init| ==> init[i] == ids[i];
      FollowDrops(log, init);
      assert log + Drops(ids) == log + Drops(init) + [Disconnected(last)];
      FollowLast(log + Drops(init), Disconnected(last));
      MinusTwice(Joined(log), Elems(init), {last});
      OneMoreDropped(Follow(log).value, ids);
    }
  }

  lemma OneMoreDropped(m: map<DeviceId, Seen>, ids: seq<DeviceId>)
    requires Distinct(ids) && ids != [] && forall x :: x in ids ==> x in m
    ensures var (init, last) := (ids[..|ids| - 1], ids[|ids| - 1]);
            && Elems(ids) == Elems(init) + {last}
            && last in m - Elems(init) && m - Elems(init) - {last} == m - Elems(ids)
  {
    var init, last := ids[..|ids| - 1], ids[|ids| - 1];
    assert ids == init + [last];
    AppendedElems(init, last);
    assert forall i :: 0 <= i < |init| ==> init[i] == ids[i];
  }

  function Marked(m: map<DeviceId, Seen>, ids: set<DeviceId>): map<DeviceId, Seen> {
    map id | id in m :: if id in ids then m[id].(registered := true) else m[id]
  }

  lemma {:induction false} FollowRegisters(log: seq<Change>, names: map<DeviceId, Name>, order: seq<DeviceId>)
    requires Follow(log).Some? && Distinct(order) && forall x :: x in order ==> x in names
    requires forall x :: x in order ==> x in Follow(log).value && !Follow(log).value[x].registered
    ensures Follow(log + Registers(names, order)) == Some(Marked(Follow(log).value, Elems(order)))
    ensures Joined(log + Registers(names, order)) == Joined(log)
  {
    var m := Follow(log).value;
    if order == [] {
      assert log + Registers(names, order) == log;
      assert Marked(m, Elems(order)) == m;
    } else {
      var init, last := order[..|order| - 1], order[|order| - 1];
      AppendedElems(init, last);
      assert order == init + [last];
      FollowRegisters(log, names, init);
      var change := Registered(last, names[last]);
      assert log + Registers(names, order) == log + Registers(names, init) + [change];
      FollowLast(log + Registers(names, init), change);
      MarkedOneMore(m, init, last, names[last]);
    }
  }

  lemma MarkedOneMore(m: map<DeviceId, Seen>, init: seq<DeviceId>, last: DeviceId, name: Name)
    requires last in m && last !in init && !m[last].registered
    ensures Noted(Marked(m, Elems(init)), Registered(last, name)) == Some(Marked(m, Elems(init + [last])))
  {
    AppendedElems(init, last);
    var before := Marked(m, Elems(init));
    assert last in before && before[last] == m[last];
    assert before[last := m[last].(registered := true)] == Marked(m, Elems(init + [last]));
  }

  // ---------------------------------------------------------------------------------------------
  // Every operation keeps the invariant

  function Grown(w: World, s: Stepped): World {
    World(s.registry, w.log + s.changes)
  }

  // The devices `gone`, all of one port, leave it.
  lemma LeavingKeepsInv(w: World, r': Registry, gone: seq<DeviceId>, port: Port)
    requires Inv(w) && Distinct(gone) && forall x :: x in gone ==> x in Listed(w.registry, port)
    requires r'.ports == w.registry.ports - Elems(gone) && r'.registered == w.registry.registered - Elems(gone)
    requires Listed(r', port) == Minus(Listed(w.registry, port), Elems(gone))
    requires forall p :: p != port ==> Listed(r', p) == Listed(w.registry, p)
    ensures Inv(World(r', w.log + Drops(gone)))
  {
    ListedAreConnected(w, port);
    LeavingLog(w.log, w.registry, r', gone);
    MinusElems(Joined(w.log), Elems(gone));
    LeavingLists(w, r', gone, port);
  }

  lemma LeavingLog(log: seq<Change>, r: Registry, r': Registry, gone: seq<DeviceId>)
    requires Follow(log) == Some(SeenOf(r)) && Distinct(gone) && forall x :: x in gone ==> x in r.ports
    requires r'.ports == r.ports - Elems(gone) && r'.registered == r.registered - Elems(gone)
    ensures Follow(log + Drops(gone)) == Some(SeenOf(r'))
    ensures Joined(log + Drops(gone)) == Minus(Joined(log), Elems(gone))
  {
    FollowDrops(log, gone);
    assert SeenOf(r') == SeenOf(r) - Elems(gone);
  }

  lemma LeavingLists(w: World, r': Registry, gone: seq<DeviceId>, port: Port)
    requires Inv(w) && forall x :: x in gone ==> x in Listed(w.registry, port)
    requires r'.ports == w.registry.ports - Elems(gone)
    requires Listed(r', port) == Minus(Listed(w.registry, port), Elems(gone))
    requires forall p :: p != port ==> Listed(r', p) == Listed(w.registry, p)
    ensures ListsFollow(r', Minus(Joined(w.log), Elems(gone)))
  {
    var order, drop := Joined(w.log), Elems(gone);
    ListedAreConnected(w, port);
    forall p ensures Listed(r', p) == Minus(Minus(order, drop), Elsewhere(r'.ports, p)) {
      LeavingList(w, r', drop, p);
      if p != port {
        ListedAreConnected(w, p);
        MinusNone(Listed(w.registry, p), drop);
      }
    }
  }

  lemma LeavingList(w: World, r': Registry, drop: set<DeviceId>, p: Port)
    requires Inv(w) && r'.ports == w.registry.ports - drop
    ensures Minus(Minus(Joined(w.log), drop), Elsewhere(r'.ports, p)) == Minus(Listed(w.registry, p), drop)
  {
    var order, there := Joined(w.log), Elsewhere(w.registry.ports, p);
    MinusTwice(order, drop, Elsewhere(r'.ports, p));
    MinusTwice(order, there, drop);
    assert drop + Elsewhere(r'.ports, p) == there + drop;
  }

  lemma UnpluggedKeepsInv(w: World, port: Port)
    requires Inv(w)
    ensures Inv(Grown(w, Unplugged(w.registry, port)))
  {
    var ids := Listed(w.registry, port);
    ListedAreConnected(w, port);
    MinusAll(ids, Elems(ids));
    LeavingKeepsInv(w, Unplugged(w.registry, port).registry, ids, port);
  }

  lemma BackwardsElems(s: seq<DeviceId>)
    ensures forall x :: x in Backwards(s) <==> x in s
    ensures Distinct(s) ==> Distinct(Backwards(s))
  {
    var b := Backwards(s);
    forall x | x in s ensures x in b {
      var i :| 0 <= i < |s| && s[i] == x;
      assert b[|s| - 1 - i] == x;
    }
  }

  lemma CutKeepsInv(w: World, port: Port, from: DeviceId)
    requires Inv(w)
    ensures Inv(Grown(w, Cut(w.registry, port, from)))
  {
    var ids := Listed(w.registry, port);
    if from !in ids {
      assert w.log + [] == w.log;
    } else {
      var k := IndexOf(ids, from) + 1;
      ListedAreConnected(w, port);
      CutPieces(ids, k);
      LeavingKeepsInv(w, Cut(w.registry, port, from).registry, Backwards(ids[k..]), port);
    }
  }

  lemma CutPieces(ids: seq<DeviceId>, k: nat)
    requires Distinct(ids) && k <= |ids|
    ensures Distinct(Backwards(ids[k..])) && forall x :: x in Backwards(ids[k..]) ==> x in ids
    ensures Elems(Backwards(ids[k..])) == Elems(ids[k..])
    ensures Minus(ids, Elems(ids[k..])) == ids[..k]
  {
    BackwardsElems(ids[k..]);
    MinusTail(ids, k);
  }

  // Where the device is listed after it announced itself, seen from the order in which devices connected.
  lemma JoiningOrder(w: World, ports': map<DeviceId, DevicePort>, from: DeviceId, joined: DevicePort, p: Port)
    requires Inv(w) && ports' == w.registry.ports[from := joined]
    ensures Minus(Minus(Joined(w.log), {from}) + [from], Elsewhere(ports', p))
         == Minus(Listed(w.registry, p), {from}) + if p == joined.port then [from] else []
  {
    var order, there, there' := Joined(w.log), Elsewhere(w.registry.ports, p), Elsewhere(ports', p);
    MinusLast(Minus(order, {from}), from, there');
    MinusTwice(order, {from}, there');
    MinusTwice(order, there, {from});
    assert {from} + there' == there + {from};
    assert from in there' <==> p != joined.port;
  }

  lemma JoiningList(w: World, port: Port, from: DeviceId, digest: FirmwareDigest, p: Port)
    requires Inv(w)
    ensures Listed(Announced(w.registry, port, from, digest, None).registry, p)
         == Minus(Listed(w.registry, p), {from}) + if p == port then [from] else []
  {
    ListedAreConnected(w, p);
    if from !in Listed(w.registry, p) {
      MinusNone(Listed(w.registry, p), {from});
    }
  }

  lemma ReconnectedLog(log: seq<Change>, m: map<DeviceId, Seen>, connected: Change)
    requires Follow(log) == Some(m) && connected.Connected? && connected.id in m
    ensures Follow(log + [Disconnected(connected.id)] + [connected]) == Some(m[connected.id := Seen(connected.digest, false)])
    ensures Joined(log + [Disconnected(connected.id)] + [connected]) == Minus(Joined(log), {connected.id}) + [connected.id]
  {
    FollowLast(log, Disconnected(connected.id));
    FollowLast(log + [Disconnected(connected.id)], connected);
    assert (m - {connected.id})[connected.id := Seen(connected.digest, false)] == m[connected.id := Seen(connected.digest, false)];
  }

  // The changes of an announcement: a known device leaves first.
  lemma AnnouncedLog(w: World, from: DeviceId, connected: Change)
    requires Inv(w) && connected.Connected? && connected.id == from
    ensures var log := w.log + Gone(w.registry, from) + [connected];
            && Follow(log) == Some(SeenOf(w.registry)[from := Seen(connected.digest, false)])
            && Joined(log) == Minus(Joined(w.log), {from}) + [from]
  {
    if from in w.registry.ports {
      ReconnectedLog(w.log, SeenOf(w.registry), connected);
    } else {
      assert w.log + [] == w.log;
      FollowLast(w.log, connected);
      MinusNone(Joined(w.log), {from});
    }
  }

  lemma AnnouncedRegistry(w: World, port: Port, from: DeviceId, digest: FirmwareDigest, latest: Option<FirmwareDigest>)
    requires Inv(w)
    ensures var r' := Announced(w.registry, port, from, digest, latest).registry;
            && SeenOf(r') == SeenOf(w.registry)[from := Seen(digest, false)]
            && r'.registered <= r'.ports.Keys
            && ListsFollow(r', Minus(Joined(w.log), {from}) + [from])
  {
    var r' := Announced(w.registry, port, from, digest, latest).registry;
    forall p ensures Listed(r', p) == Minus(Minus(Joined(w.log), {from}) + [from], Elsewhere(r'.ports, p)) {
      JoiningOrder(w, r'.ports, from, DevicePort(port, digest), p);
      JoiningList(w, port, from, digest, p);
    }
  }

  lemma JoinedOrder(order: seq<DeviceId>, from: DeviceId)
    requires Distinct(order)
    ensures var order' := Minus(order, {from}) + [from];
            Distinct(order') && forall id :: id in order' <==> id in order || id == from
  {
    MinusElems(order, {from});
    AppendedElems(Minus(order, {from}), from);
  }

  lemma AnnouncedKeepsInv(w: World, port: Port, from: DeviceId, digest: FirmwareDigest, latest: Option<FirmwareDigest>)
    requires Inv(w)
    ensures Inv(Grown(w, Announced(w.registry, port, from, digest, latest)))
  {
    var connected := Connected(from, digest, latest);
    var s := Announced(w.registry, port, from, digest, latest);
    var log := w.log + Gone(w.registry, from) + [connected];
    assert w.log + s.changes == log;
    AnnouncedLog(w, from, connected);
    AnnouncedRegistry(w, port, from, digest, latest);
    JoinedOrder(Joined(w.log), from);
    assert Inv(World(s.registry, log));
  }

  lemma RegisteringKeepsInv(w: World, order: seq<DeviceId>)
    requires Inv(w) && Lists(order, Registrable(w.registry))
    ensures Inv(Grown(w, RegisteredAll(w.registry, order)))
  {
    var s := RegisteredAll(w.registry, order);
    FollowRegisters(w.log, w.registry.names, order);
    assert SeenOf(s.registry) == Marked(SeenOf(w.registry), Elems(order));
  }

  // Nobody connects, disconnects or registers.
  predicate Quiet(change: Change) {
    !change.Connected? && !change.Disconnected? && !change.Registered?
  }

  lemma QuietKeepsInv(w: World, changes: seq<Change>)
    requires Inv(w) && |changes| <= 1 && forall c :: c in changes ==> Quiet(c)
    ensures Inv(World(w.registry, w.log + changes))
  {
    if changes == [] {
      assert w.log + changes == w.log;
    } else {
      assert changes[0] in changes && w.log + changes == w.log + [changes[0]];
      FollowLast(w.log, changes[0]);
    }
  }

  lemma HandledKeepsInv(w: World, port: Port, frame: Frame, latest: Option<FirmwareDigest>)
    requires Inv(w)
    ensures Inv(Grown(w, Handled(w.registry, port, frame, latest)))
  {
    var s := Handled(w.registry, port, frame, latest);
    if frame.ReadError? || frame.MagicBytes? || frame.Reset? {
      assert s == Unplugged(w.registry, port);
      UnpluggedKeepsInv(w, port);
    } else if frame.Message? && frame.body.Some? && frame.body.value.Announce? {
      assert s == Announced(w.registry, port, frame.from, frame.body.value.digest, latest);
      AnnouncedKeepsInv(w, port, frame.from, frame.body.value.digest, latest);
    } else if frame.Message? && frame.body.Some? && frame.body.value.DisconnectDownstream? {
      assert s == Cut(w.registry, port, frame.from);
      CutKeepsInv(w, port, frame.from);
    } else {
      OthersAreQuiet(w.registry, port, frame, latest);
      QuietKeepsInv(w, s.changes);
    }
  }

  lemma OthersAreQuiet(r: Registry, port: Port, frame: Frame, latest: Option<FirmwareDigest>)
    requires frame.Unused? || (frame.Message? && (frame.body.Some? ==> !frame.body.value.Announce? && !frame.body.value.DisconnectDownstream?))
    ensures var s := Handled(r, port, frame, latest);
            s.registry == r && |s.changes| <= 1 && forall c :: c in s.changes ==> Quiet(c)
  {
  }

  // ---------------------------------------------------------------------------------------------
  // Runs

  datatype Op =
    | Handle(port: Port, frame: Frame)
    | Register(order: seq<DeviceId>)
    | AcceptName(id: DeviceId, name: Name)

  const START: World := World(Registry(map[], map[], {}, map[]), [])

  ghost predicate Admissible(r: Registry, op: Op) {
    op.Register? ==> Lists(op.order, Registrable(r))
  }

  ghost function Next(latest: Option<FirmwareDigest>, w: World, op: Op): World
    requires Admissible(w.registry, op)
  {
    match op
    case Handle(port, frame) => Grown(w, Handled(w.registry, port, frame, latest))
    case Register(order) => Grown(w, RegisteredAll(w.registry, order))
    case AcceptName(id, name) => w.(registry := w.registry.(names := w.registry.names[id := name]))
  }

  ghost predicate IsRun(latest: Option<FirmwareDigest>, ops: seq<Op>, trace: seq<World>) {
    && |trace| == |ops| + 1 && trace[0] == START
    && forall i :: 0 <= i < |ops| ==> Admissible(trace[i].registry, ops[i]) && trace[i + 1] == Next(latest, trace[i], ops[i])
  }

  lemma NextKeepsInv(latest: Option<FirmwareDigest>, w: World, op: Op)
    requires Inv(w) && Admissible(w.registry, op)
    ensures Inv(Next(latest, w, op))
  {
    match op
    case Handle(port, frame) => HandledKeepsInv(w, port, frame, latest);
    case Register(order) => RegisteringKeepsInv(w, order);
    case AcceptName(id, name) => assert SeenOf(Next(latest, w, op).registry) == SeenOf(w.registry);
  }

  lemma {:induction false} RunKeepsInv(latest: Option<FirmwareDigest>, ops: seq<Op>, trace: seq<World>, i: nat)
    requires IsRun(latest, ops, trace) && i < |trace|
    ensures Inv(trace[i])
  {
    if i == 0 {
      assert SeenOf(START.registry) == map[];
    } else {
      RunKeepsInv(latest, ops, trace, i - 1);
      assert Admissible(trace[i - 1].registry, ops[i - 1]) && trace[i] == Next(latest, trace[i - 1], ops[i - 1]);
      NextKeepsInv(latest, trace[i - 1], ops[i - 1]);
    }
  }

  /** In every run: a port lists exactly the devices mapped to it, each once and in the order in which they
      last connected; registered devices are connected; and the changes, followed from the beginning,
      always make sense and end in exactly the connected devices, their firmware and their registration. */
  lemma RegistryAgrees(latest: Option<FirmwareDigest>, ops: seq<Op>, trace: seq<World>, i: nat, port: Port)
    requires IsRun(latest, ops, trace) && i < |trace|
    ensures var (r, log) := (trace[i].registry, trace[i].log);
            && (forall id :: id in Listed(r, port) <==> id in r.ports && r.ports[id].port == port)
            && Distinct(Listed(r, port))
            && Listed(r, port) == Minus(Joined(log), Elsewhere(r.ports, port))
            && r.registered <= r.ports.Keys
            && Follow(log) == Some(SeenOf(r))
  {
    RunKeepsInv(latest, ops, trace, i);
    ListedAreConnected(trace[i], port);
  }

  // The connections (true) and disconnections (false) of one device.
  function Flips(log: seq<Change>, id: DeviceId): seq<bool> {
    if log == [] then []
    else
      var before := Flips(log[..|log| - 1], id);
      match log[|log| - 1]
      case Connected(x, _, _) => if x == id then before + [true] else before
      case Disconnected(x) => if x == id then before + [false] else before
      case _ => before
  }

  /** A log that makes sense alternates for each device, starting with a connection, and the device is
      connected exactly if it has connected once more than it has disconnected. */
  lemma {:induction false} Alternates(log: seq<Change>, id: DeviceId)
    requires Follow(log).Some?
    ensures forall i :: 0 <= i < |Flips(log, id)| ==> Flips(log, id)[i] == (i % 2 == 0)
    ensures id in Follow(log).value <==> |Flips(log, id)| % 2 == 1
  {
    if log != [] {
      Alternates(log[..|log| - 1], id);
    }
  }

  lemma {:induction false} PrefixFollows(log: seq<Change>, k: nat)
    requires Follow(log).Some? && k <= |log|
    ensures Follow(log[..k]).Some?
    decreases |log|
  {
    if k < |log| {
      PrefixFollows(log[..|log| - 1], k);
      assert log[..|log| - 1][..k] == log[..k];
    } else {
      assert log[..k] == log;
    }
  }

  // Registered at `i` and not disconnected since.
  lemma {:induction false} StaysRegistered(log: seq<Change>, id: DeviceId, i: nat, j: nat)
    requires Follow(log).Some? && i < j <= |log| && log[i].Registered? && log[i].id == id
    requires forall k :: i < k < j ==> log[k] != Disconnected(id)
    ensures var m := Follow(log[..j]); m.Some? && id in m.value && m.value[id].registered
    decreases j
  {
    PrefixFollows(log, j);
    PrefixFollows(log, j - 1);
    assert log[..j][..j - 1] == log[..j - 1] && log[..j][j - 1] == log[j - 1];
    if i < j - 1 {
      StaysRegistered(log, id, i, j - 1);
    }
  }

  /** A device registers at most once per connection: between two registrations it has disconnected. */
  lemma RegistersOncePerConnection(log: seq<Change>, id: DeviceId, i: nat, j: nat)
    requires Follow(log).Some? && i < j < |log|
    requires log[i].Registered? && log[i].id == id && log[j].Registered? && log[j].id == id
    ensures exists k :: i < k < j && log[k] == Disconnected(id)
  {
    PrefixFollows(log, j + 1);
    assert log[..j + 1][..j] == log[..j] && log[..j + 1][j] == log[j];
    if forall k :: i < k < j ==> log[k] != Disconnected(id) {
      StaysRegistered(log, id, i, j);
    }
  }

  /** Carrying out `ops` from `r` can give `r'` and emit `changes`. */
  ghost predicate IsResult(latest: Option<FirmwareDigest>, r: Registry, ops: seq<Op>, r': Registry, changes: seq<Change>)
    decreases |ops|
  {
    if ops == [] then r' == r && changes == []
    else
      exists before: World ::
        && IsResult(latest, r, ops[..|ops| - 1], before.registry, before.log)
        && Admissible(before.registry, ops[|ops| - 1])
        && Next(latest, before, ops[|ops| - 1]) == World(r', changes)
  }

  lemma OneMore(latest: Option<FirmwareDigest>, r: Registry, ops: seq<Op>, r': Registry, changes: seq<Change>, op: Op)
    requires IsResult(latest, r, ops, r', changes) && Admissible(r', op)
    ensures var w := Next(latest, World(r', changes), op); IsResult(latest, r, ops + [op], w.registry, w.log)
  {
    assert (ops + [op])[..|ops|] == ops;
    var before := World(r', changes);
    assert IsResult(latest, r, (ops + [op])[..|ops + [op]| - 1], before.registry, before.log);
  }

  // What was emitted before does not matter.
  lemma NextShifts(latest: Option<FirmwareDigest>, log: seq<Change>, w: World, op: Op)
    requires Admissible(w.registry, op)
    ensures var t := Next(latest, w, op); Next(latest, World(w.registry, log + w.log), op) == World(t.registry, log + t.log)
  {
    match op
    case Handle(port, frame) => GrownShifts(log, w, Handled(w.registry, port, frame, latest));
    case Register(order) => GrownShifts(log, w, RegisteredAll(w.registry, order));
    case AcceptName(_, _) =>
  }

  lemma GrownShifts(log: seq<Change>, w: World, s: Stepped)
    ensures Grown(World(w.registry, log + w.log), s) == World(s.registry, log + Grown(w, s).log)
  {
    assert log + w.log + s.changes == log + (w.log + s.changes);
  }

  lemma {:induction false} ResultKeepsInv(latest: Option<FirmwareDigest>, r: Registry, log: seq<Change>, ops: seq<Op>, r': Registry, changes: seq<Change>)
    requires Inv(World(r, log)) && IsResult(latest, r, ops, r', changes)
    ensures Inv(World(r', log + changes))
    decreases |ops|
  {
    if ops == [] {
      assert log + changes == log;
    } else {
      var op := ops[|ops| - 1];
      var before: World :|
        && IsResult(latest, r, ops[..|ops| - 1], before.registry, before.log)
        && Admissible(before.registry, op) && Next(latest, before, op) == World(r', changes);
      ResultKeepsInv(latest, r, log, ops[..|ops| - 1], before.registry, before.log);
      NextKeepsInv(latest, World(before.registry, log + before.log), op);
      NextShifts(latest, log, before, op);
    }
  }

  // Ports whose connection is lost.
  function Lost(ports: seq<Port>): seq<(Port, Frame)> {
    seq(|ports|, i requires 0 <= i < |ports| => (ports[i], ReadError))
  }

  function Reads(frames: seq<(Port, Frame)>): seq<Op> {
    seq(|frames|, i requires 0 <= i < |frames| => Handle(frames[i].0, frames[i].1))
  }

  // ---------------------------------------------------------------------------------------------

  // Some log leads to this registry.
  ghost predicate Sound(r: Registry) {
    exists log :: Inv(World(r, log))
  }

  ghost predicate Reached(latest: Option<FirmwareDigest>, r: Registry, ops: seq<Op>, r': Registry, changes: seq<Change>) {
    Sound(r') && IsResult(latest, r, ops, r', changes)
  }

  lemma SoundLists(r: Registry, port: Port)
    requires Sound(r)
    ensures Distinct(Listed(r, port))
    ensures forall id :: id in Listed(r, port) <==> id in r.ports && r.ports[id].port == port
  {
    var log :| Inv(World(r, log));
    ListedAreConnected(World(r, log), port);
  }

  lemma SoundNext(latest: Option<FirmwareDigest>, r: Registry, op: Op)
    requires Sound(r) && Admissible(r, op)
    ensures Sound(Next(latest, World(r, []), op).registry)
  {
    var log :| Inv(World(r, log));
    NextKeepsInv(latest, World(r, log), op);
    var w := Next(latest, World(r, log), op);
    assert Inv(World(w.registry, w.log));
  }

  predicate AllLost(frames: seq<(Port, Frame)>) {
    forall k :: 0 <= k < |frames| ==> frames[k].1 == ReadError
  }

  // Every connected device with a name is registered.
  predicate NamedAreRegistered(r: Registry) {
    forall id :: id in r.ports && id in r.names ==> id in r.registered
  }

  /** `UsbSerialManager`. */
  class UsbSerialManager {
    const latest: Option<FirmwareDigest>
    var devicePorts: map<DeviceId, DevicePort>
    var reverseDevicePorts: map<Port, seq<DeviceId>>
    var registeredDevices: set<DeviceId>
    var deviceNames: map<DeviceId, Name>

    ghost function Value(): Registry
      reads this
    {
      Registry(devicePorts, reverseDevicePorts, registeredDevices, deviceNames)
    }

    constructor (latest: Option<FirmwareDigest>)
      ensures this.latest == latest && Value() == START.registry && Sound(Value())
    {
      this.latest := latest;
      devicePorts, reverseDevicePorts, registeredDevices, deviceNames := map[], map[], {}, map[];
      new;
      assert SeenOf(Value()) == map[];
      assert Inv(World(Value(), []));
    }

    // The loop of `disconnect` over the devices of its port.
    method DropEach(ids: seq<DeviceId>, changes: seq<Change>) returns (updated: seq<Change>)
      requires Distinct(ids) && forall id :: id in ids ==> id in devicePorts
      modifies this`devicePorts, this`registeredDevices
      ensures devicePorts == old(devicePorts) - Elems(ids) && registeredDevices == old(registeredDevices) - Elems(ids)
      ensures updated == changes + Drops(ids)
    {
      updated := changes;
      for i := 0 to |ids|
        invariant devicePorts == old(devicePorts) - Elems(ids[..i]) && registeredDevices == old(registeredDevices) - Elems(ids[..i])
        invariant updated == changes + Drops(ids[..i])
      {
        assert ids[i] in ids && ids[i] !in ids[..i];
        if ids[i] in devicePorts {
          updated := updated + [Disconnected(ids[i])];
        }
        devicePorts := devicePorts - {ids[i]};
        registeredDevices := registeredDevices - {ids[i]};
        assert ids[..i + 1] == ids[..i] + [ids[i]];
        assert Drops(ids[..i + 1]) == Drops(ids[..i]) + [Disconnected(ids[i])];
        assert Elems(ids[..i + 1]) == Elems(ids[..i]) + {ids[i]};
      }
      assert ids[..|ids|] == ids;
    }

    method Disconnect(port: Port, changes: seq<Change>) returns (updated: seq<Change>)
      requires Sound(Value())
      modifies this
      ensures Value() == Unplugged(old(Value()), port).registry
      ensures updated == changes + Unplugged(old(Value()), port).changes
    {
      updated := changes;
      if port in reverseDevicePorts {
        var ids := reverseDevicePorts[port];
        ListIsConnected(Value(), port);
        reverseDevicePorts := reverseDevicePorts - {port};
        updated := DropEach(ids, changes);
      } else {
        NothingToUnplug(Value(), port);
      }
    }

    method HandleAnnounce(port: Port, from: DeviceId, digest: FirmwareDigest, changes: seq<Change>) returns (updated: seq<Change>)
      modifies this
      ensures Value() == Announced(old(Value()), port, from, digest, latest).registry
      ensures updated == changes + Announced(old(Value()), port, from, digest, latest).changes
    {
      updated := FreeOld(from, changes);
      devicePorts := devicePorts[from := DevicePort(port, digest)];
      updated := updated + [Connected(from, digest, latest)];
      ListNew(port, from);
    }

    // What becomes of the old connection of an id.
    method FreeOld(from: DeviceId, changes: seq<Change>) returns (updated: seq<Change>)
      modifies this`reverseDevicePorts, this`registeredDevices
      ensures reverseDevicePorts == Freed(old(Value()), from)
      ensures registeredDevices == if from in devicePorts then old(registeredDevices) - {from} else old(registeredDevices)
      ensures updated == changes + Gone(old(Value()), from)
    {
      updated := changes;
      if from in devicePorts {
        var oldPort := devicePorts[from].port;
        var list := if oldPort in reverseDevicePorts then reverseDevicePorts[oldPort] else [];
        var kept := Retain(list, from);
        reverseDevicePorts := reverseDevicePorts[oldPort := kept];
        registeredDevices := registeredDevices - {from};
        updated := updated + [Disconnected(from)];
      }
    }

    // `entry(port).or_default().push(from)`
    method ListNew(port: Port, from: DeviceId)
      modifies this`reverseDevicePorts
      ensures reverseDevicePorts == old(reverseDevicePorts)[port := (if port in old(reverseDevicePorts) then old(reverseDevicePorts)[port] else []) + [from]]
    {
      var ids := if port in reverseDevicePorts then reverseDevicePorts[port] else [];
      reverseDevicePorts := reverseDevicePorts[port := ids + [from]];
    }

    // `retain(|id| id != from)`
    static method Retain(list: seq<DeviceId>, from: DeviceId) returns (kept: seq<DeviceId>)
      ensures kept == Minus(list, {from})
    {
      kept := [];
      for i := 0 to |list|
        invariant kept == Minus(list[..i], {from})
      {
        assert list[..i + 1] == list[..i] + [list[i]];
        MinusLast(list[..i], list[i], {from});
        if list[i] != from {
          kept := kept + [list[i]];
        }
      }
      assert list[..|list|] == list;
    }

    // The loop that pops a port's list down to its first `keep` devices.
    method PopDownTo(port: Port, keep: nat, changes: seq<Change>) returns (updated: seq<Change>)
      requires port in reverseDevicePorts && keep <= |reverseDevicePorts[port]|
      modifies this`devicePorts, this`registeredDevices, this`reverseDevicePorts
      ensures var gone := old(reverseDevicePorts)[port][keep..];
              && reverseDevicePorts == old(reverseDevicePorts)[port := old(reverseDevicePorts)[port][..keep]]
              && devicePorts == old(devicePorts) - Elems(gone) && registeredDevices == old(registeredDevices) - Elems(gone)
              && updated == changes + Drops(Backwards(gone))
    {
      updated := changes;
      var list := reverseDevicePorts[port];
      var k := |list|;
      assert list[..k] == list;
      assert reverseDevicePorts == reverseDevicePorts[port := list[..k]];
      while k > keep
        invariant keep <= k <= |list| && reverseDevicePorts == old(reverseDevicePorts)[port := list[..k]]
        invariant devicePorts == old(devicePorts) - Elems(list[k..]) && registeredDevices == old(registeredDevices) - Elems(list[k..])
        invariant updated == changes + Drops(Backwards(list[k..]))
      {
        k := k - 1;
        var id := reverseDevicePorts[port][k];
        reverseDevicePorts := reverseDevicePorts[port := reverseDevicePorts[port][..k]];
        assert list[..k + 1][..k] == list[..k];
        assert reverseDevicePorts == old(reverseDevicePorts)[port := list[..k]];
        devicePorts := devicePorts - {id};
        registeredDevices := registeredDevices - {id};
        updated := updated + [Disconnected(id)];
        PoppedOne(list, k);
      }
    }

    method DisconnectDownstream(port: Port, from: DeviceId, changes: seq<Change>) returns (updated: seq<Change>)
      modifies this
      ensures Value() == Cut(old(Value()), port, from).registry
      ensures updated == changes + Cut(old(Value()), port, from).changes
    {
      updated := changes;
      if port in reverseDevicePorts && from in reverseDevicePorts[port] {
        updated := PopDownTo(port, IndexOf(reverseDevicePorts[port], from) + 1, changes);
      }
    }

    // The loop over all connected devices that registers those with a name.
    method RegisterDevices(changes: seq<Change>) returns (updated: seq<Change>, ghost order: seq<DeviceId>)
      modifies this
      ensures Lists(order, Registrable(old(Value())))
      ensures Value() == RegisteredAll(old(Value()), order).registry
      ensures updated == changes + RegisteredAll(old(Value()), order).changes
    {
      ghost var r := Value();
      updated, order := changes, [];
      var rest := devicePorts.Keys;
      while rest != {}
        invariant rest <= devicePorts.Keys
        invariant Distinct(order) && forall x :: x in order <==> x in Registrable(r) && x !in rest
        invariant Value() == r.(registered := r.registered + Elems(order))
        invariant updated == changes + Registers(r.names, order)
        decreases rest
      {
        var id :| id in rest;
        rest := rest - {id};
        if id !in registeredDevices && id in deviceNames {
          registeredDevices := registeredDevices + {id};
          updated := updated + [Registered(id, deviceNames[id])];
          AppendedElems(order, id);
          assert Elems(order + [id]) == Elems(order) + {id};
          assert Registers(r.names, order + [id]) == Registers(r.names, order) + [Registered(id, deviceNames[id])];
          order := order + [id];
        }
      }
    }

    method AcceptDeviceName(id: DeviceId, name: Name)
      modifies this
      ensures Value() == old(Value()).(names := old(deviceNames)[id := name])
    {
      deviceNames := deviceNames[id := name];
    }

    // What a ready port has read.
    method HandleFrame(port: Port, frame: Frame, changes: seq<Change>) returns (updated: seq<Change>)
      requires Sound(Value())
      modifies this
      ensures Value() == Handled(old(Value()), port, frame, latest).registry
      ensures updated == changes + Handled(old(Value()), port, frame, latest).changes
    {
      updated := changes;
      match frame
      case ReadError => updated := Disconnect(port, changes);
      case MagicBytes => updated := Disconnect(port, changes);
      case Reset => updated := Disconnect(port, changes);
      case Unused =>
      case Message(from, None) =>
      case Message(from, Some(body)) =>
        match body
        case NeedName => updated := changes + [NeedsName(from)];
        case DisconnectDownstream => updated := DisconnectDownstream(port, from, changes);
        case SetName(name) =>
          if from !in deviceNames || deviceNames[from] != name {
            updated := changes + [NameChange(from, name)];
          }
        case Announce(digest) => updated := HandleAnnounce(port, from, digest, changes);
        case App(app) => updated := changes + [AppMessage(from, app)];
        case Genuine(message) => updated := changes + [GenuineMessage(from, message)];
        case Ignored =>
    }

    method HandleOne(ghost r: Registry, port: Port, frame: Frame, changes: seq<Change>, ghost ops: seq<Op>) returns (updated: seq<Change>)
      requires Reached(latest, r, ops, Value(), changes)
      modifies this
      ensures frame == ReadError && NamedAreRegistered(old(Value())) ==> NamedAreRegistered(Value())
      ensures Reached(latest, r, ops + [Handle(port, frame)], Value(), updated)
    {
      OneMoreFrame(latest, r, ops, Value(), changes, port, frame);
      updated := HandleFrame(port, frame, changes);
    }

    // The frames of several ports, one after the other.
    method HandleAll(ghost r: Registry, frames: seq<(Port, Frame)>, changes: seq<Change>, ghost ops: seq<Op>) returns (updated: seq<Change>)
      requires Reached(latest, r, ops, Value(), changes)
      modifies this
      ensures AllLost(frames) && NamedAreRegistered(old(Value())) ==> NamedAreRegistered(Value())
      ensures Reached(latest, r, ops + Reads(frames), Value(), updated)
    {
      updated := changes;
      ghost var sofar, keeps := ops, AllLost(frames) && NamedAreRegistered(Value());
      for i := 0 to |frames|
        invariant Reached(latest, r, sofar, Value(), updated)
        invariant sofar == ops + Reads(frames[..i])
        invariant keeps ==> NamedAreRegistered(Value())
      {
        updated := HandleOne(r, frames[i].0, frames[i].1, updated, sofar);
        sofar := sofar + [Handle(frames[i].0, frames[i].1)];
        assert Reads(frames[..i + 1]) == Reads(frames[..i]) + [Handle(frames[i].0, frames[i].1)];
      }
      assert frames[..|frames|] == frames;
    }

    /** `poll_ports`: ports that are gone, then one frame from each ready port, then registration, then
        ports on which sending failed. */
    method PollPorts(gone: seq<Port>, frames: seq<(Port, Frame)>, failed: seq<Port>) returns (changes: seq<Change>, ghost order: seq<DeviceId>)
      requires Sound(Value())
      modifies this
      ensures Sound(Value()) && NamedAreRegistered(Value())
      ensures IsResult(latest, old(Value()), Reads(Lost(gone)) + Reads(frames) + [Register(order)] + Reads(Lost(failed)), Value(), changes)
    {
      ghost var r := Value();
      changes := HandleAll(r, Lost(gone), [], []);
      ghost var ops := [] + Reads(Lost(gone));
      changes := HandleAll(r, frames, changes, ops);
      ghost var r', sofar := Value(), changes;
      changes, order := RegisterDevices(changes);
      OneMoreRegistration(latest, r, ops + Reads(frames), r', sofar, order);
      changes := HandleAll(r, Lost(failed), changes, ops + Reads(frames) + [Register(order)]);
      assert ops == Reads(Lost(gone));
    }

    /** `active_ports`: the ports with a registered device. */
    method ActivePorts() returns (active: set<Port>)
      requires Sound(Value())
      ensures forall port :: port in active <==> exists id :: id in registeredDevices && id in Listed(Value(), port)
    {
      active := set id | id in registeredDevices && id in devicePorts :: devicePorts[id].port;
      forall port ensures forall id :: id in Listed(Value(), port) <==> id in devicePorts && devicePorts[id].port == port {
        SoundLists(Value(), port);
      }
    }
  }

  lemma OneMoreFrame(latest: Option<FirmwareDigest>, r: Registry, ops: seq<Op>, r': Registry, changes: seq<Change>, port: Port, frame: Frame)
    requires Reached(latest, r, ops, r', changes)
    ensures var s := Handled(r', port, frame, latest);
            Reached(latest, r, ops + [Handle(port, frame)], s.registry, changes + s.changes)
  {
    SoundNext(latest, r', Handle(port, frame));
    OneMore(latest, r, ops, r', changes, Handle(port, frame));
  }

  lemma OneMoreRegistration(latest: Option<FirmwareDigest>, r: Registry, ops: seq<Op>, r': Registry, changes: seq<Change>, order: seq<DeviceId>)
    requires Reached(latest, r, ops, r', changes) && Lists(order, Registrable(r'))
    ensures var s := RegisteredAll(r', order);
            Reached(latest, r, ops + [Register(order)], s.registry, changes + s.changes)
  {
    SoundNext(latest, r', Register(order));
    OneMore(latest, r, ops, r', changes, Register(order));
  }

  lemma ListIsConnected(r: Registry, port: Port)
    requires Sound(r)
    ensures Distinct(Listed(r, port)) && forall id :: id in Listed(r, port) ==> id in r.ports
  {
    SoundLists(r, port);
  }

  lemma NothingToUnplug(r: Registry, port: Port)
    requires port !in r.reverse
    ensures Unplugged(r, port) == Stepped(r, [])
  {
    assert Elems(Listed(r, port)) == {};
    assert r.ports - {} == r.ports && r.reverse - {port} == r.reverse;
  }

  lemma PoppedOne(list: seq<DeviceId>, k: nat)
    requires k < |list|
    ensures Elems(list[k..]) == Elems(list[k + 1..]) + {list[k]}
    ensures Drops(Backwards(list[k..])) == Drops(Backwards(list[k + 1..])) + [Disconnected(list[k])]
  {
    assert list[k..] == [list[k]] + list[k + 1..];
  }
}
