/**
 What a device answers to a signing request.

 The other results about signing start from shares that were released. Here is when they are, and that a request
 which was interrupted after its record took effect can be repeated until its shares come out.
 */
module NonceAnswers {
  import opened Common
  import opened AbWrite
  import opened NonceStream
  import opened DeviceNonces
  import opened NonceSlots
  import opened NonceRuns

  // The record stores shares of this session.
  predicate StoresSession(r: Record, sid: SessionId) {
    r.signing.Some? && r.signing.value.sessionId == sid
  }

  // There are nonces for all the items, none of them used before.
  predicate HasNoncesFor(r: Record, req: Request) {
    r.index <= req.coord.index && 0 < |req.items| && req.coord.index + |req.items| <= U32_MAX
  }

  // A job from `index`, asked about `state`, would reach the last 32-bit index.
  predicate TooFar(index: nat, state: CoordState, batch: nat) {
    if index > state.index || state.remaining < batch then index + batch >= U32_MAX
    else index < state.index == U32_MAX
  }

  // Where the stream stands once the request is served.
  function IndexAfter(r: Record, req: Request): nat {
    if StoresSession(r, req.sessionId) then r.index else req.coord.index + |req.items|
  }

  /** Shares are released exactly if the slot is the stream's, stores them already or has nonces for the request, can be
      written in full, and the job for new nonces is in range. Stored shares are given again whatever the index asked
      for. The request is refused exactly if nothing is stored for it and its first nonce is used. */
  lemma ReleasedExactly(c: Crypto, cells: Cells<Record>, req: Request, lastUsed: U32, batch: nat, power: nat)
    requires Read(cells).Some? && Read(cells).value.stream == req.coord.stream
    ensures var r, out := Read(cells).value, SignResult(c, cells, req, lastUsed, batch, power);
            && (out.Released? <==>
                  && (StoresSession(r, req.sessionId) || HasNoncesFor(r, req))
                  && !Exhausted(cells) && power >= 4
                  && !TooFar(IndexAfter(r, req), req.coord, batch))
            && (out.Refused? <==> !StoresSession(r, req.sessionId) && req.coord.index < r.index)
            && (out.Refused? ==> out.error == IndexUsed(r.index, req.coord.index))
            && (out.Off? <==> (StoresSession(r, req.sessionId) || HasNoncesFor(r, req)) && !Exhausted(cells) && power < 4)
  {
  }

  /** The shares are those on flash if there are any, and otherwise item k is signed with the secret that the seed has at
      the k-th index from the one asked for. */
  lemma ReleasedShares(c: Crypto, cells: Cells<Record>, req: Request, lastUsed: U32, batch: nat, power: nat, seed: SeedMaterial)
    requires Read(cells).Some? && DescendsFrom(c, Read(cells).value, seed)
    requires SignResult(c, cells, req, lastUsed, batch, power).Released?
    ensures var r, shares := Read(cells).value, SignResult(c, cells, req, lastUsed, batch, power).shares;
            if StoresSession(r, req.sessionId) then shares == r.signing.value.shares
            else
              |shares| == |req.items|
              && forall k :: 0 <= k < |shares| ==> shares[k] == c.sign(req.items[k], SecretAt(c, r.stream, seed, req.coord.index + k))
  {
    var r := Read(cells).value;
    if !StoresSession(r, req.sessionId) {
      SharesFromSeed(c, r, seed, req.coord.index, req.items);
    }
  }

  /** The record that a served request leaves: a new signing is stored with its session, behind the last nonce it used and
      as the newest use; stored shares are left as they are. */
  lemma ServedRecord(c: Crypto, cells: Cells<Record>, req: Request, lastUsed: U32, batch: nat, power: nat)
    requires ValidCells(cells) && Read(cells).Some? && Read(cells).value.stream == req.coord.stream && power >= 2 && !Exhausted(cells)
    requires StoresSession(Read(cells).value, req.sessionId) || HasNoncesFor(Read(cells).value, req)
    ensures var r, after := Read(cells).value, Read(SignCells(c, cells, req, lastUsed, power));
            && after.Some? && after.value.stream == r.stream
            && StoresSession(after.value, req.sessionId) && after.value.index == IndexAfter(r, req)
            && (if StoresSession(r, req.sessionId) then after.value == r
                else after.value.lastUsed == lastUsed && after.value.signing.value.shares == SharesFrom(c, r, req.coord.index, req.items))
  {
    var record := RecordToWrite(c, cells, req, lastUsed).value;
    InterruptedWrite(cells, record, power);
  }

  /** On the device: a request for a stream that no slot has is refused and leaves everything as it is; otherwise only the slot
      of the stream can change, and the clock moves on exactly if shares are released. */
  lemma SigningTouchesOneSlot(c: Crypto, batch: nat, d: Device, req: Request, power: nat)
    ensures var (p, out) := DeviceStep(c, batch, d, Sign(req, power));
            && out.SignOut? && |p.flash| == |d.flash|
            && ((forall i :: 0 <= i < |d.flash| ==> Read(d.flash[i]).None? || Read(d.flash[i]).value.stream != req.coord.stream) ==>
                  p == d && out.sign == Refused(StreamNotFound))
            && (forall i, j :: 0 <= i < j < |d.flash| && p.flash[i] != d.flash[i] ==> p.flash[j] == d.flash[j])
            && (forall i :: 0 <= i < |d.flash| && p.flash[i] != d.flash[i] ==> Read(d.flash[i]).Some? && Read(d.flash[i]).value.stream == req.coord.stream)
            && (out.sign.Released? ==> p.lastUsed == WrappingInc(d.lastUsed))
            && (out.sign.Refused? ==> p == d)
  {
  }

  // ---------------------------------------------------------------------------------------------
  // Repeating a request

  // Restarts, and requests about other streams.
  predicate Elsewhere(e: Event, stream: StreamId) {
    e.Reboot? || (e.Sign? && e.req.coord.stream != stream)
  }

  // The stream's slot is `i` and holds these copies.
  ghost predicate SlotIs(d: Device, stream: StreamId, i: nat, cells: Cells<Record>) {
    i < |d.flash| && d.flash[i] == cells && Find(d.flash, stream) == Some(i)
  }

  lemma {:induction false} FoundFrom(flash: Flash, stream: StreamId, i: nat, k: nat)
    requires k <= i < |flash| && Read(flash[i]).Some? && Read(flash[i]).value.stream == stream
    requires forall j :: k <= j < i ==> Read(flash[j]).None? || Read(flash[j]).value.stream != stream
    ensures FindFrom(flash, stream, k) == Some(i)
    decreases i - k
  {
    if k < i {
      FoundFrom(flash, stream, i, k + 1);
    }
  }

  lemma {:induction false} FoundFirst(flash: Flash, stream: StreamId, k: nat)
    requires k <= |flash| && FindFrom(flash, stream, k).Some?
    ensures forall j :: k <= j < FindFrom(flash, stream, k).value ==> Read(flash[j]).None? || Read(flash[j]).value.stream != stream
    decreases |flash| - k
  {
    if k < |flash| && !(Read(flash[k]).Some? && Read(flash[k]).value.stream == stream) {
      FoundFirst(flash, stream, k + 1);
    }
  }

  // A slot keeps its stream when it signs.
  lemma SigningKeepsStream(c: Crypto, cells: Cells<Record>, req: Request, lastUsed: U32, power: nat)
    requires ValidCells(cells) && Read(cells).Some?
    ensures ValidCells(SignCells(c, cells, req, lastUsed, power))
    ensures var after := Read(SignCells(c, cells, req, lastUsed, power));
            after.Some? && after.value.stream == Read(cells).value.stream
  {
    var record := RecordToWrite(c, cells, req, lastUsed);
    if record.Some? {
      InterruptedWrite(cells, record.value, power);
    }
  }

  lemma WrittenSlotIsFound(flash: Flash, stream: StreamId, i: nat, j: nat, cells: Cells<Record>)
    requires Find(flash, stream) == Some(i) && j < |flash| && Read(flash[j]).Some?
    requires Read(cells).Some? && Read(cells).value.stream == Read(flash[j]).value.stream
    ensures i < |flash| && Find(flash[j := cells], stream) == Some(i)
  {
    FoundFirst(flash, stream, 0);
    FoundFrom(flash[j := cells], stream, i, 0);
  }

  lemma SignStepKeepsSlot(c: Crypto, batch: nat, d: Device, e: Event, stream: StreamId, i: nat, cells: Cells<Record>)
    requires SlotIs(d, stream, i, cells) && Elsewhere(e, stream) && forall j :: 0 <= j < |d.flash| ==> ValidCells(d.flash[j])
    ensures var p := DeviceStep(c, batch, d, e).0;
            SlotIs(p, stream, i, cells) && forall j :: 0 <= j < |p.flash| ==> ValidCells(p.flash[j])
  {
    if e.Sign? && Find(d.flash, e.req.coord.stream).Some? {
      var j := Find(d.flash, e.req.coord.stream).value;
      SigningKeepsStream(c, d.flash[j], e.req, WrappingInc(d.lastUsed), e.power);
      WrittenSlotIsFound(d.flash, stream, i, j, SignCells(c, d.flash[j], e.req, WrappingInc(d.lastUsed), e.power));
    }
  }

  lemma {:induction false} ElsewhereKeepsSlot(c: Crypto, batch: nat, d: Device, events: seq<Event>, stream: StreamId, i: nat, cells: Cells<Record>)
    requires SlotIs(d, stream, i, cells) && forall j :: 0 <= j < |d.flash| ==> ValidCells(d.flash[j])
    requires forall k :: 0 <= k < |events| ==> Elsewhere(events[k], stream)
    ensures SlotIs(RunDevice(c, batch, d, events), stream, i, cells)
    ensures forall j :: 0 <= j < |RunDevice(c, batch, d, events).flash| ==> ValidCells(RunDevice(c, batch, d, events).flash[j])
  {
    if events != [] {
      var n := |events| - 1;
      ElsewhereKeepsSlot(c, batch, d, events[..n], stream, i, cells);
      SignStepKeepsSlot(c, batch, RunDevice(c, batch, d, events[..n]), events[n], stream, i, cells);
    }
  }

  // The slot after the first attempt.
  ghost function Attempted(c: Crypto, batch: nat, d: Device, req: Request, power: nat): Device {
    DeviceStep(c, batch, d, Sign(req, power)).0
  }

  // The slot of the stream can serve the request, and this much of the first attempt took effect.
  ghost predicate TookEffect(d: Device, req: Request, power: nat, i: nat) {
    && Find(d.flash, req.coord.stream) == Some(i) && i < |d.flash| && !Exhausted(d.flash[i]) && power >= 2
    && var r: Record := Read(d.flash[i]).value;
       StoresSession(r, req.sessionId) || HasNoncesFor(r, req)
  }

  // The shares that belong to the request: those on flash, or those of the seed from its own first index on.
  ghost function SharesFor(c: Crypto, r: Record, req: Request, seed: SeedMaterial): seq<SignatureShare> {
    if StoresSession(r, req.sessionId) then r.signing.value.shares
    else SharesOf(c, req.coord.stream, seed, req.coord.index, req.items)
  }

  lemma AttemptStores(c: Crypto, batch: nat, d: Device, req: Request, power: nat, i: nat, seed: SeedMaterial)
    requires TookEffect(d, req, power, i) && DescendsFrom(c, Read(d.flash[i]).value, seed)
    requires forall j :: 0 <= j < |d.flash| ==> ValidCells(d.flash[j])
    ensures var r, p := Read(d.flash[i]).value, Attempted(c, batch, d, req, power);
            && |p.flash| == |d.flash| && SlotIs(p, req.coord.stream, i, p.flash[i]) && (forall j :: 0 <= j < |p.flash| ==> ValidCells(p.flash[j]))
            && Read(p.flash[i]).Some? && Read(p.flash[i]).value.stream == req.coord.stream
            && StoresSession(Read(p.flash[i]).value, req.sessionId) && Read(p.flash[i]).value.index == IndexAfter(r, req)
            && Read(p.flash[i]).value.signing.value.shares == SharesFor(c, r, req, seed)
  {
    var r: Record := Read(d.flash[i]).value;
    var lastUsed := WrappingInc(d.lastUsed);
    ServedRecord(c, d.flash[i], req, lastUsed, batch, power);
    SigningKeepsStream(c, d.flash[i], req, lastUsed, power);
    WrittenSlotIsFound(d.flash, req.coord.stream, i, i, SignCells(c, d.flash[i], req, lastUsed, power));
    if !StoresSession(r, req.sessionId) {
      SharesFromSeed(c, r, seed, req.coord.index, req.items);
    }
  }

  /** A request that could be served and reached the second flash step: whatever cut it short, and after any restarts and
      signing on other streams, the same request with power and a slot that is not worn out gets its shares. It stops
      only where the job for new nonces is out of range, which it then does every time. */
  lemma RepeatIsReleased(c: Crypto, batch: nat, d: Device, req: Request, power: nat, between: seq<Event>, again: nat, i: nat, seed: SeedMaterial)
    requires TookEffect(d, req, power, i) && DescendsFrom(c, Read(d.flash[i]).value, seed)
    requires forall j :: 0 <= j < |d.flash| ==> ValidCells(d.flash[j])
    requires forall k :: 0 <= k < |between| ==> Elsewhere(between[k], req.coord.stream)
    requires var p := RunDevice(c, batch, Attempted(c, batch, d, req, power), between);
             again >= 4 && i < |p.flash| && !Exhausted(p.flash[i])
    ensures var p := RunDevice(c, batch, Attempted(c, batch, d, req, power), between);
            var out := DeviceStep(c, batch, p, Sign(req, again)).1;
            && out.SignOut?
            && (if TooFar(IndexAfter(Read(d.flash[i]).value, req), req.coord, batch) then out.sign.Panicked?
                else out.sign.Released? && out.sign.shares == SharesFor(c, Read(d.flash[i]).value, req, seed))
  {
    AttemptStores(c, batch, d, req, power, i, seed);
    var q := Attempted(c, batch, d, req, power);
    ElsewhereKeepsSlot(c, batch, q, between, req.coord.stream, i, q.flash[i]);
    var p := RunDevice(c, batch, q, between);
    ReleasedExactly(c, p.flash[i], req, WrappingInc(p.lastUsed), batch, again);
  }

  /** In every run from blank flash: the same, with a seed that the stream was initialised with. */
  lemma RepeatIsReleasedInRuns(c: Crypto, batch: nat, start: Device, past: seq<Event>, req: Request, power: nat, between: seq<Event>, again: nat, i: nat)
    returns (gen: nat)
    requires BlankFlash(start) && TookEffect(RunDevice(c, batch, start, past), req, power, i)
    requires forall k :: 0 <= k < |between| ==> Elsewhere(between[k], req.coord.stream)
    requires var p := RunDevice(c, batch, Attempted(c, batch, RunDevice(c, batch, start, past), req, power), between);
             again >= 4 && i < |p.flash| && !Exhausted(p.flash[i])
    ensures var d, inits := RunDevice(c, batch, start, past), InitsOf(c, batch, start, past);
            var p := RunDevice(c, batch, Attempted(c, batch, d, req, power), between);
            var out := DeviceStep(c, batch, p, Sign(req, again)).1;
            && gen < |inits| && inits[gen].0 == req.coord.stream && out.SignOut?
            && (if TooFar(IndexAfter(Read(d.flash[i]).value, req), req.coord, batch) then out.sign.Panicked?
                else out.sign.Released? && out.sign.shares == SharesFor(c, Read(d.flash[i]).value, req, inits[gen].1))
  {
    var d := RunDevice(c, batch, start, past);
    RunIsValid(c, batch, start, past);
    var cells: Cells<Record> := d.flash[i];
    var j := if cells[0].Some? && cells[0].value.value == Read(cells).value then 0 else 1;
    gen := NoCopyKeepsReleasedSeed(c, batch, start, past, i, j);
    RepeatIsReleased(c, batch, d, req, power, between, again, i, InitsOf(c, batch, start, past)[gen].1);
  }

  lemma RunIsValid(c: Crypto, batch: nat, start: Device, past: seq<Event>)
    requires BlankFlash(start)
    ensures forall j :: 0 <= j < |RunDevice(c, batch, start, past).flash| ==> ValidCells(RunDevice(c, batch, start, past).flash[j])
  {
    TrackedErases(start);
    RunErases(c, batch, Tracked(start), past);
    RunKeepsInv(c, batch, Tracked(start), past);
    var v := RunWorld(c, batch, Tracked(start), past);
    forall j | 0 <= j < |v.flash| ensures ValidCells(Untag(v.flash[j])) {
      assert SlotOk(c, v, v.flash[j]);
    }
  }
}
