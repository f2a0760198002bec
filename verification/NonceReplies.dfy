/**
 What a device does with a request to open nonce streams: which streams it serves and in which order, and the jobs it
 comes back with.
 */
module NonceReplies {
  import opened Common
  import opened AbWrite
  import opened NonceStream
  import opened DeviceNonces
  import opened NonceSlots
  import opened NonceRuns
  import opened NonceSlotOrder
  import opened NonceMessages

  // ---------------------------------------------------------------------------------------------
  // Which streams

  predicate IsKnown(flash: Flash, a: Ask) {
    Find(flash, a.opening.stream).Some?
  }

  // Known streams go before new ones, and otherwise they keep the order of the message.
  predicate GoesFirst(flash: Flash, asks: seq<Ask>, i: nat, j: nat)
    requires i < |asks| && j < |asks|
  {
    if IsKnown(flash, asks[i]) == IsKnown(flash, asks[j]) then i < j else IsKnown(flash, asks[i])
  }

  // `at` are the places in `asks`, in order, that `part` was taken from: all those that are known, or all others.
  ghost predicate IsPart(flash: Flash, asks: seq<Ask>, known: bool, part: seq<Ask>, at: seq<nat>) {
    && |at| == |part|
    && (forall k :: 0 <= k < |at| ==> at[k] < |asks| && asks[at[k]] == part[k] && IsKnown(flash, part[k]) == known)
    && (forall k, l :: 0 <= k < l < |at| ==> at[k] < at[l])
    && (forall i :: 0 <= i < |asks| && IsKnown(flash, asks[i]) == known ==> i in at)
  }

  // One more ask, of the kind or not.
  lemma PartGrows(flash: Flash, init: seq<Ask>, a: Ask, known: bool, part: seq<Ask>, at: seq<nat>)
    requires IsPart(flash, init, known, part, at)
    ensures IsKnown(flash, a) == known ==> IsPart(flash, init + [a], known, part + [a], at + [|init|])
    ensures IsKnown(flash, a) != known ==> IsPart(flash, init + [a], known, part, at)
  {
    var asks := init + [a];
    if IsKnown(flash, a) == known {
      forall i | 0 <= i < |asks| && IsKnown(flash, asks[i]) == known ensures i in at + [|init|] {
        if i < |init| {
          assert asks[i] == init[i] && i in at;
        } else {
          assert (at + [|init|])[|at|] == i;
        }
      }
    }
  }

  lemma {:induction false} PartAt(flash: Flash, asks: seq<Ask>, known: bool) returns (at: seq<nat>)
    ensures IsPart(flash, asks, known, Part(flash, asks, known), at)
  {
    if asks == [] {
      at := [];
    } else {
      var n := |asks| - 1;
      at := PartAt(flash, asks[..n], known);
      PartGrows(flash, asks[..n], asks[n], known, Part(flash, asks[..n], known), at);
      assert asks == asks[..n] + [asks[n]];
      if IsKnown(flash, asks[n]) == known {
        at := at + [n];
      }
    }
  }

  // `served` comes from the places `at`: as many as there are slots, and no place that was left out goes before one of them.
  ghost predicate IsServed(flash: Flash, asks: seq<Ask>, served: seq<Ask>, at: seq<nat>) {
    && |at| == |served| == Min(|asks|, |flash|)
    && (forall k :: 0 <= k < |at| ==> at[k] < |asks| && asks[at[k]] == served[k])
    && (forall k, l :: 0 <= k < l < |at| ==> GoesFirst(flash, asks, at[k], at[l]))
    && (forall i, k :: 0 <= i < |asks| && i !in at && 0 <= k < |at| ==> GoesFirst(flash, asks, at[k], i))
  }

  lemma {:induction false} PartsCount(flash: Flash, asks: seq<Ask>)
    ensures |Part(flash, asks, true)| + |Part(flash, asks, false)| == |asks|
  {
    if asks != [] {
      PartsCount(flash, asks[..|asks| - 1]);
    }
  }

  // Both parts, one after the other.
  lemma BothParts(flash: Flash, asks: seq<Ask>, a: seq<nat>, b: seq<nat>)
    requires IsPart(flash, asks, true, Part(flash, asks, true), a) && IsPart(flash, asks, false, Part(flash, asks, false), b)
    ensures var all, at := Part(flash, asks, true) + Part(flash, asks, false), a + b;
            && |at| == |all|
            && (forall k :: 0 <= k < |at| ==> at[k] < |asks| && asks[at[k]] == all[k])
            && (forall k, l :: 0 <= k < l < |at| ==> GoesFirst(flash, asks, at[k], at[l]))
            && (forall i :: 0 <= i < |asks| ==> i in at)
  {
    forall i | 0 <= i < |asks| ensures i in a + b {
      assert i in a || i in b;
    }
  }

  lemma InPrefix(s: seq<nat>, n: nat, m: nat)
    requires m < |s| && n <= |s|
    ensures m < n ==> s[m] in s[..n]
  {
    if m < n {
      assert s[..n][m] == s[m];
    }
  }

  lemma InAppended(s: seq<nat>, n: nat)
    ensures forall k :: k in s + [n] <==> k in s || k == n
  {
  }

  /** Of the streams asked for as many are served as there are slots: those that a slot already holds first, then the new ones,
      each in the order of the message. */
  lemma ServedInOrder(flash: Flash, asks: seq<Ask>) returns (at: seq<nat>)
    ensures IsServed(flash, asks, Served(flash, asks), at)
  {
    var a := PartAt(flash, asks, true);
    var b := PartAt(flash, asks, false);
    BothParts(flash, asks, a, b);
    PartsCount(flash, asks);
    var n := Min(|asks|, |flash|);
    at := (a + b)[..n];
    forall i, k | 0 <= i < |asks| && i !in at && 0 <= k < |at| ensures GoesFirst(flash, asks, at[k], i) {
      assert i in a + b;
      var m: nat :| m < |a + b| && (a + b)[m] == i;
      InPrefix(a + b, n, m);
    }
  }

  // ---------------------------------------------------------------------------------------------
  // Which jobs

  // What the record that its stream has by then calls for, after the k-th opening.
  ghost predicate CallsFor(c: Crypto, batch: nat, d: Device, asks: seq<Ask>, k: nat, task: JobResult)
    requires k < |asks|
  {
    var flash := RunDevice(c, batch, d, Opens(OpeningsOf(asks[..k + 1]))).flash;
    exists i :: 0 <= i < |flash| && Holds(flash, i, asks[k].opening.stream) && Reconcile(Read(flash[i]).value, StateOf(asks[k]), batch) == task
  }

  // The jobs are those that the asks call for, in their order; the others call for none.
  ghost predicate AreJobs(c: Crypto, batch: nat, d: Device, asks: seq<Ask>, jobs: seq<JobState>, at: seq<nat>) {
    && |at| == |jobs| && (forall m, l :: 0 <= m < l < |at| ==> at[m] < at[l])
    && (forall m :: 0 <= m < |at| ==> at[m] < |asks| && CallsFor(c, batch, d, asks, at[m], Job(jobs[m])))
    && (forall k :: 0 <= k < |asks| && k !in at ==> CallsFor(c, batch, d, asks, k, NoJob))
  }

  // The slot that an opening ends at holds the stream.
  lemma OpenedHolds(c: Crypto, batch: nat, p: Device, a: Ask)
    requires Orderly(p.flash) && ServeAsk(c, batch, p, a).Answered?
    ensures Orderly(ServeAsk(c, batch, p, a).device.flash)
    ensures var (q, out) := DeviceStep(c, batch, p, Open(a.opening.stream, a.opening.seed, a.power));
            out.OpenOut? && out.open.Opened? && q == ServeAsk(c, batch, p, a).device && Holds(q.flash, out.open.slot, a.opening.stream)
  {
    var ch := ChoiceFor(p.flash, a.opening.stream);
    var record := InitialRecord(a.opening.stream, WrappingInc(p.lastUsed), a.opening.seed);
    if FreshRecordAt(ch) {
      InterruptedWrite(p.flash[ch.slot], record, a.power);
    }
    OpenKeepsOrder(p.flash, a.opening.stream, record, a.power);
  }

  lemma EarlierCalls(c: Crypto, batch: nat, d: Device, asks: seq<Ask>, n: nat, k: nat, task: JobResult)
    requires k < n <= |asks|
    ensures CallsFor(c, batch, d, asks, k, task) <==> CallsFor(c, batch, d, asks[..n], k, task)
  {
    assert asks[..n][..k + 1] == asks[..k + 1];
  }

  lemma LastCalls(c: Crypto, batch: nat, d: Device, asks: seq<Ask>, task: JobResult)
    requires Orderly(d.flash) && asks != [] && Serve(c, batch, d, asks).Answered?
    requires var n := |asks| - 1;
             && Serve(c, batch, d, asks[..n]).Answered? && Orderly(Serve(c, batch, d, asks[..n]).device.flash)
             && ServeAsk(c, batch, Serve(c, batch, d, asks[..n]).device, asks[n]).jobs == (if task.Job? then [task.state] else []) && !task.JobPanics?
    ensures CallsFor(c, batch, d, asks, |asks| - 1, task)
    ensures Orderly(Serve(c, batch, d, asks).device.flash)
  {
    var n := |asks| - 1;
    var p := Serve(c, batch, d, asks[..n]).device;
    OpenedHolds(c, batch, p, asks[n]);
    AnsweredIsRun(c, batch, d, asks);
    assert asks[..n + 1] == asks;
  }

  // What earlier asks call for.
  ghost predicate EarlierJobs(c: Crypto, batch: nat, d: Device, asks: seq<Ask>, n: nat, jobs: seq<JobState>, at: seq<nat>)
    requires n <= |asks|
  {
    && |at| == |jobs| && (forall m, l :: 0 <= m < l < |at| ==> at[m] < at[l])
    && (forall m :: 0 <= m < |at| ==> at[m] < n && CallsFor(c, batch, d, asks, at[m], Job(jobs[m])))
    && (forall k :: 0 <= k < n && k !in at ==> CallsFor(c, batch, d, asks, k, NoJob))
  }

  lemma JobsOfPrefix(c: Crypto, batch: nat, d: Device, asks: seq<Ask>, n: nat, jobs: seq<JobState>, at: seq<nat>)
    requires n <= |asks| && AreJobs(c, batch, d, asks[..n], jobs, at)
    ensures EarlierJobs(c, batch, d, asks, n, jobs, at)
  {
    forall m | 0 <= m < |at| ensures CallsFor(c, batch, d, asks, at[m], Job(jobs[m])) {
      EarlierCalls(c, batch, d, asks, n, at[m], Job(jobs[m]));
    }
    forall k | 0 <= k < n && k !in at ensures CallsFor(c, batch, d, asks, k, NoJob) {
      EarlierCalls(c, batch, d, asks, n, k, NoJob);
    }
  }

  // One more ask, which calls for a job or for none.
  lemma JobsGrow(c: Crypto, batch: nat, d: Device, asks: seq<Ask>, n: nat, jobs: seq<JobState>, at: seq<nat>, task: JobResult)
    requires n + 1 == |asks| && EarlierJobs(c, batch, d, asks, n, jobs, at)
    requires CallsFor(c, batch, d, asks, n, task) && !task.JobPanics?
    ensures task.NoJob? ==> AreJobs(c, batch, d, asks, jobs, at)
    ensures task.Job? ==> AreJobs(c, batch, d, asks, jobs + [task.state], at + [n])
  {
    InAppended(at, n);
  }

  /** A message that is answered: the device comes back with the job that each stream calls for, in order, and with no other. */
  lemma {:induction false} JobsAreCalledFor(c: Crypto, batch: nat, d: Device, asks: seq<Ask>) returns (at: seq<nat>)
    requires Orderly(d.flash) && Serve(c, batch, d, asks).Answered?
    ensures AreJobs(c, batch, d, asks, Serve(c, batch, d, asks).jobs, at) && Orderly(Serve(c, batch, d, asks).device.flash)
  {
    if asks == [] {
      at := [];
    } else {
      var n := |asks| - 1;
      var init := Serve(c, batch, d, asks[..n]);
      at := JobsAreCalledFor(c, batch, d, asks[..n]);
      var more := ServeAsk(c, batch, init.device, asks[n]).jobs;
      var task := if more == [] then NoJob else Job(more[0]);
      LastCalls(c, batch, d, asks, task);
      JobsOfPrefix(c, batch, d, asks, n, init.jobs, at);
      JobsGrow(c, batch, d, asks, n, init.jobs, at, task);
      if more == [] {
        assert Serve(c, batch, d, asks).jobs == init.jobs;
      } else {
        at := at + [n];
      }
    }
  }
}
