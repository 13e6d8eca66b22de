/** How a queued message gets to be SENT: through the channel, Kafka, the callback, the Confirmer's buffer and a batch,
    in as many steps as stand before it, unless one of the named failures happens. */
module OutboxProgress {
  import opened Wrappers
  import opened ConfirmerSpec
  import opened OutboxStore
  import opened OutboxProtocol
  import opened OutboxTheorems

  function Proc(w: World, p: nat): Process { if p < |w.procs| then w.procs[p] else FRESH }

  function Receives(steps: seq<Step>, i: nat, j: nat, p: nat): nat
    requires i <= j <= |steps|
    decreases j
  {
    if i == j then 0 else Receives(steps, i, j - 1, p) + (if steps[j - 1] == Receive(p) then 1 else 0)
  }

  predicate InFlight(pr: Process, id: Id) { id in RecordIds(pr.inflight) }

  /** Step j is a callback of process p for this entity. */
  predicate CallsBack(w: World, s: Step, p: nat, id: Id)
  {
    s.Callback? && s.p == p && s.k < |Proc(w, p).inflight| && Proc(w, p).inflight[s.k].id == id
  }

  /** How many results the Confirmer has received. */
  function ReadCount(pr: Process): int { |pr.called| - |pr.confirms| }

  // ---------- One step ----------

  lemma TakeStep(pr: Process, pr': Process)
    requires pr.entities != [] && pr'.inflight == pr.inflight + [Produced(pr, pr.entities[0])]
    ensures InFlight(pr', pr.entities[0].id)
    ensures forall id :: InFlight(pr, id) ==> InFlight(pr', id)
  {
    assert RecordIds(pr'.inflight) == RecordIds(pr.inflight) + [pr.entities[0].id];
  }

  lemma OwnInFlight(w: World, s: Step, id: Id)
    requires Enabled(w, s) && !s.Tick? && !s.Expire? && !s.Crash? && InFlight(w.procs[s.p], id)
    ensures InFlight(NextProcess(w, s, w.procs[s.p]), id) || CallsBack(w, s, s.p, id)
  {
    var pr := w.procs[s.p];
    match s
    case Take(_) => TakeStep(pr, NextProcess(w, s, pr));
    case Callback(_, k, _) =>
      var x :| 0 <= x < |pr.inflight| && RecordIds(pr.inflight)[x] == id;
      if x != k {
        assert RecordIds(Remove(pr.inflight, k))[if x < k then x else x - 1] == id;
      }
    case _ =>
  }

  /** What was called back and what was flushed is never forgotten, and only receives take from the channel. */
  lemma OwnHistory(w: World, s: Step)
    requires Enabled(w, s) && !s.Tick? && !s.Expire? && !s.Crash?
    ensures var pr, pr' := w.procs[s.p], NextProcess(w, s, w.procs[s.p]);
            && pr.called <= pr'.called && pr.batches <= pr'.batches
            && ReadCount(pr') == ReadCount(pr) + if s.Receive? then 1 else 0
  {
  }

  lemma {:induction false} HistoryKept(ws: seq<World>, steps: seq<Step>, i: nat, j: nat, p: nat)
    requires IsRun(ws, steps) && i <= j < |ws| && p < |ws[i].procs| && Survives(steps, i, j, p)
    ensures p < |ws[j].procs|
    ensures ws[i].procs[p].called <= ws[j].procs[p].called && ws[i].procs[p].batches <= ws[j].procs[p].batches
    ensures ReadCount(ws[j].procs[p]) == ReadCount(ws[i].procs[p]) + Receives(steps, i, j, p)
    decreases j
  {
    if i < j {
      HistoryKept(ws, steps, i, j - 1, p);
      assert StepAt(ws, steps, j - 1);
      OneProcessStep(ws[j - 1], steps[j - 1], p);
      if Acts(steps[j - 1], p) {
        OwnHistory(ws[j - 1], steps[j - 1]);
      }
    }
  }

  // ---------- From the channel to the callback ----------

  lemma OwnTaken(w: World, s: Step)
    requires Enabled(w, s) && !s.Tick? && !s.Expire? && !s.Crash?
    ensures var pr, pr' := w.procs[s.p], NextProcess(w, s, w.procs[s.p]);
            pr'.taken == if s.Take? then pr.taken + [pr.entities[0]] else pr.taken
  {
  }

  /** The step that took a message. */
  lemma {:induction false} TakenAt(ws: seq<World>, steps: seq<Step>, i: nat, t: nat, p: nat, n: nat) returns (u: nat)
    requires IsRun(ws, steps) && i <= t < |ws| && p < |ws[i].procs| && p < |ws[t].procs| && Survives(steps, i, t, p)
    requires |ws[i].procs[p].taken| <= n < |ws[t].procs[p].taken|
    ensures i <= u < t && p < |ws[u + 1].procs| && InFlight(ws[u + 1].procs[p], ws[t].procs[p].taken[n].id)
    decreases t
  {
    assert i < t;
    assert StepAt(ws, steps, t - 1);
    var w, s := ws[t - 1], steps[t - 1];
    SameProcesses(w, s);
    OneProcessStep(w, s, p);
    if Acts(s, p) {
      OwnTaken(w, s);
    }
    if n < |w.procs[p].taken| {
      u := TakenAt(ws, steps, i, t - 1, p, n);
    } else {
      u := t - 1;
      TakeStep(w.procs[p], ws[t].procs[p]);
    }
  }

  /** A record that is no longer in flight was called back. */
  lemma {:induction false} CalledBack(ws: seq<World>, steps: seq<Step>, u: nat, n: nat, p: nat, id: Id) returns (j: nat)
    requires IsRun(ws, steps) && u <= n < |ws| && p < |ws[u].procs| && Survives(steps, u, n, p)
    requires InFlight(ws[u].procs[p], id) && !InFlight(Proc(ws[n], p), id)
    ensures u <= j < n && CallsBack(ws[j], steps[j], p, id)
    decreases n
  {
    assert u < n;
    HistoryKept(ws, steps, u, n - 1, p);
    assert StepAt(ws, steps, n - 1);
    OneProcessStep(ws[n - 1], steps[n - 1], p);
    if InFlight(ws[n - 1].procs[p], id) {
      assert Acts(steps[n - 1], p);
      OwnInFlight(ws[n - 1], steps[n - 1], id);
      j := n - 1;
    } else {
      j := CalledBack(ws, steps, u, n - 1, p, id);
    }
  }

  // ---------- From the callback to a batch ----------

  lemma {:induction false} FlattenIndex<T>(ss: seq<seq<T>>, n: nat) returns (b: nat)
    requires n < |Flatten(ss)|
    ensures b < |ss| && Flatten(ss)[n] in ss[b]
  {
    if n < |ss[0]| {
      b := 0;
    } else {
      b := FlattenIndex(ss[1..], n - |ss[0]|);
      b := b + 1;
    }
  }

  /** A result that is in the flushed batches now, and was not when there were fewer of them, is in one of the new. */
  lemma InNewBatch<T>(old': seq<seq<T>>, ss: seq<seq<T>>, n: nat) returns (b: nat)
    requires old' <= ss && |Flatten(old')| <= n < |Flatten(ss)|
    ensures |old'| <= b < |ss| && Flatten(ss)[n] in ss[b]
  {
    assert ss == old' + ss[|old'|..];
    FlattenAppend(old', ss[|old'|..]);
    b := FlattenIndex(ss[|old'|..], n - |Flatten(old')|);
    b := b + |old'|;
  }

  lemma ConservedNow(ws: seq<World>, steps: seq<Step>, i: nat, p: nat)
    requires IsRun(ws, steps) && i < |ws| && p < |ws[i].procs|
    ensures var pr := ws[i].procs[p]; pr.called == Flatten(pr.batches) + pr.buffer + pr.confirms
  {
    ConfirmationsConserved(ws, steps, i, p);
  }

  lemma FlushEmpties(ws: seq<World>, steps: seq<Step>, f: nat, p: nat)
    requires IsRun(ws, steps) && f < |steps| && steps[f] == Flush(p)
    ensures p < |ws[f].procs| && p < |ws[f + 1].procs|
    ensures ws[f + 1].procs[p].buffer == [] && ws[f + 1].procs[p].confirms == ws[f].procs[p].confirms
  {
    assert StepAt(ws, steps, f);
    OneProcessStep(ws[f], steps[f], p);
  }

  /** The result of a callback at j is in a batch flushed since, once the channel of some time n after it has been
      received and a flush followed. */
  lemma CalledIsBatched(ws: seq<World>, steps: seq<Step>, j: nat, n: nat, f: nat, p: nat, result: ConfirmResult)
    returns (b: nat)
    requires IsRun(ws, steps) && j < n <= f < |steps| && p < |ws[j].procs| && Survives(steps, j, f + 1, p)
    requires steps[f] == Flush(p) && Receives(steps, n, f, p) >= |Proc(ws[n], p).confirms|
    requires p < |ws[j + 1].procs| && ws[j + 1].procs[p].called == ws[j].procs[p].called + [result]
    ensures p < |ws[f + 1].procs| && |ws[j].procs[p].batches| <= b < |ws[f + 1].procs[p].batches|
    ensures result in ws[f + 1].procs[p].batches[b]
  {
    var q := |ws[j].procs[p].called|;
    HistoryKept(ws, steps, j + 1, n, p);
    HistoryKept(ws, steps, n, f + 1, p);
    HistoryKept(ws, steps, j, f + 1, p);
    ConservedNow(ws, steps, j, p);
    ConservedNow(ws, steps, f + 1, p);
    FlushEmpties(ws, steps, f, p);
    assert Receives(steps, n, f + 1, p) == Receives(steps, n, f, p);
    var after := ws[f + 1].procs[p];
    assert after.called[q] == result && q < |Flatten(after.batches)|;
    assert after.called == Flatten(after.batches) + after.confirms;
    b := InNewBatch(ws[j].procs[p].batches, after.batches, q);
  }

  // ---------- From the batch to the collection ----------

  lemma OwnRunning(w: World, s: Step, b: nat)
    requires Enabled(w, s) && !s.Tick? && !s.Expire? && !s.Crash?
    requires var pr' := NextProcess(w, s, w.procs[s.p]); b < |pr'.batches| && b !in pr'.running
    ensures b < |w.procs[s.p].batches| && (b in w.procs[s.p].running ==> s.Handle? && s.k == b)
  {
  }

  /** A batch that is not being handled any more has been handled, by the process that flushed it. */
  lemma {:induction false} HandledAt(ws: seq<World>, steps: seq<Step>, i: nat, p: nat, b: nat) returns (x: nat)
    requires IsRun(ws, steps) && i < |ws| && p < |ws[i].procs|
    requires b < |ws[i].procs[p].batches| && b !in ws[i].procs[p].running
    ensures x < i && steps[x].Handle? && steps[x].p == p && steps[x].k == b && Survives(steps, x, i, p)
    ensures p < |ws[x].procs| && b < |ws[x].procs[p].batches|
  {
    assert i > 0;
    assert StepAt(ws, steps, i - 1);
    var w, s := ws[i - 1], steps[i - 1];
    SameProcesses(w, s);
    OneProcessStep(w, s, p);
    assert s != Crash(p);
    if Acts(s, p) {
      OwnRunning(w, s, b);
    }
    if b in w.procs[p].running {
      x := i - 1;
    } else {
      x := HandledAt(ws, steps, i - 1, p, b);
    }
  }

  /** No update of process p between i and h fails, not even in part. */
  ghost predicate UpdatesSucceed(ws: seq<World>, steps: seq<Step>, i: nat, h: nat, p: nat)
    requires IsRun(ws, steps) && i <= h < |ws|
  {
    forall x | i <= x < h && steps[x].Handle? && steps[x].p == p ::
      && steps[x].k < |Proc(ws[x], p).batches|
      && steps[x].applied == AsSet(DeliveredIds(Proc(ws[x], p).batches[steps[x].k]))
  }

  lemma HandledIsSent(ws: seq<World>, steps: seq<Step>, x: nat, h: nat, id: Id)
    requires IsRun(ws, steps) && x < h < |ws| && steps[x].Handle? && id in steps[x].applied
    ensures id in ws[h].docs ==> ws[h].docs[id].status.Sent?
  {
    RunDocOrigin(ws, steps, x, id);
    DeliveredWasCreated(ws, steps, x, id);
    Monotone(ws, steps, x, x + 1);
    if id in ws[x + 1].docs {
      SentStaysSent(ws, steps, x + 1, h, id);
    } else {
      Monotone(ws, steps, x + 1, h);
    }
  }

  lemma DeliveredWasCreated(ws: seq<World>, steps: seq<Step>, x: nat, id: Id)
    requires IsRun(ws, steps) && x < |steps| && steps[x].Handle? && id in steps[x].applied
    ensures id in ws[x].created
    ensures id !in ws[x].docs ==> id !in ws[x + 1].docs
  {
    RunInv(ws, steps, x);
    assert StepAt(ws, steps, x);
    var pr := ws[x].procs[steps[x].p];
    assert ProcessOk(pr, ws[x].created, ws[x].acked);
    BatchTruthful(pr, steps[x].k, id);
    assert Truthful(ConfirmResult(id, true), ws[x].acked);
  }

  // ---------- All the way ----------

  lemma CallbackRecorded(ws: seq<World>, steps: seq<Step>, j: nat, p: nat, id: Id)
    requires IsRun(ws, steps) && j < |steps| && p < |ws[j].procs| && CallsBack(ws[j], steps[j], p, id)
    ensures p < |ws[j + 1].procs|
    ensures ws[j + 1].procs[p].called == ws[j].procs[p].called + [ConfirmResult(id, steps[j].ok)]
  {
    assert StepAt(ws, steps, j);
    OneProcessStep(ws[j], steps[j], p);
  }

  /** From a successful callback on: received, flushed, handled, and SENT unless it has expired. */
  lemma CalledIsSent(ws: seq<World>, steps: seq<Step>, j: nat, n: nat, f: nat, h: nat, p: nat, id: Id)
    requires IsRun(ws, steps) && j < n <= f < h < |ws| && p < |ws[j].procs| && Survives(steps, j, h, p)
    requires CallsBack(ws[j], steps[j], p, id) && steps[j].ok
    requires Receives(steps, n, f, p) >= |Proc(ws[n], p).confirms| && steps[f] == Flush(p)
    requires Proc(ws[h], p).running == {} && UpdatesSucceed(ws, steps, j, h, p)
    ensures id in ws[h].docs ==> ws[h].docs[id].status.Sent?
  {
    var result := ConfirmResult(id, true);
    CallbackRecorded(ws, steps, j, p, id);
    var b := CalledIsBatched(ws, steps, j, n, f, p, result);
    HistoryKept(ws, steps, f + 1, h, p);
    var x := HandledAt(ws, steps, h, p, b);
    if x < j {
      HistoryKept(ws, steps, x, j, p);
      assert false;
    }
    HistoryKept(ws, steps, x, h, p);
    assert ws[x].procs[p].batches[b] == ws[h].procs[p].batches[b] == ws[f + 1].procs[p].batches[b];
    DeliveredIdsMeaning(ws[x].procs[p].batches[b], id);
    HandledIsSent(ws, steps, x, h, id);
  }

  /** A message that stands at place k of the channel is SENT after more than k takes, when its promises have fired
      without an error, the results queued by then have been received and flushed, and the flushed batches have been
      handled; unless the process crashes, an update fails, or the document expires. */
  lemma PushedIsSent(ws: seq<World>, steps: seq<Step>, i: nat, t: nat, n: nat, f: nat, h: nat, p: nat, k: nat)
    requires IsRun(ws, steps) && i <= t <= n <= f < h < |ws| && Survives(steps, i, h, p)
    requires p < |ws[i].procs| && k < |ws[i].procs[p].entities|
    requires Takes(steps, i, t, p) > k
    requires !InFlight(Proc(ws[n], p), ws[i].procs[p].entities[k].id)
    requires forall j :: i <= j < n && CallsBack(ws[j], steps[j], p, ws[i].procs[p].entities[k].id) ==> steps[j].ok
    requires Receives(steps, n, f, p) >= |Proc(ws[n], p).confirms| && steps[f] == Flush(p)
    requires Proc(ws[h], p).running == {} && UpdatesSucceed(ws, steps, i, h, p)
    ensures var id := ws[i].procs[p].entities[k].id; id in ws[h].docs ==> ws[h].docs[id].status.Sent?
  {
    var id := ws[i].procs[p].entities[k].id;
    PushedIsProduced(ws, steps, i, t, p, k);
    var u := TakenAt(ws, steps, i, t, p, |ws[i].procs[p].taken| + k);
    var j := CalledBack(ws, steps, u + 1, n, p, id);
    HistoryKept(ws, steps, i, j, p);
    CalledIsSent(ws, steps, j, n, f, h, p, id);
  }
}
