/** What holds over every run of the outbox. */
module OutboxTheorems {
  import opened Wrappers
  import opened OutboxStore
  import opened OutboxProtocol
  import opened ConfirmerSpec

  /** steps[i] leads from ws[i] to ws[i + 1]. */
  ghost predicate StepAt(ws: seq<World>, steps: seq<Step>, i: nat)
    requires |ws| == |steps| + 1 && i < |steps|
  {
    Enabled(ws[i], steps[i]) && ws[i + 1] == Next(ws[i], steps[i])
  }

  ghost predicate IsRun(ws: seq<World>, steps: seq<Step>)
  {
    && |ws| == |steps| + 1
    && Init(ws[0])
    && forall i :: 0 <= i < |steps| ==> StepAt(ws, steps, i)
  }

  lemma {:induction false} RunInv(ws: seq<World>, steps: seq<Step>, i: nat)
    requires IsRun(ws, steps) && i < |ws|
    ensures Inv(ws[i]) && ws[i].maxBackoff == ws[0].maxBackoff
  {
    if i == 0 {
      InitInv(ws[0]);
    } else {
      RunInv(ws, steps, i - 1);
      assert StepAt(ws, steps, i - 1);
      StepInv(ws[i - 1], steps[i - 1]);
    }
  }

  lemma {:induction false} Monotone(ws: seq<World>, steps: seq<Step>, i: nat, j: nat)
    requires IsRun(ws, steps) && i <= j < |ws|
    ensures ws[i].now <= ws[j].now
    ensures forall id :: id in ws[i].created ==> id in ws[j].created && ws[j].created[id] == ws[i].created[id]
    ensures forall id :: id in ws[i].created && id !in ws[i].docs ==> id !in ws[j].docs
    decreases j
  {
    if i < j {
      Monotone(ws, steps, i, j - 1);
      assert StepAt(ws, steps, j - 1);
    }
  }

  lemma RunDoc(ws: seq<World>, steps: seq<Step>, i: nat, id: Id)
    requires IsRun(ws, steps) && i < |ws| && id in ws[i].docs
    ensures DocOk(id, ws[i].docs[id], ws[i]) && ws[i].maxBackoff == ws[0].maxBackoff
  {
    RunInv(ws, steps, i);
  }

  // ---------- Confirmations are conserved ----------

  /** Everything the Sender of process p took is either in flight or was called back, and the callbacks'
      results, in order, are the flushed batches, then the buffer, then the channel. */
  lemma ConfirmationsConserved(ws: seq<World>, steps: seq<Step>, i: nat, p: nat)
    requires IsRun(ws, steps) && i < |ws| && p < |ws[i].procs|
    ensures var pr := ws[i].procs[p];
            && multiset(Ids(pr.taken)) == multiset(RecordIds(pr.inflight)) + multiset(ResultIds(pr.called))
            && pr.called == Flatten(pr.batches) + pr.buffer + pr.confirms
            && (forall b :: b in pr.batches ==> 0 < |b| <= 100)
            && |pr.buffer| < 100 && |pr.entities| <= 100 && |pr.confirms| <= 1000
  {
    RunInv(ws, steps, i);
  }

  /** Step c is the Create of this id, and inserts this content. */
  ghost predicate Creates(ws: seq<World>, steps: seq<Step>, c: nat, id: Id, content: Content)
    requires IsRun(ws, steps) && c < |steps|
  {
    assert StepAt(ws, steps, c);
    steps[c].Create? && steps[c].id == id && content == CreatedContent(ws[c], steps[c])
  }

  lemma {:induction false} WasCreated(ws: seq<World>, steps: seq<Step>, i: nat, id: Id) returns (c: nat)
    requires IsRun(ws, steps) && i < |ws| && id in ws[i].created
    ensures c < i && Creates(ws, steps, c, id, ws[i].created[id])
  {
    assert i > 0;
    assert StepAt(ws, steps, i - 1);
    CreatedStep(ws[i - 1], steps[i - 1]);
    if id in ws[i - 1].created {
      c := WasCreated(ws, steps, i - 1, id);
    } else {
      c := i - 1;
    }
  }

  /** Whatever is queued has the body of its Create, by either path to the channel, and what came through the
      fetcher also its headers. */
  lemma QueuedAsCreated(ws: seq<World>, steps: seq<Step>, i: nat, p: nat, m: Message) returns (c: nat)
    requires IsRun(ws, steps) && i < |ws| && p < |ws[i].procs| && m in ws[i].procs[p].entities
    ensures m.id in ws[i].created && c < i && Creates(ws, steps, c, m.id, ws[i].created[m.id])
    ensures ws[i].created[m.id].body == m.body
    ensures m.headers.Decoded? ==> Produced(ws[i].procs[p], m).content == ws[i].created[m.id]
  {
    RunInv(ws, steps, i);
    assert ProcessOk(ws[i].procs[p], ws[i].created, ws[i].acked);
    assert Known(m, ws[i].created);
    c := WasCreated(ws, steps, i, m.id);
  }

  // ---------- What is pushed is produced ----------

  /** Process p does not crash from step i up to step j. */
  predicate Survives(steps: seq<Step>, i: nat, j: nat, p: nat)
    requires i <= j <= |steps|
  {
    forall k :: i <= k < j ==> steps[k] != Crash(p)
  }

  function Takes(steps: seq<Step>, i: nat, j: nat, p: nat): nat
    requires i <= j <= |steps|
    decreases j
  {
    if i == j then 0 else Takes(steps, i, j - 1, p) + (if steps[j - 1] == Take(p) then 1 else 0)
  }

  lemma HistoryStep(w: World, s: Step, p: nat)
    requires Enabled(w, s) && p < |w.procs| && s != Crash(p)
    ensures |Next(w, s).procs| == |w.procs|
    ensures w.procs[p].pushed <= Next(w, s).procs[p].pushed
    ensures |Next(w, s).procs[p].taken| == |w.procs[p].taken| + if s == Take(p) then 1 else 0
  {
  }

  lemma {:induction false} HistoryGrows(ws: seq<World>, steps: seq<Step>, i: nat, j: nat, p: nat)
    requires IsRun(ws, steps) && i <= j < |ws| && p < |ws[i].procs| && Survives(steps, i, j, p)
    ensures p < |ws[j].procs| && ws[i].procs[p].pushed <= ws[j].procs[p].pushed
    ensures |ws[j].procs[p].taken| == |ws[i].procs[p].taken| + Takes(steps, i, j, p)
    decreases j
  {
    if i < j {
      HistoryGrows(ws, steps, i, j - 1, p);
      assert StepAt(ws, steps, j - 1);
      HistoryStep(ws[j - 1], steps[j - 1], p);
    }
  }

  lemma PushedSplit(ws: seq<World>, steps: seq<Step>, i: nat, p: nat)
    requires IsRun(ws, steps) && i < |ws| && p < |ws[i].procs|
    ensures ws[i].procs[p].pushed == ws[i].procs[p].taken + ws[i].procs[p].entities
  {
    RunInv(ws, steps, i);
    assert ProcessOk(ws[i].procs[p], ws[i].created, ws[i].acked);
  }

  /** The channel is FIFO: once a message is pushed, at most as many takes as the channel holds bring it to Kafka,
      unless the process crashes first. */
  lemma PushedIsProduced(ws: seq<World>, steps: seq<Step>, i: nat, j: nat, p: nat, k: nat)
    requires IsRun(ws, steps) && i <= j < |ws| && p < |ws[i].procs| && k < |ws[i].procs[p].entities|
    requires Survives(steps, i, j, p) && Takes(steps, i, j, p) > k
    ensures p < |ws[j].procs|
    ensures |ws[j].procs[p].taken| > |ws[i].procs[p].taken| + k
    ensures ws[j].procs[p].taken[|ws[i].procs[p].taken| + k] == ws[i].procs[p].entities[k]
  {
    PushedSplit(ws, steps, i, p);
    HistoryGrows(ws, steps, i, j, p);
    PushedSplit(ws, steps, j, p);
    var before, after := ws[i].procs[p], ws[j].procs[p];
    var n := |before.taken| + k;
    assert before.pushed[n] == before.entities[k];
    assert after.pushed[n] == after.taken[n];
  }

  // ---------- How one step changes one document ----------

  /** The step fetches, confirms or expires `id`. */
  predicate Touches(s: Step, id: Id)
  {
    || (s.Fetch? && s.id == id)
    || (s.Handle? && id in s.applied)
    || (s.Expire? && s.id == id)
  }

  /** Where each document of the next world comes from. */
  lemma DocOrigin(w: World, s: Step, o: Id)
    requires Inv(w) && Enabled(w, s)
    ensures o in w.docs && !Touches(s, o) ==> o in Next(w, s).docs && Next(w, s).docs[o] == w.docs[o]
    ensures o in Next(w, s).docs && o !in w.docs ==>
              s.Create? && s.id == o && Next(w, s).docs[o] == NewEntity(CreatedContent(w, s), w.now)
    ensures o in w.docs && s.Fetch? && s.id == o ==>
              o in Next(w, s).docs && Next(w, s).docs[o] == Locked(w.docs[o], w.now, w.maxBackoff)
    ensures o in w.docs && s.Handle? && o in s.applied ==>
              o in Next(w, s).docs && Next(w, s).docs[o] == Confirmed(w.docs[o], w.now)
    ensures s.Expire? && s.id == o ==> o !in Next(w, s).docs
  {
    if o in w.docs {
      assert DocOk(o, w.docs[o], w);
    }
  }

  lemma RunDocOrigin(ws: seq<World>, steps: seq<Step>, i: nat, o: Id)
    requires IsRun(ws, steps) && i < |steps|
    ensures var w, w', s := ws[i], ws[i + 1], steps[i];
            && (o in w.docs && !Touches(s, o) ==> o in w'.docs && w'.docs[o] == w.docs[o])
            && (o in w'.docs && o !in w.docs ==>
                  s.Create? && s.id == o && o !in w.created && w'.docs[o].createdAt == w.now
                  && w'.docs[o].attemptsToSend == 0)
            && (s.Create? && s.id == o ==> o !in w.created && o !in w.docs)
            && (s.Fetch? && s.id == o ==>
                  o in w.docs && Eligible(w.docs[o], w.now) && o in w'.docs
                  && w'.docs[o] == Locked(w.docs[o], w.now, w.maxBackoff))
            && (o in w.docs && s.Handle? && o in s.applied ==>
                  o in w'.docs && w'.docs[o] == Confirmed(w.docs[o], w.now))
            && (s.Expire? && s.id == o ==> o !in w'.docs)
            && (o in w.docs ==> o in w.created)
            && w'.created.Keys == if s.Create? then w.created.Keys + {s.id} else w.created.Keys
  {
    RunInv(ws, steps, i);
    assert StepAt(ws, steps, i);
    DocOrigin(ws[i], steps[i], o);
    if o in ws[i].docs {
      assert DocOk(o, ws[i].docs[o], ws[i]);
    }
  }

  // ---------- SENT is truthful and absorbing ----------

  /** Step j is a Kafka callback of process p reporting that this record was delivered. */
  ghost predicate Delivers(ws: seq<World>, steps: seq<Step>, j: nat, p: nat, r: Record)
    requires IsRun(ws, steps) && j < |steps|
  {
    assert StepAt(ws, steps, j);
    steps[j].Callback? && steps[j].p == p && steps[j].ok && ws[j].procs[p].inflight[steps[j].k] == r
  }

  lemma {:induction false} AckedWasDelivered(ws: seq<World>, steps: seq<Step>, i: nat, id: Id)
    returns (j: nat, p: nat, r: Record)
    requires IsRun(ws, steps) && i < |ws| && id in ws[i].acked
    ensures j < i && Delivers(ws, steps, j, p, r) && r.id == id
  {
    assert i > 0;
    assert StepAt(ws, steps, i - 1);
    if id in ws[i - 1].acked {
      j, p, r := AckedWasDelivered(ws, steps, i - 1, id);
    } else {
      j, p := i - 1, steps[i - 1].p;
      r := ws[j].procs[p].inflight[steps[j].k];
    }
  }

  /** Step t takes a message from the channel of process p and produces this record. */
  ghost predicate Produces(ws: seq<World>, steps: seq<Step>, t: nat, p: nat, r: Record)
    requires IsRun(ws, steps) && t < |steps|
  {
    assert StepAt(ws, steps, t);
    steps[t] == Take(p) && Produced(ws[t].procs[p], ws[t].procs[p].entities[0]) == r
  }

  lemma {:induction false} InflightWasProduced(ws: seq<World>, steps: seq<Step>, i: nat, p: nat, r: Record)
    returns (t: nat)
    requires IsRun(ws, steps) && i < |ws| && p < |ws[i].procs| && r in ws[i].procs[p].inflight
    ensures t < i && Produces(ws, steps, t, p, r)
  {
    assert i > 0;
    assert StepAt(ws, steps, i - 1);
    SameProcesses(ws[i - 1], steps[i - 1]);
    OneProcessStep(ws[i - 1], steps[i - 1], p);
    if r in ws[i - 1].procs[p].inflight {
      t := InflightWasProduced(ws, steps, i - 1, p, r);
    } else {
      t := i - 1;
    }
  }

  /** A SENT entity was taken from a channel and produced, with the body it was created with, and Kafka's callback
      for that record reported no error. */
  lemma SentWasDelivered(ws: seq<World>, steps: seq<Step>, i: nat, id: Id) returns (t: nat, j: nat, p: nat, r: Record)
    requires IsRun(ws, steps) && i < |ws| && id in ws[i].docs && ws[i].docs[id].status.Sent?
    ensures t < j < i && Produces(ws, steps, t, p, r) && Delivers(ws, steps, j, p, r)
    ensures r.id == id && r.content.body == ws[i].docs[id].content.body
  {
    RunDoc(ws, steps, i, id);
    j, p, r := AckedWasDelivered(ws, steps, i, id);
    assert StepAt(ws, steps, j);
    t := InflightWasProduced(ws, steps, j, p, r);
    RunInv(ws, steps, j);
    assert ProcessOk(ws[j].procs[p], ws[j].created, ws[j].acked);
    assert KnownRecord(r, ws[j].created);
    Monotone(ws, steps, j, i);
  }

  lemma {:induction false} SentStaysSent(ws: seq<World>, steps: seq<Step>, i: nat, j: nat, id: Id)
    requires IsRun(ws, steps) && i <= j < |ws| && id in ws[i].docs && ws[i].docs[id].status.Sent?
    ensures id in ws[j].docs ==> ws[j].docs[id].status.Sent? && ws[j].docs[id].content == ws[i].docs[id].content
    ensures j < |steps| ==> !(steps[j].Fetch? && steps[j].id == id)
    decreases j
  {
    if i < j {
      SentStaysSent(ws, steps, i, j - 1, id);
      RunDocOrigin(ws, steps, j - 1, id);
      Monotone(ws, steps, i, j - 1);
      if i < |steps| {
        RunDocOrigin(ws, steps, i, id);
      }
    }
    if j < |steps| {
      RunDocOrigin(ws, steps, j, id);
    }
  }

  // ---------- No starvation ----------

  /** The other PROCESSING entities that the fetch order puts at or before `id`. */
  function Ahead(docs: Docs, id: Id): set<Id>
    requires id in docs
  {
    set o | o in docs && o != id && docs[o].status.Processing? && SortsBefore(docs[o], docs[id])
  }

  predicate Untouched(steps: seq<Step>, i: nat, j: nat, id: Id)
    requires i <= j <= |steps|
  {
    forall k :: i <= k < j ==> !Touches(steps[k], id)
  }

  function Fetches(steps: seq<Step>, i: nat, j: nat): nat
    requires i <= j <= |steps|
    decreases j
  {
    if i == j then 0 else Fetches(steps, i, j - 1) + (if steps[j - 1].Fetch? then 1 else 0)
  }

  lemma AheadMember(w: World, s: Step, id: Id, o: Id)
    requires Inv(w) && Enabled(w, s) && id in w.docs && Eligible(w.docs[id], w.now) && !Touches(s, id)
    requires id in Next(w, s).docs && o in Ahead(Next(w, s).docs, id)
    ensures o in Ahead(w.docs, id) && !(s.Fetch? && o == s.id)
  {
    DocOrigin(w, s, id);
    DocOrigin(w, s, o);
    var e := Next(w, s).docs[o];
    assert SortsBefore(e, w.docs[id]);
  }

  lemma FetchedWasAhead(w: World, s: Step, id: Id)
    requires Inv(w) && Enabled(w, s) && id in w.docs && Eligible(w.docs[id], w.now) && s.Fetch? && s.id != id
    ensures s.id in Ahead(w.docs, id)
  {
  }

  /** A step that leaves `id` alone keeps its place or moves it forward; a fetch moves it by exactly one. */
  lemma AheadStep(w: World, s: Step, id: Id)
    requires Inv(w) && Enabled(w, s) && id in w.docs && Eligible(w.docs[id], w.now) && !Touches(s, id)
    ensures id in Next(w, s).docs && Next(w, s).docs[id] == w.docs[id]
    ensures Eligible(Next(w, s).docs[id], Next(w, s).now)
    ensures Ahead(Next(w, s).docs, id) <= Ahead(w.docs, id)
    ensures s.Fetch? ==> s.id in Ahead(w.docs, id) && Ahead(Next(w, s).docs, id) == Ahead(w.docs, id) - {s.id}
  {
    DocOrigin(w, s, id);
    var before, after := Ahead(w.docs, id), Ahead(Next(w, s).docs, id);
    forall o | o in after ensures o in before && !(s.Fetch? && o == s.id) {
      AheadMember(w, s, id, o);
    }
    if s.Fetch? {
      FetchedWasAhead(w, s, id);
      forall o | o in before && o != s.id ensures o in after {
        DocOrigin(w, s, o);
      }
    }
  }

  lemma RunAheadStep(ws: seq<World>, steps: seq<Step>, i: nat, id: Id)
    requires IsRun(ws, steps) && i < |steps|
    requires id in ws[i].docs && Eligible(ws[i].docs[id], ws[i].now) && !Touches(steps[i], id)
    ensures id in ws[i + 1].docs && Eligible(ws[i + 1].docs[id], ws[i + 1].now)
    ensures Fetches(steps, i, i + 1) + |Ahead(ws[i + 1].docs, id)| <= |Ahead(ws[i].docs, id)|
  {
    RunInv(ws, steps, i);
    assert StepAt(ws, steps, i);
    AheadStep(ws[i], steps[i], id);
    assert Fetches(steps, i, i + 1) == if steps[i].Fetch? then 1 else 0;
    SubsetSize(Ahead(ws[i + 1].docs, id), Ahead(ws[i].docs, id));
  }

  lemma FetchesSnoc(steps: seq<Step>, i: nat, j: nat)
    requires i < j <= |steps|
    ensures Fetches(steps, i, j) == Fetches(steps, i, j - 1) + Fetches(steps, j - 1, j)
  {
  }

  /** Every successful fetch that passes over `id` uses up one of the entities ahead of it. */
  lemma {:induction false} NoStarvation(ws: seq<World>, steps: seq<Step>, i: nat, j: nat, id: Id)
    requires IsRun(ws, steps) && i <= j < |ws|
    requires id in ws[i].docs && Eligible(ws[i].docs[id], ws[i].now)
    requires Untouched(steps, i, j, id)
    ensures id in ws[j].docs && Eligible(ws[j].docs[id], ws[j].now)
    ensures Fetches(steps, i, j) + |Ahead(ws[j].docs, id)| <= |Ahead(ws[i].docs, id)|
    decreases j
  {
    if i < j {
      NoStarvation(ws, steps, i, j - 1, id);
      assert !Touches(steps[j - 1], id);
      RunAheadStep(ws, steps, j - 1, id);
      FetchesSnoc(steps, i, j);
    }
  }

  lemma {:induction false} SubsetSize<T>(a: set<T>, b: set<T>)
    requires a <= b
    ensures |a| <= |b|
  {
    if a != {} {
      var x :| x in a;
      SubsetSize(a - {x}, b - {x});
    }
  }

  // ---------- No stranded message ----------

  /** The longest that either deadline lies ahead: a fetch lease, the creation delay, or the capped backoff. */
  function Bound(cap: nat): int { Max(LEASE_MILLIS, Max(CREATE_DELAY_MILLIS, cap)) }

  lemma {:induction false} UntouchedUnchanged(ws: seq<World>, steps: seq<Step>, i: nat, j: nat, id: Id)
    requires IsRun(ws, steps) && i <= j < |ws| && id in ws[i].docs && Untouched(steps, i, j, id)
    ensures id in ws[j].docs && ws[j].docs[id] == ws[i].docs[id]
    decreases j
  {
    if i < j {
      UntouchedUnchanged(ws, steps, i, j - 1, id);
      RunDocOrigin(ws, steps, j - 1, id);
    }
  }

  lemma DeadlinesBounded(w: World, id: Id)
    requires Inv(w) && id in w.docs && w.docs[id].status.Processing?
    ensures w.docs[id].lockExpiresAt.Some? && w.docs[id].lockExpiresAt.value <= w.now + Bound(w.maxBackoff)
    ensures w.docs[id].nextAttemptAfter.Some? && w.docs[id].nextAttemptAfter.value <= w.now + Bound(w.maxBackoff)
  {
    assert DocOk(id, w.docs[id], w);
  }

  /** Whatever else is dropped, fails or crashes, an unconfirmed entity is fetchable again after the bound. */
  lemma NoStranded(ws: seq<World>, steps: seq<Step>, i: nat, j: nat, id: Id)
    requires IsRun(ws, steps) && i <= j < |ws|
    requires id in ws[i].docs && ws[i].docs[id].status.Processing?
    requires Untouched(steps, i, j, id)
    requires ws[j].now > ws[i].now + 30000 && ws[j].now > ws[i].now + ws[0].maxBackoff
    ensures id in ws[j].docs && Eligible(ws[j].docs[id], ws[j].now)
  {
    RunInv(ws, steps, i);
    DeadlinesBounded(ws[i], id);
    UntouchedUnchanged(ws, steps, i, j, id);
  }

  /** At-least-once delivery: after the bound, as many successful fetches as there are other documents, plus
      one, cannot all pass over an unconfirmed entity: it is fetched, confirmed or expired on the way. */
  lemma EventuallyTouched(ws: seq<World>, steps: seq<Step>, i: nat, j: nat, k: nat, id: Id)
    requires IsRun(ws, steps) && i <= j <= k < |ws|
    requires id in ws[i].docs && ws[i].docs[id].status.Processing?
    requires ws[j].now > ws[i].now + 30000 && ws[j].now > ws[i].now + ws[0].maxBackoff
    requires Fetches(steps, j, k) >= |ws[j].docs|
    ensures exists t :: i <= t < k && Touches(steps[t], id)
  {
    if Untouched(steps, i, k, id) {
      NoStranded(ws, steps, i, j, id);
      NoStarvation(ws, steps, j, k, id);
      assert Ahead(ws[j].docs, id) <= ws[j].docs.Keys - {id};
      SubsetSize(Ahead(ws[j].docs, id), ws[j].docs.Keys - {id});
      assert false;
    }
  }

  // ---------- Fetch spacing ----------

  function FetchesOf(steps: seq<Step>, i: nat, id: Id): nat
    requires i <= |steps|
  {
    if i == 0 then 0 else FetchesOf(steps, i - 1, id) + (if steps[i - 1].Fetch? && steps[i - 1].id == id then 1 else 0)
  }

  /** attemptsToSend counts the fetches so far, and createdAt is the time of the Create step. */
  lemma {:induction false} AttemptsCountFetches(ws: seq<World>, steps: seq<Step>, i: nat, id: Id)
    requires IsRun(ws, steps) && i < |ws|
    ensures id !in ws[i].created ==> FetchesOf(steps, i, id) == 0
    ensures id in ws[i].docs ==> ws[i].docs[id].attemptsToSend == FetchesOf(steps, i, id)
    ensures forall c :: 0 <= c < i && steps[c].Create? && steps[c].id == id && id in ws[i].docs ==>
              ws[i].docs[id].createdAt == ws[c].now
  {
    if i > 0 {
      AttemptsCountFetches(ws, steps, i - 1, id);
      RunDocOrigin(ws, steps, i - 1, id);
      if steps[i - 1].Create? && steps[i - 1].id == id {
        forall c | 0 <= c < i - 1 ensures !(steps[c].Create? && steps[c].id == id) {
          RunDocOrigin(ws, steps, c, id);
          Monotone(ws, steps, c + 1, i - 1);
        }
      }
    }
  }

  /** The n-th fetch of an entity comes strictly later than Spacing(n - 1) after its creation. */
  lemma FetchSpacing(ws: seq<World>, steps: seq<Step>, c: nat, j: nat, id: Id)
    requires IsRun(ws, steps) && c < j < |steps|
    requires steps[c].Create? && steps[c].id == id && steps[j].Fetch? && steps[j].id == id
    ensures var n := FetchesOf(steps, j, id) + 1;
            ws[j].now > ws[c].now + Spacing(n - 1, ws[0].maxBackoff)
  {
    AttemptsCountFetches(ws, steps, j, id);
    RunDocOrigin(ws, steps, j, id);
    RunDoc(ws, steps, j, id);
  }

  /** Two fetches of one entity are further apart than the lease and than the backoff of the first. */
  lemma LeaseIsExclusive(ws: seq<World>, steps: seq<Step>, i: nat, j: nat, id: Id)
    requires IsRun(ws, steps) && i < j < |steps|
    requires steps[i].Fetch? && steps[i].id == id && steps[j].Fetch? && steps[j].id == id
    ensures ws[j].now > ws[i].now + 30000
    ensures ws[j].now > ws[i].now + Backoff(FetchesOf(steps, i, id), ws[0].maxBackoff)
    decreases j - i
  {
    AttemptsCountFetches(ws, steps, i, id);
    RunDocOrigin(ws, steps, i, id);
    RunDocOrigin(ws, steps, j, id);
    RunDoc(ws, steps, i, id);
    if k :| i < k < j && Touches(steps[k], id) {
      if steps[k].Fetch? {
        LeaseIsExclusive(ws, steps, i, k, id);
        Monotone(ws, steps, k, j);
      } else {
        Monotone(ws, steps, i, k);
        GoneOrSent(ws, steps, k, j, id);
      }
    } else {
      UntouchedUnchanged(ws, steps, i + 1, j, id);
    }
  }

  lemma GoneOrSent(ws: seq<World>, steps: seq<Step>, k: nat, j: nat, id: Id)
    requires IsRun(ws, steps) && k < j < |steps| && Touches(steps[k], id) && !steps[k].Fetch?
    requires id in ws[k].created
    ensures !(steps[j].Fetch? && steps[j].id == id)
  {
    RunDocOrigin(ws, steps, k, id);
    RunDocOrigin(ws, steps, j, id);
    Monotone(ws, steps, k, j);
    Monotone(ws, steps, k + 1, j);
    if id in ws[k + 1].docs {
      SentStaysSent(ws, steps, k + 1, j, id);
    }
  }

  /** Below the cap the accumulated delay is a geometric sum. */
  lemma {:induction false} SpacingClosedForm(n: nat, cap: nat)
    requires n > 0 ==> BASE_DELAY_MILLIS * Pow2(n - 1) <= cap
    ensures Spacing(n, cap) == 10000 + 30000 * (Pow2(n) - 1)
  {
    if n > 1 {
      assert Pow2(n - 1) == 2 * Pow2(n - 2);
      SpacingClosedForm(n - 1, cap);
    }
  }

  lemma {:induction false} SpacingAtLeastLinear(n: nat, cap: nat)
    ensures Spacing(n, cap) >= CREATE_DELAY_MILLIS + LEASE_MILLIS * n
  {
    if n > 0 {
      SpacingAtLeastLinear(n - 1, cap);
    }
  }

  /** Once the doubled delay has passed the cap, every further fetch costs the larger of cap and lease. */
  lemma {:induction false} SpacingPastCap(m: nat, n: nat, cap: nat)
    requires m <= n && BASE_DELAY_MILLIS * Pow2(m) >= cap
    ensures Spacing(n, cap) == Spacing(m, cap) + (n - m) * Max(LEASE_MILLIS, cap)
    decreases n
  {
    if m < n {
      SpacingPastCap(m, n - 1, cap);
      Pow2Monotone(m, n - 1);
      var delay := Max(LEASE_MILLIS, cap);
      assert Backoff(n - 1, cap) == cap;
      assert (n - m) * delay == (n - 1 - m) * delay + delay;
    }
  }

  lemma {:induction false} Pow2Monotone(m: nat, n: nat)
    requires m <= n
    ensures Pow2(m) <= Pow2(n)
    decreases n
  {
    if m < n {
      Pow2Monotone(m, n - 1);
    }
  }

  lemma {:induction false} SpacingMonotone(m: nat, n: nat, cap: nat)
    requires m <= n
    ensures Spacing(m, cap) <= Spacing(n, cap)
    decreases n
  {
    if m < n {
      SpacingMonotone(m, n - 1, cap);
    }
  }

  /** The counter is bounded by the age of the document, so it never outgrows its 32 bits. */
  lemma AttemptsBoundedByAge(ws: seq<World>, steps: seq<Step>, i: nat, id: Id)
    requires IsRun(ws, steps) && i < |ws| && id in ws[i].docs && ws[i].docs[id].attemptsToSend > 0
    ensures var e := ws[i].docs[id];
            LEASE_MILLIS * (e.attemptsToSend - 1) < ws[i].now - e.createdAt - CREATE_DELAY_MILLIS
  {
    RunDoc(ws, steps, i, id);
    SpacingAtLeastLinear(ws[i].docs[id].attemptsToSend - 1, ws[i].maxBackoff);
  }

  // config.go: ten hours unless configured.
  const DEFAULT_MAX_BACKOFF_MILLIS: nat := 10 * 60 * 60 * 1000

  lemma DefaultSpacing()
    ensures Spacing(22, DEFAULT_MAX_BACKOFF_MILLIS) > TTL_MILLIS
  {
    assert Pow2(5) == 32;
    assert Pow2(10) == 1024 && Pow2(11) == 2048;
    SpacingClosedForm(11, DEFAULT_MAX_BACKOFF_MILLIS);
    SpacingPastCap(11, 22, DEFAULT_MAX_BACKOFF_MILLIS);
  }

  /** A document is there for at least five days. */
  lemma {:induction false} LivesFiveDays(ws: seq<World>, steps: seq<Step>, i: nat, j: nat, id: Id)
    requires IsRun(ws, steps) && i <= j < |ws| && id in ws[i].docs
    ensures id in ws[j].docs ==> ws[j].docs[id].createdAt == ws[i].docs[id].createdAt
    ensures id !in ws[j].docs ==> ws[j].now >= ws[i].docs[id].createdAt + 432000000
    decreases j
  {
    if i < j {
      LivesFiveDays(ws, steps, i, j - 1, id);
      RunDocOrigin(ws, steps, i, id);
      RunDocOrigin(ws, steps, j - 1, id);
      Monotone(ws, steps, i, j - 1);
      Monotone(ws, steps, j - 1, j);
      if id in ws[j - 1].docs && id !in ws[j].docs {
        ExpiresLate(ws, steps, j - 1, id);
      }
    }
  }

  lemma ExpiresLate(ws: seq<World>, steps: seq<Step>, i: nat, id: Id)
    requires IsRun(ws, steps) && i < |steps| && id in ws[i].docs && id !in ws[i + 1].docs
    ensures ws[i].now >= ws[i].docs[id].createdAt + 432000000
  {
    assert StepAt(ws, steps, i);
  }

  /** With the default backoff a message is fetched at most 22 times before its 5 days are over. */
  lemma DefaultAttemptsWithinTtl(ws: seq<World>, steps: seq<Step>, i: nat, id: Id)
    requires IsRun(ws, steps) && i < |ws| && id in ws[i].docs
    requires ws[0].maxBackoff == 36000000
    requires ws[i].now <= ws[i].docs[id].createdAt + 432000000
    ensures ws[i].docs[id].attemptsToSend <= 22
  {
    RunDoc(ws, steps, i, id);
    if ws[i].docs[id].attemptsToSend > 22 {
      DefaultSpacing();
      SpacingMonotone(22, ws[i].docs[id].attemptsToSend - 1, DEFAULT_MAX_BACKOFF_MILLIS);
    }
  }
}
