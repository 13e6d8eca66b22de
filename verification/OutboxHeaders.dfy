/** Which headers a produced record carries. An entity that came through the fetcher has a map of its own; one that its
    SendFunc pushed still shares the caller's map, which is read only when the record is produced. */
module OutboxHeaders {
  import opened Wrappers
  import opened ConfirmerSpec
  import opened OutboxStore
  import opened HeaderPropagation
  import opened OutboxProtocol
  import opened OutboxTheorems

  /** A Create was given this map, whether or not its insert succeeded. */
  predicate Writes(s: Step, p: nat, ref: Ref)
  {
    (s.Create? || s.FailCreate?) && s.p == p && s.ref == ref
  }

  /** After step c and before step t the map was given to another Create. */
  predicate Rewritten(steps: seq<Step>, c: nat, t: nat, p: nat, ref: Ref)
    requires c < t <= |steps|
  {
    exists k :: c < k < t && Writes(steps[k], p, ref)
  }

  predicate Edited(steps: seq<Step>, c: nat, t: nat, p: nat, ref: Ref)
    requires c < t <= |steps|
  {
    exists k :: c < k < t && steps[k].SetHeaders? && steps[k].p == p && steps[k].ref == ref
  }

  predicate HasSlug(stamp: Stamp) { stamp.slug.Some? && stamp.slug.value != "" }

  /** The tenant of the last such Create that ran for one. */
  function LatestSlug(steps: seq<Step>, c: nat, t: nat, p: nat, ref: Ref): Option<string>
    requires c < t <= |steps|
    decreases t
  {
    if t == c + 1 then None
    else if Writes(steps[t - 1], p, ref) && HasSlug(steps[t - 1].stamp) then steps[t - 1].stamp.slug
    else LatestSlug(steps, c, t - 1, p, ref)
  }

  // ---------- The map between a Create and the Take ----------

  lemma StampedLookups(headers: HeaderMap, id: Id, stamp: Stamp)
    requires StampOk(stamp)
    ensures Lookup(Stamped(headers, id, stamp), EVENT_ID_KEY) == Some(id)
    ensures Lookup(Stamped(headers, id, stamp), HEADER_KEY)
         == if HasSlug(stamp) then stamp.slug else Lookup(headers, HEADER_KEY)
  {
  }

  lemma OwnMaps(w: World, s: Step)
    requires Enabled(w, s) && !s.Tick? && !s.Expire? && !s.Crash?
    ensures var pr, pr' := w.procs[s.p], NextProcess(w, s, w.procs[s.p]);
            pr'.maps == if s.SetHeaders? then pr.maps[s.ref := s.headers]
                        else if s.Create? || s.FailCreate? then pr.maps[s.ref := Stamped(pr.maps[s.ref], s.id, s.stamp)]
                        else pr.maps
  {
  }

  lemma SetIsOwnOnly(w: World, s: Step)
    requires Enabled(w, s) && s.SetHeaders? && s.ref in w.procs[s.p].maps
    ensures OwnOnly(w.procs[s.p].maps[s.ref], s.headers)
  {
  }

  lemma MapStep(w: World, s: Step, p: nat, ref: Ref)
    requires Enabled(w, s) && p < |w.procs| && ref in w.procs[p].maps && s != Crash(p)
    ensures p < |Next(w, s).procs| && ref in Next(w, s).procs[p].maps
    ensures var before, after := w.procs[p].maps[ref], Next(w, s).procs[p].maps[ref];
            if Writes(s, p, ref) then after == Stamped(before, s.id, s.stamp)
            else if s.SetHeaders? && s.p == p && s.ref == ref then OwnOnly(before, after)
            else after == before
  {
    OneProcessStep(w, s, p);
    if Acts(s, p) {
      OwnMaps(w, s);
      if s.SetHeaders? && s.ref == ref {
        SetIsOwnOnly(w, s);
      }
    }
  }

  /** What the map holds now, given what Create c, of entity `id`, left in it. */
  predicate MapOk(now: HeaderMap, own: HeaderMap, id: Id, steps: seq<Step>, c: nat, t: nat, p: nat, ref: Ref)
    requires c < t <= |steps|
  {
    && (Lookup(now, EVENT_ID_KEY) == Some(id) <==> !Rewritten(steps, c, t, p, ref))
    && Lookup(now, HEADER_KEY) == (if LatestSlug(steps, c, t, p, ref).Some? then LatestSlug(steps, c, t, p, ref)
                                   else Lookup(own, HEADER_KEY))
    && (!Rewritten(steps, c, t, p, ref) && !Edited(steps, c, t, p, ref) ==> now == own)
  }

  lemma MapOkStep(before: HeaderMap, now: HeaderMap, own: HeaderMap, id: Id,
                  steps: seq<Step>, c: nat, t: nat, p: nat, ref: Ref)
    requires c < t - 1 < |steps| && MapOk(before, own, id, steps, c, t - 1, p, ref)
    requires var s := steps[t - 1];
             if Writes(s, p, ref) then StampOk(s.stamp) && s.id != id && now == Stamped(before, s.id, s.stamp)
             else if s.SetHeaders? && s.p == p && s.ref == ref then OwnOnly(before, now)
             else now == before
    ensures MapOk(now, own, id, steps, c, t, p, ref)
  {
    RewrittenSnoc(steps, c, t, p, ref);
    if Writes(steps[t - 1], p, ref) {
      StampedLookups(before, steps[t - 1].id, steps[t - 1].stamp);
    }
  }

  lemma FreshId(w: World, s: Step)
    requires Enabled(w, s) && (s.Create? || s.FailCreate?)
    ensures s.id !in w.created
  {
  }

  lemma CreatedNow(ws: seq<World>, steps: seq<Step>, c: nat)
    requires IsRun(ws, steps) && c < |steps| && steps[c].Create?
    ensures steps[c].id in ws[c + 1].created
  {
    assert StepAt(ws, steps, c);
    CreatedStep(ws[c], steps[c]);
  }

  lemma OtherId(ws: seq<World>, steps: seq<Step>, c: nat, k: nat)
    requires IsRun(ws, steps) && c < k < |steps| && steps[c].Create? && (steps[k].Create? || steps[k].FailCreate?)
    ensures steps[k].id != steps[c].id
  {
    CreatedNow(ws, steps, c);
    Monotone(ws, steps, c + 1, k);
    assert StepAt(ws, steps, k);
    FreshId(ws[k], steps[k]);
  }

  lemma RewrittenSnoc(steps: seq<Step>, c: nat, t: nat, p: nat, ref: Ref)
    requires c < t - 1 < |steps|
    ensures Rewritten(steps, c, t, p, ref) <==> Rewritten(steps, c, t - 1, p, ref) || Writes(steps[t - 1], p, ref)
    ensures Edited(steps, c, t, p, ref) <==>
              Edited(steps, c, t - 1, p, ref)
              || (steps[t - 1].SetHeaders? && steps[t - 1].p == p && steps[t - 1].ref == ref)
  {
  }

  predicate HasMap(w: World, p: nat, ref: Ref) { p < |w.procs| && ref in w.procs[p].maps }

  lemma RunMapStep(ws: seq<World>, steps: seq<Step>, k: nat, p: nat, ref: Ref)
    requires IsRun(ws, steps) && k < |steps| && HasMap(ws[k], p, ref) && steps[k] != Crash(p)
    ensures HasMap(ws[k + 1], p, ref)
    ensures var before, after, s := ws[k].procs[p].maps[ref], ws[k + 1].procs[p].maps[ref], steps[k];
            if Writes(s, p, ref) then StampOk(s.stamp) && after == Stamped(before, s.id, s.stamp)
            else if s.SetHeaders? && s.p == p && s.ref == ref then OwnOnly(before, after)
            else after == before
  {
    assert StepAt(ws, steps, k);
    MapStep(ws[k], steps[k], p, ref);
    if Writes(steps[k], p, ref) {
      StampIsOk(ws[k], steps[k]);
    }
  }

  lemma StampIsOk(w: World, s: Step)
    requires Enabled(w, s) && (s.Create? || s.FailCreate?)
    ensures StampOk(s.stamp)
  {
  }

  lemma MapFirst(ws: seq<World>, steps: seq<Step>, c: nat, p: nat, ref: Ref) returns (content: Content)
    requires IsRun(ws, steps) && c < |steps| && steps[c].Create? && Writes(steps[c], p, ref)
    ensures Creates(ws, steps, c, steps[c].id, content) && HasMap(ws[c + 1], p, ref)
    ensures MapOk(ws[c + 1].procs[p].maps[ref], content.headers, steps[c].id, steps, c, c + 1, p, ref)
  {
    assert StepAt(ws, steps, c);
    content := CreatedContent(ws[c], steps[c]);
    RunMapStep(ws, steps, c, p, ref);
    StampedLookups(ws[c].procs[p].maps[ref], steps[c].id, steps[c].stamp);
  }

  lemma {:induction false} MapSince(ws: seq<World>, steps: seq<Step>, c: nat, t: nat, p: nat, ref: Ref, own: HeaderMap)
    requires IsRun(ws, steps) && c < t < |ws| && steps[c].Create? && Survives(steps, c, t, p)
    requires HasMap(ws[c + 1], p, ref)
    requires MapOk(ws[c + 1].procs[p].maps[ref], own, steps[c].id, steps, c, c + 1, p, ref)
    ensures HasMap(ws[t], p, ref) && MapOk(ws[t].procs[p].maps[ref], own, steps[c].id, steps, c, t, p, ref)
    decreases t
  {
    if t > c + 1 {
      MapSince(ws, steps, c, t - 1, p, ref, own);
      RunMapStep(ws, steps, t - 1, p, ref);
      if Writes(steps[t - 1], p, ref) {
        OtherId(ws, steps, c, t - 1);
      }
      MapOkStep(ws[t - 1].procs[p].maps[ref], ws[t].procs[p].maps[ref], own, steps[c].id, steps, c, t, p, ref);
    }
  }

  // ---------- Where a queued message comes from ----------

  lemma OwnFetched(w: World, s: Step)
    requires Enabled(w, s) && !s.Tick? && !s.Expire?
    ensures var f, f' := w.procs[s.p].fetched, NextProcess(w, s, w.procs[s.p]).fetched;
            f' == f || f' == None || (f'.Some? && f'.value.headers.Decoded?)
  {
  }

  lemma {:induction false} FetchedIsDecoded(ws: seq<World>, steps: seq<Step>, i: nat, p: nat)
    requires IsRun(ws, steps) && i < |ws| && p < |ws[i].procs|
    ensures ws[i].procs[p].fetched.Some? ==> ws[i].procs[p].fetched.value.headers.Decoded?
  {
    if i > 0 {
      assert StepAt(ws, steps, i - 1);
      SameProcesses(ws[i - 1], steps[i - 1]);
      FetchedIsDecoded(ws, steps, i - 1, p);
      OneProcessStep(ws[i - 1], steps[i - 1], p);
      if Acts(steps[i - 1], p) {
        OwnFetched(ws[i - 1], steps[i - 1]);
      }
    }
  }

  predicate Holds(pr: Process, m: Message) { m in pr.handles || m in pr.entities }

  lemma NewlyHeld(w: World, s: Step, m: Message)
    requires Enabled(w, s) && !s.Tick? && !s.Expire?
    requires Holds(NextProcess(w, s, w.procs[s.p]), m) && !Holds(w.procs[s.p], m)
    ensures || (s.Create? && m == Message(s.id, s.body, Shared(s.ref)))
            || (s.PushFetched? && w.procs[s.p].fetched == Some(m))
  {
  }

  /** A message that shares a map was made by a Create of the same process, given that map. */
  lemma {:induction false} SharedBy(ws: seq<World>, steps: seq<Step>, i: nat, p: nat, m: Message) returns (c: nat)
    requires IsRun(ws, steps) && i < |ws| && p < |ws[i].procs| && m.headers.Shared?
    requires Holds(ws[i].procs[p], m)
    ensures c < i && steps[c].Create? && Writes(steps[c], p, m.headers.ref)
    ensures steps[c].id == m.id && steps[c].body == m.body && Survives(steps, c, i, p)
  {
    assert i > 0;
    assert StepAt(ws, steps, i - 1);
    var w, step := ws[i - 1], steps[i - 1];
    SameProcesses(w, step);
    OneProcessStep(w, step, p);
    if Holds(w.procs[p], m) {
      c := SharedBy(ws, steps, i - 1, p, m);
      assert step != Crash(p);
    } else {
      NewlyHeld(w, step, m);
      FetchedIsDecoded(ws, steps, i - 1, p);
      c := i - 1;
    }
  }

  // ---------- What the record carries ----------

  /** Step t is a Take of process p, and m is the message it takes. */
  ghost predicate TakesMessage(ws: seq<World>, steps: seq<Step>, t: nat, p: nat, m: Message)
    requires IsRun(ws, steps) && t < |steps| && p < |ws[t].procs|
  {
    assert StepAt(ws, steps, t);
    steps[t] == Take(p) && ws[t].procs[p].entities[0] == m
  }

  /** By way of the fetcher a record always carries what its Create inserted. */
  lemma FetchedIsFaithful(ws: seq<World>, steps: seq<Step>, t: nat, p: nat, m: Message) returns (c: nat)
    requires IsRun(ws, steps) && t < |steps| && p < |ws[t].procs|
    requires TakesMessage(ws, steps, t, p, m) && m.headers.Decoded?
    ensures c < t && Creates(ws, steps, c, m.id, Produced(ws[t].procs[p], m).content)
  {
    assert StepAt(ws, steps, t);
    c := QueuedAsCreated(ws, steps, t, p, m);
  }

  /** By the fast path a record carries its own event id if and only if no other Create was given its map between its
      Create and its Take, and the tenant it was created with if and only if no later one of them wrote another; with
      a map that nobody touched it carries exactly what was inserted. */
  lemma FastPathExact(ws: seq<World>, steps: seq<Step>, t: nat, p: nat, m: Message) returns (c: nat, content: Content)
    requires IsRun(ws, steps) && t < |steps| && p < |ws[t].procs|
    requires TakesMessage(ws, steps, t, p, m) && m.headers.Shared?
    ensures c < t && Creates(ws, steps, c, m.id, content) && Writes(steps[c], p, m.headers.ref)
    ensures var sent, ref := Produced(ws[t].procs[p], m).content, m.headers.ref;
            && sent.body == content.body
            && (Lookup(sent.headers, EVENT_ID_KEY) == Some(m.id) <==> !Rewritten(steps, c, t, p, ref))
            && (Lookup(sent.headers, HEADER_KEY) == Lookup(content.headers, HEADER_KEY) <==>
                  LatestSlug(steps, c, t, p, ref).None?
                  || LatestSlug(steps, c, t, p, ref) == Lookup(content.headers, HEADER_KEY))
            && (!Rewritten(steps, c, t, p, ref) && !Edited(steps, c, t, p, ref) ==> sent == content)
  {
    assert StepAt(ws, steps, t);
    c := SharedBy(ws, steps, t, p, m);
    content := MapFirst(ws, steps, c, p, m.headers.ref);
    MapSince(ws, steps, c, t, p, m.headers.ref, content.headers);
  }

  lemma CreatedSlug(ws: seq<World>, steps: seq<Step>, c: nat, id: Id, content: Content)
    requires IsRun(ws, steps) && c < |steps| && Creates(ws, steps, c, id, content)
    ensures HasSlug(steps[c].stamp) ==> Lookup(content.headers, HEADER_KEY) == steps[c].stamp.slug
  {
    assert StepAt(ws, steps, c);
    StampIsOk(ws[c], steps[c]);
    StampedLookups(ws[c].procs[steps[c].p].maps[steps[c].ref], id, steps[c].stamp);
  }

  /** What every Create inserts: its own event id, the description of the event, and its tenant. */
  lemma CreatedHeaders(ws: seq<World>, steps: seq<Step>, c: nat, id: Id, content: Content)
    requires IsRun(ws, steps) && c < |steps| && Creates(ws, steps, c, id, content)
    ensures var h, stamp := content.headers, steps[c].stamp;
            && content.body == steps[c].body
            && Lookup(h, "event_id") == Some(id)
            && ("event_type" !in stamp.trace ==> Lookup(h, "event_type") == Some(stamp.eventType))
            && ("source" !in stamp.trace ==> Lookup(h, "source") == Some(stamp.source))
            && ("timestamp" !in stamp.trace ==> Lookup(h, "timestamp") == Some(stamp.timestamp))
            && (stamp.slug.Some? && stamp.slug.value != "" ==> Lookup(h, "x-tenant-slug") == stamp.slug)
            && forall key :: key in stamp.trace ==> Lookup(h, key) == Some(stamp.trace[key])
  {
    assert StepAt(ws, steps, c);
    StampIsOk(ws[c], steps[c]);
    StampedWith(ws[c].procs[steps[c].p].maps[steps[c].ref], id, steps[c].stamp);
  }

  lemma StampedWith(before: HeaderMap, id: Id, stamp: Stamp)
    requires StampOk(stamp)
    ensures var h := Stamped(before, id, stamp);
            && Lookup(h, "event_id") == Some(id)
            && ("event_type" !in stamp.trace ==> Lookup(h, "event_type") == Some(stamp.eventType))
            && ("source" !in stamp.trace ==> Lookup(h, "source") == Some(stamp.source))
            && ("timestamp" !in stamp.trace ==> Lookup(h, "timestamp") == Some(stamp.timestamp))
            && (stamp.slug.Some? && stamp.slug.value != "" ==> Lookup(h, "x-tenant-slug") == stamp.slug)
            && forall key :: key in stamp.trace ==> Lookup(h, key) == Some(stamp.trace[key])
  {
  }

  /** From the creating context to the consumer, and to the consumer of the DLQ copy: by way of the fetcher the tenant
      always arrives; by the fast path if and only if the last tenant written into the map is the same. */
  lemma TenantExact(ws: seq<World>, steps: seq<Step>, t: nat, p: nat, m: Message, span: HeaderMap,
                    hs: seq<RecordHeader>, d: DlqInfo, trace: HeaderMap, dlq: seq<RecordHeader>) returns (c: nat)
    requires IsRun(ws, steps) && t < |steps| && p < |ws[t].procs| && TakesMessage(ws, steps, t, p, m)
    requires HEADER_KEY !in span && HEADER_KEY !in trace
    requires Lists(hs, Inject(Produced(ws[t].procs[p], m).content.headers, span))
    requires Lists(dlq, Inject(ToMap(hs + DlqAdditions(d)), trace))
    ensures c < t && steps[c].Create? && steps[c].id == m.id
    ensures SlugFrom(dlq) == SlugFrom(hs)
    ensures HasSlug(steps[c].stamp) && m.headers.Decoded? ==> SlugFrom(hs) == steps[c].stamp.slug
    ensures HasSlug(steps[c].stamp) && m.headers.Shared? ==>
              (SlugFrom(hs) == steps[c].stamp.slug <==>
                 LatestSlug(steps, c, t, p, m.headers.ref).None?
                 || LatestSlug(steps, c, t, p, m.headers.ref) == steps[c].stamp.slug)
  {
    var sent := Produced(ws[t].procs[p], m).content;
    var content: Content;
    if m.headers.Decoded? {
      c := FetchedIsFaithful(ws, steps, t, p, m);
      content := sent;
    } else {
      c, content := FastPathExact(ws, steps, t, p, m);
    }
    CreatedSlug(ws, steps, c, m.id, content);
    ListedLookup(hs, Inject(sent.headers, span), HEADER_KEY);
    DlqSlugExact(hs, d, trace, dlq);
    if HasSlug(steps[c].stamp) && m.headers.Shared? {
      LatestIsNotEmpty(steps, c, t, p, m.headers.ref);
    }
  }

  lemma {:induction false} LatestIsNotEmpty(steps: seq<Step>, c: nat, t: nat, p: nat, ref: Ref)
    requires c < t <= |steps|
    ensures LatestSlug(steps, c, t, p, ref) != Some("")
    decreases t
  {
    if t > c + 1 {
      LatestIsNotEmpty(steps, c, t - 1, p, ref);
    }
  }

  // ---------- Two Creates with one map ----------

  lemma Extend(ws: seq<World>, steps: seq<Step>, s: Step) returns (ws': seq<World>, steps': seq<Step>)
    requires IsRun(ws, steps) && Enabled(ws[|steps|], s)
    ensures ws' == ws + [Next(ws[|steps|], s)] && steps' == steps + [s] && IsRun(ws', steps')
  {
    ws', steps' := ws + [Next(ws[|steps|], s)], steps + [s];
    forall i | 0 <= i < |steps'| ensures StepAt(ws', steps', i) {
      assert i < |steps| ==> StepAt(ws, steps, i);
    }
  }

  /** The one process of the example, before anything is sent. */
  predicate Idle(w: World)
  {
    && |w.procs| == 1
    && w.procs[0] == FRESH.(maps := w.procs[0].maps, handles := w.procs[0].handles)
  }

  lemma SetMap(ws: seq<World>, steps: seq<Step>, ref: Ref, headers: HeaderMap)
    returns (ws': seq<World>, steps': seq<Step>)
    requires IsRun(ws, steps) && Idle(ws[|steps|]) && ref !in ws[|steps|].procs[0].maps
    ensures steps' == steps + [SetHeaders(0, ref, headers)]
    ensures IsRun(ws', steps') && ws <= ws' && Idle(ws'[|steps'|])
    ensures ws'[|steps'|] == ws[|steps|].(procs := ws'[|steps'|].procs)
    ensures ws'[|steps'|].procs[0].maps == ws[|steps|].procs[0].maps[ref := headers]
  {
    ws', steps' := Extend(ws, steps, SetHeaders(0, ref, headers));
  }

  lemma CreateOne(ws: seq<World>, steps: seq<Step>, id: Id, body: Body, ref: Ref, stamp: Stamp)
    returns (ws': seq<World>, steps': seq<Step>)
    requires IsRun(ws, steps) && Idle(ws[|steps|]) && ref in ws[|steps|].procs[0].maps
    requires id !in ws[|steps|].created && StampOk(stamp)
    ensures steps' == steps + [Step.Create(0, id, body, ref, stamp)]
    ensures IsRun(ws', steps') && ws <= ws' && Idle(ws'[|steps'|])
    ensures var w, w' := ws[|steps|], ws'[|steps'|];
            && w'.procs[0].maps == w.procs[0].maps[ref := Stamped(w.procs[0].maps[ref], id, stamp)]
            && w'.procs[0].handles == w.procs[0].handles + {Message(id, body, Shared(ref))}
            && w'.created.Keys == w.created.Keys + {id} && w'.docs.Keys == w.docs.Keys + {id}
  {
    ws', steps' := Extend(ws, steps, Step.Create(0, id, body, ref, stamp));
  }

  /** Pushed by its SendFunc and taken by Sender. */
  lemma SendOne(ws: seq<World>, steps: seq<Step>, m: Message) returns (ws': seq<World>, steps': seq<Step>)
    requires IsRun(ws, steps) && Idle(ws[|steps|]) && m in ws[|steps|].procs[0].handles
    ensures steps' == steps + [PushHandle(0, m), Take(0)]
    ensures IsRun(ws', steps') && ws <= ws' && |ws'[|steps|].procs| == 1
    ensures |ws'[|steps| + 1].procs| == 1 && TakesMessage(ws', steps', |steps| + 1, 0, m)
    ensures ws'[|steps| + 1].procs[0].maps == ws[|steps|].procs[0].maps
    ensures var w, w' := ws[|steps|], ws'[|steps'|];
            && w'.docs == w.docs && |w'.procs| == 1
            && w'.procs[0] == w.procs[0].(pushed := [m], taken := [m], inflight := [Produced(w.procs[0], m)])
  {
    ws', steps' := Extend(ws, steps, PushHandle(0, m));
    assert ws'[|steps'|].procs[0] == ws[|steps|].procs[0].(pushed := [m], entities := [m]);
    ws', steps' := Extend(ws', steps', Take(0));
    assert StepAt(ws', steps', |steps| + 1);
    assert steps' == steps + [PushHandle(0, m), Take(0)];
  }

  lemma CallBackOne(ws: seq<World>, steps: seq<Step>, r: Record) returns (ws': seq<World>, steps': seq<Step>)
    requires IsRun(ws, steps) && |ws[|steps|].procs| == 1
    requires ws[|steps|].procs[0].inflight == [r] && ws[|steps|].procs[0].confirms == []
    requires ws[|steps|].procs[0].buffer == []
    ensures steps' == steps + [Callback(0, 0, true), Receive(0)]
    ensures IsRun(ws', steps') && ws <= ws'
    ensures var w, w' := ws[|steps|], ws'[|steps'|];
            && w'.docs == w.docs && |w'.procs| == 1
            && w'.procs[0].buffer == [ConfirmResult(r.id, true)]
            && w'.procs[0].batches == w.procs[0].batches && w'.procs[0].running == w.procs[0].running
  {
    OneProcessStep(ws[|steps|], Callback(0, 0, true), 0);
    SameProcesses(ws[|steps|], Callback(0, 0, true));
    ws', steps' := Extend(ws, steps, Callback(0, 0, true));
    assert ws'[|steps'|].procs[0].confirms == [ConfirmResult(r.id, true)];
    OneProcessStep(ws'[|steps'|], Receive(0), 0);
    SameProcesses(ws'[|steps'|], Receive(0));
    ws', steps' := Extend(ws', steps', Receive(0));
    assert steps' == steps + [Callback(0, 0, true), Receive(0)];
  }

  lemma StoreOne(ws: seq<World>, steps: seq<Step>, id: Id) returns (ws': seq<World>, steps': seq<Step>)
    requires IsRun(ws, steps) && |ws[|steps|].procs| == 1 && id in ws[|steps|].docs
    requires ws[|steps|].procs[0].buffer == [ConfirmResult(id, true)]
    requires ws[|steps|].procs[0].batches == [] && ws[|steps|].procs[0].running == {}
    ensures steps' == steps + [Flush(0), Handle(0, 0, {id})]
    ensures IsRun(ws', steps') && ws <= ws'
    ensures id in ws'[|steps'|].docs && ws'[|steps'|].docs[id].status.Sent?
  {
    ws', steps' := Extend(ws, steps, Flush(0));
    assert ws'[|steps'|].procs[0].batches == [[ConfirmResult(id, true)]] && ws'[|steps'|].procs[0].running == {0};
    assert DeliveredIds([ConfirmResult(id, true)]) == [id];
    ws', steps' := Extend(ws', steps', Handle(0, 0, {id}));
    assert steps' == steps + [Flush(0), Handle(0, 0, {id})];
  }

  /** The same map for two Creates. */
  lemma CreateTwo(x: Id, y: Id, body: Body, body': Body, a: Stamp, b: Stamp)
    returns (ws: seq<World>, steps: seq<Step>)
    requires x != y && StampOk(a) && StampOk(b) && HasSlug(b)
    ensures IsRun(ws, steps) && Idle(ws[|steps|]) && x in ws[|steps|].docs
    ensures Message(x, body, Shared(0)) in ws[|steps|].procs[0].handles && 0 in ws[|steps|].procs[0].maps
    ensures Lookup(ws[|steps|].procs[0].maps[0], EVENT_ID_KEY) == Some(y)
    ensures Lookup(ws[|steps|].procs[0].maps[0], HEADER_KEY) == b.slug
  {
    ws, steps := [World(0, 0, map[], [FRESH], map[], {})], [];
    ws, steps := SetMap(ws, steps, 0, map[]);
    ws, steps := CreateOne(ws, steps, x, body, 0, a);
    StampedLookups(ws[|steps|].procs[0].maps[0], y, b);
    ws, steps := CreateOne(ws, steps, y, body', 0, b);
  }

  lemma StillTakes(ws: seq<World>, steps: seq<Step>, ws': seq<World>, steps': seq<Step>, t: nat, m: Message)
    requires IsRun(ws, steps) && IsRun(ws', steps') && ws <= ws' && steps <= steps' && t < |steps|
    requires |ws[t].procs| == 1 && TakesMessage(ws, steps, t, 0, m)
    ensures ws'[t] == ws[t] && TakesMessage(ws', steps', t, 0, m)
  {
    assert ws'[t] == ws[t] && steps'[t] == steps[t];
  }

  /** One map for two messages of a transaction, whose SendFuncs are called after the commit: the first record is
      produced with the event id and the tenant of the second message, and confirmed as SENT all the same. */
  lemma OneMapForTwo(x: Id, y: Id, body: Body, body': Body, a: Stamp, b: Stamp)
    returns (ws: seq<World>, steps: seq<Step>, t: nat)
    requires x != y && StampOk(a) && StampOk(b) && HasSlug(b)
    ensures IsRun(ws, steps) && t < |steps| && |ws[t].procs| == 1
    ensures TakesMessage(ws, steps, t, 0, Message(x, body, Shared(0)))
    ensures var sent := Produced(ws[t].procs[0], Message(x, body, Shared(0))).content.headers;
            Lookup(sent, EVENT_ID_KEY) == Some(y) && Lookup(sent, HEADER_KEY) == b.slug
    ensures x in ws[|steps|].docs && ws[|steps|].docs[x].status.Sent?
  {
    var m := Message(x, body, Shared(0));
    var ws1, steps1 := CreateTwo(x, y, body, body', a, b);
    t := |steps1| + 1;
    var ws2, steps2 := SendOne(ws1, steps1, m);
    var ws3, steps3 := CallBackOne(ws2, steps2, Produced(ws1[|steps1|].procs[0], m));
    ws, steps := StoreOne(ws3, steps3, x);
    StillTakes(ws2, steps2, ws, steps, t, m);
  }
}
