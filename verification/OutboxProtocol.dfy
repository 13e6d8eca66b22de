/** The outbox as a step system: service processes (Create, SendFunc, Fetcher, Sender, Kafka callbacks,
    Confirmer) around one shared collection, with crashes, drops, failed updates and TTL expiry. */
module OutboxProtocol {
  import opened Wrappers
  import opened OutboxStore
  import opened ConfirmerSpec
  import opened HeaderPropagation

  const ENTITIES_CAPACITY := 100
  const CONFIRM_CAPACITY := 1000

  // Where a process keeps a header map that callers hand to Create.
  type Ref = nat

  // The headers of an entity in memory: Create leaves it with the caller's own map, which that caller and later
  // Creates may still write; a fetched one has a map of its own.
  datatype Headers = Shared(ref: Ref) | Decoded(headers: HeaderMap)

  // What travels through entitiesChan: a pointer to an entity, of which only the header map can change.
  datatype Message = Message(id: Id, body: Body, headers: Headers)

  // What Sender produces: the entity as it is when it is sent.
  datatype Record = Record(id: Id, content: Content)

  // What Create and its context write into the header map, besides the event's id.
  datatype Stamp = Stamp(eventType: string, source: string, timestamp: string, trace: HeaderMap, slug: Option<string>)

  /** Propagators write their own keys only. */
  predicate StampOk(stamp: Stamp)
  {
    EVENT_ID_KEY !in stamp.trace && HEADER_KEY !in stamp.trace
  }

  function Stamped(headers: HeaderMap, id: Id, stamp: Stamp): HeaderMap
  {
    Prepared(headers, EventInfo(id, stamp.eventType, stamp.source, stamp.timestamp), stamp.trace, stamp.slug)
  }

  /** The volatile part of one service process. */
  datatype Process = Process(
    maps: map<Ref, HeaderMap>,            // the callers' header maps
    handles: set<Message>,                // entities whose SendFunc some caller holds
    fetched: Option<Message>,             // locked by Fetcher, not yet in the channel
    pushed: seq<Message>,                 // history: everything put into entitiesChan
    entities: seq<Message>,               // entitiesChan
    taken: seq<Message>,                  // history: everything Sender took
    inflight: seq<Record>,                // produced, callback not yet run
    called: seq<ConfirmResult>,           // history: the results of all callbacks, in order
    confirms: seq<ConfirmResult>,         // confirmChan
    buffer: seq<ConfirmResult>,           // the Confirmer's `results`
    batches: seq<seq<ConfirmResult>>,     // history: every flushed batch
    running: set<nat>)                    // batches whose handleConfirmation has not finished

  const FRESH := Process(map[], {}, None, [], [], [], [], [], [], [], [], {})

  datatype World = World(
    now: Time,
    maxBackoff: nat,
    docs: Docs,
    procs: seq<Process>,
    created: map<Id, Content>,            // history: every entity ever created
    acked: set<Id>)                       // history: ids that a callback reported without error

  datatype Step =
    | Tick(millis: nat)
    | SetHeaders(p: nat, ref: Ref, headers: HeaderMap)   // a caller makes a map, or changes headers of its own in one
    | Create(p: nat, id: Id, body: Body, ref: Ref, stamp: Stamp)
    | FailCreate(p: nat, id: Id, ref: Ref, stamp: Stamp)  // the map is written, but nothing is inserted
    | PushHandle(p: nat, m: Message)                  // SendFunc before its timer fires
    | Forget(p: nat, m: Message)                      // nobody will call this SendFunc any more
    | Fetch(p: nat, id: Id)
    | PushFetched(p: nat)
    | DropFetched(p: nat)                             // Fetcher cancelled while the channel is full
    | Take(p: nat)
    | Callback(p: nat, k: nat, ok: bool)
    | Receive(p: nat)
    | Flush(p: nat)                                   // ticker or shutdown
    | Handle(p: nat, k: nat, applied: set<Id>)        // a failed update applies any part of the ids
    | Crash(p: nat)
    | Expire(id: Id)

  /** Callers leave event id and tenant to Create once it has written them. */
  predicate OwnOnly(before: HeaderMap, after: HeaderMap)
  {
    && Lookup(after, EVENT_ID_KEY) == Lookup(before, EVENT_ID_KEY)
    && Lookup(after, HEADER_KEY) == Lookup(before, HEADER_KEY)
  }

  predicate Enabled(w: World, s: Step)
  {
    match s
    case Tick(_) => true
    case SetHeaders(p, ref, headers) =>
      p < |w.procs| && (ref in w.procs[p].maps ==> OwnOnly(w.procs[p].maps[ref], headers))
    case Create(p, id, _, ref, stamp) => p < |w.procs| && id !in w.created && ref in w.procs[p].maps && StampOk(stamp)
    case FailCreate(p, id, ref, stamp) => p < |w.procs| && id !in w.created && ref in w.procs[p].maps && StampOk(stamp)
    case PushHandle(p, m) => p < |w.procs| && m in w.procs[p].handles && |w.procs[p].entities| < ENTITIES_CAPACITY
    case Forget(p, _) => p < |w.procs|
    case Fetch(p, id) => p < |w.procs| && w.procs[p].fetched.None? && IsNext(w.docs, id, w.now)
    case PushFetched(p) => p < |w.procs| && w.procs[p].fetched.Some? && |w.procs[p].entities| < ENTITIES_CAPACITY
    case DropFetched(p) => p < |w.procs|
    case Take(p) => p < |w.procs| && w.procs[p].entities != []
    case Callback(p, k, _) => p < |w.procs| && k < |w.procs[p].inflight| && |w.procs[p].confirms| < CONFIRM_CAPACITY
    case Receive(p) => p < |w.procs| && w.procs[p].confirms != []
    case Flush(p) => p < |w.procs|
    case Handle(p, k, applied) =>
      && p < |w.procs| && k in w.procs[p].running && k < |w.procs[p].batches|
      && applied <= AsSet(DeliveredIds(w.procs[p].batches[k]))
    case Crash(p) => p < |w.procs|
    case Expire(id) => id in w.docs && w.now >= w.docs[id].createdAt + TTL_MILLIS
  }

  function Remove<T>(s: seq<T>, k: nat): seq<T>
    requires k < |s|
  {
    s[..k] + s[k + 1..]
  }

  /** `flush` of confirmer.go:41-50. */
  function Flushed(pr: Process): Process
  {
    if pr.buffer == [] then pr else
      pr.(batches := pr.batches + [pr.buffer], running := pr.running + {|pr.batches|}, buffer := [])
  }

  /** One result received by the Confirmer: append, and flush when the buffer holds 100. */
  function Received(pr: Process): Process
    requires pr.confirms != []
  {
    var pr' := pr.(buffer := pr.buffer + [pr.confirms[0]], confirms := pr.confirms[1..]);
    if |pr'.buffer| == BATCH_SIZE then Flushed(pr') else pr'
  }

  function HeadersOf(maps: map<Ref, HeaderMap>, h: Headers): HeaderMap
  {
    match h
    case Shared(ref) => if ref in maps then maps[ref] else map[]
    case Decoded(headers) => headers
  }

  /** `send` reads the entity's headers now. */
  function Produced(pr: Process, m: Message): Record
  {
    Record(m.id, Content(m.body, HeadersOf(pr.maps, m.headers)))
  }

  /** What a Create inserts: the header map as Create has just written it. */
  function CreatedContent(w: World, s: Step): Content
    requires Enabled(w, s) && s.Create?
  {
    Content(s.body, Stamped(w.procs[s.p].maps[s.ref], s.id, s.stamp))
  }

  /** What the step changes in the process that takes it. */
  function NextProcess(w: World, s: Step, pr: Process): Process
    requires Enabled(w, s) && !s.Tick? && !s.Expire? && pr == w.procs[s.p]
  {
    match s
    case SetHeaders(_, ref, headers) => pr.(maps := pr.maps[ref := headers])
    case Create(_, id, body, ref, stamp) =>
      pr.(maps := pr.maps[ref := Stamped(pr.maps[ref], id, stamp)],
          handles := pr.handles + {Message(id, body, Shared(ref))})
    case FailCreate(_, id, ref, stamp) => pr.(maps := pr.maps[ref := Stamped(pr.maps[ref], id, stamp)])
    case PushHandle(_, m) => pr.(pushed := pr.pushed + [m], entities := pr.entities + [m])
    case Forget(_, m) => pr.(handles := pr.handles - {m})
    case Fetch(_, id) => pr.(fetched := Some(Message(id, w.docs[id].content.body, Decoded(w.docs[id].content.headers))))
    case PushFetched(_) =>
      var m := pr.fetched.value;
      pr.(pushed := pr.pushed + [m], entities := pr.entities + [m], fetched := None)
    case DropFetched(_) => pr.(fetched := None)
    case Take(_) =>
      var m := pr.entities[0];
      pr.(entities := pr.entities[1..], taken := pr.taken + [m], inflight := pr.inflight + [Produced(pr, m)])
    case Callback(_, k, ok) =>
      var result := ConfirmResult(pr.inflight[k].id, ok);
      pr.(inflight := Remove(pr.inflight, k), called := pr.called + [result], confirms := pr.confirms + [result])
    case Receive(_) => Received(pr)
    case Flush(_) => Flushed(pr)
    case Handle(_, k, _) => pr.(running := pr.running - {k})
    case Crash(_) => FRESH
  }

  function NextDocs(w: World, s: Step): Docs
    requires Enabled(w, s)
  {
    match s
    case Create(_, id, _, _, _) => w.docs[id := NewEntity(CreatedContent(w, s), w.now)]
    case Fetch(_, id) => w.docs[id := Locked(w.docs[id], w.now, w.maxBackoff)]
    case Handle(_, _, applied) => ConfirmAll(w.docs, applied, w.now)
    case Expire(id) => w.docs - {id}
    case _ => w.docs
  }

  function Next(w: World, s: Step): World
    requires Enabled(w, s)
  {
    w.(now := if s.Tick? then w.now + s.millis else w.now,
       docs := NextDocs(w, s),
       procs := if s.Tick? || s.Expire? then w.procs else w.procs[s.p := NextProcess(w, s, w.procs[s.p])],
       created := if s.Create? then w.created[s.id := CreatedContent(w, s)] else w.created,
       acked := if s.Callback? && s.ok then w.acked + {w.procs[s.p].inflight[s.k].id} else w.acked)
  }

  predicate Init(w: World)
  {
    && w.docs == map[] && w.created == map[] && w.acked == {}
    && forall p :: 0 <= p < |w.procs| ==> w.procs[p] == FRESH
  }

  // ---------- What one step touches ----------

  /** The step is one of process p. */
  predicate Acts(s: Step, p: nat) { !s.Tick? && !s.Expire? && s.p == p }

  lemma OneProcessStep(w: World, s: Step, p: nat)
    requires Enabled(w, s) && p < |w.procs|
    ensures p < |Next(w, s).procs|
    ensures Next(w, s).procs[p] == if Acts(s, p) then NextProcess(w, s, w.procs[p]) else w.procs[p]
  {
  }

  lemma SameProcesses(w: World, s: Step)
    requires Enabled(w, s)
    ensures |Next(w, s).procs| == |w.procs|
  {
  }

  lemma CreatedStep(w: World, s: Step)
    requires Enabled(w, s)
    ensures Next(w, s).created == if s.Create? then w.created[s.id := CreatedContent(w, s)] else w.created
  {
  }

  // ---------- The invariant of every reachable world ----------

  ghost predicate Known(m: Message, created: map<Id, Content>)
  {
    && m.id in created && created[m.id].body == m.body
    && (m.headers.Decoded? ==> created[m.id].headers == m.headers.headers)
  }

  ghost predicate KnownRecord(r: Record, created: map<Id, Content>)
  {
    r.id in created && created[r.id].body == r.content.body
  }

  /** A result that reports success stems from a callback. */
  ghost predicate Truthful(r: ConfirmResult, acked: set<Id>)
  {
    r.ok ==> r.id in acked
  }

  function Ids(ms: seq<Message>): (ids: seq<Id>)
    ensures |ids| == |ms|
  {
    seq(|ms|, i requires 0 <= i < |ms| => ms[i].id)
  }

  function RecordIds(rs: seq<Record>): (ids: seq<Id>)
    ensures |ids| == |rs|
  {
    seq(|rs|, i requires 0 <= i < |rs| => rs[i].id)
  }

  function ResultIds(rs: seq<ConfirmResult>): (ids: seq<Id>)
    ensures |ids| == |rs|
  {
    seq(|rs|, i requires 0 <= i < |rs| => rs[i].id)
  }

  /** Sender takes what was pushed, in order; nothing that it took is lost or doubled on its way to a flushed
      batch, and results keep their order. */
  ghost predicate Conserved(pr: Process)
  {
    && pr.pushed == pr.taken + pr.entities
    && pr.called == Flatten(pr.batches) + pr.buffer + pr.confirms
    && multiset(Ids(pr.taken)) == multiset(RecordIds(pr.inflight)) + multiset(ResultIds(pr.called))
  }

  ghost predicate Bounded(pr: Process)
  {
    && |pr.entities| <= ENTITIES_CAPACITY
    && |pr.confirms| <= CONFIRM_CAPACITY
    && |pr.buffer| < BATCH_SIZE
    && (forall b :: b in pr.batches ==> 0 < |b| <= BATCH_SIZE)
    && (forall k :: k in pr.running ==> k < |pr.batches|)
  }

  ghost predicate Grounded(pr: Process, created: map<Id, Content>, acked: set<Id>)
  {
    && (forall m :: m in pr.handles ==> Known(m, created))
    && (pr.fetched.Some? ==> Known(pr.fetched.value, created))
    && (forall m :: m in pr.entities ==> Known(m, created))
    && (forall r :: r in pr.inflight ==> KnownRecord(r, created))
    && (forall r :: r in pr.called ==> Truthful(r, acked))
  }

  /** Time that must have passed since creation before fetch number n + 1. */
  function Spacing(n: nat, cap: nat): (t: int)
    ensures t >= CREATE_DELAY_MILLIS
  {
    if n == 0 then CREATE_DELAY_MILLIS
    else Spacing(n - 1, cap) + Max(LEASE_MILLIS, Backoff(n - 1, cap))
  }

  /** The deadlines of a PROCESSING entity are those of its last touch, its creation or its last fetch. */
  ghost predicate Deadlines(e: Entity, now: Time, cap: nat)
  {
    && e.lockExpiresAt.Some? && e.nextAttemptAfter.Some?
    && if e.attemptsToSend == 0 then
         e.lockExpiresAt.value == e.nextAttemptAfter.value == e.createdAt + CREATE_DELAY_MILLIS
       else
         var touched := e.lockExpiresAt.value - LEASE_MILLIS;
         && e.createdAt + Spacing(e.attemptsToSend - 1, cap) < touched <= now
         && e.nextAttemptAfter.value == touched + Backoff(e.attemptsToSend - 1, cap)
  }

  ghost predicate DocOk(id: Id, e: Entity, w: World)
  {
    && id in w.created && w.created[id] == e.content
    && e.createdAt <= w.now
    && (e.attemptsToSend > 0 ==> e.createdAt + Spacing(e.attemptsToSend - 1, w.maxBackoff) < w.now)
    && (e.status.Processing? ==> Deadlines(e, w.now, w.maxBackoff) && e.confirmations == 0 && e.sentAt == None)
    && (e.status.Sent? ==> id in w.acked && e.confirmations > 0 && e.sentAt.Some?
                           && e.lockExpiresAt == None && e.nextAttemptAfter == None)
  }

  ghost predicate ProcessOk(pr: Process, created: map<Id, Content>, acked: set<Id>)
  {
    Conserved(pr) && Bounded(pr) && Grounded(pr, created, acked)
  }

  ghost predicate Inv(w: World)
  {
    && (forall p :: 0 <= p < |w.procs| ==> ProcessOk(w.procs[p], w.created, w.acked))
    && (forall id :: id in w.docs ==> DocOk(id, w.docs[id], w))
    && (forall id :: id in w.acked ==> id in w.created)
  }

  lemma InitInv(w: World)
    requires Init(w)
    ensures Inv(w)
  {
    assert Flatten(FRESH.batches) == [];
  }

  // ---------- One step keeps the invariant ----------

  lemma FlushConserves(pr: Process)
    requires Conserved(pr)
    ensures Conserved(Flushed(pr))
  {
    if pr.buffer != [] {
      FlattenSnoc(pr.batches, pr.buffer);
      assert Flatten(Flushed(pr).batches) + [] + pr.confirms == Flatten(pr.batches) + pr.buffer + pr.confirms;
    }
  }

  lemma ReceiveConserves(pr: Process)
    requires Conserved(pr) && pr.confirms != []
    ensures Conserved(Received(pr))
  {
    var pr' := pr.(buffer := pr.buffer + [pr.confirms[0]], confirms := pr.confirms[1..]);
    assert pr.confirms == [pr.confirms[0]] + pr.confirms[1..];
    assert Flatten(pr.batches) + pr'.buffer + pr'.confirms == Flatten(pr.batches) + pr.buffer + pr.confirms;
    FlushConserves(pr');
  }

  lemma CallbackConserves(pr: Process, k: nat, result: ConfirmResult)
    requires Conserved(pr) && k < |pr.inflight| && result.id == pr.inflight[k].id
    ensures Conserved(pr.(inflight := Remove(pr.inflight, k), called := pr.called + [result],
                          confirms := pr.confirms + [result]))
  {
    var a, b := pr.inflight[..k], pr.inflight[k + 1..];
    assert RecordIds(pr.inflight) == RecordIds(a) + [result.id] + RecordIds(b);
    assert RecordIds(Remove(pr.inflight, k)) == RecordIds(a) + RecordIds(b);
    assert ResultIds(pr.called + [result]) == ResultIds(pr.called) + [result.id];
    assert Flatten(pr.batches) + pr.buffer + (pr.confirms + [result])
        == Flatten(pr.batches) + pr.buffer + pr.confirms + [result];
  }

  lemma TakeConserves(pr: Process)
    requires Conserved(pr) && pr.entities != []
    ensures var m := pr.entities[0];
            Conserved(pr.(entities := pr.entities[1..], taken := pr.taken + [m],
                          inflight := pr.inflight + [Produced(pr, m)]))
  {
    var m := pr.entities[0];
    assert pr.entities == [m] + pr.entities[1..];
    assert pr.taken + ([m] + pr.entities[1..]) == pr.taken + [m] + pr.entities[1..];
    assert Ids(pr.taken + [m]) == Ids(pr.taken) + [m.id];
    assert RecordIds(pr.inflight + [Produced(pr, m)]) == RecordIds(pr.inflight) + [m.id];
  }

  lemma ConservedStep(w: World, s: Step)
    requires Inv(w) && Enabled(w, s) && !s.Tick? && !s.Expire?
    ensures Conserved(NextProcess(w, s, w.procs[s.p]))
  {
    var pr := w.procs[s.p];
    match s
    case Take(_) => TakeConserves(pr);
    case Callback(_, k, ok) => CallbackConserves(pr, k, ConfirmResult(pr.inflight[k].id, ok));
    case Receive(_) => ReceiveConserves(pr);
    case Flush(_) => FlushConserves(pr);
    case Crash(_) => assert Flatten(FRESH.batches) == [];
    case _ =>
  }

  lemma BoundedFlush(pr: Process)
    requires Bounded(pr.(buffer := [])) && |pr.buffer| <= BATCH_SIZE
    ensures Bounded(Flushed(pr))
  {
  }

  lemma BoundedReceive(pr: Process)
    requires Bounded(pr) && pr.confirms != []
    ensures Bounded(Received(pr))
  {
    var pr' := pr.(buffer := pr.buffer + [pr.confirms[0]], confirms := pr.confirms[1..]);
    if |pr'.buffer| == BATCH_SIZE {
      BoundedFlush(pr');
    }
  }

  lemma BoundedStep(w: World, s: Step)
    requires Inv(w) && Enabled(w, s) && !s.Tick? && !s.Expire?
    ensures Bounded(NextProcess(w, s, w.procs[s.p]))
  {
    var pr := w.procs[s.p];
    assert ProcessOk(pr, w.created, w.acked);
    match s
    case Receive(_) => BoundedReceive(pr);
    case Flush(_) => BoundedFlush(pr);
    case _ =>
  }

  lemma HistoryOnlyGrows(w: World, s: Step)
    requires Enabled(w, s)
    ensures forall id :: id in w.created ==> id in Next(w, s).created && Next(w, s).created[id] == w.created[id]
    ensures w.acked <= Next(w, s).acked
  {
  }

  lemma GroundedMonotone(pr: Process, created: map<Id, Content>, acked: set<Id>,
                         created': map<Id, Content>, acked': set<Id>)
    requires Grounded(pr, created, acked) && acked <= acked'
    requires forall id :: id in created ==> id in created' && created'[id] == created[id]
    ensures Grounded(pr, created', acked')
  {
  }

  lemma GroundedGrows(pr: Process, w: World, s: Step)
    requires Enabled(w, s) && Grounded(pr, w.created, w.acked)
    ensures Grounded(pr, Next(w, s).created, Next(w, s).acked)
  {
    HistoryOnlyGrows(w, s);
    GroundedMonotone(pr, w.created, w.acked, Next(w, s).created, Next(w, s).acked);
  }

  lemma GroundedCallback(pr: Process, k: nat, ok: bool, created: map<Id, Content>, acked: set<Id>)
    requires Grounded(pr, created, acked) && k < |pr.inflight|
    ensures var result := ConfirmResult(pr.inflight[k].id, ok);
            Grounded(pr.(inflight := Remove(pr.inflight, k), called := pr.called + [result],
                         confirms := pr.confirms + [result]),
                     created, if ok then acked + {pr.inflight[k].id} else acked)
  {
  }

  lemma GroundedTake(pr: Process, created: map<Id, Content>, acked: set<Id>)
    requires Grounded(pr, created, acked) && pr.entities != []
    ensures var m := pr.entities[0];
            Grounded(pr.(entities := pr.entities[1..], taken := pr.taken + [m],
                         inflight := pr.inflight + [Produced(pr, m)]), created, acked)
  {
    assert Known(pr.entities[0], created);
  }

  lemma GroundedFetch(w: World, s: Step)
    requires Inv(w) && Enabled(w, s) && s.Fetch?
    ensures Grounded(NextProcess(w, s, w.procs[s.p]), w.created, w.acked)
  {
    assert ProcessOk(w.procs[s.p], w.created, w.acked);
    assert DocOk(s.id, w.docs[s.id], w);
  }

  lemma GroundedCreate(w: World, s: Step)
    requires Enabled(w, s) && s.Create? && Grounded(w.procs[s.p], Next(w, s).created, Next(w, s).acked)
    ensures Grounded(NextProcess(w, s, w.procs[s.p]), Next(w, s).created, Next(w, s).acked)
  {
  }

  lemma GroundedConfirmer(w: World, s: Step)
    requires Enabled(w, s) && (s.Receive? || s.Flush?) && Grounded(w.procs[s.p], w.created, w.acked)
    ensures Grounded(NextProcess(w, s, w.procs[s.p]), w.created, w.acked)
  {
  }

  lemma GroundedPush(w: World, s: Step)
    requires Enabled(w, s) && (s.PushHandle? || s.PushFetched?) && Grounded(w.procs[s.p], w.created, w.acked)
    ensures Grounded(NextProcess(w, s, w.procs[s.p]), w.created, w.acked)
  {
  }

  lemma GroundedOther(w: World, s: Step)
    requires s.SetHeaders? || s.FailCreate? || s.Forget? || s.DropFetched? || s.Handle? || s.Crash?
    requires Enabled(w, s) && Grounded(w.procs[s.p], w.created, w.acked)
    ensures Grounded(NextProcess(w, s, w.procs[s.p]), w.created, w.acked)
  {
  }

  lemma GroundedStep(w: World, s: Step)
    requires Inv(w) && Enabled(w, s) && !s.Tick? && !s.Expire?
    ensures Grounded(NextProcess(w, s, w.procs[s.p]), Next(w, s).created, Next(w, s).acked)
  {
    var pr := w.procs[s.p];
    assert ProcessOk(pr, w.created, w.acked);
    if s.Callback? {
      GroundedCallback(pr, s.k, s.ok, w.created, w.acked);
    } else if s.Take? {
      GroundedTake(pr, w.created, w.acked);
    } else if s.Fetch? {
      GroundedFetch(w, s);
    } else if s.Create? {
      GroundedGrows(pr, w, s);
      GroundedCreate(w, s);
    } else if s.Receive? || s.Flush? {
      GroundedConfirmer(w, s);
    } else if s.PushHandle? || s.PushFetched? {
      GroundedPush(w, s);
    } else {
      GroundedOther(w, s);
    }
  }

  /** Every successful delivery in a batch was reported by some callback. */
  lemma BatchTruthful(pr: Process, k: nat, id: Id)
    requires Conserved(pr) && k < |pr.batches| && id in DeliveredIds(pr.batches[k])
    ensures ConfirmResult(id, true) in pr.called
  {
    DeliveredIdsMeaning(pr.batches[k], id);
    FlattenContains(pr.batches, k, ConfirmResult(id, true));
  }

  /** An eligible entity has outlived both its deadlines, hence one more spacing. */
  lemma LockedDeadlines(e: Entity, now: Time, cap: nat)
    requires Deadlines(e, now, cap) && Eligible(e, now)
    ensures Deadlines(Locked(e, now, cap), now, cap)
    ensures e.createdAt + Spacing(e.attemptsToSend, cap) < now
  {
  }

  lemma FetchedDocOk(w: World, s: Step)
    requires Inv(w) && Enabled(w, s) && s.Fetch?
    ensures DocOk(s.id, Next(w, s).docs[s.id], Next(w, s))
  {
    assert DocOk(s.id, w.docs[s.id], w);
    LockedDeadlines(w.docs[s.id], w.now, w.maxBackoff);
  }

  lemma ConfirmedDocOk(w: World, s: Step, id: Id)
    requires Inv(w) && Enabled(w, s) && s.Handle? && id in s.applied && id in w.docs
    ensures DocOk(id, Next(w, s).docs[id], Next(w, s))
  {
    assert DocOk(id, w.docs[id], w);
    var pr := w.procs[s.p];
    BatchTruthful(pr, s.k, id);
    assert Truthful(ConfirmResult(id, true), w.acked);
  }

  /** History only grows, so a document that stays as it is stays justified. */
  lemma DocOkStays(w: World, s: Step, id: Id, e: Entity)
    requires Inv(w) && Enabled(w, s) && DocOk(id, e, w)
    ensures DocOk(id, e, Next(w, s))
  {
  }

  lemma CreatedDocOk(w: World, s: Step)
    requires Enabled(w, s) && s.Create?
    ensures DocOk(s.id, Next(w, s).docs[s.id], Next(w, s))
  {
  }

  lemma OtherDoc(w: World, s: Step, id: Id)
    requires Enabled(w, s) && id in Next(w, s).docs
    requires !(s.Fetch? && id == s.id) && !(s.Handle? && id in s.applied) && !(s.Create? && id == s.id)
    ensures id in w.docs && Next(w, s).docs[id] == w.docs[id]
  {
  }

  lemma DocStep(w: World, s: Step, id: Id)
    requires Inv(w) && Enabled(w, s) && id in Next(w, s).docs
    ensures DocOk(id, Next(w, s).docs[id], Next(w, s))
  {
    if s.Fetch? && id == s.id {
      FetchedDocOk(w, s);
    } else if s.Handle? && id in s.applied {
      ConfirmedDocOk(w, s, id);
    } else if s.Create? && id == s.id {
      CreatedDocOk(w, s);
    } else {
      OtherDoc(w, s, id);
      DocOkStays(w, s, id, w.docs[id]);
    }
  }

  lemma ProcessStep(w: World, s: Step, p: nat)
    requires Inv(w) && Enabled(w, s) && p < |Next(w, s).procs|
    ensures ProcessOk(Next(w, s).procs[p], Next(w, s).created, Next(w, s).acked)
  {
    SameProcesses(w, s);
    assert ProcessOk(w.procs[p], w.created, w.acked);
    OneProcessStep(w, s, p);
    if !Acts(s, p) {
      GroundedGrows(w.procs[p], w, s);
    } else {
      ConservedStep(w, s);
      BoundedStep(w, s);
      GroundedStep(w, s);
    }
  }

  lemma AckedStep(w: World, s: Step, id: Id)
    requires Inv(w) && Enabled(w, s) && id in Next(w, s).acked
    ensures id in Next(w, s).created
  {
    if id !in w.acked {
      assert ProcessOk(w.procs[s.p], w.created, w.acked);
      assert KnownRecord(w.procs[s.p].inflight[s.k], w.created);
    }
  }

  lemma StepInv(w: World, s: Step)
    requires Inv(w) && Enabled(w, s)
    ensures Inv(Next(w, s))
  {
    var w' := Next(w, s);
    forall p | 0 <= p < |w'.procs| ensures ProcessOk(w'.procs[p], w'.created, w'.acked) {
      ProcessStep(w, s, p);
    }
    forall id | id in w'.docs ensures DocOk(id, w'.docs[id], w') {
      DocStep(w, s, id);
    }
    forall id | id in w'.acked ensures id in w'.created {
      AckedStep(w, s, id);
    }
  }
}
