/** One service process in the shape of the source: Create and SendFunc (outbox.go), Fetcher (fetcher.go),
    Sender and its callback (sender.go), Confirmer (confirmer.go). Each method is one iteration of the loop it
    is named after and takes one step of OutboxProtocol, or two where a command fails after it was applied. */
module OutboxNode {
  import opened Wrappers
  import opened ConfirmerSpec
  import opened OutboxStore
  import opened HeaderPropagation
  import opened OutboxProtocol

  lemma OneStep(w: World, s: Step)
    requires |w.procs| == 1 && Enabled(w, s) && Acts(s, 0)
    ensures Next(w, s).procs == [NextProcess(w, s, w.procs[0])]
  {
    OneProcessStep(w, s, 0);
    SameProcesses(w, s);
  }

  lemma CrashMeaning(w: World)
    requires |w.procs| == 1
    ensures Next(w, Step.Crash(0)) == w.(procs := [FRESH])
  {
    assert w.procs[0 := FRESH] == [FRESH];
  }

  datatype CreateError = SerializationFailed | NotStored(error: StoreError)

  function WithStamp(w: World, id: Id, ref: Ref, stamp: Stamp): World
    requires |w.procs| == 1 && ref in w.procs[0].maps
  {
    var maps := w.procs[0].maps;
    w.(procs := [w.procs[0].(maps := maps[ref := Stamped(maps[ref], id, stamp)])])
  }

  function WithEntity(w: World, id: Id, body: Body, ref: Ref): World
    requires |w.procs| == 1 && ref in w.procs[0].maps
  {
    var content := Content(body, w.procs[0].maps[ref]);
    w.(docs := w.docs[id := NewEntity(content, w.now)], created := w.created[id := content])
  }

  function WithHandle(w: World, m: Message): World
    requires |w.procs| == 1
  {
    w.(procs := [w.procs[0].(handles := w.procs[0].handles + {m})])
  }

  lemma CreateMeaning(w: World, id: Id, body: Body, ref: Ref, stamp: Stamp)
    requires |w.procs| == 1 && ref in w.procs[0].maps && StampOk(stamp) && id !in w.created
    requires forall m :: m in w.procs[0].handles ==> m.id in w.created
    ensures var stored, m := WithEntity(WithStamp(w, id, ref, stamp), id, body, ref), Message(id, body, Shared(ref));
            && Next(w, Step.FailCreate(0, id, ref, stamp)) == WithStamp(w, id, ref, stamp)
            && Next(w, Step.Create(0, id, body, ref, stamp)) == WithHandle(stored, m)
            && Next(Next(w, Step.Create(0, id, body, ref, stamp)), Forget(0, m)) == stored
  {
    var m := Message(id, body, Shared(ref));
    var handles := w.procs[0].handles;
    assert handles + {m} - {m} == handles;
  }

  /** In every reachable world SendFuncs are held for created entities only. */
  lemma HandlesAreCreated(w: World, p: nat)
    requires Inv(w) && p < |w.procs|
    ensures forall m :: m in w.procs[p].handles ==> m.id in w.created
  {
    assert ProcessOk(w.procs[p], w.created, w.acked);
  }

  /** A lease whose answer got lost is a fetch that was given up. */
  lemma FetchThenDrop(w: World, id: Id)
    requires |w.procs| == 1 && Enabled(w, Fetch(0, id)) && w.procs[0].fetched.None?
    ensures Next(Next(w, Fetch(0, id)), DropFetched(0))
         == w.(docs := w.docs[id := Locked(w.docs[id], w.now, w.maxBackoff)])
  {
    var w' := Next(Next(w, Fetch(0, id)), DropFetched(0));
    assert w'.procs[0] == w.procs[0];
    assert w'.procs == w.procs;
  }

  class OutboxNode {
    const repository: OutboxRepository
    var now: Time
    var maps: map<Ref, HeaderMap>     // the header maps of the callers, by address
    var handles: set<Message>
    var fetched: Option<Message>
    var entitiesChan: seq<Message>
    var inflight: seq<Record>
    var confirmChan: seq<ConfirmResult>
    var results: seq<ConfirmResult>
    var batches: seq<seq<ConfirmResult>>
    var running: set<nat>
    ghost var pushed: seq<Message>
    ghost var taken: seq<Message>
    ghost var called: seq<ConfirmResult>
    ghost var created: map<Id, Content>
    ghost var acked: set<Id>

    ghost function Abs(): World
      reads this, repository
    {
      World(now, repository.maxBackoffMillis, repository.docs,
            [Process(maps, handles, fetched, pushed, entitiesChan, taken, inflight, called, confirmChan, results,
                     batches, running)],
            created, acked)
    }

    constructor (repository: OutboxRepository, now: Time)
      requires repository.docs == map[]
      ensures Init(Abs()) && this.repository == repository && this.now == now
    {
      this.repository := repository;
      this.now := now;
      this.maps, this.handles, this.fetched, this.entitiesChan, this.inflight := map[], {}, None, [], [];
      this.confirmChan, this.results, this.batches, this.running := [], [], [], {};
      this.pushed, this.taken, this.called, this.created, this.acked := [], [], [], map[], {};
    }

    /** The process died and a new one starts, around the same collection and with nothing else. */
    constructor Restart(repository: OutboxRepository, now: Time, ghost before: World)
      requires before.now == now && before.maxBackoff == repository.maxBackoffMillis && before.docs == repository.docs
      requires |before.procs| == 1
      ensures Abs() == Next(before, Step.Crash(0)) && this.repository == repository && this.now == now
    {
      this.repository := repository;
      this.now := now;
      this.maps, this.handles, this.fetched, this.entitiesChan, this.inflight := map[], {}, None, [], [];
      this.confirmChan, this.results, this.batches, this.running := [], [], [], {};
      this.pushed, this.taken, this.called := [], [], [];
      this.created, this.acked := before.created, before.acked;
      new;
      CrashMeaning(before);
    }

    /** Time passes. */
    method Tick(millis: nat)
      modifies this`now
      ensures Abs() == Next(old(Abs()), Step.Tick(millis))
    {
      now := now + millis;
    }

    /** A caller makes a header map, or changes its own headers in one; Create does the first for a nil map. */
    method SetHeaders(ref: Ref, headers: HeaderMap)
      requires ref in maps ==> OwnOnly(maps[ref], headers)
      modifies this`maps
      ensures Abs() == Next(old(Abs()), Step.SetHeaders(0, ref, headers))
    {
      maps := maps[ref := headers];
    }

    /** Metadata, trace and tenant go into the caller's own map. */
    method PrepareHeaders(id: Id, ref: Ref, stamp: Stamp)
      requires ref in maps
      modifies this`maps
      ensures Abs() == WithStamp(old(Abs()), id, ref, stamp)
    {
      var h := new MessageHeaders(maps[ref]);
      h.Prepare(EventInfo(id, stamp.eventType, stamp.source, stamp.timestamp), stamp.trace, stamp.slug);
      maps := maps[ref := h.headers];
    }

    /** Inserts the entity with the headers as they are now, and keeps the map itself for its SendFunc. */
    method InsertEntity(id: Id, body: Body, ref: Ref, fate: Fate) returns (r: Result<Message, CreateError>)
      requires ref in maps
      modifies this, repository
      ensures var m, w := Message(id, body, Shared(ref)), old(Abs());
              if fate.FailsUnapplied? || id in w.docs then r.Failure? && Abs() == w
              else if fate.FailsApplied? then r.Failure? && Abs() == WithEntity(w, id, body, ref)
              else r == Success(m) && Abs() == WithHandle(WithEntity(w, id, body, ref), m)
    {
      var content := Content(body, maps[ref]);
      var stored := repository.Create(id, content, now, fate);
      if stored.Failure? && (stored.error.DuplicateKey? || fate.FailsUnapplied?) {
        return Failure(NotStored(stored.error));
      }
      created := created[id := content];
      if stored.Failure? {
        return Failure(NotStored(stored.error));
      }
      var m := Message(id, body, Shared(ref));
      handles := handles + {m};
      r := Success(m);
    }

    /** Prepares the map and inserts the entity; the returned message stands for its SendFunc. The map stays written
        when anything fails. Ids are UUIDs: this one was never used before. */
    method Create(id: Id, body: Body, ref: Ref, stamp: Stamp, serializes: bool, fate: Fate)
      returns (r: Result<Message, CreateError>)
      requires ref in maps && StampOk(stamp)
      requires id !in created && id !in repository.docs
      requires forall m :: m in handles ==> m.id in created   // see HandlesAreCreated
      modifies this, repository
      ensures r.Success? <==> serializes && fate.Succeeds?
      ensures r.Success? ==> r.value == Message(id, body, Shared(ref)) && r.value in handles
      ensures Abs() == if !serializes || fate.FailsUnapplied? then Next(old(Abs()), Step.FailCreate(0, id, ref, stamp))
                       else if fate.Succeeds? then Next(old(Abs()), Step.Create(0, id, body, ref, stamp))
                       else Next(Next(old(Abs()), Step.Create(0, id, body, ref, stamp)),
                                 Forget(0, Message(id, body, Shared(ref))))
    {
      CreateMeaning(Abs(), id, body, ref, stamp);
      PrepareHeaders(id, ref, stamp);
      if !serializes {
        return Failure(SerializationFailed);
      }
      r := InsertEntity(id, body, ref, fate);
    }

    /** SendFunc: pushes the entity, or gives up after its timer or the caller's cancellation. */
    method Send(handle: Message, givesUp: bool) returns (sent: bool)
      requires handle in handles
      modifies this
      ensures sent <==> old(|entitiesChan|) < 100 && !givesUp
      ensures entitiesChan == old(entitiesChan) + if sent then [handle] else []
      ensures Abs() == if sent then Next(old(Abs()), PushHandle(0, handle)) else old(Abs())
    {
      sent := |entitiesChan| < ENTITIES_CAPACITY && !givesUp;
      if sent {
        pushed := pushed + [handle];
        entitiesChan := entitiesChan + [handle];
      }
    }

    /** Fetcher: locks the next entity; finds none, or gets an error, and waits. An error may hide an entity that was
        locked all the same. */
    method FetchNext(fate: Fate) returns (r: Result<Message, StoreError>)
      requires fetched.None?
      modifies this, repository
      ensures r == Failure(NotFound) <==>
                !fate.FailsUnapplied?
                && forall id :: id in old(repository.docs) ==> !Eligible(old(repository.docs)[id], now)
      ensures r.Success? ==>
                Enabled(old(Abs()), Fetch(0, r.value.id)) && Abs() == Next(old(Abs()), Fetch(0, r.value.id))
      ensures r.Success? ==>
                && fetched == Some(r.value) && r.value.id in repository.docs
                && var content := repository.docs[r.value.id].content;
                   r.value == Message(r.value.id, content.body, Decoded(content.headers))
      ensures r.Failure? && (r.error.NotFound? || fate.FailsUnapplied?) ==> Abs() == old(Abs())
      ensures r == Failure(DatabaseError) && fate.FailsApplied? ==>
                exists id :: Enabled(old(Abs()), Fetch(0, id))
                             && Abs() == Next(Next(old(Abs()), Fetch(0, id)), DropFetched(0))
    {
      ghost var before := Abs();
      var found := repository.FetchAndLock(now, fate);
      match found
      case Success((id, entity)) =>
        fetched := Some(Message(id, entity.content.body, Decoded(entity.content.headers)));
        r := Success(fetched.value);
      case Failure(error) =>
        if error.DatabaseError? && fate.FailsApplied? {
          ghost var id :| IsNext(before.docs, id, now)
                          && repository.docs == before.docs[id := Locked(before.docs[id], now, before.maxBackoff)];
          FetchThenDrop(before, id);
        }
        r := Failure(error);
    }

    /** Fetcher: hands the locked entity to the channel, or drops it when cancelled. */
    method HandOver(cancelled: bool)
      requires fetched.Some? && (cancelled || |entitiesChan| < ENTITIES_CAPACITY)
      modifies this
      ensures Abs() == Next(old(Abs()), if cancelled then DropFetched(0) else PushFetched(0))
      ensures fetched == None && entitiesChan == old(entitiesChan) + if cancelled then [] else [old(fetched.value)]
    {
      if !cancelled {
        pushed := pushed + [fetched.value];
        entitiesChan := entitiesChan + [fetched.value];
      }
      fetched := None;
    }

    /** Sender: takes one entity and produces it; the promise is now outstanding. */
    method SendNext()
      requires entitiesChan != []
      modifies this
      ensures Abs() == Next(old(Abs()), Take(0))
      ensures var m := old(entitiesChan[0]);
              && entitiesChan == old(entitiesChan[1..])
              && inflight == old(inflight) + [Record(m.id, Content(m.body, HeadersOf(maps, m.headers)))]
    {
      var entity := entitiesChan[0];
      entitiesChan := entitiesChan[1..];
      taken := taken + [entity];
      inflight := inflight + [Record(entity.id, Content(entity.body, HeadersOf(maps, entity.headers)))];
    }

    /** The promise of one outstanding record fires. */
    method Callback(k: nat, ok: bool)
      requires k < |inflight| && |confirmChan| < CONFIRM_CAPACITY
      modifies this
      ensures Abs() == Next(old(Abs()), Step.Callback(0, k, ok))
      ensures inflight == old(inflight[..k] + inflight[k + 1..])
      ensures confirmChan == old(confirmChan) + [ConfirmResult(old(inflight[k].id), ok)]
    {
      var m := inflight[k];
      OneStep(Abs(), Step.Callback(0, k, ok));
      acked := if ok then acked + {m.id} else acked;
      inflight := Remove(inflight, k);
      called := called + [ConfirmResult(m.id, ok)];
      confirmChan := confirmChan + [ConfirmResult(m.id, ok)];
    }

    method FlushResults()
      modifies this`results, this`batches, this`running
      ensures Abs().procs[0] == Flushed(old(Abs()).procs[0])
    {
      if |results| == 0 {
        return;
      }
      running := running + {|batches|};
      batches := batches + [results];
      results := [];
    }

    /** Confirmer: one result received. */
    method ReceiveResult()
      requires confirmChan != []
      modifies this
      ensures Abs() == Next(old(Abs()), Receive(0))
      ensures var grown := old(results) + [old(confirmChan[0])];
              && confirmChan == old(confirmChan[1..])
              && if |grown| == 100 then results == [] && batches == old(batches) + [grown]
                 else results == grown && batches == old(batches)
    {
      results := results + [confirmChan[0]];
      confirmChan := confirmChan[1..];
      if |results| == BATCH_SIZE {
        FlushResults();
      }
    }

    /** Confirmer: the ticker fired, or the context was cancelled. */
    method TickOrShutdown()
      modifies this
      ensures Abs() == Next(old(Abs()), Flush(0)) && results == []
      ensures batches == old(batches) + if old(results) == [] then [] else [old(results)]
    {
      FlushResults();
    }

    /** handleConfirmation of one flushed batch; an update that fails, after reaching some of the ids, is logged and
        forgotten. */
    method HandleBatch(k: nat, failure: Option<set<Id>>)
      requires k in running && k < |batches|
      modifies this, repository
      ensures Abs() == Next(old(Abs()), Handle(0, k, Applied(DeliveredIds(old(batches)[k]), failure)))
      ensures running == old(running) - {k}
      ensures forall id :: id in repository.docs ==>
                if id in DeliveredIds(old(batches)[k]) && (failure.None? || id in failure.value)
                then repository.docs[id].status == Sent else repository.docs[id] == old(repository.docs)[id]
    {
      running := running - {k};
      var updated := repository.UpdateAsSentByIDs(DeliveredIds(batches[k]), now, failure);
    }
  }
}
