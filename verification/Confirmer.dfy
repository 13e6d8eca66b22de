/** The Confirmer (pkg/kafka/outbox/confirmer.go): one reused buffer, flushed when it holds 100 results,
    on every tick, and at shutdown. */
module Confirmer {
  import opened Wrappers
  import opened ConfirmerSpec
  import opened OutboxStore

  // What the select statement of Run can deliver; the end of the sequence is the cancellation.
  datatype Event = Received(result: ConfirmResult) | Ticked

  function ReceivedIn(events: seq<Event>): seq<ConfirmResult>
  {
    if events == [] then []
    else (if events[0].Received? then [events[0].result] else []) + ReceivedIn(events[1..])
  }

  /** Full batches first, then the remainder. */
  function Chunks(results: seq<ConfirmResult>): seq<seq<ConfirmResult>>
  {
    if results == [] then []
    else if |results| < BATCH_SIZE then [results]
    else [results[..BATCH_SIZE]] + Chunks(results[BATCH_SIZE..])
  }

  /** The intended batches: cut the stream at the ticks, then each piece into chunks. `open` is the piece so far. */
  function Intended(events: seq<Event>, open: seq<ConfirmResult>): seq<seq<ConfirmResult>>
  {
    if events == [] then Chunks(open)
    else match events[0]
      case Received(r) => Intended(events[1..], open + [r])
      case Ticked => Chunks(open) + Intended(events[1..], [])
  }

  function NonEmpty(buffer: seq<ConfirmResult>): seq<seq<ConfirmResult>>
  {
    if buffer == [] then [] else [buffer]
  }

  /** What one event flushes, and what it leaves in the buffer. */
  function Emits(e: Event, buffer: seq<ConfirmResult>): seq<seq<ConfirmResult>>
  {
    match e
    case Received(r) => if |buffer| + 1 == BATCH_SIZE then [buffer + [r]] else []
    case Ticked => NonEmpty(buffer)
  }

  function Keeps(e: Event, buffer: seq<ConfirmResult>): seq<ConfirmResult>
  {
    match e
    case Received(r) => if |buffer| + 1 == BATCH_SIZE then [] else buffer + [r]
    case Ticked => []
  }

  /** The batches as the loop produces them, from the contents of its buffer. */
  function Batches(events: seq<Event>, buffer: seq<ConfirmResult>): seq<seq<ConfirmResult>>
  {
    if events == [] then NonEmpty(buffer)
    else Emits(events[0], buffer) + Batches(events[1..], Keeps(events[0], buffer))
  }

  lemma {:induction false} ChunksAppend(full: seq<ConfirmResult>, rest: seq<ConfirmResult>)
    requires |full| % BATCH_SIZE == 0
    ensures Chunks(full + rest) == Chunks(full) + Chunks(rest)
  {
    if full == [] {
      assert full + rest == rest;
    } else {
      var head, tail := full[..BATCH_SIZE], full[BATCH_SIZE..];
      assert (full + rest)[..BATCH_SIZE] == head;
      assert (full + rest)[BATCH_SIZE..] == tail + rest;
      ChunksAppend(tail, rest);
      assert [head] + (Chunks(tail) + Chunks(rest)) == [head] + Chunks(tail) + Chunks(rest);
    }
  }

  lemma ChunksOfOne(buffer: seq<ConfirmResult>)
    requires |buffer| <= BATCH_SIZE
    ensures Chunks(buffer) == NonEmpty(buffer)
  {
    if |buffer| == BATCH_SIZE {
      assert buffer[..BATCH_SIZE] == buffer && buffer[BATCH_SIZE..] == [];
    }
  }

  /** Counting to 100 in a reused buffer cuts the stream exactly as intended. */
  lemma {:induction false} BatchesAreIntended(events: seq<Event>, full: seq<ConfirmResult>, buffer: seq<ConfirmResult>)
    requires |full| % BATCH_SIZE == 0 && |buffer| < BATCH_SIZE
    ensures Intended(events, full + buffer) == Chunks(full) + Batches(events, buffer)
    decreases |events|
  {
    if events == [] {
      ChunksAppend(full, buffer);
      ChunksOfOne(buffer);
    } else {
      var rest := events[1..];
      match events[0]
      case Received(r) =>
        var grown := buffer + [r];
        assert full + buffer + [r] == full + grown;
        if |grown| == BATCH_SIZE {
          ChunkCompleted(full, grown, Batches(rest, []));
          assert full + grown + [] == full + grown;
          BatchesAreIntended(rest, full + grown, []);
        } else {
          BatchesAreIntended(rest, full, grown);
          assert [] + Batches(rest, grown) == Batches(rest, grown);
        }
      case Ticked =>
        TickCut(full, buffer, Batches(rest, []));
        BatchesAreIntended(rest, [], []);
    }
  }

  lemma ChunkCompleted(full: seq<ConfirmResult>, grown: seq<ConfirmResult>, rest: seq<seq<ConfirmResult>>)
    requires |full| % BATCH_SIZE == 0 && |grown| == BATCH_SIZE
    ensures Chunks(full + grown) + rest == Chunks(full) + ([grown] + rest)
  {
    ChunksAppend(full, grown);
    ChunksOfOne(grown);
    Associative(Chunks(full), [grown], rest);
  }

  lemma TickCut(full: seq<ConfirmResult>, buffer: seq<ConfirmResult>, rest: seq<seq<ConfirmResult>>)
    requires |full| % BATCH_SIZE == 0 && |buffer| < BATCH_SIZE
    ensures Chunks(full + buffer) + (Chunks([]) + rest) == Chunks(full) + (NonEmpty(buffer) + rest)
  {
    ChunksAppend(full, buffer);
    ChunksOfOne(buffer);
    assert Chunks([]) + rest == rest;
    Associative(Chunks(full), NonEmpty(buffer), rest);
  }

  lemma OneEventConserves(e: Event, buffer: seq<ConfirmResult>)
    requires |buffer| < BATCH_SIZE
    ensures Flatten(Emits(e, buffer)) + Keeps(e, buffer) == buffer + ReceivedIn([e])
    ensures |Keeps(e, buffer)| < BATCH_SIZE
    ensures forall b :: b in Emits(e, buffer) ==> 0 < |b| <= BATCH_SIZE
  {
    FlattenNonEmpty(buffer);
    match e
    case Received(r) => FlattenNonEmpty(buffer + [r]);
    case Ticked =>
  }

  lemma ReceivedInCons(e: Event, rest: seq<Event>)
    ensures ReceivedIn([e] + rest) == ReceivedIn([e]) + ReceivedIn(rest)
  {
    assert ([e] + rest)[1..] == rest;
  }

  lemma {:induction false} BatchesConserve(events: seq<Event>, buffer: seq<ConfirmResult>)
    requires |buffer| < BATCH_SIZE
    ensures Flatten(Batches(events, buffer)) == buffer + ReceivedIn(events)
    ensures forall b :: b in Batches(events, buffer) ==> 0 < |b| <= BATCH_SIZE
    decreases |events|
  {
    if events == [] {
      FlattenNonEmpty(buffer);
    } else {
      var e, rest := events[0], events[1..];
      OneEventConserves(e, buffer);
      BatchesConserve(rest, Keeps(e, buffer));
      FlattenAppend(Emits(e, buffer), Batches(rest, Keeps(e, buffer)));
      ReceivedInCons(e, rest);
      assert events == [e] + rest;
      Associative(Flatten(Emits(e, buffer)), Keeps(e, buffer), ReceivedIn(rest));
      Associative(buffer, ReceivedIn([e]), ReceivedIn(rest));
    }
  }

  /** What reaches handleConfirmation over a whole run: every received result once, in order, in batches of 1 to 100. */
  lemma IntendedConserves(events: seq<Event>)
    ensures Flatten(Intended(events, [])) == ReceivedIn(events)
    ensures forall b :: b in Intended(events, []) ==> 0 < |b| <= 100
  {
    IntendedFromEmpty(events);
    BatchesConserve(events, []);
    assert [] + ReceivedIn(events) == ReceivedIn(events);
  }

  /** A tick cuts the stream: what came before it is flushed without what comes after. */
  lemma TicksCut(a: seq<Event>, b: seq<Event>)
    ensures Intended(a + [Ticked] + b, []) == Intended(a, []) + Intended(b, [])
  {
    TicksCutAfter(a, b, []);
  }

  lemma {:induction false} TicksCutAfter(a: seq<Event>, b: seq<Event>, open: seq<ConfirmResult>)
    ensures Intended(a + [Ticked] + b, open) == Intended(a, open) + Intended(b, [])
    decreases |a|
  {
    var events := a + [Ticked] + b;
    if a == [] {
      assert events[0] == Ticked && events[1..] == b;
    } else {
      assert events[0] == a[0] && events[1..] == a[1..] + [Ticked] + b;
      match a[0]
      case Received(r) => TicksCutAfter(a[1..], b, open + [r]);
      case Ticked =>
        TicksCutAfter(a[1..], b, []);
        Associative(Chunks(open), Intended(a[1..], []), Intended(b, []));
    }
  }

  /** Between ticks every batch but the last is full. */
  lemma {:induction false} FullBetweenTicks(events: seq<Event>, open: seq<ConfirmResult>, k: nat)
    requires (forall e :: e in events ==> e.Received?) && k < |Intended(events, open)| - 1
    ensures |Intended(events, open)[k]| == 100
    decreases |events|
  {
    if events == [] {
      FullChunks(open, k);
    } else {
      assert events[0] in events;
      FullBetweenTicks(events[1..], open + [events[0].result], k);
    }
  }

  lemma {:induction false} FullChunks(results: seq<ConfirmResult>, k: nat)
    requires k < |Chunks(results)| - 1
    ensures |Chunks(results)[k]| == 100
  {
    if k > 0 {
      FullChunks(results[BATCH_SIZE..], k - 1);
    }
  }

  lemma IntendedFromEmpty(events: seq<Event>)
    ensures Intended(events, []) == Batches(events, [])
  {
    var none: seq<ConfirmResult> := [];
    assert none + none == none;
    BatchesAreIntended(events, none, none);
    assert Chunks(none) + Batches(events, none) == Batches(events, none);
  }

  lemma FlattenNonEmpty(buffer: seq<ConfirmResult>)
    ensures Flatten(NonEmpty(buffer)) == buffer
  {
    FlattenSnoc([], buffer);
    assert [] + [buffer] == [buffer];
    assert Flatten<ConfirmResult>([]) == [];
  }

  ghost function Contents(batches: seq<array<ConfirmResult>>): seq<seq<ConfirmResult>>
    reads batches
  {
    seq(|batches|, i requires 0 <= i < |batches| reads batches => batches[i][..])
  }

  /** flush: a non-empty buffer is copied into an array of its own. */
  method Flush(results: array<ConfirmResult>, len: nat, batches: seq<array<ConfirmResult>>)
    returns (flushed: seq<array<ConfirmResult>>)
    requires len <= results.Length
    ensures Contents(flushed) == Contents(batches) + NonEmpty(results[..len])
    ensures forall b :: b in flushed ==> b in batches || fresh(b)
  {
    if len == 0 {
      return batches;
    }
    var copySlice := new ConfirmResult[len];
    forall i | 0 <= i < len {
      copySlice[i] := results[i];
    }
    assert copySlice[..] == results[..len];
    flushed := batches + [copySlice];
  }

  /** One turn of the select: append and flush at 100, or flush on a tick. */
  method Turn(event: Event, results: array<ConfirmResult>, len: nat, batches: seq<array<ConfirmResult>>)
    returns (len': nat, batches': seq<array<ConfirmResult>>)
    requires len < results.Length == BATCH_SIZE && results !in batches
    modifies results
    ensures len' < results.Length && results[..len'] == Keeps(event, old(results[..len]))
    ensures Contents(batches') == old(Contents(batches)) + Emits(event, old(results[..len]))
    ensures forall b :: b in batches' ==> b in batches || fresh(b)
  {
    len', batches' := len, batches;
    match event {
      case Received(result) =>
        results[len] := result;
        len' := len + 1;
        assert results[..len'] == old(results[..len]) + [result];
        assert forall k :: 0 <= k < |batches| ==> batches[k] in batches;
        assert Contents(batches) == old(Contents(batches));
        if len' == BATCH_SIZE {
          batches' := Flush(results, len', batches);
          len' := 0;
        }
      case Ticked =>
        batches' := Flush(results, len, batches);
        len' := 0;
    }
  }

  /** The Run loop. When it returns, nothing is left in the buffer, and every flushed array still holds what
      was flushed, although the buffer has been overwritten since. */
  method Run(events: seq<Event>) returns (batches: seq<array<ConfirmResult>>)
    ensures Contents(batches) == Intended(events, [])
    ensures forall b :: b in batches ==> fresh(b)
  {
    var results := new ConfirmResult[BATCH_SIZE];
    var len := 0;
    batches := [];
    var i := 0;
    while i < |events|
      invariant 0 <= i <= |events| && 0 <= len < BATCH_SIZE
      invariant fresh(results) && forall b :: b in batches ==> fresh(b) && b != results
      invariant Batches(events, []) == Contents(batches) + Batches(events[i..], results[..len])
    {
      ghost var rest := events[i..];
      assert rest[0] == events[i] && rest[1..] == events[i + 1..];
      Associative(Contents(batches), Emits(events[i], results[..len]),
                  Batches(events[i + 1..], Keeps(events[i], results[..len])));
      len, batches := Turn(events[i], results, len, batches);
      i := i + 1;
    }
    assert events[i..] == [];
    batches := Flush(results, len, batches);
    IntendedFromEmpty(events);
  }

  lemma {:induction false} DeliveredIdsSnoc(results: seq<ConfirmResult>, r: ConfirmResult)
    ensures DeliveredIds(results + [r]) == DeliveredIds(results) + if r.ok then [r.id] else []
  {
    if results == [] {
      assert results + [r] == [r];
    } else {
      assert (results + [r])[1..] == results[1..] + [r];
      DeliveredIdsSnoc(results[1..], r);
    }
  }

  lemma ConfirmNone(docs: Docs, applied: set<Id>, now: Time)
    ensures applied == {} ==> ConfirmAll(docs, applied, now) == docs
  {
  }

  /** Marks exactly the delivered ids of the batch as sent, or some of them when the update fails; the failure is
      logged and forgotten. */
  method HandleConfirmation(results: array<ConfirmResult>, repository: OutboxRepository, now: Time,
                            failure: Option<set<Id>>)
    modifies repository
    ensures repository.docs == ConfirmAll(old(repository.docs), Applied(DeliveredIds(results[..]), failure), now)
    ensures repository.docs.Keys == old(repository.docs).Keys
    ensures forall id :: id in repository.docs ==>
              if ConfirmResult(id, true) in results[..] && (failure.None? || id in failure.value)
              then repository.docs[id].status == Sent && repository.docs[id].content == old(repository.docs)[id].content
              else repository.docs[id] == old(repository.docs)[id]
  {
    var ids := [];
    var i := 0;
    while i < results.Length
      invariant 0 <= i <= results.Length
      invariant ids == DeliveredIds(results[..i])
      invariant repository.docs == old(repository.docs)
    {
      assert results[..i + 1] == results[..i] + [results[i]];
      DeliveredIdsSnoc(results[..i], results[i]);
      if results[i].ok {
        ids := ids + [results[i].id];
      }
      i := i + 1;
    }
    assert results[..i] == results[..];
    assert ids == DeliveredIds(results[..]);
    forall id ensures id in ids <==> ConfirmResult(id, true) in results[..] {
      DeliveredIdsMeaning(results[..], id);
    }
    ConfirmNone(repository.docs, Applied(ids, failure), now);
    if |ids| == 0 {
      return;
    }
    var updated := repository.UpdateAsSentByIDs(ids, now, failure);
  }
}
