/** The stored state of the transactional outbox (pkg/kafka/outbox/repository.go).
    Times are integer milliseconds, as stored by the database. */
module OutboxStore {
  import opened Wrappers

  // Lease taken by a fetch, and base delay of the exponential backoff: 30 seconds each.
  const LEASE_MILLIS: int := 30000
  const BASE_DELAY_MILLIS: int := 30000

  // Lease and first-attempt delay of a freshly created entity: 10 seconds.
  const CREATE_DELAY_MILLIS: int := 10000

  // Documents live for 5 days after createdAt (schema.go).
  const TTL_MILLIS: int := 5 * 24 * 60 * 60 * 1000

  datatype Body = Body(payload: seq<bv8>, key: string, topic: string)

  datatype Content = Content(body: Body, headers: HeaderMap)

  datatype Status = Processing | Sent

  // UpdateAsSentByIDs unsets both deadlines, so they are optional.
  datatype Entity = Entity(
    content: Content,
    status: Status,
    createdAt: Time,
    sentAt: Option<Time>,
    lockExpiresAt: Option<Time>,
    nextAttemptAfter: Option<Time>,
    attemptsToSend: nat,
    confirmations: nat)

  type Docs = map<Id, Entity>

  datatype StoreError = NotFound | DuplicateKey | DatabaseError

  function Pow2(n: nat): (p: nat)
    ensures p > 0
  {
    if n == 0 then 1 else 2 * Pow2(n - 1)
  }

  function Min(a: int, b: int): int { if a <= b then a else b }

  function Max(a: int, b: int): int { if a >= b then a else b }

  /** min(30 s * 2^attempts, maxBackoff). */
  function Backoff(attempts: nat, cap: nat): (d: nat)
  {
    Min(BASE_DELAY_MILLIS * Pow2(attempts), cap)
  }

  /** The filter of FetchAndLock; a missing field never compares less. */
  predicate Eligible(e: Entity, now: Time)
  {
    && e.status.Processing?
    && e.nextAttemptAfter.Some? && e.nextAttemptAfter.value < now
    && e.lockExpiresAt.Some? && e.lockExpiresAt.value < now
  }

  /** Ascending database order, where a missing field comes first. */
  predicate FieldLess(a: Option<Time>, b: Option<Time>)
  {
    b.Some? && (a.None? || a.value < b.value)
  }

  /** The sort of FetchAndLock: nextAttemptAfter, then createdAt; ties are left open. */
  predicate SortsBefore(a: Entity, b: Entity)
  {
    || FieldLess(a.nextAttemptAfter, b.nextAttemptAfter)
    || (a.nextAttemptAfter == b.nextAttemptAfter && a.createdAt <= b.createdAt)
  }

  /** `id` may be the document that FetchAndLock picks. */
  predicate IsNext(docs: Docs, id: Id, now: Time)
  {
    && id in docs
    && Eligible(docs[id], now)
    && forall o :: o in docs && Eligible(docs[o], now) ==> SortsBefore(docs[id], docs[o])
  }

  function NewEntity(content: Content, now: Time): Entity
  {
    Entity(content, Processing, now, None, Some(now + CREATE_DELAY_MILLIS), Some(now + CREATE_DELAY_MILLIS), 0, 0)
  }

  /** The update pipeline of FetchAndLock; every expression reads the document as it was before. */
  function Locked(e: Entity, now: Time, cap: nat): Entity
  {
    e.(lockExpiresAt := Some(now + LEASE_MILLIS),
       attemptsToSend := e.attemptsToSend + 1,
       nextAttemptAfter := Some(now + Backoff(e.attemptsToSend, cap)))
  }

  function Confirmed(e: Entity, now: Time): Entity
  {
    e.(status := Sent, sentAt := Some(now), lockExpiresAt := None, nextAttemptAfter := None,
       confirmations := e.confirmations + 1)
  }

  function ConfirmAll(docs: Docs, ids: set<Id>, now: Time): Docs
  {
    map id | id in docs :: if id in ids then Confirmed(docs[id], now) else docs[id]
  }

  /** The ids that an update of several documents reached: all of them, or a part when it failed. */
  function Applied(ids: seq<Id>, failure: Option<set<Id>>): set<Id>
  {
    if failure.None? then AsSet(ids) else AsSet(ids) * failure.value
  }

  /** The sort is a total preorder on the eligible documents, so a first one exists. */
  lemma {:induction false} NextExists(docs: Docs, ids: set<Id>, now: Time) returns (first: Id)
    requires ids != {}
    requires forall id :: id in ids ==> id in docs && Eligible(docs[id], now)
    ensures first in ids
    ensures forall o :: o in ids ==> SortsBefore(docs[first], docs[o])
    decreases |ids|
  {
    var some :| some in ids;
    var rest := ids - {some};
    if rest == {} {
      assert ids == {some};
      first := some;
    } else {
      var other := NextExists(docs, rest, now);
      first := if SortsBefore(docs[some], docs[other]) then some else other;
      assert forall o :: o in ids ==> o == some || o in rest;
    }
  }

  lemma SomeNextExists(docs: Docs, id: Id, now: Time)
    requires id in docs && Eligible(docs[id], now)
    ensures exists first :: IsNext(docs, first, now)
  {
    var eligible := set o | o in docs && Eligible(docs[o], now);
    assert id in eligible;
    var first := NextExists(docs, eligible, now);
    assert IsNext(docs, first, now);
  }

  /** The collection behind the Repository interface; every method is one atomic database command. */
  class OutboxRepository {
    var docs: Docs
    const maxBackoffMillis: nat

    constructor (maxBackoffMillis: nat)
      ensures docs == map[] && this.maxBackoffMillis == maxBackoffMillis
    {
      this.docs := map[];
      this.maxBackoffMillis := maxBackoffMillis;
    }

    /** Not found exactly when nothing is eligible; otherwise leases a first eligible document and returns it: the
        one whose next attempt is due longest, and of those the oldest. Only its lease, its counter and its next
        attempt change. A command that reports another error may have leased it all the same. */
    method FetchAndLock(now: Time, fate: Fate) returns (r: Result<(Id, Entity), StoreError>)
      modifies this
      ensures r == Failure(NotFound) <==>
                !fate.FailsUnapplied? && forall id :: id in old(docs) ==> !Eligible(old(docs)[id], now)
      ensures r.Success? ==>
                && fate.Succeeds? && IsNext(old(docs), r.value.0, now)
                && r.value.1 == Locked(old(docs)[r.value.0], now, maxBackoffMillis)
                && docs == old(docs)[r.value.0 := r.value.1]
      ensures r.Success? ==>
                var e, e' := old(docs)[r.value.0], r.value.1;
                && e.status == Processing && e.nextAttemptAfter.Some? && e.nextAttemptAfter.value < now
                && e.lockExpiresAt.Some? && e.lockExpiresAt.value < now
                && (forall o :: o in old(docs) && Eligible(old(docs)[o], now) ==>
                      || old(docs)[o].nextAttemptAfter.value > e.nextAttemptAfter.value
                      || (&& old(docs)[o].nextAttemptAfter == e.nextAttemptAfter
                          && e.createdAt <= old(docs)[o].createdAt))
                && e'.lockExpiresAt == Some(now + 30000)
                && e'.attemptsToSend == e.attemptsToSend + 1
                && (e'.nextAttemptAfter == Some(now + 30000 * Pow2(e.attemptsToSend))
                    || (30000 * Pow2(e.attemptsToSend) > maxBackoffMillis
                        && e'.nextAttemptAfter == Some(now + maxBackoffMillis)))
                && (30000 * Pow2(e.attemptsToSend) > maxBackoffMillis ==>
                      e'.nextAttemptAfter == Some(now + maxBackoffMillis))
                && e'.content == e.content && e'.status == e.status && e'.createdAt == e.createdAt
                && e'.sentAt == e.sentAt && e'.confirmations == e.confirmations
      ensures r.Failure? ==> r.error.NotFound? || (r.error.DatabaseError? && !fate.Succeeds?)
      ensures r.Failure? && (r.error.NotFound? || fate.FailsUnapplied?) ==> docs == old(docs)
      ensures r.Failure? && r.error.DatabaseError? && fate.FailsApplied? ==>
                exists id :: IsNext(old(docs), id, now)
                             && docs == old(docs)[id := Locked(old(docs)[id], now, maxBackoffMillis)]
    {
      if fate.FailsUnapplied? {
        return Failure(DatabaseError);
      }
      if id :| id in docs && Eligible(docs[id], now) {
        SomeNextExists(docs, id, now);
        var first :| first in docs && IsNext(docs, first, now);
        var entity := Locked(docs[first], now, maxBackoffMillis);
        docs := docs[first := entity];
        r := if fate.Succeeds? then Success((first, entity)) else Failure(DatabaseError);
      } else {
        r := Failure(NotFound);
      }
    }

    method Create(id: Id, content: Content, now: Time, fate: Fate) returns (r: Result<Entity, StoreError>)
      modifies this
      ensures fate.FailsUnapplied? ==> r == Failure(DatabaseError) && docs == old(docs)
      ensures !fate.FailsUnapplied? && id in old(docs) ==> r == Failure(DuplicateKey) && docs == old(docs)
      ensures !fate.FailsUnapplied? && id !in old(docs) ==>
                && docs == old(docs)[id := NewEntity(content, now)]
                && r == (if fate.Succeeds? then Success(docs[id]) else Failure(DatabaseError))
                && docs[id] == Entity(content, Processing, now, None, Some(now + 10000), Some(now + 10000), 0, 0)
    {
      if fate.FailsUnapplied? {
        return Failure(DatabaseError);
      }
      if id in docs {
        return Failure(DuplicateKey);
      }
      var entity := NewEntity(content, now);
      docs := docs[id := entity];
      r := if fate.Succeeds? then Success(entity) else Failure(DatabaseError);
    }

    /** Confirms every listed document, whatever its status; unknown ids are ignored. `failure` is None, or the ids
        that were reached before the update failed. */
    method UpdateAsSentByIDs(ids: seq<Id>, now: Time, failure: Option<set<Id>>) returns (ok: bool)
      modifies this
      ensures ok == failure.None?
      ensures docs.Keys == old(docs).Keys
      ensures forall id :: id in docs && (id !in ids || (!ok && id !in failure.value)) ==> docs[id] == old(docs)[id]
      ensures forall id :: id in docs && id in ids && (ok || id in failure.value) ==>
                var e, e' := old(docs)[id], docs[id];
                && e'.status.Sent? && e'.sentAt == Some(now)
                && e'.lockExpiresAt == None && e'.nextAttemptAfter == None
                && e'.confirmations == e.confirmations + 1
                && e'.content == e.content && e'.createdAt == e.createdAt && e'.attemptsToSend == e.attemptsToSend
      ensures docs == ConfirmAll(old(docs), Applied(ids, failure), now)
    {
      docs := ConfirmAll(docs, Applied(ids, failure), now);
      ok := failure.None?;
    }
  }
}
