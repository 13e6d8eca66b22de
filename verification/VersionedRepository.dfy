/** The generic versioned repository (pkg/mongo/generic_repository.go) over one collection of documents. */
module VersionedRepository {
  import opened Wrappers

  datatype RepositoryError = EntityNotFound | OptimisticLocking | DuplicateKey | DatabaseError

  datatype EntityMapper<!D, !E> = EntityMapper(
    toEntity: D -> E,
    toDomain: E -> D,
    getId: E -> Id,
    getVersion: E -> int,
    setVersion: (E, int) -> E)

  /** What every mapper has to provide: the version can be set, and conversions keep id and version. */
  ghost predicate Lawful<D(!new), E(!new)>(m: EntityMapper<D, E>)
  {
    && (forall e, v :: m.getVersion(m.setVersion(e, v)) == v && m.getId(m.setVersion(e, v)) == m.getId(e))
    && (forall e :: m.getVersion(m.toEntity(m.toDomain(e))) == m.getVersion(e))
    && (forall e :: m.getId(m.toEntity(m.toDomain(e))) == m.getId(e))
  }

  /** Each document is stored under its own id. */
  ghost predicate WellKeyed<D, E>(m: EntityMapper<D, E>, docs: map<Id, E>)
  {
    forall id :: id in docs ==> m.getId(docs[id]) == id
  }

  /** The replacement that Update sends: the same entity, one version on. */
  function Bumped<D, E>(m: EntityMapper<D, E>, domain: D): E
  {
    var entity := m.toEntity(domain);
    m.setVersion(entity, m.getVersion(entity) + 1)
  }

  /** The filter of Update: the document exists and still has the version the domain object was read with. */
  predicate Current<D, E>(m: EntityMapper<D, E>, docs: map<Id, E>, domain: D)
  {
    var entity := m.toEntity(domain);
    m.getId(entity) in docs && m.getVersion(docs[m.getId(entity)]) == m.getVersion(entity)
  }

  /** A version at least as new is stored. */
  predicate Stale<D, E>(m: EntityMapper<D, E>, docs: map<Id, E>, entity: E)
  {
    m.getId(entity) in docs && m.getVersion(docs[m.getId(entity)]) >= m.getVersion(entity)
  }

  function Upserted<D, E>(m: EntityMapper<D, E>, docs: map<Id, E>, entity: E): map<Id, E>
  {
    if Stale(m, docs, entity) then docs else docs[m.getId(entity) := entity]
  }

  class GenericRepository<D(!new), E(!new)> {
    var docs: map<Id, E>
    const mapper: EntityMapper<D, E>

    constructor (mapper: EntityMapper<D, E>)
      ensures this.mapper == mapper && docs == map[]
    {
      this.mapper := mapper;
      this.docs := map[];
    }

    method Insert(domain: D, fate: Fate) returns (r: Option<RepositoryError>)
      requires Lawful(mapper) && WellKeyed(mapper, docs)
      modifies this
      ensures WellKeyed(mapper, docs)
      ensures var e := mapper.toEntity(domain);
              if fate.FailsUnapplied? then r == Some(DatabaseError) && docs == old(docs)
              else if mapper.getId(e) in old(docs) then r == Some(DuplicateKey) && docs == old(docs)
              else r == (if fate.Succeeds? then None else Some(DatabaseError))
                   && docs == old(docs)[mapper.getId(e) := e]
    {
      if fate.FailsUnapplied? {
        return Some(DatabaseError);
      }
      var entity := mapper.toEntity(domain);
      if mapper.getId(entity) in docs {
        return Some(DuplicateKey);
      }
      docs := docs[mapper.getId(entity) := entity];
      r := if fate.Succeeds? then None else Some(DatabaseError);
    }

    /** `readFails` covers the query and the decoding of its result. */
    method FindByID(id: Id, readFails: bool) returns (r: Result<D, RepositoryError>)
      ensures r.Success? <==> !readFails && id in docs
      ensures r.Success? ==> r.value == mapper.toDomain(docs[id])
      ensures r.Failure? ==> r.error == if readFails then DatabaseError else EntityNotFound
    {
      if readFails {
        return Failure(DatabaseError);
      }
      if id !in docs {
        return Failure(EntityNotFound);
      }
      r := Success(mapper.toDomain(docs[id]));
    }

    /** Optimistic locking: replaces the document exactly when nobody has changed its version since. A command that
        reports an error, or whose answer cannot be decoded, may have replaced it all the same. */
    method Update(domain: D, fate: Fate) returns (r: Result<D, RepositoryError>)
      requires Lawful(mapper) && WellKeyed(mapper, docs)
      modifies this
      ensures WellKeyed(mapper, docs)
      ensures docs == if Current(mapper, old(docs), domain) && !fate.FailsUnapplied?
                      then old(docs)[mapper.getId(mapper.toEntity(domain)) := Bumped(mapper, domain)]
                      else old(docs)
      ensures var sent := mapper.toEntity(domain);
              var id, version := mapper.getId(sent), mapper.getVersion(sent);
              docs == if id in old(docs) && mapper.getVersion(old(docs)[id]) == version && !fate.FailsUnapplied?
                      then old(docs)[id := mapper.setVersion(sent, version + 1)] else old(docs)
      ensures r.Success? <==> Current(mapper, old(docs), domain) && fate.Succeeds?
      ensures r.Success? ==> r.value == mapper.toDomain(Bumped(mapper, domain))
      ensures r.Failure? ==> r.error == if fate.FailsUnapplied? || Current(mapper, old(docs), domain)
                                        then DatabaseError else OptimisticLocking
    {
      if fate.FailsUnapplied? {
        return Failure(DatabaseError);
      }
      var entity := mapper.toEntity(domain);
      var currentVersion := mapper.getVersion(entity);
      entity := mapper.setVersion(entity, currentVersion + 1);
      var id := mapper.getId(entity);
      if id !in docs || mapper.getVersion(docs[id]) != currentVersion {
        return Failure(OptimisticLocking);
      }
      docs := docs[id := entity];
      if fate.FailsApplied? {
        return Failure(DatabaseError);
      }
      r := Success(mapper.toDomain(docs[id]));
    }

    method Delete(id: Id, fate: Fate) returns (ok: bool)
      requires WellKeyed(mapper, docs)
      modifies this
      ensures WellKeyed(mapper, docs) && ok == fate.Succeeds?
      ensures docs == if fate.FailsUnapplied? then old(docs) else old(docs) - {id}
    {
      if !fate.FailsUnapplied? {
        docs := docs - {id};
      }
      ok := fate.Succeeds?;
    }

    /** ReplaceOne with upsert, filtered by id and an older version: a document that matches is replaced; otherwise
        the entity is inserted, which the unique id forbids when a document with that id is stored. */
    method ReplaceIfOlder(entity: E, fate: Fate) returns (r: Result<(nat, nat), RepositoryError>)
      requires WellKeyed(mapper, docs)
      modifies this
      ensures WellKeyed(mapper, docs)
      ensures docs == if fate.FailsUnapplied? then old(docs) else Upserted(mapper, old(docs), entity)
      ensures fate.FailsUnapplied? ==> r == Failure(DatabaseError)
      ensures !fate.FailsUnapplied? ==>
                r == if Stale(mapper, old(docs), entity) then Failure(DuplicateKey)
                     else if fate.FailsApplied? then Failure(DatabaseError)
                     else if mapper.getId(entity) in old(docs) then Success((1, 0)) else Success((0, 1))
    {
      if fate.FailsUnapplied? {
        return Failure(DatabaseError);
      }
      var id := mapper.getId(entity);
      var matched, upserted := 0, 0;
      if id in docs && mapper.getVersion(docs[id]) < mapper.getVersion(entity) {
        matched := 1;
      } else if id in docs {
        return Failure(DuplicateKey);
      } else {
        upserted := 1;
      }
      docs := docs[id := entity];
      if fate.FailsApplied? {
        return Failure(DatabaseError);
      }
      r := Success((matched, upserted));
    }

    /** Stores the entity unless the stored version is at least as new. A stale call changes nothing and gets the
        database's duplicate-key error: `false` without an error is never returned. */
    method UpsertIfNewer(domain: D, fate: Fate) returns (r: Result<bool, RepositoryError>)
      requires WellKeyed(mapper, docs)
      modifies this
      ensures WellKeyed(mapper, docs)
      ensures docs == if fate.FailsUnapplied? then old(docs) else Upserted(mapper, old(docs), mapper.toEntity(domain))
      ensures var e := mapper.toEntity(domain);
              var id := mapper.getId(e);
              docs == if fate.FailsUnapplied?
                         || (id in old(docs) && mapper.getVersion(old(docs)[id]) >= mapper.getVersion(e))
                      then old(docs) else old(docs)[id := e]
      ensures r != Success(false)
      ensures r == Failure(DuplicateKey) <==>
                !fate.FailsUnapplied? && Stale(mapper, old(docs), mapper.toEntity(domain))
      ensures r.Success? <==> fate.Succeeds? && !Stale(mapper, old(docs), mapper.toEntity(domain))
      ensures r.Failure? ==> r.error.DuplicateKey? || r.error.DatabaseError?
      ensures r.Failure? && docs != old(docs) ==> fate.FailsApplied?
    {
      var entity := mapper.toEntity(domain);
      var result := ReplaceIfOlder(entity, fate);
      if result.Failure? {
        return Failure(result.error);
      }
      var (matchedCount, upsertedCount) := result.value;
      r := Success(matchedCount > 0 || upsertedCount > 0);
    }
  }

  // ---------- UpsertIfNewer converges ----------

  function UpsertAll<D, E>(m: EntityMapper<D, E>, docs: map<Id, E>, es: seq<E>): map<Id, E>
    decreases |es|
  {
    if es == [] then docs else UpsertAll(m, Upserted(m, docs, es[0]), es[1..])
  }

  /** The entity was stored under `id` at the start, or is one of those upserted for it. */
  ghost predicate Candidate<D, E>(m: EntityMapper<D, E>, docs: map<Id, E>, es: seq<E>, id: Id, e: E)
  {
    (id in docs && e == docs[id]) || (e in es && m.getId(e) == id)
  }

  /** After any sequence of upserts each id holds a candidate of the highest version, and a stored document gives
      way to newer versions only. */
  lemma {:induction false} HighestVersionWins<D, E(!new)>(m: EntityMapper<D, E>, docs: map<Id, E>, es: seq<E>, id: Id)
    ensures var final := UpsertAll(m, docs, es);
            && (id in final <==> exists e :: Candidate(m, docs, es, id, e))
            && (id in final ==> Candidate(m, docs, es, id, final[id]))
            && (forall e :: Candidate(m, docs, es, id, e) ==> m.getVersion(e) <= m.getVersion(final[id]))
            && (id in docs && id in final ==>
                  m.getVersion(final[id]) == m.getVersion(docs[id]) ==> final[id] == docs[id])
    decreases |es|
  {
    if es == [] {
      if id in docs {
        assert Candidate(m, docs, es, id, docs[id]);
      }
    } else {
      var docs', rest := Upserted(m, docs, es[0]), es[1..];
      HighestVersionWins(m, docs', rest, id);
      assert es == [es[0]] + rest;
      forall e | Candidate(m, docs', rest, id, e) ensures Candidate(m, docs, es, id, e) {
      }
      if m.getId(es[0]) == id {
        assert Candidate(m, docs', rest, id, docs'[id]);
        assert Candidate(m, docs, es, id, es[0]);
      } else if id in docs {
        assert Candidate(m, docs', rest, id, docs[id]);
      }
      forall e | Candidate(m, docs, es, id, e)
        ensures id in UpsertAll(m, docs, es) && m.getVersion(e) <= m.getVersion(UpsertAll(m, docs, es)[id])
      {
        if !Candidate(m, docs', rest, id, e) {
          assert Candidate(m, docs', rest, id, docs'[id]);
        }
      }
    }
  }

  /** The upsert is newer than what was stored at the start, and no other upsert for its id is newer still. */
  ghost predicate Newest<D, E(!new)>(m: EntityMapper<D, E>, docs: map<Id, E>, es: seq<E>, e: E)
  {
    && e in es && !Stale(m, docs, e)
    && forall f :: f in es && m.getId(f) == m.getId(e) ==> m.getVersion(f) <= m.getVersion(e)
  }

  /** No two different upserts compete for being the newest of their id. Conflicts that a newer version exceeds, or
      with the version stored at the start, do not matter. */
  ghost predicate Unambiguous<D, E(!new)>(m: EntityMapper<D, E>, docs: map<Id, E>, es: seq<E>)
  {
    forall e, f :: Newest(m, docs, es, e) && f in es && m.getId(f) == m.getId(e) && m.getVersion(f) == m.getVersion(e)
      ==> e == f
  }

  ghost predicate SameElements<T(!new)>(a: seq<T>, b: seq<T>)
  {
    forall x :: x in a <==> x in b
  }

  lemma ConvergeAt<D, E(!new)>(m: EntityMapper<D, E>, docs: map<Id, E>, es: seq<E>, fs: seq<E>, id: Id)
    requires Unambiguous(m, docs, es) && SameElements(es, fs)
    ensures var a, b := UpsertAll(m, docs, es), UpsertAll(m, docs, fs);
            (id in a <==> id in b) && (id in a ==> a[id] == b[id])
  {
    var a, b := UpsertAll(m, docs, es), UpsertAll(m, docs, fs);
    HighestVersionWins(m, docs, es, id);
    HighestVersionWins(m, docs, fs, id);
    forall e ensures Candidate(m, docs, es, id, e) <==> Candidate(m, docs, fs, id, e) {
    }
    if id in a {
      assert Candidate(m, docs, es, id, a[id]) && Candidate(m, docs, fs, id, b[id]);
      if !(id in docs && m.getVersion(a[id]) == m.getVersion(docs[id])) {
        forall f | f in es && m.getId(f) == id ensures m.getVersion(f) <= m.getVersion(a[id]) {
          assert Candidate(m, docs, es, id, f);
        }
        if id in docs {
          assert Candidate(m, docs, es, id, docs[id]);
        }
        assert Newest(m, docs, es, a[id]);
      }
    }
  }

  /** Out-of-order and duplicated delivery: the same set of upserts, in any order and any multiplicity, always
      leaves the same store. */
  lemma UpsertsConverge<D, E(!new)>(m: EntityMapper<D, E>, docs: map<Id, E>, es: seq<E>, fs: seq<E>)
    requires Unambiguous(m, docs, es) && SameElements(es, fs)
    ensures UpsertAll(m, docs, es) == UpsertAll(m, docs, fs)
  {
    var a, b := UpsertAll(m, docs, es), UpsertAll(m, docs, fs);
    forall id ensures id in a <==> id in b
              ensures id in a ==> a[id] == b[id]
    {
      ConvergeAt(m, docs, es, fs, id);
    }
    assert a.Keys == b.Keys;
  }

  /** Of the newest upserts for an id, the one that comes first stays. */
  lemma FirstNewestStays<D, E(!new)>(m: EntityMapper<D, E>, docs: map<Id, E>, es: seq<E>, e: E, rest: seq<E>)
    requires Newest(m, docs, es, e) && forall f :: f in rest ==> f in es
    ensures m.getId(e) in UpsertAll(m, docs, [e] + rest) && UpsertAll(m, docs, [e] + rest)[m.getId(e)] == e
  {
    var id, docs' := m.getId(e), docs[m.getId(e) := e];
    assert ([e] + rest)[1..] == rest;
    HighestVersionWins(m, docs', rest, id);
    assert Candidate(m, docs', rest, id, e);
    assert Candidate(m, docs', rest, id, UpsertAll(m, docs', rest)[id]);
  }

  /** A way to deliver the same upserts, each as often as before, with e first. */
  lemma WithFirst<T(!new)>(es: seq<T>, e: T) returns (fs: seq<T>)
    requires e in es
    ensures fs != [] && fs[0] == e && multiset(fs) == multiset(es) && SameElements(es, fs)
  {
    var i :| 0 <= i < |es| && es[i] == e;
    fs := [e] + (es[..i] + es[i + 1..]);
    assert es == es[..i] + [e] + es[i + 1..];
    forall x ensures x in es <==> x in fs {
      assert x in multiset(es) <==> x in multiset(fs);
    }
  }

  /** Two different upserts that compete for being the newest of their id leave different stores, depending on
      which of them is delivered first. */
  lemma ConflictingUpsertsDiverge<D, E(!new)>(m: EntityMapper<D, E>, docs: map<Id, E>, es: seq<E>, e: E, f: E)
    returns (es': seq<E>, fs': seq<E>)
    requires Newest(m, docs, es, e) && f in es && e != f
    requires m.getId(e) == m.getId(f) && m.getVersion(e) == m.getVersion(f)
    ensures multiset(es') == multiset(es) == multiset(fs') && SameElements(es, es') && SameElements(es, fs')
    ensures UpsertAll(m, docs, es') != UpsertAll(m, docs, fs')
  {
    es' := WithFirst(es, e);
    fs' := WithFirst(es, f);
    assert es' == [e] + es'[1..] && fs' == [f] + fs'[1..];
    FirstNewestStays(m, docs, es, e, es'[1..]);
    assert Newest(m, docs, es, f);
    FirstNewestStays(m, docs, es, f, fs'[1..]);
  }

  /** A set of upserts leaves the same store in every order and multiplicity of delivery, or just in every order,
      if and only if no two different ones compete for being the newest of their id. */
  lemma ConvergenceExact<D, E(!new)>(m: EntityMapper<D, E>, docs: map<Id, E>, es: seq<E>)
    ensures (forall fs | SameElements(es, fs) :: UpsertAll(m, docs, fs) == UpsertAll(m, docs, es))
            <==> Unambiguous(m, docs, es)
    ensures (forall fs | multiset(fs) == multiset(es) :: UpsertAll(m, docs, fs) == UpsertAll(m, docs, es))
            <==> Unambiguous(m, docs, es)
  {
    if Unambiguous(m, docs, es) {
      forall fs | SameElements(es, fs) ensures UpsertAll(m, docs, fs) == UpsertAll(m, docs, es) {
        UpsertsConverge(m, docs, es, fs);
      }
      forall fs | multiset(fs) == multiset(es) ensures SameElements(es, fs) {
        forall x ensures x in es <==> x in fs {
          assert x in multiset(es) <==> x in multiset(fs);
        }
      }
    } else {
      var e, f :| Newest(m, docs, es, e) && f in es && m.getId(f) == m.getId(e)
                  && m.getVersion(f) == m.getVersion(e) && e != f;
      var es', fs' := ConflictingUpsertsDiverge(m, docs, es, e, f);
    }
  }

  // ---------- No lost updates ----------

  type Client = nat

  /** What concurrent clients of one document do; an Update is one that reached the database, also when its caller
      got an error afterwards. Every other operation touches other ids only. */
  datatype ClientStep<!D, !E> =
    | Read(c: Client)
    | Update(c: Client, change: D -> D)
    | Elsewhere(others: map<Id, E>)

  datatype Shared<!D, !E> = Shared(
    docs: map<Id, E>,
    snapshots: map<Client, D>,       // what each client last read
    history: seq<E>,                 // every version ever stored under the id
    changes: seq<D -> D>)            // the changes of the successful updates

  /** A client edits neither the id nor the version of what it has read. */
  ghost predicate KeepsIdentity<D(!new), E>(m: EntityMapper<D, E>, change: D -> D)
  {
    forall d :: m.getId(m.toEntity(change(d))) == m.getId(m.toEntity(d))
                && m.getVersion(m.toEntity(change(d))) == m.getVersion(m.toEntity(d))
  }

  ghost predicate ClientEnabled<D(!new), E>(m: EntityMapper<D, E>, s: Shared<D, E>, id: Id, step: ClientStep<D, E>)
  {
    match step
    case Read(_) => id in s.docs
    case Update(c, change) => c in s.snapshots && KeepsIdentity(m, change)
    case Elsewhere(others) => (id in others <==> id in s.docs) && (id in others ==> others[id] == s.docs[id])
  }

  ghost function ClientNext<D(!new), E>(m: EntityMapper<D, E>, s: Shared<D, E>, id: Id, step: ClientStep<D, E>)
    : Shared<D, E>
    requires ClientEnabled(m, s, id, step)
  {
    match step
    case Read(c) => s.(snapshots := s.snapshots[c := m.toDomain(s.docs[id])])
    case Elsewhere(others) => s.(docs := others)
    case Update(c, change) =>
      var domain := change(s.snapshots[c]);
      if !Current(m, s.docs, domain) then s
      else s.(docs := s.docs[m.getId(m.toEntity(domain)) := Bumped(m, domain)],
              history := s.history + [Bumped(m, domain)],
              changes := s.changes + [change])
  }

  /** The k-th stored version became the next one by the k-th successful change. */
  ghost predicate Follows<D, E>(m: EntityMapper<D, E>, history: seq<E>, changes: seq<D -> D>, k: nat)
    requires |history| == |changes| + 1 && k < |changes|
  {
    && history[k + 1] == Bumped(m, changes[k](m.toDomain(history[k])))
    && m.getVersion(history[k + 1]) == m.getVersion(history[k]) + 1
  }

  ghost predicate Serial<D, E>(m: EntityMapper<D, E>, history: seq<E>, changes: seq<D -> D>)
  {
    && |history| == |changes| + 1
    && forall k :: 0 <= k < |changes| ==> Follows(m, history, changes, k)
  }

  lemma {:induction false} SerialVersions<D, E>(m: EntityMapper<D, E>, history: seq<E>, changes: seq<D -> D>, k: nat)
    requires Serial(m, history, changes) && k < |history|
    ensures m.getVersion(history[k]) == m.getVersion(history[0]) + k
  {
    if k > 0 {
      SerialVersions(m, history, changes, k - 1);
      assert Follows(m, history, changes, k - 1);
    }
  }

  ghost predicate ReadFrom<D, E>(m: EntityMapper<D, E>, history: seq<E>, d: D)
  {
    exists k :: 0 <= k < |history| && d == m.toDomain(history[k])
  }

  ghost predicate SharedInv<D(!new), E(!new)>(m: EntityMapper<D, E>, s: Shared<D, E>, id: Id)
  {
    && Serial(m, s.history, s.changes)
    && id in s.docs && s.docs[id] == s.history[|s.history| - 1]
    && (forall e :: e in s.history ==> m.getId(e) == id)
    && (forall c :: c in s.snapshots ==> ReadFrom(m, s.history, s.snapshots[c]))
  }

  /** What a client sends with an Update goes back to some stored version of this document. */
  lemma UpdateBase<D(!new), E(!new)>(m: EntityMapper<D, E>, s: Shared<D, E>, id: Id, c: Client, change: D -> D)
    returns (k: nat)
    requires Lawful(m) && SharedInv(m, s, id) && c in s.snapshots && KeepsIdentity(m, change)
    ensures k < |s.history| && s.snapshots[c] == m.toDomain(s.history[k])
    ensures var e := m.toEntity(change(s.snapshots[c]));
            && m.getId(e) == id
            && m.getVersion(e) == m.getVersion(s.history[0]) + k
    ensures Current(m, s.docs, change(s.snapshots[c])) <==> k == |s.history| - 1
  {
    assert ReadFrom(m, s.history, s.snapshots[c]);
    k :| 0 <= k < |s.history| && s.snapshots[c] == m.toDomain(s.history[k]);
    assert s.history[k] in s.history;
    SerialVersions(m, s.history, s.changes, k);
    SerialVersions(m, s.history, s.changes, |s.history| - 1);
  }

  lemma ReadFromGrows<D, E>(m: EntityMapper<D, E>, history: seq<E>, e: E, d: D)
    requires ReadFrom(m, history, d)
    ensures ReadFrom(m, history + [e], d)
  {
    var k :| 0 <= k < |history| && d == m.toDomain(history[k]);
    assert (history + [e])[k] == history[k];
  }

  lemma SerialGrows<D, E>(m: EntityMapper<D, E>, history: seq<E>, changes: seq<D -> D>, change: D -> D)
    requires Serial(m, history, changes)
    requires var last := history[|history| - 1];
             m.getVersion(Bumped(m, change(m.toDomain(last)))) == m.getVersion(last) + 1
    ensures Serial(m, history + [Bumped(m, change(m.toDomain(history[|history| - 1])))], changes + [change])
  {
    var history', changes' := history + [Bumped(m, change(m.toDomain(history[|history| - 1])))], changes + [change];
    forall k | 0 <= k < |changes'| ensures Follows(m, history', changes', k) {
      if k < |changes| {
        assert Follows(m, history, changes, k);
      }
    }
  }

  lemma UpdateKeepsSerial<D(!new), E(!new)>(m: EntityMapper<D, E>, s: Shared<D, E>, id: Id, c: Client, change: D -> D)
    requires Lawful(m) && SharedInv(m, s, id) && ClientEnabled(m, s, id, Update(c, change))
    ensures SharedInv(m, ClientNext(m, s, id, Update(c, change)), id)
  {
    var k := UpdateBase(m, s, id, c, change);
    if k == |s.history| - 1 {
      var s' := ClientNext(m, s, id, Update(c, change));
      SerialGrows(m, s.history, s.changes, change);
      forall i | i in s'.snapshots ensures ReadFrom(m, s'.history, s'.snapshots[i]) {
        ReadFromGrows(m, s.history, s'.docs[id], s.snapshots[i]);
      }
    }
  }

  lemma ClientStepInv<D(!new), E(!new)>(m: EntityMapper<D, E>, s: Shared<D, E>, id: Id, step: ClientStep<D, E>)
    requires Lawful(m) && SharedInv(m, s, id) && ClientEnabled(m, s, id, step)
    ensures SharedInv(m, ClientNext(m, s, id, step), id)
  {
    match step
    case Read(_) => assert ReadFrom(m, s.history, m.toDomain(s.docs[id]));
    case Update(c, change) => UpdateKeepsSerial(m, s, id, c, change);
    case Elsewhere(_) =>
  }

  ghost predicate ClientStepAt<D(!new), E>(m: EntityMapper<D, E>, id: Id, ss: seq<Shared<D, E>>,
                                           steps: seq<ClientStep<D, E>>, i: nat)
    requires |ss| == |steps| + 1 && i < |steps|
  {
    ClientEnabled(m, ss[i], id, steps[i]) && ss[i + 1] == ClientNext(m, ss[i], id, steps[i])
  }

  ghost predicate IsClientRun<D(!new), E>(m: EntityMapper<D, E>, id: Id, ss: seq<Shared<D, E>>,
                                          steps: seq<ClientStep<D, E>>)
  {
    && |ss| == |steps| + 1
    && id in ss[0].docs && m.getId(ss[0].docs[id]) == id
    && ss[0].snapshots == map[] && ss[0].history == [ss[0].docs[id]] && ss[0].changes == []
    && forall i :: 0 <= i < |steps| ==> ClientStepAt(m, id, ss, steps, i)
  }

  lemma {:induction false} ClientRunInv<D(!new), E(!new)>(m: EntityMapper<D, E>, id: Id, ss: seq<Shared<D, E>>,
                                                          steps: seq<ClientStep<D, E>>, i: nat)
    requires Lawful(m) && IsClientRun(m, id, ss, steps) && i < |ss|
    ensures SharedInv(m, ss[i], id) && ss[i].history[0] == ss[0].docs[id]
  {
    if i > 0 {
      ClientRunInv(m, id, ss, steps, i - 1);
      assert ClientStepAt(m, id, ss, steps, i - 1);
      ClientStepInv(m, ss[i - 1], id, steps[i - 1]);
    }
  }

  lemma {:induction false} ChangesGrow<D(!new), E(!new)>(m: EntityMapper<D, E>, id: Id, ss: seq<Shared<D, E>>,
                                                         steps: seq<ClientStep<D, E>>, i: nat, j: nat)
    requires IsClientRun(m, id, ss, steps) && i <= j < |ss|
    ensures |ss[i].changes| <= |ss[j].changes|
    decreases j
  {
    if i < j {
      ChangesGrow(m, id, ss, steps, i, j - 1);
      assert ClientStepAt(m, id, ss, steps, j - 1);
    }
  }

  /** The document after the given changes, one after the other, with nobody else around. */
  function Sequentially<D, E>(m: EntityMapper<D, E>, e: E, changes: seq<D -> D>): E
  {
    if changes == [] then e
    else
      var last := |changes| - 1;
      Bumped(m, changes[last](m.toDomain(Sequentially(m, e, changes[..last]))))
  }

  lemma {:induction false} SerialIsSequential<D, E>(m: EntityMapper<D, E>, history: seq<E>, changes: seq<D -> D>,
                                                    k: nat)
    requires Serial(m, history, changes) && k < |history|
    ensures history[k] == Sequentially(m, history[0], changes[..k])
  {
    if k > 0 {
      SerialIsSequential(m, history, changes, k - 1);
      assert changes[..k][..k - 1] == changes[..k - 1];
      assert Follows(m, history, changes, k - 1);
    }
  }

  /** No lost updates: however reads and updates interleave, the stored document is what the successful changes
      give one after the other, and its version counts them. */
  lemma NoLostUpdates<D(!new), E(!new)>(m: EntityMapper<D, E>, id: Id, ss: seq<Shared<D, E>>,
                                        steps: seq<ClientStep<D, E>>, i: nat)
    requires Lawful(m) && IsClientRun(m, id, ss, steps) && i < |ss|
    ensures id in ss[i].docs
    ensures ss[i].docs[id] == Sequentially(m, ss[0].docs[id], ss[i].changes)
    ensures m.getVersion(ss[i].docs[id]) == m.getVersion(ss[0].docs[id]) + |ss[i].changes|
  {
    ClientRunInv(m, id, ss, steps, i);
    var s := ss[i];
    SerialIsSequential(m, s.history, s.changes, |s.changes|);
    SerialVersions(m, s.history, s.changes, |s.changes|);
    assert s.changes[..|s.changes|] == s.changes;
  }

  /** Step i is an Update that is about to succeed, based on this version. */
  ghost predicate SucceedsAt<D(!new), E(!new)>(m: EntityMapper<D, E>, id: Id, ss: seq<Shared<D, E>>,
                                               steps: seq<ClientStep<D, E>>, i: nat, base: int)
    requires IsClientRun(m, id, ss, steps) && i < |steps|
  {
    assert ClientStepAt(m, id, ss, steps, i);
    && steps[i].Update?
    && var domain := steps[i].change(ss[i].snapshots[steps[i].c]);
       Current(m, ss[i].docs, domain) && m.getVersion(m.toEntity(domain)) == base
  }

  /** Of all updates based on one version at most one succeeds; later successes have later bases. */
  lemma OneSuccessPerVersion<D(!new), E(!new)>(m: EntityMapper<D, E>, id: Id, ss: seq<Shared<D, E>>,
                                               steps: seq<ClientStep<D, E>>, i: nat, j: nat, base: int, base': int)
    requires Lawful(m) && IsClientRun(m, id, ss, steps) && i < j < |steps|
    requires SucceedsAt(m, id, ss, steps, i, base) && SucceedsAt(m, id, ss, steps, j, base')
    ensures base < base'
  {
    ClientRunInv(m, id, ss, steps, i);
    ClientRunInv(m, id, ss, steps, j);
    assert ClientStepAt(m, id, ss, steps, i) && ClientStepAt(m, id, ss, steps, j);
    var k := UpdateBase(m, ss[i], id, steps[i].c, steps[i].change);
    var l := UpdateBase(m, ss[j], id, steps[j].c, steps[j].change);
    ChangesGrow(m, id, ss, steps, i + 1, j);
  }
}
