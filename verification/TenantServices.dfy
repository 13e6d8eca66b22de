/** The tenant services in the shape of the source (pkg/tenant: repository.go, sync.go, lifecycle.go,
    cleanup_worker.go). Each call takes a path of steps of TenantRegistry, one for every database command, so what
    is proved there about runs holds for any interleaving of such calls. */
module TenantServices {
  import opened Wrappers
  import opened TenantRegistry

  datatype SyncError = ReadFailed | WriteFailed

  /** The order of a result set is up to the database. */
  method Listed(slugs: set<Slug>) returns (s: seq<Slug>)
    ensures AsSet(s) == slugs && |s| == |slugs|
  {
    s := [];
    var rest := slugs;
    while rest != {}
      invariant rest <= slugs && AsSet(s) == slugs - rest && |s| + |rest| == |slugs|
      decreases |rest|
    {
      var slug :| slug in rest;
      assert AsSet(s + [slug]) == AsSet(s) + {slug};
      s := s + [slug];
      rest := rest - {slug};
    }
  }

  class Repository {
    var docs: Docs
    var writes: nat     // how many write commands were issued

    constructor ()
      ensures docs == map[] && writes == 0
    {
      docs, writes := map[], 0;
    }

    method Upsert(slug: Slug, now: Time, fate: Fate) returns (ok: bool)
      modifies this
      ensures ok == fate.Succeeds? && writes == old(writes) + 1
      ensures docs == if fate.FailsUnapplied? then old(docs)
                      else old(docs)[slug := UpsertedRecord(old(docs), slug, now)]
      ensures !fate.FailsUnapplied? ==>
                docs[slug] == Record(Active, None, if slug in old(docs) then old(docs)[slug].createdAt else now, now)
    {
      writes := writes + 1;
      if !fate.FailsUnapplied? {
        var createdAt := if slug in docs then docs[slug].createdAt else now;
        docs := docs[slug := Record(Active, None, createdAt, now)];
      }
      ok := fate.Succeeds?;
    }

    method MarkForDeletion(slug: Slug, deleteAfter: Time, now: Time, fate: Fate) returns (ok: bool)
      modifies this
      ensures ok == fate.Succeeds? && writes == old(writes) + 1
      ensures docs == if fate.FailsUnapplied? then old(docs)
                      else old(docs)[slug := MarkedRecord(old(docs), slug, deleteAfter, now)]
      ensures !fate.FailsUnapplied? ==>
                docs[slug] == Record(PendingDeletion, Some(deleteAfter),
                                     if slug in old(docs) then old(docs)[slug].createdAt else now, now)
    {
      writes := writes + 1;
      if !fate.FailsUnapplied? {
        var createdAt := if slug in docs then docs[slug].createdAt else now;
        docs := docs[slug := Record(PendingDeletion, Some(deleteAfter), createdAt, now)];
      }
      ok := fate.Succeeds?;
    }

    method FindActive() returns (slugs: seq<Slug>)
      ensures AsSet(slugs) == ActiveSlugs(docs) && |slugs| == |ActiveSlugs(docs)|
      ensures forall slug :: slug in slugs <==> slug in docs && docs[slug].status == Active
    {
      slugs := Listed(ActiveSlugs(docs));
      assert forall slug :: slug in slugs <==> slug in AsSet(slugs);
    }

    method FindPendingDeletion(now: Time) returns (slugs: seq<Slug>)
      ensures forall slug :: slug in slugs <==> Expired(docs, slug, now)
      ensures forall slug :: slug in slugs <==>
                && slug in docs && docs[slug].status == PendingDeletion
                && docs[slug].deleteAfter.Some? && docs[slug].deleteAfter.value <= now
      ensures forall i, j :: 0 <= i < j < |slugs| ==> slugs[i] != slugs[j]
    {
      slugs := [];
      var rest := set slug | slug in docs && Expired(docs, slug, now);
      while rest != {}
        invariant forall slug :: slug in slugs || slug in rest <==> Expired(docs, slug, now)
        invariant forall slug :: slug in slugs ==> slug !in rest
        invariant forall i, j :: 0 <= i < j < |slugs| ==> slugs[i] != slugs[j]
        decreases |rest|
      {
        var slug :| slug in rest;
        slugs := slugs + [slug];
        rest := rest - {slug};
      }
    }

    method Remove(slug: Slug, fate: Fate) returns (ok: bool)
      modifies this
      ensures ok == fate.Succeeds? && writes == old(writes) + 1
      ensures docs == if fate.FailsUnapplied? then old(docs) else old(docs) - {slug}
    {
      writes := writes + 1;
      if !fate.FailsUnapplied? {
        docs := docs - {slug};
      }
      ok := fate.Succeeds?;
    }
  }

  /** Successive readings of the clock. */
  ghost predicate Monotone(clock: nat -> Time)
  {
    forall i: nat, j: nat :: i <= j ==> clock(i) <= clock(j)
  }

  /** The listed slugs are written; everything else is as before. */
  ghost predicate UpsertsDone(docs: Docs, docs': Docs, done: seq<Slug>, from: Time, to: Time)
  {
    forall slug :: UpsertDoneAt(docs, docs', done, slug, from, to)
  }

  predicate UpsertDoneAt(docs: Docs, docs': Docs, done: seq<Slug>, slug: Slug, from: Time, to: Time)
  {
    if slug in done then UpsertedAt(docs, docs', slug, from, to) else SameAt(docs, docs', slug)
  }

  ghost predicate MarksDone(docs: Docs, docs': Docs, done: seq<Slug>, read: Time, to: Time)
  {
    forall slug :: MarkDoneAt(docs, docs', done, slug, read, to)
  }

  predicate MarkDoneAt(docs: Docs, docs': Docs, done: seq<Slug>, slug: Slug, read: Time, to: Time)
  {
    if slug in done then MarkedAt(docs, docs', slug, read, to) else SameAt(docs, docs', slug)
  }

  class TenantSyncer {
    const repo: Repository

    constructor (repo: Repository)
      ensures this.repo == repo
    {
      this.repo := repo;
    }

    /** The first loop of syncRegistry: its k-th write happens at clock(k) and ends like fates(k). The calls `others`
        are in progress elsewhere, and `w` is the world when it is over. */
    method UpsertAll(toCreate: seq<Slug>, clock: nat -> Time, fates: nat -> Fate,
                     ghost start: World, ghost others: seq<Call>, ghost toDelete: seq<Slug>)
      returns (ok: bool, ghost w: World)
      requires Monotone(clock)
      requires Reaches(start, World(clock(0), repo.docs, others + [Call(toCreate, toDelete, None)]))
      modifies repo
      ensures ok ==> UpsertsDone(old(repo.docs), repo.docs, toCreate, clock(0), w.now)
      ensures ok ==> repo.writes == old(repo.writes) + |toCreate|
      ensures (forall k :: fates(k).Succeeds?) ==> ok
      ensures exists n :: 0 <= n <= |toCreate| && UpsertsDone(old(repo.docs), repo.docs, toCreate[..n], clock(0), w.now)
      ensures Reaches(start, w) && w.docs == repo.docs && clock(0) <= w.now
      ensures ok ==> w == World(clock(|toCreate|), repo.docs, others + [Call([], toDelete, None)])
    {
      var i := 0;
      assert toCreate[0..] == toCreate;
      while i < |toCreate|
        invariant 0 <= i <= |toCreate| && repo.writes == old(repo.writes) + i
        invariant UpsertsDone(old(repo.docs), repo.docs, toCreate[..i], clock(0), clock(i))
        invariant Reaches(start, World(clock(i), repo.docs, others + [Call(toCreate[i..], toDelete, None)]))
      {
        ghost var before := repo.docs;
        w := World(clock(i), before, others + [Call(toCreate[i..], toDelete, None)]);
        var done := repo.Upsert(toCreate[i], clock(i), fates(i));
        if fates(i).FailsUnapplied? {
          return false, w;
        }
        UpsertPath(start, before, others, toCreate, toDelete, i, clock(i), clock(i + 1));
        w := World(clock(i + 1), repo.docs, others + [Call(toCreate[i + 1..], toDelete, None)]);
        UpsertOneMore(old(repo.docs), before, toCreate, i, clock(0), clock(i), clock(i + 1));
        if !done {
          return false, w;
        }
        i := i + 1;
      }
      assert toCreate[..i] == toCreate && toCreate[i..] == [];
      ok, w := true, World(clock(i), repo.docs, others + [Call([], toDelete, None)]);
    }

    /** The second loop of syncRegistry: its k-th write happens at clock(first + k), all with the deadline computed
        from one clock reading. */
    method MarkAll(toDelete: seq<Slug>, deleteAfter: Time, clock: nat -> Time, first: nat, fates: nat -> Fate,
                   ghost start: World, ghost others: seq<Call>, ghost read: Time)
      returns (ok: bool, ghost w: World)
      requires Monotone(clock) && deleteAfter == read + DELETION_DELAY_MILLIS && read <= clock(first)
      requires Reaches(start, World(clock(first), repo.docs, others + [Call([], toDelete, Some(read))]))
      modifies repo
      ensures ok ==> MarksDone(old(repo.docs), repo.docs, toDelete, read, w.now)
      ensures ok ==> repo.writes == old(repo.writes) + |toDelete|
      ensures (forall k :: fates(k).Succeeds?) ==> ok
      ensures exists n :: 0 <= n <= |toDelete| && MarksDone(old(repo.docs), repo.docs, toDelete[..n], read, w.now)
      ensures Reaches(start, w) && w.docs == repo.docs && clock(first) <= w.now
      ensures ok ==> w == World(clock(first + |toDelete|), repo.docs, others + [Call([], [], Some(read))])
    {
      var i := 0;
      assert toDelete[0..] == toDelete;
      while i < |toDelete|
        invariant 0 <= i <= |toDelete| && repo.writes == old(repo.writes) + i
        invariant MarksDone(old(repo.docs), repo.docs, toDelete[..i], read, clock(first + i))
        invariant Reaches(start, World(clock(first + i), repo.docs, others + [Call([], toDelete[i..], Some(read))]))
      {
        ghost var before := repo.docs;
        w := World(clock(first + i), before, others + [Call([], toDelete[i..], Some(read))]);
        var done := repo.MarkForDeletion(toDelete[i], deleteAfter, clock(first + i), fates(i));
        if fates(i).FailsUnapplied? {
          return false, w;
        }
        MarkPath(start, before, others, toDelete, i, read, clock(first + i), clock(first + i + 1));
        w := World(clock(first + i + 1), repo.docs, others + [Call([], toDelete[i + 1..], Some(read))]);
        MarkOneMore(old(repo.docs), before, toDelete, i, read, clock(first + i), clock(first + i + 1));
        if !done {
          return false, w;
        }
        i := i + 1;
      }
      assert toDelete[..i] == toDelete && toDelete[i..] == [];
      ok, w := true, World(clock(first + i), repo.docs, others + [Call([], [], Some(read))]);
    }

    /** syncRegistry: first what is new, then what is gone. Time passes between its commands; what it does to each slug
        is for a registry that nobody else writes meanwhile. */
    method SyncRegistry(apiSlugs: seq<Slug>, localSlugs: seq<Slug>, clock: nat -> Time,
                        upserts: nat -> Fate, marks: nat -> Fate, ghost others: seq<Call>)
      returns (ok: bool, ghost t: Times, ghost w: World)
      requires Monotone(clock) && AsSet(localSlugs) == ActiveSlugs(repo.docs)
      modifies repo
      ensures ok ==>
                && Reconciled(old(repo.docs), repo.docs, AsSet(apiSlugs), t)
                && (AsSet(apiSlugs) == ActiveSlugs(old(repo.docs)) ==> repo.writes == old(repo.writes))
      ensures !ok ==> PartlyReconciled(old(repo.docs), repo.docs, AsSet(apiSlugs), t)
      ensures (forall k :: upserts(k).Succeeds? && marks(k).Succeeds?) ==> ok
      ensures t.from == clock(0) <= t.read <= t.to == w.now
      ensures Reaches(World(clock(0), old(repo.docs), others), w) && w.docs == repo.docs
    {
      ghost var start := World(clock(0), repo.docs, others);
      ReachesItself(start);
      var toCreate, toDelete := Without(apiSlugs, localSlugs), Without(localSlugs, apiSlugs);
      DifferencesMeaning(repo.docs, localSlugs, apiSlugs);
      ReachesNext(start, start, BeginSync(localSlugs, apiSlugs));
      ok, w := UpsertAll(toCreate, clock, upserts, start, others, toDelete);
      ghost var n :| 0 <= n <= |toCreate| && UpsertsDone(old(repo.docs), repo.docs, toCreate[..n], clock(0), w.now);
      if !ok {
        t := Times(clock(0), w.now, w.now);
        UpsertsArePartial(old(repo.docs), repo.docs, AsSet(apiSlugs), toCreate, n, t);
        return;
      }
      ghost var middle, upserted := repo.docs, w.now;
      var read := clock(|toCreate|);
      ReadPath(start, w, others, toDelete, clock(|toCreate| + 1));
      ok, w := MarkAll(toDelete, read + DELETION_DELAY_MILLIS, clock, |toCreate| + 1, marks, start, others, read);
      ghost var m :| 0 <= m <= |toDelete| && MarksDone(middle, repo.docs, toDelete[..m], read, w.now);
      t := Times(clock(0), read, w.now);
      if !ok {
        MarksArePartial(old(repo.docs), middle, repo.docs, AsSet(apiSlugs), toCreate, toDelete, m, upserted, t);
        return;
      }
      BothReconcile(old(repo.docs), middle, repo.docs, AsSet(apiSlugs), toCreate, toDelete, upserted, t);
    }

    /** Sync: reconciles with the API's answer, or falls back to the local registry when there is none. */
    method Sync(readFails: bool, api: Option<seq<Slug>>, clock: nat -> Time, upserts: nat -> Fate, marks: nat -> Fate,
                ghost others: seq<Call>)
      returns (r: Result<seq<Slug>, SyncError>, ghost t: Times, ghost w: World)
      requires Monotone(clock)
      modifies repo
      ensures readFails ==> r == Failure(ReadFailed)
      ensures readFails || api.None? ==> repo.docs == old(repo.docs) && repo.writes == old(repo.writes)
      ensures !readFails && api.None? ==> r.Success? && AsSet(r.value) == ActiveSlugs(old(repo.docs))
      ensures !readFails && api.Some? && r.Success? ==>
                && r.value == api.value
                && Reconciled(old(repo.docs), repo.docs, AsSet(api.value), t)
                && (AsSet(api.value) == ActiveSlugs(old(repo.docs)) ==> repo.writes == old(repo.writes))
                && (forall slug :: slug in api.value ==> slug in repo.docs && repo.docs[slug].status == Active)
                && (forall slug :: slug in repo.docs && slug !in api.value ==>
                      repo.docs[slug].status == PendingDeletion)
      ensures !readFails && api.Some? && r.Failure? ==>
                r.error == WriteFailed && PartlyReconciled(old(repo.docs), repo.docs, AsSet(api.value), t)
      ensures !readFails && (forall k :: upserts(k).Succeeds? && marks(k).Succeeds?) ==> r.Success?
      ensures t.from == clock(0) <= t.read <= t.to == w.now
      ensures Reaches(World(clock(0), old(repo.docs), others), w) && w.docs == repo.docs
    {
      t, w := Times(clock(0), clock(0), clock(0)), World(clock(0), repo.docs, others);
      ReachesItself(w);
      if readFails {
        return Failure(ReadFailed), t, w;
      }
      var localSlugs := repo.FindActive();
      if api.None? {
        return Success(localSlugs), t, w;
      }
      var ok;
      ok, t, w := SyncRegistry(api.value, localSlugs, clock, upserts, marks, others);
      if !ok {
        return Failure(WriteFailed), t, w;
      }
      ReconciledMeans(old(repo.docs), repo.docs, api.value, t);
      r := Success(api.value);
    }
  }

  // ---------- One write of a Sync ----------

  lemma ReachesLater(start: World, w: World, to: Time)
    requires Reaches(start, w) && w.now <= to
    ensures Reaches(start, w.(now := to))
  {
    ReachesNext(start, w, Tick(to - w.now));
  }

  /** The write as a step of the run, and the time up to the next one. */
  lemma UpsertPath(start: World, docs: Docs, others: seq<Call>, toCreate: seq<Slug>, toDelete: seq<Slug>, i: nat,
                   now: Time, next: Time)
    requires i < |toCreate| && now <= next
    requires Reaches(start, World(now, docs, others + [Call(toCreate[i..], toDelete, None)]))
    ensures Reaches(start, World(next, docs[toCreate[i] := UpsertedRecord(docs, toCreate[i], now)],
                                 others + [Call(toCreate[i + 1..], toDelete, None)]))
  {
    var w := World(now, docs, others + [Call(toCreate[i..], toDelete, None)]);
    var c := |others|;
    assert w.calls[c] == Call(toCreate[i..], toDelete, None) && toCreate[i..][1..] == toCreate[i + 1..];
    ReachesNext(start, w, Upsert(c));
    assert Next(w, Upsert(c)).calls == others + [Call(toCreate[i + 1..], toDelete, None)];
    ReachesLater(start, Next(w, Upsert(c)), next);
  }

  lemma ReadPath(start: World, w: World, others: seq<Call>, toDelete: seq<Slug>, next: Time)
    requires Reaches(start, w) && w.calls == others + [Call([], toDelete, None)] && w.now <= next
    ensures Reaches(start, World(next, w.docs, others + [Call([], toDelete, Some(w.now))]))
  {
    var c := |others|;
    assert w.calls[c] == Call([], toDelete, None);
    ReachesNext(start, w, ReadClock(c));
    assert Next(w, ReadClock(c)).calls == others + [Call([], toDelete, Some(w.now))];
    ReachesLater(start, Next(w, ReadClock(c)), next);
  }

  lemma MarkPath(start: World, docs: Docs, others: seq<Call>, toDelete: seq<Slug>, i: nat, read: Time,
                 now: Time, next: Time)
    requires i < |toDelete| && now <= next
    requires Reaches(start, World(now, docs, others + [Call([], toDelete[i..], Some(read))]))
    ensures Reaches(start,
                    World(next, docs[toDelete[i] := MarkedRecord(docs, toDelete[i], read + DELETION_DELAY_MILLIS, now)],
                          others + [Call([], toDelete[i + 1..], Some(read))]))
  {
    var w := World(now, docs, others + [Call([], toDelete[i..], Some(read))]);
    var c := |others|;
    assert w.calls[c] == Call([], toDelete[i..], Some(read)) && toDelete[i..][1..] == toDelete[i + 1..];
    ReachesNext(start, w, Mark(c));
    assert Next(w, Mark(c)).calls == others + [Call([], toDelete[i + 1..], Some(read))];
    ReachesLater(start, Next(w, Mark(c)), next);
  }

  lemma UpsertOneMore(docs: Docs, before: Docs, slugs: seq<Slug>, i: nat, from: Time, now: Time, next: Time)
    requires i < |slugs| && UpsertsDone(docs, before, slugs[..i], from, now) && from <= now <= next
    ensures UpsertsDone(docs, before[slugs[i] := UpsertedRecord(before, slugs[i], now)], slugs[..i + 1], from, next)
  {
    var after := before[slugs[i] := UpsertedRecord(before, slugs[i], now)];
    var done := slugs[..i + 1];
    assert done == slugs[..i] + [slugs[i]];
    forall slug ensures UpsertDoneAt(docs, after, done, slug, from, next) {
      assert UpsertDoneAt(docs, before, slugs[..i], slug, from, now);
    }
  }

  lemma MarkOneMore(docs: Docs, before: Docs, slugs: seq<Slug>, i: nat, read: Time, now: Time, next: Time)
    requires i < |slugs| && MarksDone(docs, before, slugs[..i], read, now) && read <= now <= next
    ensures var after := before[slugs[i] := MarkedRecord(before, slugs[i], read + DELETION_DELAY_MILLIS, now)];
            MarksDone(docs, after, slugs[..i + 1], read, next)
  {
    var after := before[slugs[i] := MarkedRecord(before, slugs[i], read + DELETION_DELAY_MILLIS, now)];
    var done := slugs[..i + 1];
    assert done == slugs[..i] + [slugs[i]];
    forall slug ensures MarkDoneAt(docs, after, done, slug, read, next) {
      assert MarkDoneAt(docs, before, slugs[..i], slug, read, now);
    }
  }

  // ---------- All writes of a Sync together ----------

  /** toCreate and toDelete are exactly the tenants that a Sync has to change. */
  lemma DifferencesMeaning(docs: Docs, localSlugs: seq<Slug>, api: seq<Slug>)
    requires AsSet(localSlugs) == ActiveSlugs(docs)
    ensures forall slug :: slug in Without(api, localSlugs) <==> slug in AsSet(api) && !IsActive(docs, slug)
    ensures forall slug :: slug in Without(localSlugs, api) <==> slug !in AsSet(api) && IsActive(docs, slug)
    ensures AsSet(api) == ActiveSlugs(docs) ==> Without(api, localSlugs) == [] && Without(localSlugs, api) == []
  {
    forall slug
      ensures slug in Without(api, localSlugs) <==> slug in AsSet(api) && !IsActive(docs, slug)
      ensures slug in Without(localSlugs, api) <==> slug !in AsSet(api) && IsActive(docs, slug)
    {
      WithoutMeaning(api, localSlugs, slug);
      WithoutMeaning(localSlugs, api, slug);
      assert slug in localSlugs <==> slug in ActiveSlugs(docs);
    }
    if AsSet(api) == ActiveSlugs(docs) {
      NonEmptyHasElement(Without(api, localSlugs));
      NonEmptyHasElement(Without(localSlugs, api));
    }
  }

  lemma NonEmptyHasElement(slugs: seq<Slug>)
    ensures slugs != [] ==> exists slug :: slug in slugs
  {
    if slugs != [] {
      assert slugs[0] in slugs;
    }
  }

  ghost predicate Differences(docs: Docs, api: set<Slug>, toCreate: seq<Slug>, toDelete: seq<Slug>)
  {
    && (forall slug :: slug in toCreate <==> slug in api && !IsActive(docs, slug))
    && (forall slug :: slug in toDelete <==> slug !in api && IsActive(docs, slug))
  }

  lemma UpsertsArePartial(docs: Docs, docs': Docs, api: set<Slug>, toCreate: seq<Slug>, n: nat, t: Times)
    requires (forall slug :: slug in toCreate <==> slug in api && !IsActive(docs, slug)) && n <= |toCreate|
    requires UpsertsDone(docs, docs', toCreate[..n], t.from, t.to)
    ensures PartlyReconciled(docs, docs', api, t)
  {
    forall slug ensures ReconciledAt(docs, docs', api, slug, t) || SameAt(docs, docs', slug) {
      assert UpsertDoneAt(docs, docs', toCreate[..n], slug, t.from, t.to);
      assert slug in toCreate[..n] ==> slug in toCreate;
    }
  }

  lemma MarksArePartial(docs: Docs, middle: Docs, docs': Docs, api: set<Slug>, toCreate: seq<Slug>, toDelete: seq<Slug>,
                        m: nat, upserted: Time, t: Times)
    requires Differences(docs, api, toCreate, toDelete) && m <= |toDelete| && upserted <= t.to
    requires UpsertsDone(docs, middle, toCreate, t.from, upserted)
    requires MarksDone(middle, docs', toDelete[..m], t.read, t.to)
    ensures PartlyReconciled(docs, docs', api, t)
  {
    forall slug ensures ReconciledAt(docs, docs', api, slug, t) || SameAt(docs, docs', slug) {
      assert UpsertDoneAt(docs, middle, toCreate, slug, t.from, upserted);
      assert MarkDoneAt(middle, docs', toDelete[..m], slug, t.read, t.to);
      assert slug in toDelete[..m] ==> slug in toDelete;
      assert slug in toCreate ==> slug !in toDelete;
    }
  }

  lemma BothReconcile(docs: Docs, middle: Docs, docs': Docs, api: set<Slug>, toCreate: seq<Slug>, toDelete: seq<Slug>,
                      upserted: Time, t: Times)
    requires Differences(docs, api, toCreate, toDelete) && upserted <= t.to
    requires UpsertsDone(docs, middle, toCreate, t.from, upserted) && MarksDone(middle, docs', toDelete, t.read, t.to)
    ensures Reconciled(docs, docs', api, t)
  {
    forall slug ensures ReconciledAt(docs, docs', api, slug, t) {
      assert UpsertDoneAt(docs, middle, toCreate, slug, t.from, upserted);
      assert MarkDoneAt(middle, docs', toDelete, slug, t.read, t.to);
      assert slug in toCreate ==> slug !in toDelete;
    }
  }

  /** Status by status: what is in the answer is active, the rest is pending, and what was pending keeps its record. */
  lemma ReconciledMeans(docs: Docs, docs': Docs, api: seq<Slug>, t: Times)
    requires Reconciled(docs, docs', AsSet(api), t)
    ensures forall slug :: slug in api ==> slug in docs' && docs'[slug].status == Active
    ensures forall slug :: slug in docs' && slug !in api ==> docs'[slug].status == PendingDeletion
    ensures forall slug :: slug in docs && slug !in api ==>
              && slug in docs'
              && if docs[slug].status == PendingDeletion then docs'[slug] == docs[slug]
                 else docs'[slug].deleteAfter == Some(t.read + 300000)
  {
    forall slug
      ensures slug in api ==> slug in docs' && docs'[slug].status == Active
      ensures slug in docs' && slug !in api ==> docs'[slug].status == PendingDeletion
      ensures slug in docs && slug !in api ==>
                && slug in docs'
                && if docs[slug].status == PendingDeletion then docs'[slug] == docs[slug]
                   else docs'[slug].deleteAfter == Some(t.read + 300000)
    {
      assert ReconciledAt(docs, docs', AsSet(api), slug, t);
    }
  }

  class Lifecycle {
    const repo: Repository

    constructor (repo: Repository)
      ensures this.repo == repo
    {
      this.repo := repo;
    }

    /** Registers the tenant, then migrates it; a failed migration leaves it registered. */
    method Create(slug: Slug, now: Time, fate: Fate, migrates: bool, ghost others: seq<Call>)
      returns (ok: bool, ghost w: World)
      modifies repo
      ensures ok == (fate.Succeeds? && migrates)
      ensures repo.docs == if fate.FailsUnapplied? then old(repo.docs)
                           else old(repo.docs)[slug := UpsertedRecord(old(repo.docs), slug, now)]
      ensures Reaches(World(now, old(repo.docs), others), w) && w.now == now && w.docs == repo.docs
    {
      ghost var start := World(now, repo.docs, others);
      ReachesItself(start);
      ReachesNext(start, start, BeginCreate(slug));
      w := Next(start, BeginCreate(slug));
      ok := repo.Upsert(slug, now, fate);
      if !fate.FailsUnapplied? {
        assert [slug][0..] == [slug];
        UpsertPath(start, start.docs, others, [slug], [], 0, now, now);
        w := World(now, repo.docs, others + [Call([slug][1..], [], None)]);
      }
      if ok {
        ok := migrates;
      }
    }

    /** Reads the clock for the deadline, then marks; `later` is the time of the write. */
    method Delete(slug: Slug, now: Time, later: Time, fate: Fate, ghost others: seq<Call>)
      returns (ok: bool, ghost w: World)
      requires now <= later
      modifies repo
      ensures ok == fate.Succeeds?
      ensures repo.docs == if fate.FailsUnapplied? then old(repo.docs)
                           else old(repo.docs)[slug := MarkedRecord(old(repo.docs), slug, now + 300000, later)]
      ensures Reaches(World(now, old(repo.docs), others), w) && w.now == later && w.docs == repo.docs
    {
      ghost var start := World(now, repo.docs, others);
      ReachesItself(start);
      ReachesNext(start, start, BeginDelete(slug));
      ReadPath(start, Next(start, BeginDelete(slug)), others, [slug], later);
      w := World(later, repo.docs, others + [Call([], [slug], Some(now))]);
      var deleteAfter := now + DELETION_DELAY_MILLIS;
      ok := repo.MarkForDeletion(slug, deleteAfter, later, fate);
      if !fate.FailsUnapplied? {
        assert [slug][0..] == [slug];
        MarkPath(start, start.docs, others, [slug], 0, now, later, later);
        w := World(later, repo.docs, others + [Call([], [slug][1..], Some(now))]);
      }
    }
  }

  class CleanupWorker {
    const repo: Repository
    const cleaners: nat      // how many cleaners are registered

    constructor (repo: Repository, cleaners: nat)
      ensures this.repo == repo && this.cleaners == cleaners
    {
      this.repo, this.cleaners := repo, cleaners;
    }

    predicate AllSucceed(cleans: (nat, Slug) -> bool, slug: Slug)
    {
      forall k :: 0 <= k < cleaners ==> cleans(k, slug)
    }

    /** cleanupTenant: cleaners run in order up to the first that fails; only then is the record removed.
        `cleans(k, slug)` says whether cleaner k succeeds. */
    method CleanupTenant(slug: Slug, cleans: (nat, Slug) -> bool, removal: Fate) returns (called: nat)
      modifies repo
      ensures called <= cleaners && forall k :: 0 <= k < called - 1 ==> cleans(k, slug)
      ensures called < cleaners ==> called > 0 && !cleans(called - 1, slug)
      ensures slug in old(repo.docs) && slug !in repo.docs ==> forall k :: 0 <= k < cleaners ==> cleans(k, slug)
      ensures (forall k :: 0 <= k < cleaners ==> cleans(k, slug)) ==>
                called == cleaners && (!removal.FailsUnapplied? ==> slug !in repo.docs)
      ensures forall other :: other in old(repo.docs) && other != slug ==>
                other in repo.docs && repo.docs[other] == old(repo.docs)[other]
      ensures repo.docs == if AllSucceed(cleans, slug) && !removal.FailsUnapplied? then old(repo.docs) - {slug}
                           else old(repo.docs)
    {
      called := 0;
      while called < cleaners
        invariant called <= cleaners && repo.docs == old(repo.docs)
        invariant forall k :: 0 <= k < called ==> cleans(k, slug)
      {
        called := called + 1;
        if !cleans(called - 1, slug) {
          return;
        }
      }
      var ok := repo.Remove(slug, removal);
    }

    /** The slugs a pass removes: due, fully cleaned, and the removal applied. */
    ghost function Removed(docs: Docs, now: Time, cleans: (nat, Slug) -> bool, removals: Slug -> Fate): set<Slug>
    {
      set slug | slug in docs && Expired(docs, slug, now) && AllSucceed(cleans, slug) && !removals(slug).FailsUnapplied?
    }

    /** processExpiredTenants, one atomic pass. */
    method ProcessExpiredTenants(now: Time, readFails: bool, cleans: (nat, Slug) -> bool, removals: Slug -> Fate,
                                 ghost others: seq<Call>)
      modifies repo
      ensures var w, pass := World(now, old(repo.docs), others), Removed(old(repo.docs), now, cleans, removals);
              !readFails ==> Enabled(w, Cleanup(pass)) && Next(w, Cleanup(pass)) == w.(docs := repo.docs)
      ensures forall slug :: slug in repo.docs ==> slug in old(repo.docs) && repo.docs[slug] == old(repo.docs)[slug]
      ensures forall slug :: slug in old(repo.docs) ==>
                (slug !in repo.docs <==>
                   && !readFails
                   && old(repo.docs)[slug].status == PendingDeletion
                   && old(repo.docs)[slug].deleteAfter.Some? && old(repo.docs)[slug].deleteAfter.value <= now
                   && (forall k :: 0 <= k < cleaners ==> cleans(k, slug))
                   && !removals(slug).FailsUnapplied?)
      ensures repo.docs == if readFails then old(repo.docs)
                           else old(repo.docs) - Removed(old(repo.docs), now, cleans, removals)
    {
      if readFails {
        return;
      }
      var slugs := repo.FindPendingDeletion(now);
      var i := 0;
      while i < |slugs|
        invariant 0 <= i <= |slugs|
        invariant repo.docs == old(repo.docs) - (Removed(old(repo.docs), now, cleans, removals) * AsSet(slugs[..i]))
      {
        var _ := CleanupTenant(slugs[i], cleans, removals(slugs[i]));
        assert AsSet(slugs[..i + 1]) == AsSet(slugs[..i]) + {slugs[i]};
        i := i + 1;
      }
      assert slugs[..i] == slugs;
      assert Removed(old(repo.docs), now, cleans, removals) <= AsSet(slugs);
    }
  }
}
