/** The local tenant registry (pkg/tenant): its records, the reconciliation with the tenant API, deferred
    deletion, and what holds over every run. */
module TenantRegistry {
  import opened Wrappers

  type Slug = string

  // deletionDelay and eventDeletionDelay: five minutes each.
  const DELETION_DELAY_MILLIS: int := 5 * 60 * 1000

  datatype Status = Active | PendingDeletion

  datatype Record = Record(status: Status, deleteAfter: Option<Time>, createdAt: Time, modifiedAt: Time)

  type Docs = map<Slug, Record>

  function CreatedAt(docs: Docs, slug: Slug, now: Time): Time
  {
    if slug in docs then docs[slug].createdAt else now
  }

  function UpsertedRecord(docs: Docs, slug: Slug, now: Time): Record
  {
    Record(Active, None, CreatedAt(docs, slug, now), now)
  }

  function MarkedRecord(docs: Docs, slug: Slug, deleteAfter: Time, now: Time): Record
  {
    Record(PendingDeletion, Some(deleteAfter), CreatedAt(docs, slug, now), now)
  }

  predicate IsActive(docs: Docs, slug: Slug) { slug in docs && docs[slug].status.Active? }

  predicate IsPending(docs: Docs, slug: Slug) { slug in docs && docs[slug].status.PendingDeletion? }

  function ActiveSlugs(docs: Docs): set<Slug> { set slug | slug in docs && docs[slug].status.Active? }

  /** The filter of FindPendingDeletion: a null deadline never compares. */
  predicate Expired(docs: Docs, slug: Slug, now: Time)
  {
    IsPending(docs, slug) && docs[slug].deleteAfter.Some? && docs[slug].deleteAfter.value <= now
  }

  /** lo.Without. */
  function Without(collection: seq<Slug>, exclude: seq<Slug>): seq<Slug>
  {
    if collection == [] then []
    else (if collection[0] in exclude then [] else [collection[0]]) + Without(collection[1..], exclude)
  }

  lemma {:induction false} WithoutMeaning(collection: seq<Slug>, exclude: seq<Slug>, slug: Slug)
    ensures slug in Without(collection, exclude) <==> slug in collection && slug !in exclude
  {
    if collection != [] {
      WithoutMeaning(collection[1..], exclude, slug);
      assert collection == [collection[0]] + collection[1..];
    }
  }

  lemma {:induction false} WithoutNothing(collection: seq<Slug>)
    ensures Without(collection, []) == collection
  {
    if collection != [] {
      WithoutNothing(collection[1..]);
      assert collection == [collection[0]] + collection[1..];
    }
  }

  // ---------- What an undisturbed Sync does to one slug ----------

  predicate SameAt(docs: Docs, docs': Docs, slug: Slug)
  {
    if slug in docs then slug in docs' && docs'[slug] == docs[slug] else slug !in docs'
  }

  /** The creation time is kept, or lies within the call for a new record. */
  predicate CreationOk(docs: Docs, slug: Slug, r: Record, from: Time)
  {
    if slug in docs then r.createdAt == docs[slug].createdAt else from <= r.createdAt <= r.modifiedAt
  }

  predicate UpsertedAt(docs: Docs, docs': Docs, slug: Slug, from: Time, to: Time)
  {
    && IsActive(docs', slug) && docs'[slug].deleteAfter == None
    && from <= docs'[slug].modifiedAt <= to
    && CreationOk(docs, slug, docs'[slug], from)
  }

  /** `read` is the clock reading that the deadline is computed from, once for all slugs. */
  predicate MarkedAt(docs: Docs, docs': Docs, slug: Slug, read: Time, to: Time)
  {
    && IsPending(docs', slug) && docs'[slug].deleteAfter == Some(read + DELETION_DELAY_MILLIS)
    && read <= docs'[slug].modifiedAt <= to
    && CreationOk(docs, slug, docs'[slug], read)
  }

  // When a Sync starts, reads the clock for its deadline, and ends.
  datatype Times = Times(from: Time, read: Time, to: Time)

  /** What a Sync against this API answer intends for the slug: activate what is new, schedule what is gone,
      and leave alone what is already right, in particular a tenant that is already pending. */
  predicate ReconciledAt(docs: Docs, docs': Docs, api: set<Slug>, slug: Slug, t: Times)
  {
    if slug in api && !IsActive(docs, slug) then UpsertedAt(docs, docs', slug, t.from, t.to)
    else if slug !in api && IsActive(docs, slug) then MarkedAt(docs, docs', slug, t.read, t.to)
    else SameAt(docs, docs', slug)
  }

  ghost predicate Reconciled(docs: Docs, docs': Docs, api: set<Slug>, t: Times)
  {
    forall slug :: ReconciledAt(docs, docs', api, slug, t)
  }

  /** A Sync that failed part way has done some of it. */
  ghost predicate PartlyReconciled(docs: Docs, docs': Docs, api: set<Slug>, t: Times)
  {
    forall slug :: ReconciledAt(docs, docs', api, slug, t) || SameAt(docs, docs', slug)
  }

  /** A successful Sync leaves exactly the tenants of the API active, whatever the registry looked like before,
      so it also repairs what a failed one left behind. */
  lemma SyncReachesApi(docs: Docs, docs': Docs, api: set<Slug>, t: Times)
    requires Reconciled(docs, docs', api, t)
    ensures ActiveSlugs(docs') == api
  {
    forall slug ensures slug in ActiveSlugs(docs') <==> slug in api {
      assert ReconciledAt(docs, docs', api, slug, t);
    }
  }

  /** A second Sync with the same answer leaves every record as it is, even later. */
  lemma SyncIsIdempotent(docs: Docs, docs': Docs, docs'': Docs, api: set<Slug>, t: Times, later: Times)
    requires Reconciled(docs, docs', api, t) && Reconciled(docs', docs'', api, later)
    ensures docs'' == docs'
  {
    forall slug ensures SameAt(docs', docs'', slug) {
      assert ReconciledAt(docs, docs', api, slug, t) && ReconciledAt(docs', docs'', api, slug, later);
    }
    forall slug ensures slug in docs' <==> slug in docs''
                ensures slug in docs' ==> docs''[slug] == docs'[slug]
    {
      assert SameAt(docs', docs'', slug);
    }
    assert docs'.Keys == docs''.Keys;
  }

  /** Recovery: a failed Sync followed by a successful one ends with the tenants of the API active, and no
      tenant that was active and is in the API answer was ever touched. */
  lemma SyncRecovers(docs: Docs, failed: Docs, done: Docs, api: set<Slug>, t: Times, later: Times)
    requires PartlyReconciled(docs, failed, api, t) && Reconciled(failed, done, api, later)
    ensures ActiveSlugs(done) == api
    ensures forall slug :: slug in api && IsActive(docs, slug) ==>
              SameAt(docs, failed, slug) && SameAt(docs, done, slug)
    ensures forall slug :: slug !in api && !IsActive(docs, slug) ==>
              SameAt(docs, failed, slug) && SameAt(docs, done, slug)
  {
    SyncReachesApi(failed, done, api, later);
    forall slug | (slug in api) == IsActive(docs, slug)
      ensures SameAt(docs, failed, slug) && SameAt(docs, done, slug)
    {
      assert ReconciledAt(docs, failed, api, slug, t) || SameAt(docs, failed, slug);
      assert ReconciledAt(failed, done, api, slug, later);
    }
  }

  // ---------- Runs ----------

  /** A Sync, Create or Delete in progress: what it has still to write, and the clock reading that its deadlines are
      computed from. A call that fails or crashes is one that never goes on. */
  datatype Call = Call(toCreate: seq<Slug>, toDelete: seq<Slug>, read: Option<Time>)

  datatype World = World(now: Time, docs: Docs, calls: seq<Call>)

  /** Calls of any number of instances interleave command by command, and time passes in between. */
  datatype Step =
    | Tick(millis: nat)
    | BeginSync(local: seq<Slug>, api: seq<Slug>)   // FindActive; the answer of the API arrives later
    | BeginCreate(slug: Slug)
    | BeginDelete(slug: Slug)
    | Upsert(c: nat)
    | ReadClock(c: nat)
    | Mark(c: nat)
    | Cleanup(removed: set<Slug>)                   // one pass; those whose cleaners and removal all succeeded

  predicate Enabled(w: World, s: Step)
  {
    match s
    case Tick(_) => true
    case BeginSync(local, _) => AsSet(local) == ActiveSlugs(w.docs)
    case BeginCreate(_) => true
    case BeginDelete(_) => true
    case Upsert(c) => c < |w.calls| && w.calls[c].toCreate != []
    case ReadClock(c) => c < |w.calls| && w.calls[c].toCreate == [] && w.calls[c].read.None?
    case Mark(c) => c < |w.calls| && w.calls[c].toCreate == [] && w.calls[c].read.Some? && w.calls[c].toDelete != []
    case Cleanup(removed) => forall slug :: slug in removed ==> Expired(w.docs, slug, w.now)
  }

  /** The slug that the step writes, if it is a write of a call. */
  function Written(w: World, s: Step): Option<Slug>
    requires Enabled(w, s)
  {
    match s
    case Upsert(c) => Some(w.calls[c].toCreate[0])
    case Mark(c) => Some(w.calls[c].toDelete[0])
    case _ => None
  }

  function NextCalls(w: World, s: Step): seq<Call>
    requires Enabled(w, s)
  {
    match s
    case BeginSync(local, api) => w.calls + [Call(Without(api, local), Without(local, api), None)]
    case BeginCreate(slug) => w.calls + [Call([slug], [], None)]
    case BeginDelete(slug) => w.calls + [Call([], [slug], None)]
    case Upsert(c) => w.calls[c := w.calls[c].(toCreate := w.calls[c].toCreate[1..])]
    case ReadClock(c) => w.calls[c := w.calls[c].(read := Some(w.now))]
    case Mark(c) => w.calls[c := w.calls[c].(toDelete := w.calls[c].toDelete[1..])]
    case _ => w.calls
  }

  function NextDocs(w: World, s: Step): Docs
    requires Enabled(w, s)
  {
    match s
    case Upsert(c) => var slug := w.calls[c].toCreate[0]; w.docs[slug := UpsertedRecord(w.docs, slug, w.now)]
    case Mark(c) =>
      var slug := w.calls[c].toDelete[0];
      w.docs[slug := MarkedRecord(w.docs, slug, w.calls[c].read.value + DELETION_DELAY_MILLIS, w.now)]
    case Cleanup(removed) => w.docs - removed
    case _ => w.docs
  }

  function Next(w: World, s: Step): World
    requires Enabled(w, s)
  {
    World(if s.Tick? then w.now + s.millis else w.now, NextDocs(w, s), NextCalls(w, s))
  }

  ghost predicate StepAt(ws: seq<World>, steps: seq<Step>, i: nat)
    requires |ws| == |steps| + 1 && i < |steps|
  {
    Enabled(ws[i], steps[i]) && ws[i + 1] == Next(ws[i], steps[i])
  }

  ghost predicate IsPath(ws: seq<World>, steps: seq<Step>)
  {
    |ws| == |steps| + 1 && forall i :: 0 <= i < |steps| ==> StepAt(ws, steps, i)
  }

  ghost predicate Init(w: World) { w.docs == map[] && w.calls == [] }

  ghost predicate IsRun(ws: seq<World>, steps: seq<Step>) { IsPath(ws, steps) && Init(ws[0]) }

  ghost predicate Reaches(w: World, w': World)
  {
    exists ws, steps :: IsPath(ws, steps) && ws[0] == w && ws[|steps|] == w'
  }

  lemma ReachesItself(w: World)
    ensures Reaches(w, w)
  {
    assert IsPath([w], []);
  }

  lemma ReachesNext(w0: World, w: World, s: Step)
    requires Reaches(w0, w) && Enabled(w, s)
    ensures Reaches(w0, Next(w, s))
  {
    var ws, steps :| IsPath(ws, steps) && ws[0] == w0 && ws[|steps|] == w;
    var ws', steps' := ws + [Next(w, s)], steps + [s];
    forall i | 0 <= i < |steps'| ensures StepAt(ws', steps', i) {
      assert i < |steps| ==> StepAt(ws, steps, i);
    }
    assert IsPath(ws', steps') && ws'[0] == w0 && ws'[|steps'|] == Next(w, s);
  }

  // ---------- Records ----------

  /** Active tenants have no deadline; a pending one has a deadline at most five minutes after its marking. */
  predicate RecordOk(r: Record, now: Time)
  {
    && r.createdAt <= r.modifiedAt <= now
    && match r.status
       case Active => r.deleteAfter == None
       case PendingDeletion => r.deleteAfter.Some? && r.deleteAfter.value <= r.modifiedAt + DELETION_DELAY_MILLIS
  }

  ghost predicate Inv(w: World)
  {
    && (forall slug :: slug in w.docs ==> RecordOk(w.docs[slug], w.now))
    && (forall c :: 0 <= c < |w.calls| && w.calls[c].read.Some? ==> w.calls[c].read.value <= w.now)
  }

  lemma StepInv(w: World, s: Step)
    requires Inv(w) && Enabled(w, s)
    ensures Inv(Next(w, s))
  {
  }

  lemma {:induction false} RecordsOk(ws: seq<World>, steps: seq<Step>, i: nat)
    requires IsRun(ws, steps) && i < |ws|
    ensures Inv(ws[i])
  {
    if i > 0 {
      RecordsOk(ws, steps, i - 1);
      assert StepAt(ws, steps, i - 1);
      StepInv(ws[i - 1], steps[i - 1]);
    }
  }

  /** A record keeps its creation time for as long as it exists. */
  lemma {:induction false} CreationTimeKept(ws: seq<World>, steps: seq<Step>, i: nat, j: nat, slug: Slug)
    requires IsRun(ws, steps) && i <= j < |ws|
    requires forall k :: i <= k <= j ==> slug in ws[k].docs
    ensures ws[j].docs[slug].createdAt == ws[i].docs[slug].createdAt
    decreases j
  {
    if i < j {
      CreationTimeKept(ws, steps, i, j - 1, slug);
      assert StepAt(ws, steps, j - 1);
      assert slug in ws[j - 1].docs;
    }
  }

  // ---------- Deferred deletion ----------

  /** Step m marks the slug, and step r is where the same call read the clock for the deadline. */
  ghost predicate Marks(ws: seq<World>, steps: seq<Step>, r: nat, m: nat, slug: Slug)
    requires IsPath(ws, steps) && r < m < |steps|
  {
    assert StepAt(ws, steps, m);
    steps[m].Mark? && ws[m].calls[steps[m].c].toDelete[0] == slug && steps[r] == ReadClock(steps[m].c)
  }

  lemma {:induction false} ReadBy(ws: seq<World>, steps: seq<Step>, i: nat, c: nat) returns (r: nat)
    requires IsRun(ws, steps) && i < |ws| && c < |ws[i].calls| && ws[i].calls[c].read.Some?
    ensures r < i && steps[r] == ReadClock(c) && ws[r].now == ws[i].calls[c].read.value
  {
    assert i > 0;
    assert StepAt(ws, steps, i - 1);
    if steps[i - 1] == ReadClock(c) {
      r := i - 1;
    } else {
      r := ReadBy(ws, steps, i - 1, c);
    }
  }

  /** Every pending record goes back to one marking: it is unchanged since, and its deadline is five minutes after
      the clock reading of the marking call. */
  lemma {:induction false} MarkedBy(ws: seq<World>, steps: seq<Step>, i: nat, slug: Slug) returns (r: nat, m: nat)
    requires IsRun(ws, steps) && i < |ws| && IsPending(ws[i].docs, slug)
    ensures r < m < i && Marks(ws, steps, r, m, slug)
    ensures forall k :: m < k <= i ==> slug in ws[k].docs && ws[k].docs[slug] == ws[i].docs[slug]
    ensures ws[i].docs[slug].modifiedAt == ws[m].now
    ensures ws[i].docs[slug].deleteAfter == Some(ws[r].now + DELETION_DELAY_MILLIS)
  {
    assert i > 0;
    assert StepAt(ws, steps, i - 1);
    if Written(ws[i - 1], steps[i - 1]) == Some(slug) {
      m := i - 1;
      r := ReadBy(ws, steps, m, steps[m].c);
    } else {
      r, m := MarkedBy(ws, steps, i - 1, slug);
    }
  }

  /** A pass removes a tenant only five minutes or more after the clock reading of the call that marked it, and the
      tenant was pending ever since that marking. */
  lemma RemovedWhenDue(ws: seq<World>, steps: seq<Step>, j: nat, slug: Slug) returns (r: nat, m: nat)
    requires IsRun(ws, steps) && j < |steps| && steps[j].Cleanup? && slug in steps[j].removed
    ensures r < m < j && Marks(ws, steps, r, m, slug)
    ensures ws[j].now >= ws[r].now + 300000
    ensures forall k :: m < k <= j ==> IsPending(ws[k].docs, slug)
  {
    assert StepAt(ws, steps, j);
    assert Expired(ws[j].docs, slug, ws[j].now);
    r, m := MarkedBy(ws, steps, j, slug);
  }

  /** Between the clock reading of a call and its marking of the slug lie at most `lag` milliseconds. */
  predicate PromptAt(w: World, s: Step, slug: Slug, lag: nat)
    requires Enabled(w, s)
  {
    s.Mark? && w.calls[s.c].toDelete[0] == slug ==> w.now - w.calls[s.c].read.value <= lag
  }

  ghost predicate MarkedPromptly(ws: seq<World>, steps: seq<Step>, i: nat, j: nat, slug: Slug, lag: nat)
    requires IsPath(ws, steps) && i <= j < |ws|
  {
    forall k :: i <= k < j ==> (assert StepAt(ws, steps, k); PromptAt(ws[k], steps[k], slug, lag))
  }

  /** Nothing that happens from time `since` on can make the slug due before five minutes, less the lag. */
  predicate Graced(w: World, slug: Slug, since: Time, lag: nat)
  {
    && since <= w.now
    && (IsPending(w.docs, slug) && w.docs[slug].deleteAfter.Some? ==>
          w.docs[slug].deleteAfter.value >= since + DELETION_DELAY_MILLIS - lag)
    && (slug !in w.docs ==> w.now >= since + DELETION_DELAY_MILLIS - lag)
  }

  lemma GraceStep(w: World, s: Step, slug: Slug, since: Time, lag: nat)
    requires Enabled(w, s) && PromptAt(w, s, slug, lag) && Graced(w, slug, since, lag)
    ensures Graced(Next(w, s), slug, since, lag)
  {
    if s.Cleanup? && slug in s.removed {
      assert Expired(w.docs, slug, w.now);
    }
  }

  /** Deferred deletion: whatever calls and passes interleave, a tenant that is active now stays registered for five
      minutes, less the longest time that a call takes between reading the clock and marking it. */
  lemma {:induction false} GracePeriod(ws: seq<World>, steps: seq<Step>, i: nat, j: nat, slug: Slug, lag: nat)
    requires IsRun(ws, steps) && i <= j < |ws| && IsActive(ws[i].docs, slug)
    requires MarkedPromptly(ws, steps, i, j, slug, lag)
    ensures Graced(ws[j], slug, ws[i].now, lag)
    ensures slug !in ws[j].docs ==> ws[j].now >= ws[i].now + 300000 - lag
    decreases j
  {
    if i < j {
      GracePeriod(ws, steps, i, j - 1, slug, lag);
      assert StepAt(ws, steps, j - 1);
      GraceStep(ws[j - 1], steps[j - 1], slug, ws[i].now, lag);
    }
  }

  /** How long a tenant at least stays after its marking is exactly five minutes less the time that the call took
      between reading the clock and writing; all five minutes if and only if both happened in one millisecond. */
  lemma GraceExact(w: World, c: nat, grace: nat)
    requires Inv(w) && Enabled(w, Mark(c)) && grace > 0
    ensures var slug, marked := w.calls[c].toDelete[0], Next(w, Mark(c));
            (forall millis: nat :: Enabled(Next(marked, Tick(millis)), Cleanup({slug})) ==> millis >= grace)
            <==> w.now - w.calls[c].read.value <= DELETION_DELAY_MILLIS - grace
  {
    var slug, marked := w.calls[c].toDelete[0], Next(w, Mark(c));
    var due := w.calls[c].read.value + DELETION_DELAY_MILLIS - w.now;
    forall millis: nat
      ensures Enabled(Next(marked, Tick(millis)), Cleanup({slug})) <==> millis >= due
    {
      assert Expired(Next(marked, Tick(millis)).docs, slug, w.now + millis) <==> millis >= due;
      assert slug in {slug};
    }
    var first: nat := if due < 0 then 0 else due;
    assert Enabled(Next(marked, Tick(first)), Cleanup({slug}));
  }

  /** A Sync whose writes stall: its deadline was computed before the first marking, so a tenant that is active up to
      the last marking can be removed in the very same millisecond. */
  lemma SlowSyncSkipsGrace(a: Slug, b: Slug) returns (before: World, after: World)
    requires a != b
    ensures Reaches(World(0, map[], []), before) && IsActive(before.docs, b)
    ensures Reaches(before, after) && b !in after.docs && after.now == before.now
  {
    var start := World(0, map[], []);
    ReachesItself(start);
    var w := Registered(start, start, a);
    w := Registered(start, w, b);
    WithoutNothing([a, b]);
    w := Run1(start, w, BeginSync([a, b], []));
    assert w.calls[2] == Call([], [a, b], None);
    before := StalledAfterFirst(start, w, a, b);
    ReachesItself(before);
    w := Run1(before, before, Mark(2));
    assert Expired(w.docs, b, w.now);
    after := Run1(before, w, Cleanup({b}));
  }

  /** The first write of the Sync takes five minutes. */
  lemma StalledAfterFirst(start: World, w: World, a: Slug, b: Slug) returns (w': World)
    requires Reaches(start, w) && a != b && IsActive(w.docs, b)
    requires |w.calls| == 3 && w.calls[2] == Call([], [a, b], None)
    ensures Reaches(start, w') && IsActive(w'.docs, b)
    ensures |w'.calls| == 3 && w'.calls[2] == Call([], [b], Some(w'.now - 300000))
  {
    w' := Run1(start, w, ReadClock(2));
    assert w'.calls[2] == Call([], [a, b], Some(w.now)) && [a, b][1..] == [b];
    w' := Run1(start, w', Mark(2));
    assert w'.calls[2] == Call([], [b], Some(w.now));
    w' := Run1(start, w', Tick(300000));
  }

  lemma Run1(start: World, w: World, s: Step) returns (w': World)
    requires Reaches(start, w) && Enabled(w, s)
    ensures w' == Next(w, s) && Reaches(start, w')
  {
    w' := Next(w, s);
    ReachesNext(start, w, s);
  }

  /** A completed Create. */
  lemma Registered(start: World, w: World, slug: Slug) returns (w': World)
    requires Reaches(start, w) && slug !in w.docs
    ensures Reaches(start, w')
    ensures w' == World(w.now, w.docs[slug := Record(Active, None, w.now, w.now)], w.calls + [Call([], [], None)])
  {
    var begun := Run1(start, w, BeginCreate(slug));
    assert begun.calls[|w.calls|] == Call([slug], [], None) && [slug][1..] == [];
    w' := Run1(start, begun, Upsert(|w.calls|));
    assert w'.calls == w.calls + [Call([], [], None)] && begun.docs == w.docs;
  }

  // ---------- Deadlines do not move ----------

  /** Somebody asks for the slug: by name, or as a tenant of the API. */
  predicate AsksFor(s: Step, slug: Slug)
  {
    s == BeginCreate(slug) || s == BeginDelete(slug) || (s.BeginSync? && slug in s.api)
  }

  ghost predicate NobodyAsks(steps: seq<Step>, i: nat, j: nat, slug: Slug)
    requires i <= j <= |steps|
  {
    forall k :: i <= k < j ==> !AsksFor(steps[k], slug)
  }

  /** No call in progress has still to write the slug. */
  ghost predicate NotInCalls(w: World, slug: Slug)
  {
    forall c :: 0 <= c < |w.calls| ==> slug !in w.calls[c].toCreate && slug !in w.calls[c].toDelete
  }

  /** The record is unchanged, or a pass has removed it after its deadline. */
  predicate KeptOrDue(w: World, slug: Slug, r: Record)
  {
    if slug in w.docs then w.docs[slug] == r else r.deleteAfter.Some? && r.deleteAfter.value <= w.now
  }

  lemma KeptStep(w: World, s: Step, slug: Slug, r: Record)
    requires Enabled(w, s) && !AsksFor(s, slug) && r.status.PendingDeletion?
    requires NotInCalls(w, slug) && KeptOrDue(w, slug, r)
    ensures NotInCalls(Next(w, s), slug) && KeptOrDue(Next(w, s), slug, r)
    ensures slug in w.docs && slug !in Next(w, s).docs ==> s.Cleanup? && slug in s.removed
  {
    if s.BeginSync? {
      WithoutMeaning(s.api, s.local, slug);
      WithoutMeaning(s.local, s.api, slug);
      assert slug in AsSet(s.local) <==> slug in ActiveSlugs(w.docs);
    } else if s.Cleanup? && slug in s.removed {
      assert Expired(w.docs, slug, w.now);
    }
  }

  /** Whatever happens to other tenants, and however often Syncs without it and cleanup passes run, a pending tenant
      keeps its record and its deadline until a pass removes it, at or after that deadline. */
  lemma {:induction false} DeadlineKept(ws: seq<World>, steps: seq<Step>, i: nat, j: nat, slug: Slug)
    requires IsRun(ws, steps) && i <= j < |ws| && IsPending(ws[i].docs, slug)
    requires NotInCalls(ws[i], slug) && NobodyAsks(steps, i, j, slug)
    ensures NotInCalls(ws[j], slug) && KeptOrDue(ws[j], slug, ws[i].docs[slug])
    ensures slug in ws[j].docs || exists k :: i <= k < j && steps[k].Cleanup? && slug in steps[k].removed
    ensures slug in ws[j].docs && ws[j].now >= ws[i].docs[slug].modifiedAt + 300000 ==>
              Expired(ws[j].docs, slug, ws[j].now)
    decreases j
  {
    RecordsOk(ws, steps, i);
    if i < j {
      DeadlineKept(ws, steps, i, j - 1, slug);
      assert StepAt(ws, steps, j - 1);
      assert !AsksFor(steps[j - 1], slug);
      KeptStep(ws[j - 1], steps[j - 1], slug, ws[i].docs[slug]);
    }
  }

  // ---------- Calls in progress ----------

  lemma CallsStep(w: World, s: Step, slug: Slug, c: nat)
    requires Enabled(w, s) && !AsksFor(s, slug) && c < |NextCalls(w, s)| && slug in NextCalls(w, s)[c].toCreate
    ensures c < |w.calls| && slug in w.calls[c].toCreate
  {
    if s.BeginSync? {
      WithoutMeaning(s.api, s.local, slug);
    }
  }

  lemma {:induction false} CallsSince(ws: seq<World>, steps: seq<Step>, i: nat, j: nat, slug: Slug, c: nat)
    requires IsRun(ws, steps) && i <= j < |ws| && NobodyAsks(steps, i, j, slug)
    requires c < |ws[j].calls| && slug in ws[j].calls[c].toCreate
    ensures c < |ws[i].calls| && slug in ws[i].calls[c].toCreate
    decreases j
  {
    if i < j {
      assert StepAt(ws, steps, j - 1);
      assert !AsksFor(steps[j - 1], slug);
      CallsStep(ws[j - 1], steps[j - 1], slug, c);
      CallsSince(ws, steps, i, j - 1, slug, c);
    }
  }

  lemma ActivatedBy(w: World, s: Step, slug: Slug)
    requires Enabled(w, s) && !IsActive(w.docs, slug) && IsActive(Next(w, s).docs, slug)
    ensures s.Upsert? && w.calls[s.c].toCreate[0] == slug
  {
  }

  /** A tenant nobody asks for becomes active only by a write that some call in progress has still to make. */
  lemma {:induction false} ReactivatedBy(ws: seq<World>, steps: seq<Step>, i: nat, j: nat, slug: Slug) returns (k: nat)
    requires IsRun(ws, steps) && i <= j < |ws| && NobodyAsks(steps, i, j, slug)
    requires !IsActive(ws[i].docs, slug) && IsActive(ws[j].docs, slug)
    ensures i <= k < j && steps[k].Upsert?
    ensures steps[k].c < |ws[i].calls| && slug in ws[i].calls[steps[k].c].toCreate
    ensures !IsActive(ws[k].docs, slug) && IsActive(ws[k + 1].docs, slug)
    decreases j
  {
    assert StepAt(ws, steps, j - 1);
    if IsActive(ws[j - 1].docs, slug) {
      k := ReactivatedBy(ws, steps, i, j - 1, slug);
    } else {
      k := j - 1;
      ActivatedBy(ws[k], steps[k], slug);
      CallsSince(ws, steps, i, k, slug, steps[k].c);
    }
  }

  /** It does happen: a Sync reads its lists, a Delete of the new tenant runs from start to end, and then the Sync's
      write makes the pending tenant active, although nobody has asked for it since the Delete. */
  lemma StaleSyncReactivates(slug: Slug) returns (before: World, after: World)
    ensures Reaches(World(0, map[], []), before) && IsPending(before.docs, slug)
    ensures Enabled(before, Upsert(0)) && after == Next(before, Upsert(0)) && IsActive(after.docs, slug)
  {
    var start := World(0, map[], []);
    ReachesItself(start);
    WithoutNothing([slug]);
    var w := Run1(start, start, BeginSync([], [slug]));
    assert w.calls[0] == Call([slug], [], None);
    w := Run1(start, w, BeginDelete(slug));
    w := Run1(start, w, ReadClock(1));
    assert w.calls[0] == Call([slug], [], None) && w.calls[1] == Call([], [slug], Some(0));
    before := Run1(start, w, Mark(1));
    after := Next(before, Upsert(0));
  }
}
