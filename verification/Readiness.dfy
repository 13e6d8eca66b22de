/** Readiness and the worker gate in the shape of the source (pkg/core/health/readiness.go,
    pkg/core/worker/worker.go). Every method of Readiness runs under the mutex; how calls interleave is the
    matter of ReadinessLatch. */
module Readiness {
  import opened Wrappers
  import opened ReadinessLatch
  import opened Sorting

  // The closure that AddComponent returns: it marks a component, or does nothing for a name already taken.
  datatype MarkFunc = Noop | Marks(name: string)

  datatype Status = Status(
    ready: bool,
    components: seq<Component>,
    readyAt: Option<Time>,
    kubernetesNotifiedAt: Option<Time>)

  // ---------- Names in the order of Go's string comparison ----------

  predicate Less(a: string, b: string)
  {
    b != "" && (a == "" || a[0] < b[0] || (a[0] == b[0] && Less(a[1..], b[1..])))
  }

  /** Lexicographic: at the first difference the lower character, or the end of the name, comes first. */
  lemma {:induction false} LessIsLexicographic(a: string, b: string, k: nat)
    requires k <= |a| && k <= |b| && a[..k] == b[..k]
    requires k == |a| || k == |b| || a[k] != b[k]
    ensures Less(a, b) <==> k < |b| && (k == |a| || a[k] < b[k])
    decreases k
  {
    if k > 0 {
      assert a[..k][0] == b[..k][0];
      assert a[1..][..k - 1] == a[..k][1..] == b[..k][1..] == b[1..][..k - 1];
      LessIsLexicographic(a[1..], b[1..], k - 1);
    }
  }

  lemma {:induction false} LessIsTotal(a: string, b: string)
    ensures a == b || Less(a, b) || Less(b, a)
  {
    if a != "" && b != "" && a[0] == b[0] {
      LessIsTotal(a[1..], b[1..]);
      assert a == [a[0]] + a[1..] && b == [b[0]] + b[1..];
    }
  }

  lemma {:induction false} LessIsTransitive(a: string, b: string, c: string)
    requires Less(a, b) && Less(b, c)
    ensures Less(a, c)
  {
    if a != "" && a[0] == b[0] == c[0] {
      LessIsTransitive(a[1..], b[1..], c[1..]);
    }
  }

  lemma {:induction false} LessIsIrreflexive(a: string)
    ensures !Less(a, a)
  {
    if a != "" {
      LessIsIrreflexive(a[1..]);
    }
  }

  /** In name order, each name once. */
  ghost predicate SortedByName(cs: seq<Component>)
  {
    forall i, j :: 0 <= i < j < |cs| ==> Less(cs[i].name, cs[j].name)
  }

  predicate HasName(cs: seq<Component>, name: string)
  {
    exists i :: 0 <= i < |cs| && cs[i].name == name
  }

  /** Stands for sort.Slice, one element at a time. */
  method InsertByName(cs: seq<Component>, c: Component) returns (r: seq<Component>)
    requires SortedByName(cs) && !HasName(cs, c.name)
    ensures SortedByName(r) && multiset(r) == multiset(cs) + multiset{c}
  {
    var i := 0;
    while i < |cs| && Less(cs[i].name, c.name)
      invariant 0 <= i <= |cs|
      invariant forall k :: 0 <= k < i ==> Less(cs[k].name, c.name)
    {
      i := i + 1;
    }
    if i < |cs| {
      LessIsTotal(c.name, cs[i].name);
      assert cs[i].name != c.name;
    }
    r := cs[..i] + [c] + cs[i..];
    InsertedSorted(cs, c, i);
    assert cs == cs[..i] + cs[i..];
  }

  lemma InsertedSorted(cs: seq<Component>, c: Component, i: nat)
    requires SortedByName(cs) && i <= |cs|
    requires forall k :: 0 <= k < i ==> Less(cs[k].name, c.name)
    requires i < |cs| ==> Less(c.name, cs[i].name)
    ensures SortedByName(cs[..i] + [c] + cs[i..])
  {
    var r := cs[..i] + [c] + cs[i..];
    forall m, n | 0 <= m < n < |r| ensures Less(r[m].name, r[n].name) {
      assert r[m] == if m < i then cs[m] else if m == i then c else cs[m - 1];
      assert r[n] == if n < i then cs[n] else if n == i then c else cs[n - 1];
      if m == i && n > i + 1 {
        LessIsTransitive(c.name, cs[i].name, cs[n - 1].name);
      }
    }
  }

  /** Two sorted listings of the same components are equal, so the status does not depend on map order. */
  lemma SortedListingUnique(a: seq<Component>, b: seq<Component>)
    requires SortedByName(a) && SortedByName(b) && multiset(a) == multiset(b)
    ensures a == b
  {
    var before := (c: Component, d: Component) => Less(c.name, d.name);
    forall c: Component, d: Component ensures !(before(c, d) && before(d, c)) {
      if before(c, d) && before(d, c) {
        LessIsTransitive(c.name, d.name, c.name);
        LessIsIrreflexive(c.name);
      }
    }
    SortedUnique(before, a, b);
  }

  function Later(a: Option<Time>, b: Option<Time>): Option<Time>
  {
    if a.None? || (b.Some? && b.value > a.value) then b else a
  }

  /** The latest of the times at which components of the map became ready. */
  ghost predicate IsLatest(components: Components, t: Option<Time>)
  {
    && (forall name :: name in components && components[name].readyAt.Some? ==>
          t.Some? && components[name].readyAt.value <= t.value)
    && (t.Some? ==> exists name :: name in components && components[name].readyAt == t)
  }

  class Readiness {
    var components: Components
    var ready: bool                  // readyChan closed
    var traffic: bool                // kubernetesReadyChan closed
    var kubernetesNotifiedAt: Option<Time>
    const isKubernetes: bool

    ghost predicate Valid()
      reads this
    {
      && (forall name :: name in components ==> components[name].name == name)
      && (!ready ==> !AllReady(components))
      && (traffic ==> ready)
    }

    constructor (isKubernetes: bool)
      ensures Valid() && components == map[] && !ready && !traffic && kubernetesNotifiedAt == None
      ensures this.isKubernetes == isKubernetes
    {
      this.isKubernetes := isKubernetes;
      components, ready, traffic, kubernetesNotifiedAt := map[], false, false, None;
    }

    /** An empty name panics; a name already taken gets a closure that does nothing. */
    method AddComponent(name: string, now: Time) returns (r: Result<MarkFunc, ()>)
      requires Valid()
      modifies this`components
      ensures Valid()
      ensures r == if name == "" then Failure(())
                   else if name in old(components) then Success(Noop)
                   else Success(Marks(name))
      ensures components == if name == "" then old(components) else WithAdded(old(components), name, now)
      ensures name != "" && name !in old(components) ==>
                components == old(components)[name := Component(name, false, now, None)]
      ensures name == "" || name in old(components) ==> components == old(components)
    {
      if name == "" {
        return Failure(());
      }
      if name in components {
        return Success(Noop);
      }
      components := components[name := Component(name, false, now, None)];
      assert !components[name].ready;
      r := Success(Marks(name));
    }

    /** Calling the closure: closes the latch when this was the last component, and only the first time. */
    method Call(mark: MarkFunc, now: Time)
      requires Valid() && (mark.Marks? ==> mark.name in components)
      modifies this`components, this`ready
      ensures Valid()
      ensures components == if mark.Noop? then old(components) else WithMarked(old(components), mark.name, now)
      ensures ready <==> old(ready) || AllReady(components)
      ensures ready <==>
                old(ready) || (components != map[] && forall name :: name in components ==> components[name].ready)
      ensures components.Keys == old(components).Keys
      ensures mark.Marks? ==>
                var c := old(components)[mark.name];
                components[mark.name] == Component(c.name, true, c.startedAt, if c.ready then c.readyAt else Some(now))
      ensures forall other :: other in old(components) && (mark.Noop? || other != mark.name) ==>
                components[other] == old(components)[other]
    {
      if mark.Noop? || components[mark.name].ready {
        return;
      }
      components := components[mark.name := components[mark.name].(ready := true, readyAt := Some(now))];
      var allReady := |components| > 0;
      var rest := components.Keys;
      while rest != {}
        invariant rest <= components.Keys
        invariant allReady <==> forall name :: name in components.Keys - rest ==> components[name].ready
        decreases |rest|
      {
        var name :| name in rest;
        if !components[name].ready {
          allReady := false;
          break;
        }
        rest := rest - {name};
      }
      if allReady && !ready {
        ready := true;
      }
    }

    method IsReady() returns (r: bool)
      ensures r == ready
    {
      r := ready;
    }

    method LatestReadyAt() returns (t: Option<Time>)
      ensures IsLatest(components, t)
    {
      t := None;
      var rest := components.Keys;
      while rest != {}
        invariant rest <= components.Keys
        invariant forall name :: name in components.Keys - rest && components[name].readyAt.Some? ==>
                    t.Some? && components[name].readyAt.value <= t.value
        invariant t.Some? ==> exists name :: name in components && components[name].readyAt == t
        decreases |rest|
      {
        var name :| name in rest;
        t := Later(t, components[name].readyAt);
        rest := rest - {name};
      }
    }

    /** Every component once, sorted by name, whatever order the map is enumerated in. */
    method GetStatus() returns (s: Status)
      requires Valid()
      ensures s.ready == ready && s.kubernetesNotifiedAt == kubernetesNotifiedAt
      ensures SortedByName(s.components)
      ensures forall c :: c in s.components <==> c.name in components && components[c.name] == c
      ensures |s.components| == |components|
      ensures if ready && components != map[] then IsLatest(components, s.readyAt) else s.readyAt == None
      ensures ready ==> forall name :: name in components && components[name].readyAt.Some? ==>
                          s.readyAt.Some? && components[name].readyAt.value <= s.readyAt.value
      ensures s.readyAt.Some? ==> exists name :: name in components && components[name].readyAt == s.readyAt
    {
      var readyAt := None;
      if ready && |components| > 0 {
        readyAt := LatestReadyAt();
      }
      var cs: seq<Component> := [];
      var rest := components.Keys;
      while rest != {}
        invariant rest <= components.Keys && |cs| + |rest| == |components|
        invariant SortedByName(cs)
        invariant forall c :: c in cs <==> c.name in components.Keys - rest && components[c.name] == c
        decreases |rest|
      {
        var name :| name in rest;
        var c := components[name];
        assert !HasName(cs, name) by {
          assert forall i :: 0 <= i < |cs| ==> cs[i] in cs;
        }
        ghost var before := cs;
        cs := InsertByName(cs, c);
        forall d ensures d in cs <==> d in before || d == c {
          assert d in cs <==> d in multiset(cs);
          assert d in before <==> d in multiset(before);
        }
        assert |multiset(cs)| == |cs| && |multiset(before)| == |before|;
        rest := rest - {name};
      }
      s := Status(ready, cs, readyAt, kubernetesNotifiedAt);
    }

    /** The readiness probe confirms: ignored until all components were ready, and after the first time. */
    method MarkTrafficReady(now: Time)
      requires Valid()
      modifies this`traffic, this`kubernetesNotifiedAt
      ensures Valid()
      ensures traffic <==> old(traffic) || ready
      ensures kubernetesNotifiedAt == if ready && !old(traffic) then Some(now) else old(kubernetesNotifiedAt)
    {
      var r := IsReady();
      if !r {
        return;
      }
      if traffic {
        return;
      }
      kubernetesNotifiedAt := Some(now);
      traffic := true;
    }

    /** Whether WaitForTrafficReady returns at this moment without blocking. */
    method WaitForTrafficReady() returns (passes: bool)
      requires Valid()
      ensures passes <==> ready && (isKubernetes ==> traffic)
    {
      if !ready {
        return false;
      }
      if !isKubernetes {
        return true;
      }
      passes := traffic;
    }
  }

  datatype Options = Options(waitForTrafficReady: bool, waitReady: bool, shutdownOnError: bool)

  /** `run` of worker.go, with a wait that cannot pass at this moment ending in cancellation. How a worker stays
      blocked while others act is the matter of ReadinessLatch. */
  class BaseWorker {
    const options: Options
    const readiness: Readiness
    var ran: bool                  // runFunc was called
    var shutdownRequested: bool

    constructor (options: Options, readiness: Readiness)
      ensures this.options == options && this.readiness == readiness && !ran && !shutdownRequested
    {
      this.options, this.readiness := options, readiness;
      ran, shutdownRequested := false, false;
    }

    method Run(runFails: bool)
      requires readiness.Valid() && !ran
      modifies this
      ensures ran <==> && (options.waitReady || options.waitForTrafficReady ==> readiness.ready)
                       && (options.waitForTrafficReady && readiness.isKubernetes ==> readiness.traffic)
      ensures shutdownRequested <==> old(shutdownRequested) || (ran && runFails && options.shutdownOnError)
    {
      if options.waitReady {
        var ready := readiness.IsReady();
        if !ready {
          return;
        }
      }
      if options.waitForTrafficReady {
        var passes := readiness.WaitForTrafficReady();
        if !passes {
          return;
        }
      }
      ran := true;
      if !runFails {
        return;
      }
      if options.shutdownOnError {
        shutdownRequested := true;
      }
    }
  }
}
