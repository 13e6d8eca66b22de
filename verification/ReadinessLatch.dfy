/** The readiness latch (pkg/core/health/readiness.go) and the workers gated on it (pkg/core/worker/worker.go),
    as a step system: one step is one critical section or one channel operation. */
module ReadinessLatch {
  import opened Wrappers

  datatype Component = Component(name: string, ready: bool, startedAt: Time, readyAt: Option<Time>)

  type Components = map<string, Component>

  predicate AllReady(components: Components)
  {
    components != map[] && forall name :: name in components ==> components[name].ready
  }

  function WithAdded(components: Components, name: string, now: Time): Components
  {
    if name in components then components else components[name := Component(name, false, now, None)]
  }

  function WithMarked(components: Components, name: string, now: Time): Components
    requires name in components
  {
    if components[name].ready then components
    else components[name := components[name].(ready := true, readyAt := Some(now))]
  }

  // sync.Once: a second caller waits while the first one is inside.
  datatype Once = NotStarted | Running | Done

  // Where a call of MarkTrafficReady stands: IsReady was true; the channel was open; inside kubernetesReadyOnce.
  datatype CallerAt = Checked | Selected | InOnce

  // Where a worker stands in run: the WaitReady stage, the two waits of WaitForTrafficReady, runFunc, the end.
  datatype WorkerAt = AtReady | AtTraffic | AtKubernetes | Working | Stopped

  datatype Worker = Worker(waitReady: bool, waitForTraffic: bool, at: WorkerAt)

  datatype World = World(
    now: Time,
    isKubernetes: bool,
    components: Components,
    ready: bool,                    // readyChan is closed
    readyCloses: nat,               // history: how often it was closed; a second close panics
    traffic: bool,                  // kubernetesReadyChan is closed
    trafficCloses: nat,
    once: Once,                     // kubernetesReadyOnce
    notifiedAt: Option<Time>,
    callers: map<nat, CallerAt>,
    workers: map<nat, Worker>)

  datatype Step =
    | Tick(millis: nat)
    | AddComponent(name: string)
    | Mark(name: string)            // the closure that AddComponent returned for this name
    | CallMarkTrafficReady(c: nat)
    | SelectChannel(c: nat)
    | EnterOnce(c: nat)
    | LeaveOnce(c: nat)
    | StartWorker(k: nat, waitReady: bool, waitForTraffic: bool)
    | Advance(k: nat)
    | Cancel(k: nat)

  /** The worker's current wait is over. */
  predicate CanAdvance(w: World, k: Worker)
  {
    match k.at
    case AtReady => k.waitReady ==> w.ready
    case AtTraffic => k.waitForTraffic ==> w.ready
    case AtKubernetes => w.traffic
    case _ => false
  }

  function AfterWait(w: World, k: Worker): WorkerAt
  {
    match k.at
    case AtReady => AtTraffic
    case AtTraffic => if k.waitForTraffic && w.isKubernetes then AtKubernetes else Working
    case _ => Working
  }

  predicate Enabled(w: World, s: Step)
  {
    match s
    case Tick(_) => true
    case AddComponent(name) => name != ""
    case Mark(name) => name in w.components
    case CallMarkTrafficReady(c) => c !in w.callers
    case SelectChannel(c) => c in w.callers && w.callers[c].Checked?
    case EnterOnce(c) => c in w.callers && w.callers[c].Selected? && !w.once.Running?
    case LeaveOnce(c) => c in w.callers && w.callers[c].InOnce?
    case StartWorker(k, _, _) => k !in w.workers
    case Advance(k) => k in w.workers && CanAdvance(w, w.workers[k])
    case Cancel(k) => k in w.workers
  }

  /** One call of a mark closure: the latch closes when this was the last component. */
  function AfterMark(w: World, name: string): World
    requires name in w.components
  {
    if w.components[name].ready then w
    else
      var components := WithMarked(w.components, name, w.now);
      if AllReady(components) && !w.ready then
        w.(components := components, ready := true, readyCloses := w.readyCloses + 1)
      else w.(components := components)
  }

  function Next(w: World, s: Step): World
    requires Enabled(w, s)
  {
    match s
    case Tick(millis) => w.(now := w.now + millis)
    case AddComponent(name) => w.(components := WithAdded(w.components, name, w.now))
    case Mark(name) => AfterMark(w, name)
    case CallMarkTrafficReady(c) => if w.ready then w.(callers := w.callers[c := Checked]) else w
    case SelectChannel(c) =>
      if w.traffic then w.(callers := w.callers - {c}) else w.(callers := w.callers[c := Selected])
    case EnterOnce(c) =>
      if w.once.Done? then w.(callers := w.callers - {c})
      else w.(callers := w.callers[c := InOnce], once := Running, notifiedAt := Some(w.now))
    case LeaveOnce(c) =>
      w.(callers := w.callers - {c}, once := Done, traffic := true, trafficCloses := w.trafficCloses + 1)
    case StartWorker(k, waitReady, waitForTraffic) =>
      w.(workers := w.workers[k := Worker(waitReady, waitForTraffic, AtReady)])
    case Advance(k) => w.(workers := w.workers[k := w.workers[k].(at := AfterWait(w, w.workers[k]))])
    case Cancel(k) => w.(workers := w.workers[k := w.workers[k].(at := Stopped)])
  }

  ghost predicate Init(w: World)
  {
    w == World(w.now, w.isKubernetes, map[], false, 0, false, 0, NotStarted, None, map[], map[])
  }

  // ---------- The invariant ----------

  /** Each channel is closed at most once, and while the ready latch is open something is missing. */
  ghost predicate LatchOk(w: World)
  {
    && w.readyCloses == (if w.ready then 1 else 0)
    && (!w.ready ==> !AllReady(w.components))
    && w.trafficCloses == (if w.traffic then 1 else 0)
    && (w.traffic <==> w.once.Done?)
    && (!w.once.NotStarted? ==> w.ready)
    && (w.notifiedAt.Some? <==> !w.once.NotStarted?)
  }

  /** Only callers that saw the ready latch closed go on, and at most one of them is inside the once. */
  ghost predicate CallersOk(w: World)
  {
    && (forall c :: c in w.callers ==> w.ready)
    && (forall c :: c in w.callers && w.callers[c].InOnce? ==> w.once.Running?)
    && (forall c, d :: c in w.callers && d in w.callers && w.callers[c].InOnce? && w.callers[d].InOnce? ==> c == d)
  }

  /** A worker that runs has been let through by every latch it asked for. */
  predicate Gated(w: World, k: Worker)
  {
    && (k.waitReady && !k.at.AtReady? && !k.at.Stopped? ==> w.ready)
    && (k.waitForTraffic && (k.at.AtKubernetes? || k.at.Working?) ==> w.ready)
    && (k.waitForTraffic && k.at.Working? && w.isKubernetes ==> w.traffic)
  }

  ghost predicate Inv(w: World)
  {
    && LatchOk(w) && CallersOk(w)
    && (forall name :: name in w.components ==>
          w.components[name].name == name && (w.components[name].ready <==> w.components[name].readyAt.Some?))
    && (forall k :: k in w.workers ==> Gated(w, w.workers[k]))
  }

  lemma InitInv(w: World)
    requires Init(w)
    ensures Inv(w)
  {
  }

  lemma LatchStep(w: World, s: Step)
    requires Inv(w) && Enabled(w, s)
    ensures LatchOk(Next(w, s))
  {
    if s.AddComponent? && s.name !in w.components {
      assert !Next(w, s).components[s.name].ready;
    }
  }

  lemma CallersStep(w: World, s: Step)
    requires Inv(w) && Enabled(w, s)
    ensures CallersOk(Next(w, s))
  {
    if s.LeaveOnce? {
      assert forall d :: d in w.callers && w.callers[d].InOnce? ==> d == s.c;
    }
  }

  lemma WorkersStep(w: World, s: Step, k: nat)
    requires Inv(w) && Enabled(w, s) && k in Next(w, s).workers
    ensures Gated(Next(w, s), Next(w, s).workers[k])
  {
    if k in w.workers {
      assert Gated(w, w.workers[k]);
    }
  }

  lemma StepInv(w: World, s: Step)
    requires Inv(w) && Enabled(w, s)
    ensures Inv(Next(w, s))
  {
    LatchStep(w, s);
    CallersStep(w, s);
    forall k | k in Next(w, s).workers ensures Gated(Next(w, s), Next(w, s).workers[k]) {
      WorkersStep(w, s, k);
    }
  }

  // ---------- Runs ----------

  ghost predicate StepAt(ws: seq<World>, steps: seq<Step>, i: nat)
    requires |ws| == |steps| + 1 && i < |steps|
  {
    Enabled(ws[i], steps[i]) && ws[i + 1] == Next(ws[i], steps[i])
  }

  ghost predicate IsRun(ws: seq<World>, steps: seq<Step>)
  {
    && |ws| == |steps| + 1
    && Init(ws[0])
    && forall i :: 0 <= i < |steps| ==> StepAt(ws, steps, i)
  }

  lemma {:induction false} RunInv(ws: seq<World>, steps: seq<Step>, i: nat)
    requires IsRun(ws, steps) && i < |ws|
    ensures Inv(ws[i])
  {
    if i == 0 {
      InitInv(ws[0]);
    } else {
      RunInv(ws, steps, i - 1);
      assert StepAt(ws, steps, i - 1);
      StepInv(ws[i - 1], steps[i - 1]);
    }
  }

  /** Latches stay closed, whatever components are added later, and nothing ever closes a channel twice. */
  lemma {:induction false} LatchesStayClosed(ws: seq<World>, steps: seq<Step>, i: nat, j: nat)
    requires IsRun(ws, steps) && i <= j < |ws|
    ensures ws[i].ready ==> ws[j].ready
    ensures ws[i].traffic ==> ws[j].traffic
    ensures ws[j].traffic ==> ws[j].ready
    ensures ws[j].readyCloses <= 1 && ws[j].trafficCloses <= 1
    decreases j
  {
    RunInv(ws, steps, j);
    if i < j {
      LatchesStayClosed(ws, steps, i, j - 1);
      assert StepAt(ws, steps, j - 1);
    }
  }

  /** The ready latch closes exactly at the moment when the components become non-empty and all ready. */
  lemma ClosesWhenAllReady(ws: seq<World>, steps: seq<Step>, i: nat)
    requires IsRun(ws, steps) && i < |steps| && !ws[i].ready
    ensures var components := ws[i + 1].components;
            ws[i + 1].ready <==> components != map[] && forall name :: name in components ==> components[name].ready
    ensures ws[i + 1].ready <==> AllReady(ws[i + 1].components)
    ensures ws[i + 1].ready ==> steps[i].Mark?
  {
    RunInv(ws, steps, i);
    RunInv(ws, steps, i + 1);
    assert StepAt(ws, steps, i);
  }

  /** The latch is closed exactly if there was a moment at which all components were ready. */
  lemma {:induction false} ReadyMeansWasAllReady(ws: seq<World>, steps: seq<Step>, i: nat)
    requires IsRun(ws, steps) && i < |ws|
    ensures ws[i].ready <==> exists j :: 0 <= j <= i && AllReady(ws[j].components)
  {
    if i == 0 {
      assert !AllReady(ws[0].components);
    } else {
      ReadyMeansWasAllReady(ws, steps, i - 1);
      if ws[i - 1].ready {
        LatchesStayClosed(ws, steps, i - 1, i);
      } else {
        ClosesWhenAllReady(ws, steps, i - 1);
      }
    }
  }

  /** A running worker passed every gate it was configured with: once all components were ready, and in
      Kubernetes mode, for traffic workers, once the readiness probe had confirmed it too. */
  lemma WorkersAreGated(ws: seq<World>, steps: seq<Step>, i: nat, k: nat)
    requires IsRun(ws, steps) && i < |ws| && k in ws[i].workers && ws[i].workers[k].at.Working?
    ensures ws[i].workers[k].waitReady || ws[i].workers[k].waitForTraffic ==>
              exists j :: 0 <= j <= i && AllReady(ws[j].components)
    ensures ws[i].workers[k].waitForTraffic && ws[i].isKubernetes ==> ws[i].traffic && ws[i].notifiedAt.Some?
  {
    RunInv(ws, steps, i);
    assert Gated(ws[i], ws[i].workers[k]);
    ReadyMeansWasAllReady(ws, steps, i);
  }

  // ---------- Progress ----------

  /** What a mark does to its component: ready, at this time if it was not before. */
  lemma MarkMeans(w: World, name: string)
    requires name in w.components
    ensures var c, w' := w.components[name], Next(w, Mark(name));
            && name in w'.components
            && w'.components[name]
               == Component(c.name, true, c.startedAt, if c.ready then c.readyAt else Some(w.now))
            && w'.components.Keys == w.components.Keys
            && forall other :: other in w.components && other != name ==> w'.components[other] == w.components[other]
  {
  }

  lemma {:induction false} StaysReady(ws: seq<World>, steps: seq<Step>, i: nat, j: nat, name: string)
    requires IsRun(ws, steps) && i <= j < |ws| && name in ws[i].components && ws[i].components[name].ready
    ensures name in ws[j].components && ws[j].components[name] == ws[i].components[name]
    decreases j
  {
    if i < j {
      StaysReady(ws, steps, i, j - 1, name);
      assert StepAt(ws, steps, j - 1);
    }
  }

  /** Once there is a component and every component has been marked, the latch is closed. */
  lemma AllMarkedCloses(ws: seq<World>, steps: seq<Step>, i: nat)
    requires IsRun(ws, steps) && i < |ws| && ws[i].components != map[]
    requires forall name :: name in ws[i].components ==> exists k :: 0 <= k < i && steps[k] == Mark(name)
    ensures ws[i].ready
    ensures forall name :: name in ws[i].components ==> ws[i].components[name].ready
  {
    forall name | name in ws[i].components ensures ws[i].components[name].ready {
      var k :| 0 <= k < i && steps[k] == Mark(name);
      assert StepAt(ws, steps, k);
      MarkMeans(ws[k], name);
      StaysReady(ws, steps, k + 1, i, name);
    }
    RunInv(ws, steps, i);
  }

  /** A worker that has just started runs after two or three waits, none of which blocks, if its gates are open: the
      ready latch, and for a traffic worker in Kubernetes mode also the traffic latch. */
  lemma OpenGatesLetWorkersRun(w: World, k: nat, waitReady: bool, waitForTraffic: bool)
    requires k in w.workers && w.workers[k] == Worker(waitReady, waitForTraffic, AtReady)
    requires waitReady || waitForTraffic ==> w.ready
    requires waitForTraffic && w.isKubernetes ==> w.traffic
    ensures Enabled(w, Advance(k))
            && var w1 := Next(w, Advance(k));
               && Enabled(w1, Advance(k))
               && var w2 := Next(w1, Advance(k));
                  || w2.workers[k].at.Working?
                  || (Enabled(w2, Advance(k)) && Next(w2, Advance(k)).workers[k].at.Working?)
  {
  }

  /** A cancelled worker is stopped for good. */
  lemma {:induction false} CancelledStaysStopped(ws: seq<World>, steps: seq<Step>, i: nat, j: nat, k: nat)
    requires IsRun(ws, steps) && i < j < |ws| && steps[i] == Cancel(k)
    ensures k in ws[j].workers && ws[j].workers[k].at == Stopped
    decreases j
  {
    assert StepAt(ws, steps, j - 1);
    if i < j - 1 {
      CancelledStaysStopped(ws, steps, i, j - 1, k);
    }
  }

  /** An undisturbed MarkTrafficReady closes the traffic latch once the ready latch is closed. */
  lemma MarkTrafficReadyCloses(w: World, c: nat)
    requires Inv(w) && w.ready && !w.traffic && !w.once.Running? && c !in w.callers
    ensures var w1 := Next(w, CallMarkTrafficReady(c));
            && Enabled(w1, SelectChannel(c))
            && var w2 := Next(w1, SelectChannel(c));
               && Enabled(w2, EnterOnce(c))
               && var w3 := Next(w2, EnterOnce(c));
                  && Enabled(w3, LeaveOnce(c))
                  && Next(w3, LeaveOnce(c)).traffic && Next(w3, LeaveOnce(c)).notifiedAt == Some(w.now)
  {
  }
}
