/** The consumer pipeline (pkg/kafka/consumer): Reader, MessageDeserializer, Processor and ResultHandler, one
    goroutine each, joined by two FIFO channels; commit marks are per-partition high-watermarks. */
module ConsumerPipeline {
  import opened Wrappers
  import opened MessageRetry

  type Partition = int
  type Offset = int

  datatype Record = Record(partition: Partition, offset: Offset)

  datatype Disposition = Handled | Skipped | HandedToDlq

  datatype Pipeline = Pipeline(
    capacity: nat,                         // of both channels
    owned: set<Partition>,
    batch: seq<Record>,                    // polled, Reader has still to push these
    messages: seq<Record>,                 // messagesChan
    decoded: Option<Record>,               // deserialized, waiting for room in envelopeChan
    envelopes: seq<Record>,                // envelopeChan
    processing: Option<Record>,
    marks: map<Partition, Offset>,
    processorStopped: bool,
    deserializerCancelled: bool,
    readerCancelled: bool,
    read: set<Record>,                     // history: everything polled
    disposed: map<Record, Disposition>,    // history: how a record was last disposed of
    dropped: set<Record>)                  // history: given up by a cancelled Reader or deserializer

  datatype Step =
    | Poll(records: seq<Record>)
    | Push
    | DropPolled                           // ctx.Done won the select in EachRecord, or right after the poll
    | Decode(ok: bool)
    | PushEnvelope
    | DropEnvelope                         // ctx.Done won the select in deserializeAndSend
    | Begin
    | Finish(outcome: Outcome)
    | Assign(partition: Partition)
    | Revoke(partition: Partition)
    | StopProcessor
    | CancelDeserializer
    | CancelReader

  /** Within a partition new records arrive in increasing offset order; after a rebalance records already
      seen may be delivered again. */
  ghost predicate InOrder(read: set<Record>, records: seq<Record>)
  {
    forall i :: 0 <= i < |records| ==>
      || records[i] in read
      || records[i] in records[..i]
      || (&& (forall r :: r in read && r.partition == records[i].partition ==> r.offset < records[i].offset)
          && (forall j :: 0 <= j < i && records[j].partition == records[i].partition ==>
                records[j].offset < records[i].offset))
  }

  ghost predicate Enabled(s: Pipeline, step: Step)
  {
    match step
    case Poll(records) => s.batch == [] && !s.readerCancelled && InOrder(s.read, records)
    case Push => s.batch != [] && |s.messages| < s.capacity
    case DropPolled => s.batch != [] && s.readerCancelled
    case Decode(_) => s.messages != [] && s.decoded.None?
    case PushEnvelope => s.decoded.Some? && |s.envelopes| < s.capacity
    case DropEnvelope => s.decoded.Some? && s.deserializerCancelled
    case Begin => s.envelopes != [] && s.processing.None? && !s.processorStopped
    case Finish(_) => s.processing.Some?
    case StopProcessor => s.processing.None?
    case _ => true
  }

  /** ResultHandler.handle: everything but success and skip goes to the DLQ handler. */
  function Classify(o: Outcome): Disposition
  {
    if o.Processed? then Handled else if o.skip then Skipped else HandedToDlq
  }

  /** MarkCommitRecords keeps the highest offset of each assigned partition. */
  function Mark(marks: map<Partition, Offset>, owned: set<Partition>, r: Record): map<Partition, Offset>
  {
    if r.partition !in owned || (r.partition in marks && marks[r.partition] >= r.offset) then marks
    else marks[r.partition := r.offset]
  }

  function Next(s: Pipeline, step: Step): Pipeline
    requires Enabled(s, step)
  {
    match step
    case Poll(records) => s.(batch := records, read := s.read + AsSet(records))
    case Push => s.(batch := s.batch[1..], messages := s.messages + [s.batch[0]])
    case DropPolled => s.(batch := s.batch[1..], dropped := s.dropped + {s.batch[0]})
    case Decode(ok) =>
      if ok then s.(messages := s.messages[1..], decoded := Some(s.messages[0]))
      else s.(messages := s.messages[1..], disposed := s.disposed[s.messages[0] := HandedToDlq])
    case PushEnvelope => s.(envelopes := s.envelopes + [s.decoded.value], decoded := None)
    case DropEnvelope => s.(decoded := None, dropped := s.dropped + {s.decoded.value})
    case Begin => s.(envelopes := s.envelopes[1..], processing := Some(s.envelopes[0]))
    case Finish(outcome) =>
      var r := s.processing.value;
      s.(processing := None, disposed := s.disposed[r := Classify(outcome)], marks := Mark(s.marks, s.owned, r))
    case Assign(p) => s.(owned := s.owned + {p})
    case Revoke(p) => s.(owned := s.owned - {p}, marks := s.marks - {p})
    case StopProcessor => s.(processorStopped := true)
    case CancelDeserializer => s.(deserializerCancelled := true)
    case CancelReader => s.(readerCancelled := true)
  }

  ghost predicate Init(s: Pipeline)
  {
    s == Pipeline(s.capacity, s.owned, [], [], None, [], None, map[], false, false, false, {}, map[], {})
  }

  /** The record's offset is covered by a commit mark: after a restart it will not be delivered again. */
  predicate Covered(s: Pipeline, r: Record)
  {
    r.partition in s.marks && r.offset <= s.marks[r.partition]
  }

  /** The property a commit must have: nothing it covers is still undecided. */
  ghost predicate CommitSafe(s: Pipeline)
  {
    forall r :: r in s.read && Covered(s, r) ==> r in s.disposed
  }

  // ---------- The invariant ----------

  function Opt(o: Option<Record>): seq<Record>
  {
    if o.Some? then [o.value] else []
  }

  /** All records on their way, the one closest to its commit mark first. */
  function Line(s: Pipeline): seq<Record>
  {
    Opt(s.processing) + s.envelopes + Opt(s.decoded) + s.messages + s.batch
  }

  ghost predicate Settled(s: Pipeline, r: Record)
  {
    r in s.disposed || r in s.dropped
  }

  /** Every record below an element of the line is settled, or stands before that element. */
  ghost predicate LineClosed(s: Pipeline, line: seq<Record>)
  {
    forall i, r | 0 <= i < |line| && r in s.read && !Settled(s, r) ::
      r.partition == line[i].partition && r.offset < line[i].offset ==> r in line[..i]
  }

  ghost predicate LineInv(s: Pipeline)
  {
    && LineClosed(s, Line(s))
    && (forall r :: r in s.read ==> Settled(s, r) || r in Line(s))
    && (forall r :: r in Line(s) ==> r in s.read)
  }

  ghost predicate Inv(s: Pipeline)
  {
    && LineInv(s)
    && (forall r :: r in s.read && Covered(s, r) ==> Settled(s, r))
    && (forall p :: p in s.marks ==> Record(p, s.marks[p]) in s.read)
  }

  lemma InitInv(s: Pipeline)
    requires Init(s)
    ensures Inv(s) && CommitSafe(s)
  {
  }

  /** Taking one settled record out of the line keeps it closed. */
  lemma RemoveKeepsClosed(s: Pipeline, line: seq<Record>, k: nat, s': Pipeline)
    requires LineClosed(s, line) && k < |line|
    requires s'.read == s.read && Settled(s', line[k]) && forall r :: Settled(s, r) ==> Settled(s', r)
    ensures LineClosed(s', line[..k] + line[k + 1..])
  {
    var rest := line[..k] + line[k + 1..];
    forall i, r | 0 <= i < |rest| && r in s'.read && r.partition == rest[i].partition && r.offset < rest[i].offset
                  && !Settled(s', r)
      ensures r in rest[..i]
    {
      var j := if i < k then i else i + 1;
      assert rest[i] == line[j];
      assert r in line[..j];
      var m :| 0 <= m < j && line[m] == r;
      assert m != k;
      assert rest[..i][if m < k then m else m - 1] == r;
    }
  }

  /** New records, in order, keep it closed. */
  lemma AppendKeepsClosed(s: Pipeline, line: seq<Record>, records: seq<Record>, s': Pipeline)
    requires LineClosed(s, line) && (forall r :: r in s.read ==> Settled(s, r) || r in line)
    requires (forall r :: r in line ==> r in s.read) && InOrder(s.read, records)
    requires s'.read == s.read + AsSet(records) && forall r :: Settled(s, r) <==> Settled(s', r)
    ensures LineClosed(s', line + records)
  {
    var grown := line + records;
    forall i, r | 0 <= i < |grown| && r in s'.read && r.partition == grown[i].partition && r.offset < grown[i].offset
                  && !Settled(s', r)
      ensures r in grown[..i]
    {
      if i < |line| {
        assert grown[..i] == line[..i];
        NotLater(s.read, records, line[i], r);
      } else {
        assert grown[..i] == line + records[..i - |line|];
        if r !in s.read {
          EarlierInBatch(s.read, records, i - |line|, r);
        }
      }
    }
  }

  /** A record below something already read was read before. */
  lemma NotLater(read: set<Record>, records: seq<Record>, x: Record, r: Record)
    requires InOrder(read, records) && x in read && r in read + AsSet(records)
    requires r.partition == x.partition && r.offset < x.offset
    ensures r in read
  {
    if r !in read {
      var j := FirstIndex(records, r);
      assert false;
    }
  }

  lemma EarlierInBatch(read: set<Record>, records: seq<Record>, i: nat, r: Record)
    requires InOrder(read, records) && i < |records| && r in records && r !in read
    requires r.partition == records[i].partition && r.offset < records[i].offset
    ensures r in records[..i]
  {
    var j := FirstIndex(records, r);
    if j >= i {
      assert false;
    }
  }

  lemma FirstIndex(records: seq<Record>, r: Record) returns (j: nat)
    requires r in records
    ensures j < |records| && records[j] == r && r !in records[..j]
  {
    j := 0;
    while records[j] != r
      invariant j < |records| && r !in records[..j]
      invariant exists k :: j <= k < |records| && records[k] == r
      decreases |records| - j
    {
      j := j + 1;
    }
  }

  // ---------- One step keeps the invariant ----------

  /** The step takes one record out of the line. */
  predicate Removes(step: Step)
  {
    step.DropPolled? || (step.Decode? && !step.ok) || step.DropEnvelope? || step.Finish?
  }

  /** `after` is the line without the record at position k, and that record is now settled. */
  ghost predicate TakesOut(s: Pipeline, s': Pipeline, k: nat)
  {
    k < |Line(s)| && Line(s') == Line(s)[..k] + Line(s)[k + 1..] && Settled(s', Line(s)[k])
  }

  lemma Cut(line: seq<Record>, a: seq<Record>, x: Record, b: seq<Record>)
    requires line == a + ([x] + b)
    ensures |a| < |line| && line[|a|] == x && line[..|a|] + line[|a| + 1..] == a + b
  {
  }

  lemma FiveParts(p: seq<Record>, e: seq<Record>, d: seq<Record>, m: seq<Record>, b: seq<Record>)
    ensures p + e + d + m + b == p + (e + d + m + b) == (p + e) + (d + (m + b)) == (p + e + d) + (m + b)
  {
  }

  lemma FinishTakesOut(s: Pipeline, o: Outcome)
    requires Enabled(s, Finish(o))
    ensures TakesOut(s, Next(s, Finish(o)), 0)
  {
    FiveParts([s.processing.value], s.envelopes, Opt(s.decoded), s.messages, s.batch);
    FiveParts([], s.envelopes, Opt(s.decoded), s.messages, s.batch);
    Cut(Line(s), [], s.processing.value, s.envelopes + Opt(s.decoded) + s.messages + s.batch);
  }

  lemma DropEnvelopeTakesOut(s: Pipeline) returns (k: nat)
    requires Enabled(s, DropEnvelope)
    ensures TakesOut(s, Next(s, DropEnvelope), k)
  {
    var before, after := Opt(s.processing) + s.envelopes, s.messages + s.batch;
    FiveParts(Opt(s.processing), s.envelopes, [s.decoded.value], s.messages, s.batch);
    FiveParts(Opt(s.processing), s.envelopes, [], s.messages, s.batch);
    assert [] + after == after;
    Cut(Line(s), before, s.decoded.value, after);
    k := |before|;
  }

  lemma DecodeTakesOut(s: Pipeline) returns (k: nat)
    requires Enabled(s, Decode(false))
    ensures TakesOut(s, Next(s, Decode(false)), k)
  {
    var head, tail := s.messages[0], s.messages[1..];
    var before, after := Opt(s.processing) + s.envelopes + Opt(s.decoded), tail + s.batch;
    assert s.messages == [head] + tail;
    assert [head] + tail + s.batch == [head] + after;
    assert before + s.messages + s.batch == before + (s.messages + s.batch);
    assert before + tail + s.batch == before + after;
    Cut(Line(s), before, head, after);
    k := |before|;
  }

  lemma DropPolledTakesOut(s: Pipeline) returns (k: nat)
    requires Enabled(s, DropPolled)
    ensures TakesOut(s, Next(s, DropPolled), k)
  {
    var before := Opt(s.processing) + s.envelopes + Opt(s.decoded) + s.messages;
    assert s.batch == [s.batch[0]] + s.batch[1..];
    Cut(Line(s), before, s.batch[0], s.batch[1..]);
    k := |before|;
  }

  lemma StepTakesOut(s: Pipeline, step: Step) returns (k: nat)
    requires Enabled(s, step) && Removes(step)
    ensures TakesOut(s, Next(s, step), k)
  {
    match step
    case Finish(o) => FinishTakesOut(s, o); k := 0;
    case DropEnvelope => k := DropEnvelopeTakesOut(s);
    case Decode(_) => k := DecodeTakesOut(s);
    case DropPolled => k := DropPolledTakesOut(s);
  }

  lemma Regroup(a: seq<Record>, b: seq<Record>, c: seq<Record>, d: seq<Record>)
    ensures a + (b + c) + d == a + b + (c + d) == a + b + c + d
  {
  }

  lemma PushKeepsLine(s: Pipeline)
    requires Enabled(s, Push)
    ensures Line(Next(s, Push)) == Line(s)
  {
    var head, tail := s.batch[0], s.batch[1..];
    assert s.batch == [head] + tail;
    Regroup(Opt(s.processing) + s.envelopes + Opt(s.decoded), s.messages, [head], tail);
  }

  lemma DecodeKeepsLine(s: Pipeline)
    requires Enabled(s, Decode(true))
    ensures Line(Next(s, Decode(true))) == Line(s)
  {
    var before, head, tail := Opt(s.processing) + s.envelopes, s.messages[0], s.messages[1..];
    assert s.messages == [head] + tail;
    assert before + [] == before;
    Regroup(before, [head], tail, s.batch);
  }

  lemma PushEnvelopeKeepsLine(s: Pipeline)
    requires Enabled(s, PushEnvelope)
    ensures Line(Next(s, PushEnvelope)) == Line(s)
  {
    var d := [s.decoded.value];
    Regroup(Opt(s.processing), s.envelopes, d, []);
    assert Opt(s.processing) + (s.envelopes + d) + [] == Opt(s.processing) + s.envelopes + d;
  }

  lemma BeginKeepsLine(s: Pipeline)
    requires Enabled(s, Begin)
    ensures Line(Next(s, Begin)) == Line(s)
  {
    var head, tail := s.envelopes[0], s.envelopes[1..];
    assert [] + s.envelopes == [head] + tail;
  }

  lemma LineUnchanged(s: Pipeline, step: Step)
    requires Enabled(s, step)
    requires !step.Poll? && !Removes(step)
    ensures Line(Next(s, step)) == Line(s)
  {
    match step
    case Push => PushKeepsLine(s);
    case Decode(_) => DecodeKeepsLine(s);
    case PushEnvelope => PushEnvelopeKeepsLine(s);
    case Begin => BeginKeepsLine(s);
    case _ =>
  }

  lemma SettledUnchanged(s: Pipeline, step: Step)
    requires Enabled(s, step)
    requires !Removes(step)
    ensures Next(s, step).disposed == s.disposed && Next(s, step).dropped == s.dropped
  {
  }

  lemma SettledGrows(s: Pipeline, step: Step, r: Record)
    requires Enabled(s, step) && Settled(s, r)
    ensures Settled(Next(s, step), r)
  {
  }

  lemma RemovalLineInv(s: Pipeline, s': Pipeline, k: nat)
    requires LineInv(s) && TakesOut(s, s', k) && s'.read == s.read && forall r :: Settled(s, r) ==> Settled(s', r)
    ensures LineInv(s')
  {
    var line := Line(s);
    RemoveKeepsClosed(s, line, k, s');
    assert line == line[..k] + [line[k]] + line[k + 1..];
  }

  lemma SameLineInv(s: Pipeline, s': Pipeline)
    requires LineInv(s) && Line(s') == Line(s)
    requires s'.read == s.read && s'.disposed == s.disposed && s'.dropped == s.dropped
    ensures LineInv(s')
  {
    assert forall r :: Settled(s, r) <==> Settled(s', r);
  }

  lemma ReadUnchanged(s: Pipeline, step: Step)
    requires Enabled(s, step) && !step.Poll?
    ensures Next(s, step).read == s.read
  {
  }

  lemma PollLineInv(s: Pipeline, records: seq<Record>)
    requires LineInv(s) && Enabled(s, Poll(records))
    ensures LineInv(Next(s, Poll(records)))
  {
    PollGrowsLine(s, records);
    AppendKeepsClosed(s, Line(s), records, Next(s, Poll(records)));
  }

  lemma PollGrowsLine(s: Pipeline, records: seq<Record>)
    requires Enabled(s, Poll(records))
    ensures Line(Next(s, Poll(records))) == Line(s) + records
  {
  }

  lemma LineStep(s: Pipeline, step: Step)
    requires LineInv(s) && Enabled(s, step)
    ensures LineInv(Next(s, step))
  {
    if step.Poll? {
      PollLineInv(s, step.records);
    } else if Removes(step) {
      var k := StepTakesOut(s, step);
      forall r | Settled(s, r) ensures Settled(Next(s, step), r) {
        SettledGrows(s, step, r);
      }
      ReadUnchanged(s, step);
      RemovalLineInv(s, Next(s, step), k);
    } else {
      LineUnchanged(s, step);
      SettledUnchanged(s, step);
      ReadUnchanged(s, step);
      SameLineInv(s, Next(s, step));
    }
  }

  /** Only a Finish moves marks forward. */
  lemma CoveredBefore(s: Pipeline, step: Step, r: Record)
    requires Enabled(s, step) && !step.Finish? && Covered(Next(s, step), r)
    ensures Covered(s, r)
  {
  }

  lemma ReadBefore(s: Pipeline, step: Step, r: Record)
    requires Inv(s) && Enabled(s, step) && r in Next(s, step).read && Covered(s, r)
    ensures r in s.read
  {
    if step.Poll? && r !in s.read {
      NewNotCovered(s, step.records, r);
    }
  }

  /** When a record is marked, everything below it on its partition is settled. */
  lemma FinishCovers(s: Pipeline, o: Outcome, r: Record)
    requires Inv(s) && Enabled(s, Finish(o)) && r in s.read && Covered(Next(s, Finish(o)), r)
    ensures Settled(Next(s, Finish(o)), r)
  {
    var marked := s.processing.value;
    assert Line(s)[0] == marked;
  }

  lemma CoveredStep(s: Pipeline, step: Step, r: Record)
    requires Inv(s) && Enabled(s, step) && r in Next(s, step).read && Covered(Next(s, step), r)
    ensures Settled(Next(s, step), r)
  {
    if step.Finish? {
      FinishCovers(s, step.outcome, r);
    } else {
      CoveredBefore(s, step, r);
      ReadBefore(s, step, r);
      SettledGrows(s, step, r);
    }
  }

  lemma MarksStep(s: Pipeline, step: Step)
    requires Inv(s) && Enabled(s, step)
    ensures forall p :: p in Next(s, step).marks ==> Record(p, Next(s, step).marks[p]) in Next(s, step).read
  {
    if step.Finish? {
      assert Line(s)[0] == s.processing.value;
    }
  }

  lemma StepInv(s: Pipeline, step: Step)
    requires Inv(s) && Enabled(s, step)
    ensures Inv(Next(s, step))
  {
    LineStep(s, step);
    MarksStep(s, step);
    forall r | r in Next(s, step).read && Covered(Next(s, step), r) ensures Settled(Next(s, step), r) {
      CoveredStep(s, step, r);
    }
  }

  /** Commits make progress: a finished record of an owned partition is covered, and no mark goes back while its
      partition stays assigned. */
  lemma MarksAdvance(s: Pipeline, step: Step)
    requires Enabled(s, step)
    ensures step.Finish? && s.processing.value.partition in s.owned ==> Covered(Next(s, step), s.processing.value)
    ensures forall p :: p in s.marks && step != Revoke(p) ==>
              p in Next(s, step).marks && Next(s, step).marks[p] >= s.marks[p]
    ensures !step.Finish? ==> Next(s, step).marks.Keys <= s.marks.Keys
  {
  }

  // ---------- Runs ----------

  ghost predicate StepAt(ss: seq<Pipeline>, steps: seq<Step>, i: nat)
    requires |ss| == |steps| + 1 && i < |steps|
  {
    Enabled(ss[i], steps[i]) && ss[i + 1] == Next(ss[i], steps[i])
  }

  ghost predicate IsRun(ss: seq<Pipeline>, steps: seq<Step>)
  {
    && |ss| == |steps| + 1
    && Init(ss[0])
    && forall i :: 0 <= i < |steps| ==> StepAt(ss, steps, i)
  }

  /** Shutdown hooks run in reverse order of registration: the processor has stopped before the others are cancelled. */
  ghost predicate StopsInOrder(ss: seq<Pipeline>, steps: seq<Step>)
    requires IsRun(ss, steps)
  {
    forall i :: 0 <= i < |steps| && (steps[i].CancelDeserializer? || steps[i].CancelReader?) ==> ss[i].processorStopped
  }

  lemma {:induction false} RunInv(ss: seq<Pipeline>, steps: seq<Step>, i: nat)
    requires IsRun(ss, steps) && i < |ss|
    ensures Inv(ss[i])
  {
    if i == 0 {
      InitInv(ss[0]);
    } else {
      RunInv(ss, steps, i - 1);
      assert StepAt(ss, steps, i - 1);
      StepInv(ss[i - 1], steps[i - 1]);
    }
  }

  /** In every run, in whatever order things stop, only a dropped record can be covered without being disposed of,
      and no record that was read is lost track of. */
  lemma OnlyDropsAreUnsafe(ss: seq<Pipeline>, steps: seq<Step>, i: nat)
    requires IsRun(ss, steps) && i < |ss|
    ensures CommitSafe(ss[i]) <==>
              forall r :: r in ss[i].read && r in ss[i].dropped && Covered(ss[i], r) ==> r in ss[i].disposed
    ensures forall r :: r in ss[i].read ==> r in ss[i].disposed || r in ss[i].dropped || r in Line(ss[i])
  {
    RunInv(ss, steps, i);
  }

  lemma {:induction false} DropsFollowTheProcessor(ss: seq<Pipeline>, steps: seq<Step>, i: nat)
    requires IsRun(ss, steps) && StopsInOrder(ss, steps) && i < |ss|
    ensures ss[i].deserializerCancelled || ss[i].readerCancelled ==> ss[i].processorStopped
    ensures ss[i].dropped != {} ==> ss[i].processorStopped
    ensures ss[i].processorStopped ==> ss[i].processing.None?
  {
    if i > 0 {
      DropsFollowTheProcessor(ss, steps, i - 1);
      assert StepAt(ss, steps, i - 1);
    }
  }

  /** Commit safety: with the shutdown order of the fx lifecycle, a mark never overtakes a record that nobody has
      handled, skipped or handed to the DLQ handler, in any reachable state. */
  lemma {:induction false} CommitsAreSafe(ss: seq<Pipeline>, steps: seq<Step>, i: nat)
    requires IsRun(ss, steps) && StopsInOrder(ss, steps) && i < |ss|
    ensures CommitSafe(ss[i])
  {
    if i == 0 {
      InitInv(ss[0]);
    } else {
      CommitsAreSafe(ss, steps, i - 1);
      RunInv(ss, steps, i - 1);
      DropsFollowTheProcessor(ss, steps, i - 1);
      assert StepAt(ss, steps, i - 1);
      CommitSafeStep(ss[i - 1], steps[i - 1]);
    }
  }

  lemma DisposedGrows(s: Pipeline, step: Step, r: Record)
    requires Enabled(s, step) && r in s.disposed
    ensures r in Next(s, step).disposed
  {
  }

  lemma CommitSafeStep(s: Pipeline, step: Step)
    requires Inv(s) && CommitSafe(s) && Enabled(s, step) && (step.Finish? ==> s.dropped == {})
    ensures CommitSafe(Next(s, step))
  {
    var s' := Next(s, step);
    forall r | r in s'.read && Covered(s', r) ensures r in s'.disposed {
      if step.Finish? {
        FinishCovers(s, step.outcome, r);
      } else {
        CoveredBefore(s, step, r);
        ReadBefore(s, step, r);
        DisposedGrows(s, step, r);
      }
    }
  }

  lemma NewNotCovered(s: Pipeline, records: seq<Record>, r: Record)
    requires Inv(s) && InOrder(s.read, records) && r in records && r !in s.read
    ensures !Covered(s, r)
  {
    var j := FirstIndex(records, r);
    if r.partition in s.marks {
      assert Record(r.partition, s.marks[r.partition]) in s.read;
    }
  }

  // ---------- Order and progress ----------

  /** Records of one partition finish in offset order: when one is about to finish, every record below it that was
      ever read is already settled. */
  lemma FinishesInOffsetOrder(ss: seq<Pipeline>, steps: seq<Step>, i: nat, x: Record, r: Record)
    requires IsRun(ss, steps) && i < |steps| && steps[i].Finish? && ss[i].processing == Some(x)
    requires r in ss[i].read && r.partition == x.partition && r.offset < x.offset
    ensures Settled(ss[i], r)
  {
    RunInv(ss, steps, i);
    assert Line(ss[i])[0] == x;
  }

  function Finishes(steps: seq<Step>, i: nat, j: nat): nat
    requires i <= j <= |steps|
    decreases j
  {
    if i == j then 0 else Finishes(steps, i, j - 1) + if steps[j - 1].Finish? then 1 else 0
  }

  /** The record stands at place k of the line. */
  predicate StandsAt(s: Pipeline, r: Record, k: nat)
  {
    k < |Line(s)| && Line(s)[k] == r
  }

  lemma PlaceAfterRemoval(s: Pipeline, s': Pipeline, j: nat, r: Record, k: nat) returns (k': nat)
    requires TakesOut(s, s', j) && StandsAt(s, r, k)
    ensures Settled(s', r) || (StandsAt(s', r, k') && k' == if j < k then k - 1 else k)
  {
    k' := if j < k then k - 1 else k;
  }

  /** No step moves a record back, and a Finish moves it forward or out. */
  lemma PlaceStep(s: Pipeline, step: Step, r: Record, k: nat) returns (k': nat)
    requires Enabled(s, step) && StandsAt(s, r, k)
    ensures Settled(Next(s, step), r)
            || (StandsAt(Next(s, step), r, k') && k' <= k && (step.Finish? ==> k' < k))
  {
    k' := k;
    if step.Poll? {
      PollGrowsLine(s, step.records);
    } else if step.Finish? {
      FinishTakesOut(s, step.outcome);
      k' := PlaceAfterRemoval(s, Next(s, step), 0, r, k);
    } else if Removes(step) {
      var j := StepTakesOut(s, step);
      k' := PlaceAfterRemoval(s, Next(s, step), j, r, k);
    } else {
      LineUnchanged(s, step);
    }
  }

  lemma {:induction false} PlaceRun(ss: seq<Pipeline>, steps: seq<Step>, i: nat, j: nat, r: Record, k: nat)
    returns (k': nat)
    requires IsRun(ss, steps) && i <= j < |ss| && StandsAt(ss[i], r, k)
    ensures Settled(ss[j], r) || (StandsAt(ss[j], r, k') && k' + Finishes(steps, i, j) <= k)
    decreases j
  {
    k' := k;
    if i < j {
      var before := PlaceRun(ss, steps, i, j - 1, r, k);
      assert StepAt(ss, steps, j - 1);
      if Settled(ss[j - 1], r) {
        SettledGrows(ss[j - 1], steps[j - 1], r);
      } else {
        k' := PlaceStep(ss[j - 1], steps[j - 1], r, before);
      }
    }
  }

  /** Progress: once more records have been finished than stood before it, an accepted record is settled, and unless
      something was given up on cancellation it has been disposed of. */
  lemma AcceptedIsSettled(ss: seq<Pipeline>, steps: seq<Step>, i: nat, j: nat, r: Record, k: nat)
    requires IsRun(ss, steps) && i <= j < |ss| && StandsAt(ss[i], r, k)
    requires Finishes(steps, i, j) > k
    ensures Settled(ss[j], r)
    ensures ss[j].dropped == {} ==> r in ss[j].disposed
  {
    var _ := PlaceRun(ss, steps, i, j, r, k);
  }

  /** Commits make progress: a finished record stays covered for as long as its partition stays assigned. */
  lemma {:induction false} FinishedStaysCovered(ss: seq<Pipeline>, steps: seq<Step>, i: nat, j: nat, r: Record)
    requires IsRun(ss, steps) && i < j < |ss| && steps[i].Finish? && ss[i].processing == Some(r)
    requires r.partition in ss[i].owned && forall k :: i < k < j ==> steps[k] != Revoke(r.partition)
    ensures Covered(ss[j], r)
    decreases j
  {
    assert StepAt(ss, steps, j - 1);
    MarksAdvance(ss[j - 1], steps[j - 1]);
    if i < j - 1 {
      FinishedStaysCovered(ss, steps, i, j - 1, r);
    }
  }

  // ---------- The shutdown order matters ----------

  ghost predicate Reachable(s: Pipeline)
  {
    exists ss, steps :: IsRun(ss, steps) && ss[|steps|] == s
  }

  lemma ReachableInit(s: Pipeline)
    requires Init(s)
    ensures Reachable(s)
  {
    assert IsRun([s], []);
  }

  lemma ReachableNext(s: Pipeline, step: Step)
    requires Reachable(s) && Enabled(s, step)
    ensures Reachable(Next(s, step))
  {
    var ss, steps :| IsRun(ss, steps) && ss[|steps|] == s;
    var ss', steps' := ss + [Next(s, step)], steps + [step];
    forall i | 0 <= i < |steps'| ensures StepAt(ss', steps', i) {
      assert i < |steps| ==> StepAt(ss, steps, i);
    }
    assert IsRun(ss', steps') && ss'[|steps'|] == Next(s, step);
  }

  /** The shutdown order matters: with the reader cancelled while the processor still runs, its select may give up
      one record and pass on the next, whose mark then covers the one given up. */
  lemma WrongStopOrderIsUnsafe(capacity: nat, lost: Record, next: Record) returns (s: Pipeline)
    requires capacity > 0 && lost.partition == next.partition && lost.offset < next.offset
    ensures Reachable(s) && lost in s.read && Covered(s, lost) && lost !in s.disposed && !s.processorStopped
    ensures !CommitSafe(s)
  {
    s := Pipeline(capacity, {next.partition}, [], [], None, [], None, map[], false, false, false, {}, map[], {});
    ReachableInit(s);
    s := ReadPastLost(s, lost, next);
    s := FinishNext(s, lost, next);
  }

  lemma ReadPastLost(s0: Pipeline, lost: Record, next: Record) returns (s: Pipeline)
    requires Reachable(s0) && Init(s0) && s0.capacity > 0
    requires lost.partition == next.partition && lost.offset < next.offset
    ensures Reachable(s)
    ensures s == s0.(messages := [next], readerCancelled := true, read := {lost, next}, dropped := {lost})
  {
    s := s0;
    ReachableNext(s, Poll([lost, next]));
    s := Next(s, Poll([lost, next]));
    assert s == s0.(batch := [lost, next], read := {lost, next});
    ReachableNext(s, CancelReader);
    s := Next(s, CancelReader);
    ReachableNext(s, DropPolled);
    s := Next(s, DropPolled);
    assert s == s0.(batch := [next], readerCancelled := true, read := {lost, next}, dropped := {lost});
    ReachableNext(s, Push);
    s := Next(s, Push);
  }

  lemma FinishNext(s0: Pipeline, lost: Record, next: Record) returns (s: Pipeline)
    requires Reachable(s0) && s0.messages == [next] && s0.decoded.None? && s0.envelopes == [] && s0.processing.None?
    requires s0.capacity > 0 && !s0.processorStopped && s0.marks == map[] && next.partition in s0.owned
    ensures Reachable(s) && s.read == s0.read && s.processorStopped == s0.processorStopped
    ensures s.marks == map[next.partition := next.offset] && s.disposed == s0.disposed[next := Handled]
  {
    s := s0;
    ReachableNext(s, Decode(true));
    s := Next(s, Decode(true));
    ReachableNext(s, PushEnvelope);
    s := Next(s, PushEnvelope);
    ReachableNext(s, Begin);
    s := Next(s, Begin);
    ReachableNext(s, Finish(Processed));
    s := Next(s, Finish(Processed));
  }
}
