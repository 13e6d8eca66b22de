/** The goroutines of one consumer in the shape of the source: reader.go, deserializer.go, processor.go and
    result_handler.go. Each method is the named piece of code, and takes steps of ConsumerPipeline. */
module Consumer {
  import opened Wrappers
  import opened MessageRetry
  import opened ConsumerPipeline

  class Consumer {
    const capacity: nat
    const maxRetries: nat
    var owned: set<Partition>
    var batch: seq<Record>
    var messagesChan: seq<Record>
    var decoded: Option<Record>
    var envelopeChan: seq<Record>
    var processing: Option<Record>
    var marks: map<Partition, Offset>
    var processorStopped: bool
    var deserializerCancelled: bool
    var readerCancelled: bool
    var dlq: seq<Record>                // records handed to the DLQ handler, in order
    var markCalls: seq<Record>          // arguments of MarkCommitRecords, in order
    ghost var read: set<Record>
    ghost var disposed: map<Record, Disposition>
    ghost var dropped: set<Record>

    ghost function Abs(): Pipeline
      reads this
    {
      Pipeline(capacity, owned, batch, messagesChan, decoded, envelopeChan, processing, marks,
               processorStopped, deserializerCancelled, readerCancelled, read, disposed, dropped)
    }

    constructor (capacity: nat, maxRetries: nat, owned: set<Partition>)
      ensures Init(Abs()) && this.capacity == capacity && this.maxRetries == maxRetries && dlq == [] && markCalls == []
    {
      this.capacity, this.maxRetries, this.owned := capacity, maxRetries, owned;
      batch, messagesChan, decoded, envelopeChan, processing, marks := [], [], None, [], None, map[];
      processorStopped, deserializerCancelled, readerCancelled := false, false, false;
      dlq, markCalls, read, disposed, dropped := [], [], {}, map[], {};
    }

    /** Reader.Run: one poll. */
    method PollRecords(records: seq<Record>)
      requires Enabled(Abs(), Poll(records))
      modifies this`batch, this`read
      ensures Abs() == Next(old(Abs()), Poll(records))
      ensures batch == records && read == old(read) + AsSet(records)
    {
      batch := records;
      read := read + AsSet(records);
    }

    /** Reader.Run: the EachRecord callback, where ctx.Done may win the select. */
    method PushRecord(doneWins: bool)
      requires batch != [] && if doneWins then readerCancelled else |messagesChan| < capacity
      modifies this`batch, this`messagesChan, this`dropped
      ensures Abs() == Next(old(Abs()), if doneWins then DropPolled else Push)
      ensures batch == old(batch[1..])
      ensures messagesChan == old(messagesChan) + if doneWins then [] else [old(batch[0])]
    {
      var record := batch[0];
      batch := batch[1..];
      if doneWins {
        dropped := dropped + {record};
      } else {
        messagesChan := messagesChan + [record];
      }
    }

    /** deserializeAndSend up to the envelope: a record that does not deserialize goes to the DLQ, unmarked. */
    method Deserialize(deserializes: bool)
      requires messagesChan != [] && decoded.None?
      modifies this`messagesChan, this`decoded, this`dlq, this`disposed
      ensures Abs() == Next(old(Abs()), Decode(deserializes))
      ensures dlq == old(dlq) + if deserializes then [] else [old(messagesChan[0])]
      ensures messagesChan == old(messagesChan[1..])
      ensures if deserializes then decoded == Some(old(messagesChan[0])) && disposed == old(disposed)
              else decoded == None && disposed == old(disposed)[old(messagesChan[0]) := HandedToDlq]
    {
      var record := messagesChan[0];
      messagesChan := messagesChan[1..];
      if !deserializes {
        dlq := dlq + [record];
        disposed := disposed[record := HandedToDlq];
        return;
      }
      decoded := Some(record);
    }

    /** deserializeAndSend: the final select. */
    method SendEnvelope(doneWins: bool)
      requires decoded.Some? && if doneWins then deserializerCancelled else |envelopeChan| < capacity
      modifies this`decoded, this`envelopeChan, this`dropped
      ensures Abs() == Next(old(Abs()), if doneWins then DropEnvelope else PushEnvelope)
      ensures decoded == None
      ensures envelopeChan == old(envelopeChan) + if doneWins then [] else [old(decoded.value)]
    {
      if doneWins {
        dropped := dropped + {decoded.value};
      } else {
        envelopeChan := envelopeChan + [decoded.value];
      }
      decoded := None;
    }

    /** MarkCommitRecords: ignored for partitions that are not owned, and never moves a mark back. */
    method MarkCommitRecords(record: Record)
      modifies this`marks, this`markCalls
      ensures marks == Mark(old(marks), owned, record) && markCalls == old(markCalls) + [record]
      ensures record.partition !in owned ==> marks == old(marks)
      ensures record.partition in owned ==>
                && marks.Keys == old(marks).Keys + {record.partition}
                && marks[record.partition] >= record.offset
                && (marks[record.partition] == record.offset
                    || (record.partition in old(marks) && marks[record.partition] == old(marks)[record.partition]))
      ensures forall p :: p in old(marks) ==> p in marks && marks[p] >= old(marks)[p]
      ensures forall p :: p in old(marks) && p != record.partition ==> marks[p] == old(marks)[p]
    {
      markCalls := markCalls + [record];
      if record.partition in owned && (record.partition !in marks || marks[record.partition] < record.offset) {
        marks := marks[record.partition := record.offset];
      }
    }

    /** ResultHandler.handle: the record is marked exactly once, whatever the outcome, and reaches the DLQ handler
        exactly when the outcome is an error that is not a skip. */
    method Handle(outcome: Outcome, record: Record)
      modifies this`marks, this`markCalls, this`dlq, this`disposed
      ensures marks == Mark(old(marks), owned, record) && markCalls == old(markCalls) + [record]
      ensures dlq == old(dlq) + if outcome.Error? && !outcome.skip then [record] else []
      ensures disposed == old(disposed)[record := Classify(outcome)]
      ensures disposed[record] == match outcome
                case Processed => Handled
                case Error(skip, _) => if skip then Skipped else HandedToDlq
    {
      if outcome.Processed? {
        disposed := disposed[record := Handled];
      } else if outcome.skip {
        disposed := disposed[record := Skipped];
      } else if outcome.permanent {
        dlq := dlq + [record];
        disposed := disposed[record := HandedToDlq];
      } else {
        dlq := dlq + [record];
        disposed := disposed[record := HandedToDlq];
      }
      MarkCommitRecords(record);
    }

    /** Processor.Run: one envelope taken. */
    method TakeEnvelope()
      requires envelopeChan != [] && processing.None? && !processorStopped
      modifies this`envelopeChan, this`processing
      ensures Abs() == Next(old(Abs()), Begin)
      ensures processing == Some(old(envelopeChan[0])) && envelopeChan == old(envelopeChan[1..])
    {
      processing := Some(envelopeChan[0]);
      envelopeChan := envelopeChan[1..];
    }

    /** processMessage: retries the handler and applies the outcome. */
    method ProcessMessage(handler: nat -> Attempt, cancelled: nat -> bool) returns (outcome: Outcome, calls: nat)
      requires processing.Some?
      modifies this`processing, this`marks, this`markCalls, this`dlq, this`disposed
      ensures RetryEndsWith(handler, cancelled, maxRetries, calls, outcome)
      ensures Abs() == Next(old(Abs()), Finish(outcome))
      ensures processing == None
      ensures markCalls == old(markCalls) + [old(processing.value)]
      ensures dlq == old(dlq) + if outcome.Error? && !outcome.skip then [old(processing.value)] else []
    {
      outcome, calls := ExecuteWithRetry(handler, cancelled, maxRetries);
      Handle(outcome, processing.value);
      processing := None;
    }
  }

  /** Where one message ends up, read off its handler alone: k is the first attempt that is no plain failure, if
      any of the maxRetries + 1 attempts is none. A panic counts as a permanent error; an error that wraps both
      sentinels is a skip. */
  lemma DispositionExact(handler: nat -> Attempt, cancelled: nat -> bool, maxRetries: nat,
                         calls: nat, o: Outcome, k: nat)
    requires RetryEndsWith(handler, cancelled, maxRetries, calls, o) && forall n: nat :: !cancelled(n)
    requires 1 <= k <= maxRetries + 2
    requires forall n: nat :: 1 <= n < k ==>
               handler(n).Fails? && !handler(n).skip && !handler(n).permanent && !handler(n).stops
    requires k == maxRetries + 2
             || !handler(k).Fails? || handler(k).skip || handler(k).permanent || handler(k).stops
    ensures Classify(o) ==
              if k == maxRetries + 2 then HandedToDlq
              else match handler(k)
                case Returns => Handled
                case Panics => HandedToDlq
                case Fails(skip, _, _) => if skip then Skipped else HandedToDlq
  {
    CallsWithoutCancellation(handler, cancelled, maxRetries, calls, o, k);
  }
}
