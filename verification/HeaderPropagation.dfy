/** How headers, and the tenant slug among them, travel from the outbox through Kafka to the consumer and the DLQ
    (pkg/tenant/messaging.go, pkg/kafka/outbox/trace_propagator.go, pkg/kafka/consumer/dlq_handler.go, tracing.go). */
module HeaderPropagation {
  import opened Wrappers

  const HEADER_KEY := "x-tenant-slug"
  const EVENT_ID_KEY := "event_id"

  datatype RecordHeader = RecordHeader(key: string, value: string)

  // ---------- Header lists and maps ----------

  /** The map that a loop over the headers builds: a later header overwrites an earlier one. */
  function ToMap(hs: seq<RecordHeader>): HeaderMap
  {
    if hs == [] then map[]
    else
      var last := hs[|hs| - 1];
      ToMap(hs[..|hs| - 1])[last.key := last.value]
  }

  ghost predicate DistinctKeys(hs: seq<RecordHeader>)
  {
    forall i, j :: 0 <= i < j < |hs| ==> hs[i].key != hs[j].key
  }

  /** One of the orders in which ranging over the map may produce it. */
  ghost predicate Lists(hs: seq<RecordHeader>, m: HeaderMap)
  {
    DistinctKeys(hs) && ToMap(hs) == m
  }

  function First(hs: seq<RecordHeader>, key: string): Option<string>
  {
    if hs == [] then None else if hs[0].key == key then Some(hs[0].value) else First(hs[1..], key)
  }

  function Last(hs: seq<RecordHeader>, key: string): Option<string>
  {
    if hs == [] then None
    else if hs[|hs| - 1].key == key then Some(hs[|hs| - 1].value)
    else Last(hs[..|hs| - 1], key)
  }

  function Lookup(m: HeaderMap, key: string): Option<string>
  {
    if key in m then Some(m[key]) else None
  }

  lemma {:induction false} MapKeepsLast(hs: seq<RecordHeader>, key: string)
    ensures Lookup(ToMap(hs), key) == Last(hs, key)
  {
    if hs != [] {
      MapKeepsLast(hs[..|hs| - 1], key);
    }
  }

  lemma {:induction false} FirstOfAppend(a: seq<RecordHeader>, b: seq<RecordHeader>, key: string)
    ensures First(a + b, key) == if First(a, key).Some? then First(a, key) else First(b, key)
  {
    if a == [] {
      assert a + b == b;
    } else {
      assert (a + b)[1..] == a[1..] + b;
      FirstOfAppend(a[1..], b, key);
    }
  }

  lemma {:induction false} LastOfAppend(a: seq<RecordHeader>, b: seq<RecordHeader>, key: string)
    ensures Last(a + b, key) == if Last(b, key).Some? then Last(b, key) else Last(a, key)
    decreases |b|
  {
    if b == [] {
      assert a + b == a;
    } else {
      assert (a + b)[..|a + b| - 1] == a + b[..|b| - 1];
      LastOfAppend(a, b[..|b| - 1], key);
    }
  }

  /** First and Last by position. */
  lemma {:induction false} FirstIsLowest(hs: seq<RecordHeader>, i: nat)
    requires i < |hs| && forall j :: 0 <= j < i ==> hs[j].key != hs[i].key
    ensures First(hs, hs[i].key) == Some(hs[i].value)
  {
    if i > 0 {
      assert hs[1..][i - 1] == hs[i];
      FirstIsLowest(hs[1..], i - 1);
    }
  }

  lemma {:induction false} LastIsHighest(hs: seq<RecordHeader>, i: nat)
    requires i < |hs| && forall j :: i < j < |hs| ==> hs[j].key != hs[i].key
    ensures Last(hs, hs[i].key) == Some(hs[i].value)
  {
    if i < |hs| - 1 {
      LastIsHighest(hs[..|hs| - 1], i);
    }
  }

  lemma {:induction false} FirstIsPresent(hs: seq<RecordHeader>, key: string)
    ensures First(hs, key).Some? <==> exists i :: 0 <= i < |hs| && hs[i].key == key
  {
    if hs != [] {
      FirstIsPresent(hs[1..], key);
      if i :| 0 <= i < |hs| && hs[i].key == key {
        if i > 0 {
          assert hs[1..][i - 1].key == key;
        }
      }
      if j :| 0 <= j < |hs[1..]| && hs[1..][j].key == key {
        assert hs[j + 1].key == key;
      }
    }
  }

  /** With distinct keys the first match is also the last. */
  lemma {:induction false} DistinctFirstIsLast(hs: seq<RecordHeader>, key: string)
    requires DistinctKeys(hs)
    ensures First(hs, key) == Last(hs, key)
  {
    if hs != [] {
      var init, last := hs[..|hs| - 1], hs[|hs| - 1];
      assert hs == init + [last];
      FirstOfAppend(init, [last], key);
      DistinctFirstIsLast(init, key);
      FirstIsPresent(init, key);
    }
  }

  lemma ListedLookup(hs: seq<RecordHeader>, m: HeaderMap, key: string)
    requires Lists(hs, m)
    ensures First(hs, key) == Lookup(m, key)
  {
    MapKeepsLast(hs, key);
    DistinctFirstIsLast(hs, key);
  }

  lemma ListsSnoc(hs: seq<RecordHeader>, m: HeaderMap, key: string, value: string)
    requires Lists(hs, m) && key !in m
    ensures Lists(hs + [RecordHeader(key, value)], m[key := value])
  {
    var hs' := hs + [RecordHeader(key, value)];
    assert hs'[..|hs|] == hs;
    MapKeepsLast(hs, key);
    DistinctFirstIsLast(hs, key);
    FirstIsPresent(hs, key);
  }

  // ---------- The code ----------

  /** SaveToHeaders: an empty slug counts as none. */
  function SaveToHeaders(slug: Option<string>, headers: HeaderMap): HeaderMap
  {
    if slug.None? || slug.value == "" then headers else headers[HEADER_KEY := slug.value]
  }

  /** Inject writes the propagator's own keys, and nothing else. */
  function Inject(headers: HeaderMap, trace: HeaderMap): HeaderMap
  {
    headers + trace
  }

  // What PopulateHeaders writes about the event.
  datatype EventInfo = EventInfo(eventId: string, eventType: string, source: string, timestamp: string)

  function Metadata(e: EventInfo): HeaderMap
  {
    map[EVENT_ID_KEY := e.eventId, "event_type" := e.eventType, "source" := e.source, "timestamp" := e.timestamp]
  }

  /** What Create makes of a header map: metadata, trace and tenant, in this order. */
  function Prepared(headers: HeaderMap, e: EventInfo, trace: HeaderMap, slug: Option<string>): HeaderMap
  {
    SaveToHeaders(slug, Inject(headers + Metadata(e), trace))
  }

  /** The header map of a message while Create (outbox.go) fills it in place. */
  class MessageHeaders {
    var headers: HeaderMap

    constructor (headers: HeaderMap)
      ensures this.headers == headers
    {
      this.headers := headers;
    }

    method PopulateHeaders(e: EventInfo)
      modifies this
      ensures headers == old(headers) + Metadata(e)
    {
      headers := headers[EVENT_ID_KEY := e.eventId];
      headers := headers["event_type" := e.eventType];
      headers := headers["source" := e.source];
      headers := headers["timestamp" := e.timestamp];
    }

    method SaveTraceContext(trace: HeaderMap)
      modifies this
      ensures headers == Inject(old(headers), trace)
      ensures headers.Keys == old(headers).Keys + trace.Keys
      ensures forall key :: key in trace ==> headers[key] == trace[key]
      ensures forall key :: key in old(headers) && key !in trace ==> headers[key] == old(headers)[key]
    {
      headers := headers + trace;
    }

    method SaveTenant(slug: Option<string>)
      modifies this
      ensures headers == SaveToHeaders(slug, old(headers))
      ensures slug.Some? && slug.value != "" ==> headers == old(headers)["x-tenant-slug" := slug.value]
      ensures slug.None? || slug.value == "" ==> headers == old(headers)
    {
      if slug.None? || slug.value == "" {
        return;
      }
      headers := headers[HEADER_KEY := slug.value];
    }

    /** The order of Create: the tenant is written last, so nothing overwrites it; the trace context wins over the
        metadata, and all of it over what the caller supplied, which otherwise stays. */
    method Prepare(e: EventInfo, trace: HeaderMap, slug: Option<string>)
      modifies this
      ensures headers == Prepared(old(headers), e, trace, slug)
      ensures "event_id" in headers && ("event_id" !in trace ==> headers["event_id"] == e.eventId)
      ensures "event_type" in headers && ("event_type" !in trace ==> headers["event_type"] == e.eventType)
      ensures "source" in headers && ("source" !in trace ==> headers["source"] == e.source)
      ensures "timestamp" in headers && ("timestamp" !in trace ==> headers["timestamp"] == e.timestamp)
      ensures slug.Some? && slug.value != "" ==>
                "x-tenant-slug" in headers && headers["x-tenant-slug"] == slug.value
      ensures forall key :: key in trace && (key != "x-tenant-slug" || slug.None? || slug.value == "") ==>
                key in headers && headers[key] == trace[key]
      ensures forall key | key !in {"event_id", "event_type", "source", "timestamp"} && key !in trace
                           && (key != "x-tenant-slug" || slug.None? || slug.value == "") ::
                if key in old(headers) then key in headers && headers[key] == old(headers)[key] else key !in headers
    {
      PopulateHeaders(e);
      SaveTraceContext(trace);
      SaveTenant(slug);
    }
  }

  /** What the consumer makes of the headers: the first match decides, an empty value counts as none. */
  function SlugFrom(hs: seq<RecordHeader>): Option<string>
  {
    if First(hs, HEADER_KEY) == Some("") then None else First(hs, HEADER_KEY)
  }

  method ContextFromKafkaHeaders(context: Option<string>, hs: seq<RecordHeader>) returns (slug: Option<string>)
    ensures slug == if SlugFrom(hs).Some? then SlugFrom(hs) else context
    ensures forall i :: 0 <= i < |hs| && hs[i].key == "x-tenant-slug"
                        && (forall j :: 0 <= j < i ==> hs[j].key != "x-tenant-slug") ==>
              slug == if hs[i].value != "" then Some(hs[i].value) else context
    ensures (forall i :: 0 <= i < |hs| ==> hs[i].key != "x-tenant-slug") ==> slug == context
  {
    var i := 0;
    while i < |hs|
      invariant 0 <= i <= |hs| && First(hs, HEADER_KEY) == First(hs[i..], HEADER_KEY)
      invariant forall j :: 0 <= j < i ==> hs[j].key != "x-tenant-slug"
    {
      if hs[i].key == HEADER_KEY {
        if hs[i].value != "" {
          return Some(hs[i].value);
        }
        return context;
      }
      i := i + 1;
    }
    slug := context;
  }

  /** Ranging over a map, in an order nobody controls. */
  method ToRecordHeaders(m: HeaderMap) returns (hs: seq<RecordHeader>)
    ensures Lists(hs, m)
  {
    hs := [];
    var rest := m.Keys;
    ghost var done: HeaderMap := map[];
    while rest != {}
      invariant rest <= m.Keys && done == m - rest && Lists(hs, done)
      decreases |rest|
    {
      var key :| key in rest;
      ListsSnoc(hs, done, key, m[key]);
      hs := hs + [RecordHeader(key, m[key])];
      rest := rest - {key};
      done := done[key := m[key]];
    }
  }

  /** StartKafkaProducerSpan: the stored headers, cloned, with the new span's context, as a list. */
  method StartKafkaProducerSpan(stored: HeaderMap, trace: HeaderMap) returns (hs: seq<RecordHeader>)
    ensures Lists(hs, Inject(stored, trace))
    ensures forall key :: First(hs, key) == if key in trace then Some(trace[key])
                                            else if key in stored then Some(stored[key]) else None
  {
    var updatedHeaders := stored;
    updatedHeaders := updatedHeaders + trace;
    hs := ToRecordHeaders(updatedHeaders);
    forall key ensures First(hs, key) == Lookup(updatedHeaders, key) {
      ListedLookup(hs, updatedHeaders, key);
    }
  }

  /** InjectContext: the headers through a map and back. */
  method InjectContext(headers: seq<RecordHeader>, trace: HeaderMap) returns (hs: seq<RecordHeader>)
    ensures Lists(hs, Inject(ToMap(headers), trace))
    ensures forall key :: First(hs, key) == if key in trace then Some(trace[key]) else Last(headers, key)
  {
    var headersMap: HeaderMap := map[];
    var i := 0;
    while i < |headers|
      invariant 0 <= i <= |headers| && headersMap == ToMap(headers[..i])
    {
      assert headers[..i + 1][..i] == headers[..i];
      headersMap := headersMap[headers[i].key := headers[i].value];
      i := i + 1;
    }
    assert headers[..i] == headers;
    hs := ToRecordHeaders(headersMap + trace);
    forall key ensures First(hs, key) == if key in trace then Some(trace[key]) else Last(headers, key) {
      ListedLookup(hs, headersMap + trace, key);
      MapKeepsLast(headers, key);
    }
  }

  // The values of the five headers that SendToDLQ adds.
  datatype DlqInfo = DlqInfo(topic: string, partition: string, offset: string, error: string, timestamp: string)

  const DLQ_KEYS :=
    {"dlq.original.topic", "dlq.original.partition", "dlq.original.offset", "dlq.error", "dlq.timestamp"}

  function DlqAdditions(d: DlqInfo): seq<RecordHeader>
  {
    [RecordHeader("dlq.original.topic", d.topic),
     RecordHeader("dlq.original.partition", d.partition),
     RecordHeader("dlq.original.offset", d.offset),
     RecordHeader("dlq.error", d.error),
     RecordHeader("dlq.timestamp", d.timestamp)]
  }

  /** The headers of the record that SendToDLQ produces. */
  method DlqHeaders(headers: seq<RecordHeader>, d: DlqInfo, trace: HeaderMap) returns (hs: seq<RecordHeader>)
    ensures Lists(hs, Inject(ToMap(headers + DlqAdditions(d)), trace))
  {
    var dlqHeaders := headers + DlqAdditions(d);
    hs := InjectContext(dlqHeaders, trace);
  }

  // ---------- The round trips ----------

  /** From the creating context to the consumer: for every header map and every order of the list, a slug in the
      context arrives; without one, whatever slug header the caller supplied arrives, and otherwise nothing. */
  lemma SlugRoundTrip(slug: Option<string>, headers: HeaderMap, e: EventInfo, saved: HeaderMap, span: HeaderMap,
                      hs: seq<RecordHeader>)
    requires HEADER_KEY !in saved && HEADER_KEY !in span
    requires Lists(hs, Inject(Prepared(headers, e, saved, slug), span))
    ensures slug.Some? && slug.value != "" ==> SlugFrom(hs) == slug
    ensures slug.None? || slug.value == "" ==>
              SlugFrom(hs) == if Lookup(headers, HEADER_KEY) == Some("") then None else Lookup(headers, HEADER_KEY)
  {
    ListedLookup(hs, Inject(Prepared(headers, e, saved, slug), span), HEADER_KEY);
  }

  /** The value of each of the five keys, and nothing for any other. */
  function Addition(d: DlqInfo, key: string): Option<string>
  {
    if key == "dlq.timestamp" then Some(d.timestamp)
    else if key == "dlq.error" then Some(d.error)
    else if key == "dlq.original.offset" then Some(d.offset)
    else if key == "dlq.original.partition" then Some(d.partition)
    else if key == "dlq.original.topic" then Some(d.topic)
    else None
  }

  lemma AdditionsLast(d: DlqInfo, key: string)
    ensures Last(DlqAdditions(d), key) == Addition(d, key)
  {
    var a := DlqAdditions(d);
    LastSnoc(a[..4], a[4], key);
    LastSnoc(a[..3], a[3], key);
    LastSnoc(a[..2], a[2], key);
    LastSnoc(a[..1], a[1], key);
    LastSnoc([], a[0], key);
    assert a == a[..4] + [a[4]] && a[..4] == a[..3] + [a[3]] && a[..3] == a[..2] + [a[2]];
    assert a[..2] == a[..1] + [a[1]] && a[..1] == [] + [a[0]];
  }

  lemma LastSnoc(hs: seq<RecordHeader>, h: RecordHeader, key: string)
    ensures Last(hs + [h], key) == if h.key == key then Some(h.value) else Last(hs, key)
  {
    assert (hs + [h])[..|hs|] == hs;
  }

  /** The DLQ copy has, for every key that is neither one of the five nor the propagator's, exactly the value that
      the original record has last for it, and nothing if the original has no such key. */
  lemma DlqKeepsHeaders(headers: seq<RecordHeader>, d: DlqInfo, trace: HeaderMap, hs: seq<RecordHeader>, key: string)
    requires Lists(hs, Inject(ToMap(headers + DlqAdditions(d)), trace))
    requires key !in DLQ_KEYS && key !in trace
    ensures First(hs, key) == Last(headers, key)
    ensures DistinctKeys(headers) ==> First(hs, key) == First(headers, key)
  {
    ListedLookup(hs, Inject(ToMap(headers + DlqAdditions(d)), trace), key);
    MapKeepsLast(headers + DlqAdditions(d), key);
    LastOfAppend(headers, DlqAdditions(d), key);
    AdditionsLast(d, key);
    if DistinctKeys(headers) {
      DistinctFirstIsLast(headers, key);
    }
  }

  /** The five dlq headers describe this failure, even when the record had been in a DLQ before. */
  lemma DlqDescribesFailure(headers: seq<RecordHeader>, d: DlqInfo, trace: HeaderMap, hs: seq<RecordHeader>)
    requires Lists(hs, Inject(ToMap(headers + DlqAdditions(d)), trace)) && DLQ_KEYS !! trace.Keys
    ensures First(hs, "dlq.original.topic") == Some(d.topic)
    ensures First(hs, "dlq.original.partition") == Some(d.partition)
    ensures First(hs, "dlq.original.offset") == Some(d.offset)
    ensures First(hs, "dlq.error") == Some(d.error)
    ensures First(hs, "dlq.timestamp") == Some(d.timestamp)
  {
    forall key | key in DLQ_KEYS ensures First(hs, key) == Addition(d, key) {
      ListedLookup(hs, Inject(ToMap(headers + DlqAdditions(d)), trace), key);
      MapKeepsLast(headers + DlqAdditions(d), key);
      LastOfAppend(headers, DlqAdditions(d), key);
      AdditionsLast(d, key);
    }
    assert "dlq.original.topic" in DLQ_KEYS && "dlq.original.partition" in DLQ_KEYS;
    assert "dlq.original.offset" in DLQ_KEYS && "dlq.error" in DLQ_KEYS && "dlq.timestamp" in DLQ_KEYS;
  }

  /** The consumer of the DLQ sees the tenant of the original record exactly when the first and the last slug
      header of that record agree; with distinct keys they always do. */
  lemma DlqSlugExact(headers: seq<RecordHeader>, d: DlqInfo, trace: HeaderMap, hs: seq<RecordHeader>)
    requires Lists(hs, Inject(ToMap(headers + DlqAdditions(d)), trace)) && HEADER_KEY !in trace
    ensures SlugFrom(hs) == SlugFrom(headers) <==> First(headers, HEADER_KEY) == Last(headers, HEADER_KEY)
    ensures DistinctKeys(headers) ==> SlugFrom(hs) == SlugFrom(headers)
  {
    DlqKeepsHeaders(headers, d, trace, hs, HEADER_KEY);
    FirstAndLastExist(headers, HEADER_KEY);
    if DistinctKeys(headers) {
      DistinctFirstIsLast(headers, HEADER_KEY);
    }
  }

  lemma {:induction false} FirstAndLastExist(hs: seq<RecordHeader>, key: string)
    ensures First(hs, key).Some? <==> Last(hs, key).Some?
  {
    if hs != [] {
      var init, last := hs[..|hs| - 1], hs[|hs| - 1];
      assert hs == init + [last];
      FirstOfAppend(init, [last], key);
      FirstAndLastExist(init, key);
    }
  }

  /** Duplicate slug headers do change the tenant: the consumer takes the first, its DLQ copy keeps the last. */
  lemma DuplicateSlugsDiffer(a: string, b: string, d: DlqInfo, trace: HeaderMap, hs: seq<RecordHeader>)
    requires a != b && HEADER_KEY !in trace
    requires var headers := [RecordHeader(HEADER_KEY, a), RecordHeader(HEADER_KEY, b)];
             Lists(hs, Inject(ToMap(headers + DlqAdditions(d)), trace))
    ensures SlugFrom(hs) != SlugFrom([RecordHeader(HEADER_KEY, a), RecordHeader(HEADER_KEY, b)])
  {
    DlqSlugExact([RecordHeader(HEADER_KEY, a), RecordHeader(HEADER_KEY, b)], d, trace, hs);
  }

  /** All the way: a slug in the creating context is what the consumer of the DLQ copy finds, too. */
  lemma SlugSurvivesDlq(slug: string, headers: HeaderMap, e: EventInfo, saved: HeaderMap, span: HeaderMap,
                        hs: seq<RecordHeader>, d: DlqInfo, trace: HeaderMap, dlq: seq<RecordHeader>)
    requires slug != "" && HEADER_KEY !in saved && HEADER_KEY !in span && HEADER_KEY !in trace
    requires Lists(hs, Inject(Prepared(headers, e, saved, Some(slug)), span))
    requires Lists(dlq, Inject(ToMap(hs + DlqAdditions(d)), trace))
    ensures SlugFrom(dlq) == Some(slug)
  {
    SlugRoundTrip(Some(slug), headers, e, saved, span, hs);
    DlqSlugExact(hs, d, trace, dlq);
  }
}
