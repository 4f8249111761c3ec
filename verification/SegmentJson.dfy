/**
 Trace segments as values, the JSON value each of them is printed as, and the
 way the reporter reads it back (src/reporter/grpc.rs:300): every field is
 looked up by its name, a missing or repeated field is an error, and fields
 with other names are ignored.
 */
module SegmentJson {
  import opened Wrappers
  import opened Json
  import opened JsonRoundTrip

  type Int32 = n: int | -0x8000_0000 <= n < 0x8000_0000
  type Int64 = n: int | -0x8000_0000_0000_0000 <= n < 0x8000_0000_0000_0000

  /** A key and a value: a tag of a span, or one entry of a log. */
  datatype KeyValue = KeyValue(key: string, value: string)

  datatype Log = Log(time: Int64, data: seq<KeyValue>)

  datatype Span = Span(
    spanId: Int32,
    parentSpanId: Int32,
    startTime: Int64,
    endTime: Int64,
    operationName: string,
    peer: string,
    spanType: Int32,
    spanLayer: Int32,
    componentId: Int32,
    isError: bool,
    tags: seq<KeyValue>,
    logs: seq<Log>,
    skipAnalysis: bool)

  datatype Segment = Segment(
    traceId: string,
    traceSegmentId: string,
    spans: seq<Span>,
    service: string,
    serviceInstance: string,
    isSizeLimited: bool)

  // ---------- The JSON value of a segment ----------

  const KEY_VALUE_FIELDS := ["key", "value"]

  const LOG_FIELDS := ["time", "data"]

  const SPAN_FIELDS := [
    "span_id", "parent_span_id", "start_time", "end_time", "refs", "operation_name", "peer",
    "span_type", "span_layer", "component_id", "is_error", "tags", "logs", "skip_analysis"]

  const SEGMENT_FIELDS := [
    "trace_id", "trace_segment_id", "spans", "service", "service_instance", "is_size_limited"]

  function Zip(names: seq<string>, values: seq<Value>): (members: seq<Member>)
    requires |names| == |values|
    ensures |members| == |names|
    ensures forall i :: 0 <= i < |names| ==> members[i] == Member(names[i], values[i])
  {
    seq(|names|, i requires 0 <= i < |names| => Member(names[i], values[i]))
  }

  /** The object with these fields in this order. */
  function Record(names: seq<string>, values: seq<Value>): Value
    requires |names| == |values|
  {
    Object(Zip(names, values))
  }

  function KeyValueValue(kv: KeyValue): Value {
    Record(KEY_VALUE_FIELDS, [Str(kv.key), Str(kv.value)])
  }

  function KeyValueValues(kvs: seq<KeyValue>): (vs: seq<Value>)
    ensures |vs| == |kvs|
  {
    if kvs == [] then [] else [KeyValueValue(kvs[0])] + KeyValueValues(kvs[1..])
  }

  function LogFields(log: Log): seq<Value> {
    [Number(log.time), Array(KeyValueValues(log.data))]
  }

  function LogValue(log: Log): Value {
    Record(LOG_FIELDS, LogFields(log))
  }

  function LogValues(logs: seq<Log>): (vs: seq<Value>)
    ensures |vs| == |logs|
  {
    if logs == [] then [] else [LogValue(logs[0])] + LogValues(logs[1..])
  }

  /** The reference list of a span is always printed empty. */
  function SpanFields(span: Span): (f: seq<Value>)
    ensures |f| == 14
  {
    [Number(span.spanId), Number(span.parentSpanId), Number(span.startTime), Number(span.endTime),
     Array([]), Str(span.operationName), Str(span.peer),
     Number(span.spanType), Number(span.spanLayer), Number(span.componentId), Bool(span.isError),
     Array(KeyValueValues(span.tags)), Array(LogValues(span.logs)), Bool(span.skipAnalysis)]
  }

  function SpanValue(span: Span): Value {
    Record(SPAN_FIELDS, SpanFields(span))
  }

  function SpanValues(spans: seq<Span>): (vs: seq<Value>)
    ensures |vs| == |spans|
  {
    if spans == [] then [] else [SpanValue(spans[0])] + SpanValues(spans[1..])
  }

  function SegmentFields(segment: Segment): seq<Value> {
    [Str(segment.traceId), Str(segment.traceSegmentId), Array(SpanValues(segment.spans)),
     Str(segment.service), Str(segment.serviceInstance), Bool(segment.isSizeLimited)]
  }

  function SegmentValue(segment: Segment): Value {
    Record(SEGMENT_FIELDS, SegmentFields(segment))
  }

  function SegmentText(segment: Segment): string {
    Text(SegmentValue(segment))
  }

  // ---------- Reading it back ----------

  /** Finds the first member with this name, and the members other than it. */
  function Take(members: seq<Member>, name: string): (r: Option<(Value, seq<Member>)>)
    ensures r.Some? ==> |r.value.1| < |members|
  {
    if members == [] then None
    else if members[0].name == name then Some((members[0].value, members[1..]))
    else
      var (v, others) :- Take(members[1..], name);
      Some((v, [members[0]] + others))
  }

  function TakeAll(members: seq<Member>, names: seq<string>): (r: Option<(seq<Value>, seq<Member>)>)
    ensures r.Some? ==> |r.value.0| == |names|
    decreases |members|
  {
    if names == [] then Some(([], members))
    else
      var (v, others) :- Take(members, names[0]);
      var (vs, unused) :- TakeAll(others, names[1..]);
      Some(([v] + vs, unused))
  }

  /** The values of the named fields of an object that has each of them exactly once. */
  function Fields(v: Value, names: seq<string>): (r: Option<seq<Value>>)
    ensures r.Some? ==> |r.value| == |names|
  {
    if !v.Object? then None
    else
      var (values, unused) :- TakeAll(v.members, names);
      if forall i :: 0 <= i < |unused| ==> unused[i].name !in names then Some(values) else None
  }

  predicate IsInt32(v: Value) {
    v.Number? && -0x8000_0000 <= v.n < 0x8000_0000
  }

  predicate IsInt64(v: Value) {
    v.Number? && -0x8000_0000_0000_0000 <= v.n < 0x8000_0000_0000_0000
  }

  function ReadKeyValue(v: Value): Option<KeyValue> {
    var f :- Fields(v, KEY_VALUE_FIELDS);
    if f[0].Str? && f[1].Str? then Some(KeyValue(f[0].s, f[1].s)) else None
  }

  function ReadKeyValues(vs: seq<Value>): (r: Option<seq<KeyValue>>)
    ensures r.Some? ==> |r.value| == |vs|
  {
    if vs == [] then Some([])
    else
      var first :- ReadKeyValue(vs[0]);
      var tail :- ReadKeyValues(vs[1..]);
      Some([first] + tail)
  }

  function ReadLog(v: Value): Option<Log> {
    var f :- Fields(v, LOG_FIELDS);
    if IsInt64(f[0]) && f[1].Array? then
      var data :- ReadKeyValues(f[1].items);
      Some(Log(f[0].n, data))
    else None
  }

  function ReadLogs(vs: seq<Value>): (r: Option<seq<Log>>)
    ensures r.Some? ==> |r.value| == |vs|
  {
    if vs == [] then Some([])
    else
      var first :- ReadLog(vs[0]);
      var tail :- ReadLogs(vs[1..]);
      Some([first] + tail)
  }

  /** Every field holds a value of its type. */
  predicate SpanTyped(f: seq<Value>)
    requires |f| == 14
  {
    && IsInt32(f[0]) && IsInt32(f[1]) && IsInt64(f[2]) && IsInt64(f[3]) && f[4] == Array([])
    && f[5].Str? && f[6].Str? && IsInt32(f[7]) && IsInt32(f[8]) && IsInt32(f[9]) && f[10].Bool?
    && f[11].Array? && f[12].Array? && f[13].Bool?
  }

  function ReadSpanFields(f: seq<Value>): Option<Span>
    requires |f| == 14
  {
    if SpanTyped(f) then
      var tags :- ReadKeyValues(f[11].items);
      var logs :- ReadLogs(f[12].items);
      Some(Span(f[0].n, f[1].n, f[2].n, f[3].n, f[5].s, f[6].s, f[7].n, f[8].n, f[9].n, f[10].b,
                tags, logs, f[13].b))
    else None
  }

  function ReadSpan(v: Value): Option<Span> {
    var f :- Fields(v, SPAN_FIELDS);
    ReadSpanFields(f)
  }

  function ReadSpans(vs: seq<Value>): (r: Option<seq<Span>>)
    ensures r.Some? ==> |r.value| == |vs|
  {
    if vs == [] then Some([])
    else
      var first :- ReadSpan(vs[0]);
      var tail :- ReadSpans(vs[1..]);
      Some([first] + tail)
  }

  function ReadSegmentFields(f: seq<Value>): Option<Segment>
    requires |f| == 6
  {
    if f[0].Str? && f[1].Str? && f[2].Array? && f[3].Str? && f[4].Str? && f[5].Bool? then
      var spans :- ReadSpans(f[2].items);
      Some(Segment(f[0].s, f[1].s, spans, f[3].s, f[4].s, f[5].b))
    else None
  }

  function ReadSegment(v: Value): Option<Segment> {
    var f :- Fields(v, SEGMENT_FIELDS);
    ReadSegmentFields(f)
  }

  /** What the reporter makes of a received text. */
  function ParseSegment(text: string): Option<Segment> {
    var v :- ParseAll(text);
    ReadSegment(v)
  }

  // ---------- Strings that survive ----------

  predicate PlainKeyValue(kv: KeyValue) {
    Plain(kv.key) && Plain(kv.value)
  }

  predicate PlainKeyValues(kvs: seq<KeyValue>) {
    forall i :: 0 <= i < |kvs| ==> PlainKeyValue(kvs[i])
  }

  predicate PlainSpan(span: Span) {
    && Plain(span.operationName) && Plain(span.peer) && PlainKeyValues(span.tags)
    && forall i :: 0 <= i < |span.logs| ==> PlainKeyValues(span.logs[i].data)
  }

  /** No string anywhere in the segment holds a quotation mark, a reverse solidus or a control character. */
  predicate PlainSegment(segment: Segment) {
    && Plain(segment.traceId) && Plain(segment.traceSegmentId)
    && Plain(segment.service) && Plain(segment.serviceInstance)
    && forall i :: 0 <= i < |segment.spans| ==> PlainSpan(segment.spans[i])
  }
}
