/**
 The spans and segments of the extension as they live in memory, and the
 hand-written printers that append them to a string buffer
 (src/sky_util_php.c, src/sky_core_tag.c, src/sky_core_log.c,
 src/sky_core_span.c and src/sky_core_segment.c).
 */
module SegmentPrinter {
  import opened Wrappers
  import opened Json
  import Cross = CrossProcess
  import opened SegmentJson
  import opened GrowableArray

  // ---------- The string buffer and the append helpers ----------

  /** Members printed one after the other, each with a comma behind it. */
  function Joined(members: seq<Member>): string {
    if members == [] then ""
    else Joined(members[..|members| - 1]) + (MemberText(members[|members| - 1]) + ",")
  }

  lemma JoinedAppend(start: string, members: seq<Member>, m: Member)
    ensures start + Joined(members) + MemberText(m) + "," == start + Joined(members + [m])
  {
    var all := members + [m];
    assert all[..|all| - 1] == members;
    Regroup(start + Joined(members), MemberText(m), ",");
    Regroup(start, Joined(members), MemberText(m) + ",");
  }

  class SmartString {
    var text: string
    // The fields appended since the object was opened.
    ghost var fields: seq<Member>

    constructor ()
      ensures text == "" && fields == []
    {
      text, fields := "", [];
    }

    /** The buffer holds an opened object with these fields and nothing else. */
    ghost predicate OpenObject()
      reads this
    {
      text == "{" + Joined(fields)
    }

    method AppendC(c: char)
      modifies `text
      ensures text == old(text) + [c]
    {
      text := text + [c];
    }

    method AppendL(s: string)
      modifies `text
      ensures text == old(text) + s
    {
      text := text + s;
    }

    method AppendLong(n: int)
      modifies `text
      ensures text == old(text) + IntText(n)
    {
      text := text + IntText(n);
    }

    method JsonKey(key: string)
      modifies `text
      ensures text == old(text) + ("\"" + key + "\":")
    {
      AppendC('\"');
      AppendL(key);
      AppendC('\"');
      AppendC(':');
    }

    /** Appends a field whose value is already printed. */
    method JsonRaw(key: string, printed: string, ghost value: Value)
      requires printed == Text(value)
      modifies `text
      ensures text == old(text) + MemberText(Member(key, value))
    {
      JsonKey(key);
      AppendL(printed);
    }

    method JsonRawEx(key: string, printed: string, ghost value: Value)
      requires printed == Text(value)
      requires OpenObject()
      modifies this
      ensures OpenObject()
      ensures fields == old(fields) + [Member(key, value)]
    {
      JsonRaw(key, printed, value);
      AppendC(',');
      JoinedAppend("{", fields, Member(key, value));
      fields := fields + [Member(key, value)];
    }

    method JsonInt(key: string, n: int)
      modifies `text
      ensures text == old(text) + MemberText(Member(key, Number(n)))
    {
      JsonKey(key);
      AppendLong(n);
    }

    method JsonIntEx(key: string, n: int)
      requires OpenObject()
      modifies this
      ensures OpenObject()
      ensures fields == old(fields) + [Member(key, Number(n))]
    {
      JsonInt(key, n);
      AppendC(',');
      JoinedAppend("{", fields, Member(key, Number(n)));
      fields := fields + [Member(key, Number(n))];
    }

    method JsonStr(key: string, s: string)
      modifies `text
      ensures text == old(text) + MemberText(Member(key, Str(s)))
    {
      JsonKey(key);
      AppendC('\"');
      AppendL(s);
      AppendC('\"');
    }

    method JsonStrEx(key: string, s: string)
      requires OpenObject()
      modifies this
      ensures OpenObject()
      ensures fields == old(fields) + [Member(key, Str(s))]
    {
      JsonStr(key, s);
      AppendC(',');
      JoinedAppend("{", fields, Member(key, Str(s)));
      fields := fields + [Member(key, Str(s))];
    }

    method JsonBool(key: string, b: bool)
      modifies `text
      ensures text == old(text) + MemberText(Member(key, Bool(b)))
    {
      JsonKey(key);
      if b {
        AppendL("true");
      } else {
        AppendL("false");
      }
    }

    method JsonBoolEx(key: string, b: bool)
      requires OpenObject()
      modifies this
      ensures OpenObject()
      ensures fields == old(fields) + [Member(key, Bool(b))]
    {
      JsonBool(key, b);
      AppendC(',');
      JoinedAppend("{", fields, Member(key, Bool(b)));
      fields := fields + [Member(key, Bool(b))];
    }

    /** Appends a string field whose name is given with its quotation marks and the opening one of the value. */
    method AppendStringField(opening: string, value: string, ghost name: string)
      requires opening == "\"" + name + "\":\"" && OpenObject()
      modifies this
      ensures OpenObject() && fields == old(fields) + [Member(name, Str(value))]
    {
      AppendL(opening);
      AppendL(value);
      AppendL("\",");
      QuotedField(old(text), name, value);
      JoinedAppend("{", fields, Member(name, Str(value)));
      fields := fields + [Member(name, Str(value))];
    }

    /** Appends a field whose value is already printed and whose name is given with its quotation marks. */
    method AppendRawField(opening: string, printed: string, ghost name: string, ghost value: Value)
      requires opening == "\"" + name + "\":" && printed == Text(value) && OpenObject()
      modifies this
      ensures OpenObject() && fields == old(fields) + [Member(name, value)]
    {
      AppendL(opening);
      AppendL(printed);
      AppendL(",");
      RawField(old(text), name, value);
      JoinedAppend("{", fields, Member(name, value));
      fields := fields + [Member(name, value)];
    }
  }

  lemma RawField(text: string, name: string, value: Value)
    ensures text + ("\"" + name + "\":") + Text(value) + "," == text + MemberText(Member(name, value)) + ","
  {
  }

  lemma QuotedField(text: string, name: string, value: string)
    ensures text + ("\"" + name + "\":\"") + value + "\"," == text + MemberText(Member(name, Str(value))) + ","
  {
  }

  // ---------- Lists and fields, one appended after the other ----------

  lemma CommasRegroup(a: string, b: string, c: string)
    ensures a + "," + (b + "," + c) == (a + "," + b) + "," + c
  {
  }

  lemma {:induction false} ItemsTextTake(vs: seq<Value>, i: nat)
    requires 0 < i < |vs|
    ensures ItemsText(vs[..i + 1]) == ItemsText(vs[..i]) + "," + Text(vs[i])
    decreases i
  {
    assert vs[..i + 1][1..] == vs[1..][..i] && vs[..i][1..] == vs[1..][..i - 1];
    if i == 1 {
      assert vs[..1] == [vs[0]] && vs[1..][..1] == [vs[1]];
    } else {
      ItemsTextTake(vs[1..], i - 1);
      CommasRegroup(Text(vs[0]), ItemsText(vs[1..][..i - 1]), Text(vs[i]));
    }
  }

  /** What a printing loop has appended before round i: the items so far, and the comma that announces the next one. */
  function ListSoFar(vs: seq<Value>, i: nat): string
    requires i <= |vs|
  {
    "[" + ItemsText(vs[..i]) + (if 0 < i < |vs| then "," else "")
  }

  lemma ListSoFarStep(vs: seq<Value>, i: nat)
    requires i < |vs|
    ensures ListSoFar(vs, i + 1) == ListSoFar(vs, i) + Text(vs[i]) + (if i + 1 < |vs| then "," else "")
    ensures ListSoFar(vs, |vs|) + "]" == Text(Array(vs))
  {
    assert vs[..|vs|] == vs;
    if i == 0 {
      assert vs[..1] == [vs[0]];
    } else {
      ItemsTextTake(vs, i);
    }
  }

  lemma {:induction false} MembersTextTake(ms: seq<Member>, i: nat)
    requires 0 < i < |ms|
    ensures MembersText(ms[..i + 1]) == MembersText(ms[..i]) + "," + MemberText(ms[i])
    decreases i
  {
    assert ms[..i + 1][1..] == ms[1..][..i] && ms[..i][1..] == ms[1..][..i - 1];
    if i == 1 {
      assert ms[..1] == [ms[0]] && ms[1..][..1] == [ms[1]];
    } else {
      MembersTextTake(ms[1..], i - 1);
      CommasRegroup(MemberText(ms[0]), MembersText(ms[1..][..i - 1]), MemberText(ms[i]));
    }
  }

  lemma {:induction false} JoinedIsMembersText(ms: seq<Member>, k: nat)
    requires 0 < k <= |ms|
    ensures Joined(ms[..k]) == MembersText(ms[..k]) + ","
  {
    assert ms[..k][..k - 1] == ms[..k - 1];
    if k == 1 {
      assert ms[..1] == [ms[0]];
    } else {
      JoinedIsMembersText(ms, k - 1);
      MembersTextTake(ms, k - 1);
    }
  }

  /** An object is printed as all members but the last, each with a comma, then the last without one. */
  lemma ObjectText(init: seq<Member>, last: Member)
    requires init != []
    ensures Text(Object(init + [last])) == "{" + Joined(init) + MemberText(last) + "}"
  {
    var ms := init + [last];
    assert ms[..|init|] == init && ms[..|init| + 1] == ms;
    JoinedIsMembersText(ms, |init|);
    MembersTextTake(ms, |init|);
  }

  lemma PairText(first: Member, second: Member)
    ensures Text(Object([first, second])) == "{" + MemberText(first) + "," + MemberText(second) + "}"
  {
    assert [first, second] == [first] + [second];
    ObjectText([first], second);
    JoinedAppend("{", [], first);
  }

  // ---------- The printers ----------

  method TagToJson(tag: KeyValue) returns (json: string)
    ensures json == Text(KeyValueValue(tag))
  {
    var str := new SmartString();
    str.AppendC('{');
    str.JsonStrEx("key", tag.key);
    assert str.fields == [Member("key", Str(tag.key))];
    str.JsonStr("value", tag.value);
    str.AppendC('}');
    json := str.text;
    var key, value := Member("key", Str(tag.key)), Member("value", Str(tag.value));
    assert KeyValueValue(tag).members == [key] + [value];
    ObjectText([key], value);
  }

  lemma {:induction false} KeyValueValueAt(kvs: seq<KeyValue>, i: nat)
    requires i < |kvs|
    ensures KeyValueValues(kvs)[i] == KeyValueValue(kvs[i])
  {
    if i > 0 {
      KeyValueValueAt(kvs[1..], i - 1);
    }
  }

  lemma {:induction false} LogValueAt(logs: seq<Log>, i: nat)
    requires i < |logs|
    ensures LogValues(logs)[i] == LogValue(logs[i])
  {
    if i > 0 {
      LogValueAt(logs[1..], i - 1);
    }
  }

  lemma {:induction false} SpanValueAt(spans: seq<Span>, i: nat)
    requires i < |spans|
    ensures SpanValues(spans)[i] == SpanValue(spans[i])
  {
    if i > 0 {
      SpanValueAt(spans[1..], i - 1);
    }
  }

  /** The entries of a log are printed by one format string each. */
  method LogToJson(log: Log) returns (json: string)
    ensures json == Text(LogValue(log))
  {
    ghost var vs := KeyValueValues(log.data);
    var data := new SmartString();
    data.AppendL("[");
    for i := 0 to |log.data|
      invariant data.text == ListSoFar(vs, i)
    {
      KeyValueValueAt(log.data, i);
      ListSoFarStep(vs, i);
      var entry := "{\"key\":\"" + log.data[i].key + "\",\"value\":\"" + log.data[i].value + "\"}";
      EntryText(log.data[i]);
      data.AppendL(entry);
      if i + 1 < |log.data| {
        data.AppendL(",");
      }
    }
    data.AppendL("]");
    assert vs[..|vs|] == vs;
    json := "{\"time\":" + IntText(log.time) + ",\"data\":" + data.text + "}";
    LogText(log);
  }

  lemma LogText(log: Log)
    ensures Text(LogValue(log)) ==
            "{\"time\":" + IntText(log.time) + ",\"data\":" + Text(Array(KeyValueValues(log.data))) + "}"
  {
    var time, data := Member("time", Number(log.time)), Member("data", Array(KeyValueValues(log.data)));
    assert LogValue(log).members == [time, data];
    PairText(time, data);
    assert MemberText(time) == "\"time\":" + IntText(log.time);
    assert MemberText(data) == "\"data\":" + Text(data.value);
    LogPieces(IntText(log.time), Text(data.value));
  }

  lemma LogPieces(time: string, data: string)
    ensures "{" + ("\"time\":" + time) + "," + ("\"data\":" + data) + "}"
         == "{\"time\":" + time + ",\"data\":" + data + "}"
  {
  }

  lemma EntryText(kv: KeyValue)
    ensures Text(KeyValueValue(kv)) == "{\"key\":\"" + kv.key + "\",\"value\":\"" + kv.value + "\"}"
  {
    var key, value := Member("key", Str(kv.key)), Member("value", Str(kv.value));
    assert KeyValueValue(kv).members == [key, value];
    PairText(key, value);
    assert MemberText(Member("key", Str(kv.key))) == "\"key\":\"" + kv.key + "\"";
    assert MemberText(Member("value", Str(kv.value))) == "\"value\":\"" + kv.value + "\"";
    EntryPieces(kv.key, kv.value);
  }

  lemma EntryPieces(key: string, value: string)
    ensures "{" + ("\"key\":\"" + key + "\"") + "," + ("\"value\":\"" + value + "\"") + "}"
         == "{\"key\":\"" + key + "\",\"value\":\"" + value + "\"}"
  {
  }

  function SpanMembers(span: Span): (ms: seq<Member>)
    ensures |ms| == 14 && SpanValue(span) == Object(ms)
  {
    Zip(SPAN_FIELDS, SpanFields(span))
  }

  /** The fourteen fields by name, in the order of the printer. */
  lemma SpanMembersAre(span: Span)
    ensures SpanMembers(span) ==
            [Member("span_id", Number(span.spanId)), Member("parent_span_id", Number(span.parentSpanId)),
             Member("start_time", Number(span.startTime)), Member("end_time", Number(span.endTime)),
             Member("refs", Array([])), Member("operation_name", Str(span.operationName)),
             Member("peer", Str(span.peer)), Member("span_type", Number(span.spanType)),
             Member("span_layer", Number(span.spanLayer)), Member("component_id", Number(span.componentId)),
             Member("is_error", Bool(span.isError)), Member("tags", Array(KeyValueValues(span.tags))),
             Member("logs", Array(LogValues(span.logs))), Member("skip_analysis", Bool(span.skipAnalysis))]
  {
  }

  // ---------- Logs, spans and segments in memory ----------

  class LogRecord {
    const time: Int64
    const data: GrowableArray<KeyValue>

    constructor (now: Int64)
      ensures fresh(data) && fresh(data.slots) && data.Valid() && data.slots.Length == 4
      ensures time == now && Snapshot() == Log(now, [])
    {
      time := now;
      data := new GrowableArray<KeyValue>(4);
    }

    ghost function Snapshot(): Log
      reads data, data.slots
      requires data.Valid()
    {
      Log(time, data.Contents())
    }

    method AddData(key: string, value: string, memory: bool)
      requires data.Valid()
      modifies data, data.slots
      ensures data.Valid() && (data.slots == old(data.slots) || fresh(data.slots))
      ensures var added := memory || old(data.size) + 1 < old(data.slots.Length);
              Snapshot() == old(Snapshot()).(
                data := old(Snapshot().data) + if added then [KeyValue(key, value)] else [])
      ensures data.moved <= 2 * data.size
    {
      var added := data.Add(KeyValue(key, value), memory);
    }
  }

  /** Nothing in the repository adds a log to a span, so the log list has no array behind it here. */
  class SpanRecord {
    var spanId: Int32
    var parentSpanId: Int32
    const startTime: Int64
    var endTime: Int64
    var operationName: string
    var peer: string
    const spanType: Int32
    const spanLayer: Int32
    const componentId: Int32
    var isError: bool
    const tags: GrowableArray<KeyValue>
    var logs: seq<Log>
    var skipAnalysis: bool

    constructor (spanType: Int32, spanLayer: Int32, componentId: Int32, now: Int64)
      ensures fresh(tags) && fresh(tags.slots) && tags.Valid() && tags.Contents() == [] && tags.slots.Length == 4
      ensures this.spanType == spanType && this.spanLayer == spanLayer && this.componentId == componentId
      ensures startTime == now && peer == "" && !isError && logs == [] && !skipAnalysis
    {
      this.spanType, this.spanLayer, this.componentId := spanType, spanLayer, componentId;
      startTime, endTime := now, 0;
      spanId, parentSpanId, operationName, peer := 0, 0, "", "";
      isError, skipAnalysis, logs := false, false, [];
      tags := new GrowableArray<KeyValue>(4);
    }

    ghost function Snapshot(): Span
      reads this, tags, tags.slots
      requires tags.Valid()
    {
      Span(spanId, parentSpanId, startTime, endTime, operationName, peer, spanType, spanLayer, componentId,
           isError, tags.Contents(), logs, skipAnalysis)
    }

    method AddTag(tag: KeyValue, memory: bool)
      requires tags.Valid()
      modifies tags, tags.slots
      ensures tags.Valid() && (tags.slots == old(tags.slots) || fresh(tags.slots))
      ensures var added := memory || old(tags.size) + 1 < old(tags.slots.Length);
              Snapshot() == old(Snapshot()).(tags := old(Snapshot().tags) + if added then [tag] else [])
      ensures tags.moved <= 2 * tags.size
    {
      var added := tags.Add(tag, memory);
    }

    method TagsToJson() returns (json: string)
      requires tags.Valid()
      ensures json == Text(Array(KeyValueValues(tags.Contents())))
    {
      ghost var kvs := tags.Contents();
      ghost var vs := KeyValueValues(kvs);
      var list := new SmartString();
      list.AppendL("[");
      for i := 0 to tags.size
        invariant list.text == ListSoFar(vs, i)
      {
        KeyValueValueAt(kvs, i);
        ListSoFarStep(vs, i);
        var tag := TagToJson(tags.slots[i]);
        list.AppendL(tag);
        if i + 1 < tags.size {
          list.AppendL(",");
        }
      }
      list.AppendL("]");
      assert vs[..|vs|] == vs;
      json := list.text;
    }

    method LogsToJson() returns (json: string)
      ensures json == Text(Array(LogValues(logs)))
    {
      ghost var vs := LogValues(logs);
      var list := new SmartString();
      list.AppendL("[");
      for i := 0 to |logs|
        invariant list.text == ListSoFar(vs, i)
      {
        LogValueAt(logs, i);
        ListSoFarStep(vs, i);
        var log := LogToJson(logs[i]);
        list.AppendL(log);
        if i + 1 < |logs| {
          list.AppendL(",");
        }
      }
      list.AppendL("]");
      assert vs[..|vs|] == vs;
      json := list.text;
    }

    /** The fields from `span_id` to `end_time`. */
    method AppendTimes(str: SmartString)
      requires tags.Valid() && str.OpenObject() && str.fields == []
      modifies str
      ensures str.OpenObject() && str.fields == SpanMembers(Snapshot())[..4]
    {
      str.JsonIntEx("span_id", spanId);
      str.JsonIntEx("parent_span_id", parentSpanId);
      str.JsonIntEx("start_time", startTime);
      str.JsonIntEx("end_time", endTime);
    }

    /** The fields from `refs` to `span_type`. */
    method AppendNames(str: SmartString)
      requires tags.Valid() && str.OpenObject() && str.fields == SpanMembers(Snapshot())[..4]
      modifies str
      ensures str.OpenObject() && str.fields == SpanMembers(Snapshot())[..8]
    {
      str.JsonRawEx("refs", "[]", Array([]));
      str.JsonStrEx("operation_name", operationName);
      str.JsonStrEx("peer", peer);
      str.JsonIntEx("span_type", spanType);
    }

    /** The fields from `span_layer` to `is_error`. */
    method AppendDetails(str: SmartString)
      requires tags.Valid() && str.OpenObject() && str.fields == SpanMembers(Snapshot())[..8]
      modifies str
      ensures str.OpenObject() && str.fields == SpanMembers(Snapshot())[..11]
    {
      str.JsonIntEx("span_layer", spanLayer);
      str.JsonIntEx("component_id", componentId);
      str.JsonBoolEx("is_error", isError);
    }

    method AppendLists(str: SmartString, tagList: string, logList: string)
      requires tags.Valid() && str.OpenObject() && str.fields == SpanMembers(Snapshot())[..11]
      requires tagList == Text(Array(KeyValueValues(tags.Contents()))) && logList == Text(Array(LogValues(logs)))
      modifies str
      ensures str.OpenObject() && str.fields == SpanMembers(Snapshot())[..13]
    {
      str.JsonRawEx("tags", tagList, Array(KeyValueValues(tags.Contents())));
      str.JsonRawEx("logs", logList, Array(LogValues(logs)));
    }

    /** All fields but the last. */
    method AppendFields(str: SmartString, tagList: string, logList: string)
      requires tags.Valid() && str.OpenObject() && str.fields == []
      requires tagList == Text(Array(KeyValueValues(tags.Contents()))) && logList == Text(Array(LogValues(logs)))
      modifies str
      ensures str.OpenObject() && str.fields == SpanMembers(Snapshot())[..13]
    {
      AppendHead(str);
      AppendDetails(str);
      AppendLists(str, tagList, logList);
    }

    method AppendHead(str: SmartString)
      requires tags.Valid() && str.OpenObject() && str.fields == []
      modifies str
      ensures str.OpenObject() && str.fields == SpanMembers(Snapshot())[..8]
    {
      AppendTimes(str);
      AppendNames(str);
    }

    method ToJson() returns (json: string)
      requires tags.Valid()
      ensures json == Text(SpanValue(Snapshot()))
      ensures json == Text(Object(
                [Member("span_id", Number(spanId)), Member("parent_span_id", Number(parentSpanId)),
                 Member("start_time", Number(startTime)), Member("end_time", Number(endTime)),
                 Member("refs", Array([])), Member("operation_name", Str(operationName)),
                 Member("peer", Str(peer)), Member("span_type", Number(spanType)),
                 Member("span_layer", Number(spanLayer)), Member("component_id", Number(componentId)),
                 Member("is_error", Bool(isError)), Member("tags", Array(KeyValueValues(tags.Contents()))),
                 Member("logs", Array(LogValues(logs))), Member("skip_analysis", Bool(skipAnalysis))]))
    {
      SpanMembersAre(Snapshot());
      var tagList := TagsToJson();
      var logList := LogsToJson();
      var str := new SmartString();
      str.AppendL("{");
      assert str.OpenObject();
      AppendFields(str, tagList, logList);
      var last := Member("skip_analysis", Bool(skipAnalysis));
      assert SpanMembers(Snapshot()) == str.fields + [last];
      ObjectText(str.fields, last);
      str.JsonBool("skip_analysis", skipAnalysis);
      str.AppendL("}");
      json := str.text;
    }
  }

  /** Every entry is a span whose tag list is intact. */
  ghost predicate AllPresent(rs: seq<SpanRecord?>)
    reads set r: SpanRecord | r in rs :: r.tags
    reads set r: SpanRecord | r in rs :: r.tags.slots
  {
    forall i :: 0 <= i < |rs| ==> rs[i] != null && rs[i].tags.Valid()
  }

  /** What the spans in a list are at this moment. */
  ghost function Snapshots(rs: seq<SpanRecord?>): (values: seq<Span>)
    reads rs
    reads set r: SpanRecord | r in rs :: r.tags
    reads set r: SpanRecord | r in rs :: r.tags.slots
    requires AllPresent(rs)
    ensures |values| == |rs|
    ensures forall i :: 0 <= i < |rs| ==> values[i] == rs[i].Snapshot()
  {
    seq(|rs|, i requires 0 <= i < |rs| && AllPresent(rs)
              reads rs
              reads set r: SpanRecord | r in rs :: r.tags
              reads set r: SpanRecord | r in rs :: r.tags.slots
              => rs[i].Snapshot())
  }

  /** Span i has id i; the first span has no parent and is the parent of all others. */
  ghost predicate Numbered(rs: seq<SpanRecord?>)
    reads rs
  {
    forall i :: 0 <= i < |rs| ==>
      rs[i] != null && rs[i].spanId == i && rs[i].parentSpanId == if i == 0 then -1 else 0
  }

  class SegmentRecord {
    const traceId: string
    const traceSegmentId: string
    const spans: GrowableArray<SpanRecord?>
    var service: string
    var serviceInstance: string
    var isSizeLimited: bool

    /** The trace id is the one in the sw8 header, or the segment's own id. */
    constructor (protocol: Option<string>, segmentId: string)
      ensures fresh(spans) && fresh(spans.slots) && spans.Valid() && spans.Contents() == [] && spans.moved == 0
      ensures spans.slots.Length == 64
      ensures traceSegmentId == segmentId && !isSizeLimited
      ensures var parent := Cross.Parsed(protocol).traceId;
              traceId == if parent.Some? then Cross.Chars(parent.value) else segmentId
    {
      traceSegmentId := segmentId;
      var id := Cross.SegmentTraceId(protocol, segmentId);
      traceId := id;
      service, serviceInstance, isSizeLimited := "", "", false;
      spans := new GrowableArray<SpanRecord?>(64);
    }

    method AddSpan(span: SpanRecord, memory: bool) returns (added: bool)
      requires spans.Valid()
      requires forall i :: 0 <= i < spans.size ==> spans.Contents()[i] != null
      requires spans.size > 0 ==> spans.Contents()[spans.size - 1].spanId < 0x7FFF_FFFF
      modifies spans, spans.slots, span`spanId, span`parentSpanId
      ensures spans.Valid() && (spans.slots == old(spans.slots) || fresh(spans.slots))
      ensures added <==> memory || old(spans.size) + 1 < old(spans.slots.Length)
      ensures spans.Contents() == if added then old(spans.Contents()) + [span] else old(spans.Contents())
      ensures !added ==> span.spanId == old(span.spanId) && span.parentSpanId == old(span.parentSpanId)
      ensures added ==>
                if old(spans.size) == 0 then span.spanId == 0 && span.parentSpanId == -1
                else span.spanId == old(spans.Contents()[spans.size - 1].spanId) + 1 && span.parentSpanId == 0
      ensures old(Numbered(spans.Contents())) && span !in old(spans.Contents()) ==> Numbered(spans.Contents())
      ensures spans.moved <= 2 * spans.size
    {
      if spans.size == spans.slots.Length - 1 && !memory {
        return false;
      }
      if spans.size != 0 {
        var last := spans.slots[spans.size - 1];
        assert last == spans.Contents()[spans.size - 1];
        span.spanId := last.spanId + 1;
        span.parentSpanId := 0;
      } else {
        span.spanId := 0;
        span.parentSpanId := -1;
      }
      added := spans.Add(span, memory);
    }

    /** Any run of calls on a new segment: the spans stand in order and are numbered by their index. */
    method AddSpans(list: seq<SpanRecord>)
      requires spans.Valid() && spans.size == 0 && spans.moved == 0 && |list| <= 0x8000_0000
      requires forall i, j :: 0 <= i < j < |list| ==> list[i] != list[j]
      modifies spans, spans.slots, set span | span in list :: span`spanId, set span | span in list :: span`parentSpanId
      ensures spans.Valid() && spans.Contents() == list && Numbered(list)
      ensures spans.moved <= 2 * |list|
    {
      for k := 0 to |list|
        invariant spans.Valid() && (spans.slots == old(spans.slots) || fresh(spans.slots))
        invariant spans.Contents() == list[..k] && Numbered(list[..k])
        invariant spans.moved <= 2 * k
      {
        assert list[k] in (set span | span in list);
        var added := AddSpan(list[k], true);
        assert list[..k + 1] == list[..k] + [list[k]];
      }
      assert list[..|list|] == list;
    }

    ghost function Snapshot(): Segment
      reads this, spans, spans.slots
      reads if spans.Valid() then spans.Contents() else []
      reads set r: SpanRecord | spans.Valid() && r in spans.Contents() :: r.tags
      reads set r: SpanRecord | spans.Valid() && r in spans.Contents() :: r.tags.slots
      requires spans.Valid() && AllPresent(spans.Contents())
    {
      Segment(traceId, traceSegmentId, Snapshots(spans.Contents()), service, serviceInstance, isSizeLimited)
    }

    /** One round of the printing loop. */
    method AppendSpan(list: SmartString, i: nat, ghost snapshots: seq<Span>)
      requires spans.Valid() && |snapshots| == spans.size && i < spans.size
      requires spans.slots[i] != null && spans.slots[i].tags.Valid() && spans.slots[i].Snapshot() == snapshots[i]
      requires list.text == ListSoFar(SpanValues(snapshots), i)
      modifies list
      ensures list.text == ListSoFar(SpanValues(snapshots), i + 1)
    {
      SpanValueAt(snapshots, i);
      ListSoFarStep(SpanValues(snapshots), i);
      var span := spans.slots[i];
      var spanJson := span.ToJson();
      list.AppendL(spanJson);
      if i + 1 < spans.size {
        list.AppendL(",");
      }
    }

    method SpansToJson(ghost snapshots: seq<Span>) returns (json: string)
      requires spans.Valid() && |snapshots| == spans.size
      requires forall i :: 0 <= i < spans.size ==>
                 spans.slots[i] != null && spans.slots[i].tags.Valid() && spans.slots[i].Snapshot() == snapshots[i]
      ensures json == Text(Array(SpanValues(snapshots)))
    {
      ghost var vs := SpanValues(snapshots);
      var list := new SmartString();
      list.AppendL("[");
      for i := 0 to spans.size
        invariant list.text == ListSoFar(vs, i)
      {
        AppendSpan(list, i, snapshots);
      }
      list.AppendL("]");
      assert vs[..|vs|] == vs;
      json := list.text;
    }

    lemma SlotsAreSnapshots()
      requires spans.Valid() && AllPresent(spans.Contents())
      ensures forall i :: 0 <= i < spans.size ==>
                spans.slots[i] != null && spans.slots[i].tags.Valid() &&
                spans.slots[i].Snapshot() == Snapshot().spans[i]
    {
      assert forall i :: 0 <= i < spans.size ==> spans.slots[i] == spans.Contents()[i];
    }

    /** The span list is printed first, then the fields around it. */
    method ToJson() returns (json: string)
      requires spans.Valid() && AllPresent(spans.Contents())
      ensures json == SegmentText(Snapshot())
      ensures var values := Snapshots(spans.Contents());
              json == Text(Object(
                [Member("trace_id", Str(traceId)), Member("trace_segment_id", Str(traceSegmentId)),
                 Member("spans", Array(SpanValues(values))), Member("service", Str(service)),
                 Member("service_instance", Str(serviceInstance)), Member("is_size_limited", Bool(isSizeLimited))]))
    {
      json := SpansAndFieldsToJson();
      SegmentMembersByName(Snapshot());
    }

    method SpansAndFieldsToJson() returns (json: string)
      requires spans.Valid() && AllPresent(spans.Contents())
      ensures json == SegmentText(Snapshot())
    {
      ghost var segment := Snapshot();
      SlotsAreSnapshots();
      var spanList := SpansToJson(segment.spans);
      json := FieldsToJson(spanList, segment);
    }

    method FieldsToJson(spanList: string, ghost segment: Segment) returns (json: string)
      requires segment == Segment(traceId, traceSegmentId, segment.spans, service, serviceInstance, isSizeLimited)
      requires spanList == Text(Array(SpanValues(segment.spans)))
      ensures json == SegmentText(segment)
    {
      var str := new SmartString();
      str.AppendL("{");
      assert str.OpenObject();
      AppendIds(str);
      AppendSpansAndService(str, spanList, Array(SpanValues(segment.spans)));
      LastField(str.text, isSizeLimited);
      SegmentMembersAre(segment);
      ObjectText(str.fields, Member("is_size_limited", Bool(isSizeLimited)));
      str.AppendL("\"is_size_limited\":");
      str.AppendL(if isSizeLimited then "true" else "false");
      str.AppendL("}");
      json := str.text;
    }

    method AppendIds(str: SmartString)
      requires str.OpenObject() && str.fields == []
      modifies str
      ensures str.OpenObject()
      ensures str.fields == [Member("trace_id", Str(traceId)), Member("trace_segment_id", Str(traceSegmentId))]
    {
      assert "\"trace_id\":\"" == "\"" + "trace_id" + "\":\"";
      str.AppendStringField("\"trace_id\":\"", traceId, "trace_id");
      assert "\"trace_segment_id\":\"" == "\"" + "trace_segment_id" + "\":\"";
      str.AppendStringField("\"trace_segment_id\":\"", traceSegmentId, "trace_segment_id");
    }

    method AppendSpansAndService(str: SmartString, spanList: string, ghost spanValue: Value)
      requires str.OpenObject() && spanList == Text(spanValue)
      modifies str
      ensures str.OpenObject()
      ensures str.fields == old(str.fields) +
                [Member("spans", spanValue), Member("service", Str(service)),
                 Member("service_instance", Str(serviceInstance))]
    {
      assert "\"spans\":" == "\"" + "spans" + "\":";
      str.AppendRawField("\"spans\":", spanList, "spans", spanValue);
      assert "\"service\":\"" == "\"" + "service" + "\":\"";
      str.AppendStringField("\"service\":\"", service, "service");
      assert "\"service_instance\":\"" == "\"" + "service_instance" + "\":\"";
      str.AppendStringField("\"service_instance\":\"", serviceInstance, "service_instance");
    }
  }

  lemma SegmentMembersAre(segment: Segment)
    ensures SegmentValue(segment) ==
            Object([Member("trace_id", Str(segment.traceId)), Member("trace_segment_id", Str(segment.traceSegmentId))]
                   + [Member("spans", Array(SpanValues(segment.spans))), Member("service", Str(segment.service)),
                      Member("service_instance", Str(segment.serviceInstance))]
                   + [Member("is_size_limited", Bool(segment.isSizeLimited))])
  {
  }

  /** The six fields by name, in the order of the printer. */
  lemma SegmentMembersByName(segment: Segment)
    ensures SegmentText(segment) == Text(Object(
              [Member("trace_id", Str(segment.traceId)), Member("trace_segment_id", Str(segment.traceSegmentId)),
               Member("spans", Array(SpanValues(segment.spans))), Member("service", Str(segment.service)),
               Member("service_instance", Str(segment.serviceInstance)),
               Member("is_size_limited", Bool(segment.isSizeLimited))]))
  {
    SegmentMembersAre(segment);
    assert [Member("trace_id", Str(segment.traceId)), Member("trace_segment_id", Str(segment.traceSegmentId))]
           + [Member("spans", Array(SpanValues(segment.spans))), Member("service", Str(segment.service)),
              Member("service_instance", Str(segment.serviceInstance))]
           + [Member("is_size_limited", Bool(segment.isSizeLimited))] ==
           [Member("trace_id", Str(segment.traceId)), Member("trace_segment_id", Str(segment.traceSegmentId)),
            Member("spans", Array(SpanValues(segment.spans))), Member("service", Str(segment.service)),
            Member("service_instance", Str(segment.serviceInstance)),
            Member("is_size_limited", Bool(segment.isSizeLimited))];
  }

  lemma LastField(start: string, b: bool)
    ensures start + "\"is_size_limited\":" + (if b then "true" else "false") + "}"
         == start + MemberText(Member("is_size_limited", Bool(b))) + "}"
  {
    assert "\"is_size_limited\":" == "\"" + "is_size_limited" + "\":";
  }
}
