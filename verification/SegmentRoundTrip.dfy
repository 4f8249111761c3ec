/** Reading a printed segment gives the segment back exactly if none of its strings needs escaping. */
module SegmentRoundTrip {
  import opened Wrappers
  import opened Json
  import opened JsonRoundTrip
  import opened SegmentJson

  // ---------- Records: the fields found in a record are those it was made of ----------

  lemma {:induction false} TakeAllOfZip(names: seq<string>, values: seq<Value>)
    requires |names| == |values|
    ensures TakeAll(Zip(names, values), names) == Some((values, []))
  {
    if names != [] {
      TakeAllOfZip(names[1..], values[1..]);
      assert Zip(names, values)[1..] == Zip(names[1..], values[1..]);
      assert [values[0]] + values[1..] == values;
    }
  }

  lemma FieldsOfRecord(names: seq<string>, values: seq<Value>)
    requires |names| == |values|
    ensures Fields(Record(names, values), names) == Some(values)
  {
    TakeAllOfZip(names, values);
  }

  // ---------- Records: fields are found by name, wherever they stand ----------

  /** The values of the members with this name, in order. */
  function Named(members: seq<Member>, name: string): seq<Value> {
    if members == [] then []
    else (if members[0].name == name then [members[0].value] else []) + Named(members[1..], name)
  }

  lemma {:induction false} TakeIsNamed(members: seq<Member>, name: string, other: string)
    ensures Take(members, name).Some? <==> Named(members, name) != []
    ensures Take(members, name).Some? ==>
              var (v, others) := Take(members, name).value;
              && [v] + Named(others, name) == Named(members, name)
              && (other != name ==> Named(others, other) == Named(members, other))
  {
    if members != [] && members[0].name != name {
      TakeIsNamed(members[1..], name, other);
      if Take(members, name).Some? {
        var others := Take(members[1..], name).value.1;
        assert ([members[0]] + others)[1..] == others;
      }
    }
  }

  predicate Distinct(names: seq<string>) {
    forall i, j :: 0 <= i < j < |names| ==> names[i] != names[j]
  }

  lemma {:induction false} TakeAllOthers(members: seq<Member>, names: seq<string>, other: string)
    requires other !in names && TakeAll(members, names).Some?
    ensures Named(TakeAll(members, names).value.1, other) == Named(members, other)
    decreases |names|
  {
    if names != [] {
      TakeIsNamed(members, names[0], other);
      TakeAllOthers(Take(members, names[0]).value.1, names[1..], other);
    }
  }

  lemma {:induction false} TakeAllTakesFirst(members: seq<Member>, names: seq<string>, i: nat)
    requires Distinct(names) && i < |names| && TakeAll(members, names).Some?
    ensures var (vs, unused) := TakeAll(members, names).value;
            [vs[i]] + Named(unused, names[i]) == Named(members, names[i])
    decreases |names|
  {
    TakeIsNamed(members, names[0], names[i]);
    var others := Take(members, names[0]).value.1;
    if i == 0 {
      TakeAllOthers(others, names[1..], names[0]);
    } else {
      TakeAllTakesFirst(others, names[1..], i - 1);
    }
  }

  lemma {:induction false} TakeAllFindsAll(members: seq<Member>, names: seq<string>)
    requires Distinct(names)
    ensures TakeAll(members, names).Some? <==> forall i :: 0 <= i < |names| ==> Named(members, names[i]) != []
    decreases |names|
  {
    if names != [] {
      TakeIsNamed(members, names[0], names[0]);
      if Take(members, names[0]).Some? {
        var others := Take(members, names[0]).value.1;
        TakeAllFindsAll(others, names[1..]);
        forall i | 1 <= i < |names| ensures Named(others, names[1..][i - 1]) == Named(members, names[i]) {
          TakeIsNamed(members, names[0], names[i]);
        }
      }
    }
  }

  lemma {:induction false} NamedIsEmptyIff(members: seq<Member>, name: string)
    ensures Named(members, name) == [] <==> forall i :: 0 <= i < |members| ==> members[i].name != name
  {
    if members != [] {
      NamedIsEmptyIff(members[1..], name);
      assert forall i :: 0 < i < |members| ==> members[i] == members[1..][i - 1];
    }
  }

  /**
   An object is read exactly if it has each field once; the order of the fields
   and other members do not matter, and each value goes to the field it is named for.
   */
  lemma FieldsIffOnce(members: seq<Member>, names: seq<string>)
    requires Distinct(names)
    ensures Fields(Object(members), names).Some? <==>
            forall i :: 0 <= i < |names| ==> |Named(members, names[i])| == 1
    ensures Fields(Object(members), names).Some? ==>
            forall i :: 0 <= i < |names| ==> Named(members, names[i]) == [Fields(Object(members), names).value[i]]
  {
    TakeAllFindsAll(members, names);
    if TakeAll(members, names).Some? {
      var (vs, unused) := TakeAll(members, names).value;
      forall i | 0 <= i < |names|
        ensures [vs[i]] + Named(unused, names[i]) == Named(members, names[i])
        ensures Named(unused, names[i]) == [] <==> forall k :: 0 <= k < |unused| ==> unused[k].name != names[i]
      {
        TakeAllTakesFirst(members, names, i);
        NamedIsEmptyIff(unused, names[i]);
      }
    }
  }

  // ---------- Reading the value of a segment gives the segment ----------

  lemma ReadKeyValueOfValue(kv: KeyValue)
    ensures ReadKeyValue(KeyValueValue(kv)) == Some(kv)
  {
    FieldsOfRecord(KEY_VALUE_FIELDS, [Str(kv.key), Str(kv.value)]);
  }

  lemma {:induction false} ReadKeyValuesOfValues(kvs: seq<KeyValue>)
    ensures ReadKeyValues(KeyValueValues(kvs)) == Some(kvs)
  {
    if kvs != [] {
      ReadKeyValueOfValue(kvs[0]);
      ReadKeyValuesOfValues(kvs[1..]);
      assert [kvs[0]] + kvs[1..] == kvs;
    }
  }

  lemma ReadLogOfValue(log: Log)
    ensures ReadLog(LogValue(log)) == Some(log)
  {
    FieldsOfRecord(LOG_FIELDS, LogFields(log));
    ReadKeyValuesOfValues(log.data);
  }

  lemma {:induction false} ReadLogsOfValues(logs: seq<Log>)
    ensures ReadLogs(LogValues(logs)) == Some(logs)
  {
    if logs != [] {
      ReadLogOfValue(logs[0]);
      ReadLogsOfValues(logs[1..]);
      assert [logs[0]] + logs[1..] == logs;
    }
  }

  lemma ReadSpanFieldsOf(span: Span)
    ensures ReadSpanFields(SpanFields(span)) == Some(span)
  {
    var f := SpanFields(span);
    assert SpanTyped(f);
    assert f[11] == Array(KeyValueValues(span.tags)) && f[12] == Array(LogValues(span.logs));
    ReadKeyValuesOfValues(span.tags);
    ReadLogsOfValues(span.logs);
  }

  lemma ReadSpanOfValue(span: Span)
    ensures ReadSpan(SpanValue(span)) == Some(span)
  {
    FieldsOfRecord(SPAN_FIELDS, SpanFields(span));
    ReadSpanFieldsOf(span);
  }

  lemma {:induction false} ReadSpansOfValues(spans: seq<Span>)
    ensures ReadSpans(SpanValues(spans)) == Some(spans)
  {
    if spans != [] {
      var vs := SpanValues(spans);
      assert vs[0] == SpanValue(spans[0]) && vs[1..] == SpanValues(spans[1..]);
      ReadSpanOfValue(spans[0]);
      ReadSpansOfValues(spans[1..]);
      assert [spans[0]] + spans[1..] == spans;
    }
  }

  lemma ReadSegmentFieldsOf(segment: Segment)
    ensures ReadSegmentFields(SegmentFields(segment)) == Some(segment)
  {
    var f := SegmentFields(segment);
    assert f[0] == Str(segment.traceId) && f[1] == Str(segment.traceSegmentId);
    assert f[2] == Array(SpanValues(segment.spans)) && f[3] == Str(segment.service);
    assert f[4] == Str(segment.serviceInstance) && f[5] == Bool(segment.isSizeLimited);
    ReadSpansOfValues(segment.spans);
  }

  lemma ReadSegmentOfValue(segment: Segment)
    ensures ReadSegment(SegmentValue(segment)) == Some(segment)
  {
    FieldsOfRecord(SEGMENT_FIELDS, SegmentFields(segment));
    ReadSegmentFieldsOf(segment);
  }

  // ---------- A value that reads as a segment is no shorter than the printed segment ----------

  /** The text of the members, with one separator for each. */
  function Weight(members: seq<Member>): nat {
    if members == [] then 0 else |MemberText(members[0])| + 1 + Weight(members[1..])
  }

  lemma {:induction false} MembersTextLength(members: seq<Member>)
    ensures |MembersText(members)| == if members == [] then 0 else Weight(members) - 1
  {
    if |members| > 1 {
      MembersTextLength(members[1..]);
    }
  }

  lemma {:induction false} TakeSplitsWeight(members: seq<Member>, name: string)
    requires Take(members, name).Some?
    ensures var (v, others) := Take(members, name).value;
            && Weight(members) == |MemberText(Member(name, v))| + 1 + Weight(others)
            && (PlainMembers(members) ==> PlainValue(v) && PlainMembers(others))
  {
    if members[0].name != name {
      TakeSplitsWeight(members[1..], name);
      var others := Take(members[1..], name).value.1;
      assert ([members[0]] + others)[1..] == others;
    }
  }

  lemma {:induction false} TakeAllSplitsWeight(members: seq<Member>, names: seq<string>)
    requires TakeAll(members, names).Some?
    ensures var (values, unused) := TakeAll(members, names).value;
            && Weight(members) == Weight(Zip(names, values)) + Weight(unused)
            && (PlainMembers(members) ==> forall i :: 0 <= i < |values| ==> PlainValue(values[i]))
    decreases |names|
  {
    if names != [] {
      TakeSplitsWeight(members, names[0]);
      var (v, others) := Take(members, names[0]).value;
      TakeAllSplitsWeight(others, names[1..]);
      var (vs, unused) := TakeAll(others, names[1..]).value;
      assert Zip(names, [v] + vs)[1..] == Zip(names[1..], vs);
    }
  }

  /** `v` was read as something whose own value is `w`. */
  predicate Covers(v: Value, w: Value) {
    |Text(w)| <= |Text(v)| && (PlainValue(v) ==> PlainValue(w))
  }

  predicate CoversItems(vs: seq<Value>, ws: seq<Value>) {
    |vs| == |ws| && forall i :: 0 <= i < |vs| ==> Covers(vs[i], ws[i])
  }

  lemma {:induction false} WeightOfCovered(names: seq<string>, vs: seq<Value>, ws: seq<Value>)
    requires |names| == |vs| && CoversItems(vs, ws)
    ensures Weight(Zip(names, ws)) <= Weight(Zip(names, vs))
  {
    if names != [] {
      WeightOfCovered(names[1..], vs[1..], ws[1..]);
      assert Zip(names, ws)[1..] == Zip(names[1..], ws[1..]);
      assert Zip(names, vs)[1..] == Zip(names[1..], vs[1..]);
      assert Covers(vs[0], ws[0]);
    }
  }

  lemma {:induction false} PlainZip(names: seq<string>, ws: seq<Value>)
    requires |names| == |ws|
    ensures PlainMembers(Zip(names, ws)) <==>
              (forall i :: 0 <= i < |names| ==> Plain(names[i]) && PlainValue(ws[i]))
  {
    if names != [] {
      PlainZip(names[1..], ws[1..]);
      assert Zip(names, ws)[1..] == Zip(names[1..], ws[1..]);
      assert forall i :: 0 < i < |names| ==> names[i] == names[1..][i - 1] && ws[i] == ws[1..][i - 1];
      assert Zip(names, ws)[0] == Member(names[0], ws[0]);
    }
  }

  /** A value with the right fields covers the record of anything its fields cover. */
  lemma RecordCovered(v: Value, names: seq<string>, ws: seq<Value>)
    requires |names| > 0 && |names| == |ws|
    requires forall i :: 0 <= i < |names| ==> Plain(names[i])
    requires Fields(v, names).Some? && CoversItems(Fields(v, names).value, ws)
    ensures Covers(v, Record(names, ws))
  {
    var vs := Fields(v, names).value;
    TakeAllSplitsWeight(v.members, names);
    WeightOfCovered(names, vs, ws);
    MembersTextLength(v.members);
    MembersTextLength(Zip(names, ws));
    if PlainValue(v) {
      assert forall i :: 0 <= i < |ws| ==> Covers(vs[i], ws[i]);
      PlainZip(names, ws);
    }
  }

  lemma {:induction false} ItemsCovered(vs: seq<Value>, ws: seq<Value>)
    requires CoversItems(vs, ws)
    ensures |ItemsText(ws)| <= |ItemsText(vs)| && (PlainItems(vs) ==> PlainItems(ws))
  {
    if vs != [] {
      ItemsCovered(vs[1..], ws[1..]);
      assert Covers(vs[0], ws[0]);
    }
  }

  lemma ArrayCovered(vs: seq<Value>, ws: seq<Value>)
    requires CoversItems(vs, ws)
    ensures Covers(Array(vs), Array(ws))
  {
    ItemsCovered(vs, ws);
  }

  lemma ReplaceCovered(vs: seq<Value>, i: nat, w: Value)
    requires i < |vs| && Covers(vs[i], w)
    ensures CoversItems(vs, vs[i := w])
  {
  }

  lemma ReadKeyValueCovers(v: Value)
    requires ReadKeyValue(v).Some?
    ensures Covers(v, KeyValueValue(ReadKeyValue(v).value))
  {
    var kv := ReadKeyValue(v).value;
    RecordCovered(v, KEY_VALUE_FIELDS, [Str(kv.key), Str(kv.value)]);
  }

  lemma {:induction false} ReadKeyValuesCover(vs: seq<Value>)
    requires ReadKeyValues(vs).Some?
    ensures CoversItems(vs, KeyValueValues(ReadKeyValues(vs).value))
  {
    if vs != [] {
      ReadKeyValueCovers(vs[0]);
      ReadKeyValuesCover(vs[1..]);
      assert ReadKeyValues(vs).value[1..] == ReadKeyValues(vs[1..]).value;
    }
  }

  lemma ReadLogCovers(v: Value)
    requires ReadLog(v).Some?
    ensures Covers(v, LogValue(ReadLog(v).value))
  {
    var f := Fields(v, LOG_FIELDS).value;
    ReadKeyValuesCover(f[1].items);
    ArrayCovered(f[1].items, KeyValueValues(ReadLog(v).value.data));
    RecordCovered(v, LOG_FIELDS, LogFields(ReadLog(v).value));
  }

  lemma {:induction false} ReadLogsCover(vs: seq<Value>)
    requires ReadLogs(vs).Some?
    ensures CoversItems(vs, LogValues(ReadLogs(vs).value))
  {
    if vs != [] {
      ReadLogCovers(vs[0]);
      ReadLogsCover(vs[1..]);
      assert ReadLogs(vs).value[1..] == ReadLogs(vs[1..]).value;
    }
  }

  lemma SpanFieldsRead(f: seq<Value>)
    requires |f| == 14 && ReadSpanFields(f).Some?
    ensures var span := ReadSpanFields(f).value;
            SpanFields(span) == f[11 := Array(KeyValueValues(span.tags))][12 := Array(LogValues(span.logs))]
  {
  }

  lemma SpanFieldsCovered(f: seq<Value>)
    requires |f| == 14 && ReadSpanFields(f).Some?
    ensures CoversItems(f, SpanFields(ReadSpanFields(f).value))
  {
    var span := ReadSpanFields(f).value;
    var tags, logs := Array(KeyValueValues(span.tags)), Array(LogValues(span.logs));
    ReadKeyValuesCover(f[11].items);
    ArrayCovered(f[11].items, tags.items);
    ReadLogsCover(f[12].items);
    ArrayCovered(f[12].items, logs.items);
    ReplaceCovered(f, 11, tags);
    ReplaceCovered(f[11 := tags], 12, logs);
    SpanFieldsRead(f);
  }

  lemma ReadSpanCovers(v: Value)
    requires ReadSpan(v).Some?
    ensures Covers(v, SpanValue(ReadSpan(v).value))
  {
    var f := Fields(v, SPAN_FIELDS).value;
    SpanFieldsCovered(f);
    SpanNamesArePlain();
    RecordCovered(v, SPAN_FIELDS, SpanFields(ReadSpanFields(f).value));
  }

  lemma SpanHeadNamesArePlain()
    ensures Plain("span_id") && Plain("parent_span_id") && Plain("start_time") && Plain("end_time")
    ensures Plain("refs") && Plain("operation_name") && Plain("peer")
  {
  }

  lemma SpanTailNamesArePlain()
    ensures Plain("span_type") && Plain("span_layer") && Plain("component_id") && Plain("is_error")
    ensures Plain("tags") && Plain("logs") && Plain("skip_analysis")
  {
  }

  lemma SpanNamesArePlain()
    ensures |SPAN_FIELDS| == 14 && forall i :: 0 <= i < 14 ==> Plain(SPAN_FIELDS[i])
  {
    SpanHeadNamesArePlain();
    SpanTailNamesArePlain();
  }

  lemma SegmentNamesArePlain()
    ensures |SEGMENT_FIELDS| == 6 && forall i :: 0 <= i < 6 ==> Plain(SEGMENT_FIELDS[i])
  {
  }

  lemma {:induction false} ReadSpansCover(vs: seq<Value>)
    requires ReadSpans(vs).Some?
    ensures CoversItems(vs, SpanValues(ReadSpans(vs).value))
  {
    if vs != [] {
      ReadSpanCovers(vs[0]);
      ReadSpansCover(vs[1..]);
      assert ReadSpans(vs).value[1..] == ReadSpans(vs[1..]).value;
    }
  }

  lemma SegmentFieldsRead(f: seq<Value>)
    requires |f| == 6 && ReadSegmentFields(f).Some?
    ensures var segment := ReadSegmentFields(f).value;
            SegmentFields(segment) == f[2 := Array(SpanValues(segment.spans))]
  {
  }

  lemma SegmentFieldsCovered(f: seq<Value>)
    requires |f| == 6 && ReadSegmentFields(f).Some?
    ensures CoversItems(f, SegmentFields(ReadSegmentFields(f).value))
  {
    var spans := Array(SpanValues(ReadSegmentFields(f).value.spans));
    ReadSpansCover(f[2].items);
    ArrayCovered(f[2].items, spans.items);
    ReplaceCovered(f, 2, spans);
    SegmentFieldsRead(f);
  }

  lemma ReadSegmentCovers(v: Value)
    requires ReadSegment(v).Some?
    ensures Covers(v, SegmentValue(ReadSegment(v).value))
  {
    var f := Fields(v, SEGMENT_FIELDS).value;
    SegmentFieldsCovered(f);
    SegmentNamesArePlain();
    RecordCovered(v, SEGMENT_FIELDS, SegmentFields(ReadSegmentFields(f).value));
  }

  // ---------- Plain segments and plain values ----------

  lemma {:induction false} PlainKeyValuesValue(kvs: seq<KeyValue>)
    ensures PlainItems(KeyValueValues(kvs)) <==> PlainKeyValues(kvs)
  {
    if kvs != [] {
      var kv := kvs[0];
      PlainZip(KEY_VALUE_FIELDS, [Str(kv.key), Str(kv.value)]);
      PlainKeyValuesValue(kvs[1..]);
      assert forall i :: 0 < i < |kvs| ==> kvs[i] == kvs[1..][i - 1];
    }
  }

  lemma PlainLogValue(log: Log)
    ensures PlainValue(LogValue(log)) <==> PlainKeyValues(log.data)
  {
    var f := LogFields(log);
    PlainZip(LOG_FIELDS, f);
    PlainKeyValuesValue(log.data);
    assert f[1] == Array(KeyValueValues(log.data));
  }

  lemma {:induction false} PlainLogsValue(logs: seq<Log>)
    ensures PlainItems(LogValues(logs)) <==> forall i :: 0 <= i < |logs| ==> PlainKeyValues(logs[i].data)
  {
    if logs != [] {
      PlainLogValue(logs[0]);
      PlainLogsValue(logs[1..]);
      assert forall i :: 0 < i < |logs| ==> logs[i] == logs[1..][i - 1];
    }
  }

  lemma PlainSpanFields(span: Span)
    ensures (forall i :: 0 <= i < 14 ==> PlainValue(SpanFields(span)[i])) <==> PlainSpan(span)
  {
    var f := SpanFields(span);
    PlainKeyValuesValue(span.tags);
    PlainLogsValue(span.logs);
    assert PlainValue(f[5]) == Plain(span.operationName) && PlainValue(f[6]) == Plain(span.peer);
    assert PlainValue(f[11]) == PlainKeyValues(span.tags);
    assert PlainValue(f[12]) == PlainItems(LogValues(span.logs));
    assert forall i :: 0 <= i < 14 && i !in {5, 6, 11, 12} ==> PlainValue(f[i]);
  }

  lemma PlainSpanValue(span: Span)
    ensures PlainValue(SpanValue(span)) <==> PlainSpan(span)
  {
    SpanNamesArePlain();
    PlainZip(SPAN_FIELDS, SpanFields(span));
    PlainSpanFields(span);
  }

  lemma {:induction false} PlainSpansValue(spans: seq<Span>)
    ensures PlainItems(SpanValues(spans)) <==> forall i :: 0 <= i < |spans| ==> PlainSpan(spans[i])
  {
    if spans != [] {
      PlainSpanValue(spans[0]);
      PlainSpansValue(spans[1..]);
      assert forall i :: 0 < i < |spans| ==> spans[i] == spans[1..][i - 1];
    }
  }

  lemma PlainSegmentFields(segment: Segment)
    ensures (forall i :: 0 <= i < 6 ==> PlainValue(SegmentFields(segment)[i])) <==> PlainSegment(segment)
  {
    var f := SegmentFields(segment);
    PlainSpansValue(segment.spans);
    assert PlainValue(f[0]) == Plain(segment.traceId) && PlainValue(f[1]) == Plain(segment.traceSegmentId);
    assert PlainValue(f[2]) == PlainItems(SpanValues(segment.spans));
    assert PlainValue(f[3]) == Plain(segment.service) && PlainValue(f[4]) == Plain(segment.serviceInstance);
  }

  lemma PlainSegmentValue(segment: Segment)
    ensures PlainValue(SegmentValue(segment)) <==> PlainSegment(segment)
  {
    SegmentNamesArePlain();
    PlainZip(SEGMENT_FIELDS, SegmentFields(segment));
    PlainSegmentFields(segment);
  }

  // ---------- Main results ----------

  /** A parser run on a printed span followed by any text consumes exactly the span. */
  lemma ParsePrintedSpan(span: Span, rest: string)
    requires PlainSpan(span)
    ensures ParseValue(Text(SpanValue(span)) + rest) == Some(Parsed(SpanValue(span), rest))
    ensures ReadSpan(SpanValue(span)) == Some(span)
  {
    PlainSpanValue(span);
    ParseText(SpanValue(span), rest);
    ReadSpanOfValue(span);
  }

  /** The reporter reads a printed segment back as that segment exactly if all its strings are plain. */
  lemma SegmentRoundTripIffPlain(segment: Segment)
    ensures ParseSegment(SegmentText(segment)) == Some(segment) <==> PlainSegment(segment)
  {
    var v := SegmentValue(segment);
    PlainSegmentValue(segment);
    if PlainSegment(segment) {
      ParseAllIffPlain(v);
      ReadSegmentOfValue(segment);
    } else if ParseSegment(SegmentText(segment)) == Some(segment) {
      ParsedValueIsLong(SegmentText(segment));
      ReadSegmentCovers(ParseAll(SegmentText(segment)).value);
      assert false;
    }
  }

  /** Two plain segments with the same text are the same segment. */
  lemma PrinterIsInjective(a: Segment, b: Segment)
    requires PlainSegment(a) && PlainSegment(b) && SegmentText(a) == SegmentText(b)
    ensures a == b
  {
    SegmentRoundTripIffPlain(a);
    SegmentRoundTripIffPlain(b);
  }

  /** One quotation mark in a service name is enough to lose the segment. */
  lemma QuotationMarkIsLost()
    ensures var segment := Segment("t", "s", [], "my \"shop\"", "i", false);
            ParseSegment(SegmentText(segment)) != Some(segment)
  {
    var segment := Segment("t", "s", [], "my \"shop\"", "i", false);
    assert segment.service[3] == '\"';
    SegmentRoundTripIffPlain(segment);
  }
}
