/**
 The sw8 header of the SkyWalking Cross Process Propagation Headers Protocol v3:
 the parser (src/sky_core_cross_process.c:27-62) and the encoder kept in a
 comment behind it (src/sky_core_cross_process.c:64-86).
 */
module CrossProcess {
  import opened Wrappers
  import opened Base64
  import Json
  import JsonRoundTrip

  type Bytes = seq<Byte>

  const INT_MIN := -0x8000_0000
  const INT_MAX := 0x7FFF_FFFF
  const LONG_MIN := -0x8000_0000_0000_0000
  const LONG_MAX := 0x7FFF_FFFF_FFFF_FFFF

  /** The parsed header; a field that was never set is a null pointer or zero. */
  datatype Context = Context(
    sample: int,
    traceId: Option<Bytes>,
    parentSegmentId: Option<Bytes>,
    parentSpanId: int,
    parentService: Option<Bytes>,
    parentServiceInstance: Option<Bytes>,
    parentEndpoint: Option<Bytes>,
    networkAddress: Option<Bytes>)

  const UNSET := Context(0, None, None, 0, None, None, None, None)

  // ---------- C library functions ----------

  function SkipDashes(s: string): (t: string)
    ensures |t| <= |s|
    ensures t != "" ==> t[0] != '-'
  {
    if s != "" && s[0] == '-' then SkipDashes(s[1..]) else s
  }

  /** The length of the text before the first dash. */
  function TokenLength(s: string): (n: nat)
    ensures n <= |s|
    ensures s != "" && s[0] != '-' ==> n > 0
    ensures '-' !in s[..n]
    ensures n < |s| ==> s[n] == '-'
  {
    if s == "" || s[0] == '-' then 0 else 1 + TokenLength(s[1..])
  }

  /** `strtok` with a dash: the next token, and the text behind the dash that ends it. */
  function StrTok(s: string): (r: Option<(string, string)>)
    ensures r.Some? ==> |r.value.1| < |s| && r.value.0 != "" && '-' !in r.value.0
  {
    var t := SkipDashes(s);
    if t == "" then None
    else
      var n := TokenLength(t);
      Some((t[..n], if n < |t| then t[n + 1..] else ""))
  }

  predicate IsSpace(c: char) {
    c == ' ' || 9 as char <= c <= 13 as char
  }

  function SkipSpace(s: string): string {
    if s != "" && IsSpace(s[0]) then SkipSpace(s[1..]) else s
  }

  /** `strtol` in base ten: white space, a sign, digits; out of range values stop at the limits. */
  function StrToL(s: string): int {
    var t := SkipSpace(s);
    var negative := t != "" && t[0] == '-';
    var u := if t != "" && (t[0] == '-' || t[0] == '+') then t[1..] else t;
    var v: int := Json.ParseDigits(u, 0).value;
    var n := if negative then -v else v;
    if n < LONG_MIN then LONG_MIN else if n > LONG_MAX then LONG_MAX else n
  }

  /** The cast from long to int keeps the low 32 bits. */
  function ToInt(n: int): (r: int)
    ensures -0x8000_0000 <= r < 0x8000_0000 && (n - r) % 0x1_0000_0000 == 0
  {
    (n - INT_MIN) % 0x1_0000_0000 + INT_MIN
  }

  // ---------- The parser ----------

  function Tokens(s: string): seq<string>
    decreases |s|
  {
    match StrTok(s)
    case None => []
    case Some((token, rest)) => [token] + Tokens(rest)
  }

  /** The context a list of tokens stands for. */
  function FromTokens(bag: seq<string>): Context {
    if |bag| >= 8 then
      Context(ToInt(StrToL(bag[0])), Some(Decoded(bag[1])), Some(Decoded(bag[2])), ToInt(StrToL(bag[3])),
              Some(Decoded(bag[4])), Some(Decoded(bag[5])), Some(Decoded(bag[6])), Some(Decoded(bag[7])))
    else UNSET
  }

  /** The context a header stands for; without a header nothing is set. */
  function Parsed(header: Option<string>): Context {
    if header.Some? then FromTokens(Tokens(header.value)) else UNSET
  }

  method DecodeField(token: string) returns (field: Option<Bytes>)
    ensures field == Some(Decoded(token))
  {
    var plain, p := Decode(token);
    field := Some(plain[..p]);
  }

  /** The tokens still to come when `strtok` has just returned p. */
  function Remaining(p: Option<(string, string)>): seq<string> {
    match p
    case None => []
    case Some((token, rest)) => [token] + Tokens(rest)
  }

  lemma NextToken(bag: seq<string>, p: Option<(string, string)>)
    requires p.Some?
    ensures bag + Remaining(p) == bag + [p.value.0] + Remaining(StrTok(p.value.1))
  {
  }

  /** The `strtok` loop that fills the bag. */
  method FillBag(header: string) returns (bag: seq<string>)
    ensures bag == Tokens(header)
  {
    bag := [];
    var p := StrTok(header);
    ghost var tokens := Remaining(p);
    assert tokens == Tokens(header);
    while p.Some?
      invariant bag + Remaining(p) == tokens
      decreases if p.Some? then 1 + |p.value.1| else 0
    {
      NextToken(bag, p);
      bag := bag + [p.value.0];
      p := StrTok(p.value.1);
    }
  }

  method New(header: Option<string>) returns (c: Context)
    ensures c == Parsed(header)
  {
    c := UNSET;
    if header.Some? {
      var bag := FillBag(header.value);
      if |bag| >= 8 {
        var traceId := DecodeField(bag[1]);
        var parentSegmentId := DecodeField(bag[2]);
        var parentService := DecodeField(bag[4]);
        var parentServiceInstance := DecodeField(bag[5]);
        var parentEndpoint := DecodeField(bag[6]);
        var networkAddress := DecodeField(bag[7]);
        c := Context(ToInt(StrToL(bag[0])), traceId, parentSegmentId, ToInt(StrToL(bag[3])),
                     parentService, parentServiceInstance, parentEndpoint, networkAddress);
      }
    }
  }

  /** Decoded bytes as the text the printer appends, one character for each. */
  function Chars(bytes: Bytes): (s: string)
    ensures |s| == |bytes| && forall i :: 0 <= i < |bytes| ==> s[i] as int == bytes[i]
  {
    seq(|bytes|, i requires 0 <= i < |bytes| => bytes[i] as char)
  }

  /** The trace id a new segment takes: the one from the header, or its own id (src/sky_core_segment.c:41-45). */
  method SegmentTraceId(header: Option<string>, segmentId: string) returns (traceId: string)
    ensures Parsed(header).traceId.Some? ==> traceId == Chars(Parsed(header).traceId.value)
    ensures Parsed(header).traceId.None? ==> traceId == segmentId
  {
    var c := New(header);
    if c.traceId.None? {
      return segmentId;
    }
    traceId := Chars(c.traceId.value);
  }

  // ---------- The encoder ----------

  datatype Outgoing = Outgoing(
    traceId: Bytes, segmentId: Bytes, spanId: int, service: Bytes, serviceInstance: Bytes, endpoint: Bytes, peer: Bytes)

  function Join(fields: seq<string>): string {
    if fields == [] then ""
    else if |fields| == 1 then fields[0]
    else fields[0] + "-" + Join(fields[1..])
  }

  function Eight(a: string, b: string, c: string, d: string, e: string, f: string, g: string, h: string)
    : (fields: seq<string>)
    ensures |fields| == 8
  {
    [a, b, c, d, e, f, g, h]
  }

  function HeaderFields(o: Outgoing): (fields: seq<string>)
    ensures |fields| == 8
  {
    Eight("1", Encoded(o.traceId), Encoded(o.segmentId), Json.IntText(o.spanId),
          Encoded(o.service), Encoded(o.serviceInstance), Encoded(o.endpoint), Encoded(o.peer))
  }

  function EncodedHeader(o: Outgoing): string {
    Join(HeaderFields(o))
  }

  /** The header written out: eight fields with dashes between them. */
  lemma HeaderText(o: Outgoing)
    ensures EncodedHeader(o)
         == "1-" + (Encoded(o.traceId) + "-" + (Encoded(o.segmentId) + "-" + (Json.IntText(o.spanId) + "-" +
            (Encoded(o.service) + "-" + (Encoded(o.serviceInstance) + "-" +
            (Encoded(o.endpoint) + "-" + Encoded(o.peer)))))))
  {
    JoinOfEight("1", Encoded(o.traceId), Encoded(o.segmentId), Json.IntText(o.spanId),
                Encoded(o.service), Encoded(o.serviceInstance), Encoded(o.endpoint), Encoded(o.peer));
    assert "1" + "-" == "1-";
  }

  lemma JoinOfEight(a: string, b: string, c: string, d: string, e: string, f: string, g: string, h: string)
    ensures Join(Eight(a, b, c, d, e, f, g, h))
         == a + "-" + (b + "-" + (c + "-" + (d + "-" + (e + "-" + (f + "-" + (g + "-" + h))))))
  {
    JoinWithFirst(g, [h]);
    JoinWithFirst(f, [g] + [h]);
    JoinWithFirst(e, [f] + ([g] + [h]));
    JoinWithFirst(d, [e] + ([f] + ([g] + [h])));
    JoinWithFirst(c, [d] + ([e] + ([f] + ([g] + [h]))));
    JoinWithFirst(b, [c] + ([d] + ([e] + ([f] + ([g] + [h])))));
    var rest := [b] + ([c] + ([d] + ([e] + ([f] + ([g] + [h])))));
    JoinWithFirst(a, rest);
    assert Eight(a, b, c, d, e, f, g, h) == [a] + rest;
  }

  /** What the receiver should find. */
  function Received(o: Outgoing): Context {
    Context(1, Some(o.traceId), Some(o.segmentId), o.spanId,
            Some(o.service), Some(o.serviceInstance), Some(o.endpoint), Some(o.peer))
  }

  // ---------- Splitting what was joined ----------

  function NonEmpty(fields: seq<string>): seq<string> {
    if fields == [] then []
    else (if fields[0] == "" then [] else [fields[0]]) + NonEmpty(fields[1..])
  }

  lemma {:induction false} TokenLengthOfField(f: string, rest: string)
    requires '-' !in f
    ensures TokenLength(f + "-" + rest) == |f| && TokenLength(f) == |f|
  {
    if f != "" {
      TokenLengthOfField(f[1..], rest);
      assert (f + "-" + rest)[1..] == f[1..] + "-" + rest;
    }
  }

  /** A field in front of a dash is the next token, unless it is empty. */
  lemma StrTokOfField(f: string, rest: string)
    requires '-' !in f
    ensures StrTok(f + "-" + rest) == (if f == "" then StrTok(rest) else Some((f, rest)))
  {
    var s := f + "-" + rest;
    if f == "" {
      assert s[1..] == rest;
    } else {
      TokenLengthOfField(f, rest);
      assert s[0] == f[0];
      assert s[..|f|] == f;
      assert s[|f| + 1..] == rest;
    }
  }

  lemma StrTokOfLastField(f: string)
    requires '-' !in f
    ensures StrTok(f) == (if f == "" then None else Some((f, "")))
  {
    if f != "" {
      TokenLengthOfField(f, "");
      assert f[..|f|] == f;
    }
  }

  lemma TokensOfField(f: string, rest: string)
    requires '-' !in f
    ensures Tokens(f + "-" + rest) == NonEmpty([f]) + Tokens(rest)
  {
    StrTokOfField(f, rest);
  }

  lemma TokensOfLastField(f: string)
    requires '-' !in f
    ensures Tokens(f) == NonEmpty([f])
  {
    StrTokOfLastField(f);
    assert Tokens("") == [];
  }

  /** The tokens of a joined header are its fields without the empty ones. */
  lemma {:induction false} TokensOfJoin(fields: seq<string>)
    requires forall i :: 0 <= i < |fields| ==> '-' !in fields[i]
    ensures Tokens(Join(fields)) == NonEmpty(fields)
  {
    if |fields| == 1 {
      TokensOfLastField(fields[0]);
      assert fields == [fields[0]];
    } else if |fields| > 1 {
      var (first, tail) := (fields[0], fields[1..]);
      TokensOfJoin(tail);
      TokensOfField(first, Join(tail));
      assert fields == [first] + tail;
      JoinWithFirst(first, tail);
      NonEmptyWithFirst(first, tail);
    }
  }

  lemma NonEmptyWithFirst(first: string, fields: seq<string>)
    ensures NonEmpty([first] + fields) == NonEmpty([first]) + NonEmpty(fields)
  {
    assert ([first] + fields)[1..] == fields && [first][1..] == [];
  }

  /** The parts of a text between its dashes, empty ones included. */
  function Split(s: string): (parts: seq<string>)
    ensures |parts| > 0
    ensures forall i :: 0 <= i < |parts| ==> '-' !in parts[i]
    decreases |s|
  {
    var n := TokenLength(s);
    if n < |s| then [s[..n]] + Split(s[n + 1..]) else [s]
  }

  /** Every text is its parts joined again. */
  lemma {:induction false} JoinOfSplit(s: string)
    ensures Join(Split(s)) == s
    decreases |s|
  {
    var n := TokenLength(s);
    if n < |s| {
      JoinOfSplit(s[n + 1..]);
      JoinWithFirst(s[..n], Split(s[n + 1..]));
      CutAtDash(s, n);
    }
  }

  lemma CutAtDash(s: string, n: nat)
    requires n < |s| && s[n] == '-'
    ensures s[..n] + "-" + s[n + 1..] == s
  {
  }

  lemma JoinWithFirst(first: string, fields: seq<string>)
    requires fields != []
    ensures Join([first] + fields) == first + "-" + Join(fields)
  {
    assert ([first] + fields)[1..] == fields;
  }

  /**
   Every header sets all parent fields together, exactly if at least eight of
   the parts between its dashes are not empty; otherwise it sets nothing.
   */
  lemma SetIffEightFields(header: string)
    ensures var c := Parsed(Some(header));
            && (c.traceId.Some? <==> |NonEmpty(Split(header))| >= 8)
            && (c.traceId.Some? <==> c.parentSegmentId.Some?)
            && (c.traceId.None? ==> c == Context(0, None, None, 0, None, None, None, None))
  {
    JoinOfSplit(header);
    TokensOfJoin(Split(header));
  }

  /** Each part of a header goes to its own field, the first and the fourth as numbers. */
  lemma EachPartToItsField(header: string)
    requires |NonEmpty(Split(header))| >= 8
    ensures var c, parts := Parsed(Some(header)), NonEmpty(Split(header));
            && c.sample == ToInt(StrToL(parts[0]))
            && c.traceId == Some(Decoded(parts[1])) && c.parentSegmentId == Some(Decoded(parts[2]))
            && c.parentSpanId == ToInt(StrToL(parts[3]))
            && c.parentService == Some(Decoded(parts[4])) && c.parentServiceInstance == Some(Decoded(parts[5]))
            && c.parentEndpoint == Some(Decoded(parts[6])) && c.networkAddress == Some(Decoded(parts[7]))
  {
    JoinOfSplit(header);
    TokensOfJoin(Split(header));
  }

  lemma {:induction false} NonEmptyKeepsAll(fields: seq<string>)
    ensures |NonEmpty(fields)| <= |fields|
    ensures |NonEmpty(fields)| == |fields| <==> forall i :: 0 <= i < |fields| ==> fields[i] != ""
    ensures |NonEmpty(fields)| == |fields| ==> NonEmpty(fields) == fields
  {
    if fields != [] {
      NonEmptyKeepsAll(fields[1..]);
      assert forall i :: 0 < i < |fields| ==> fields[i] == fields[1..][i - 1];
      assert fields == [fields[0]] + fields[1..];
    }
  }

  // ---------- Numbers in the header ----------

  lemma {:induction false} DigitsHaveNoDash(n: nat)
    ensures '-' !in Json.Digits(n) && !IsSpace(Json.Digits(n)[0]) && Json.Digits(n)[0] != '+'
  {
    if n >= 10 {
      DigitsHaveNoDash(n / 10);
    }
  }

  lemma StrToLOfDigits(n: nat)
    requires n <= LONG_MAX
    ensures StrToL(Json.Digits(n)) == n
  {
    DigitsHaveNoDash(n);
    assert Json.Digits(n)[0] in Json.Digits(n);
    JsonRoundTrip.ParseDigitsOfDigits(n, "");
    assert Json.Digits(n) + "" == Json.Digits(n);
  }

  lemma {:induction false} SkipsAllSpace(space: string, s: string)
    requires forall c :: c in space ==> c == ' ' || 9 <= c as int <= 13
    ensures SkipSpace(space + s) == SkipSpace(s)
  {
    if space == "" {
      assert space + s == s;
    } else {
      assert space[0] in space;
      assert forall c :: c in space[1..] ==> c in space;
      SkipsAllSpace(space[1..], s);
      assert (space + s)[1..] == space[1..] + s;
    }
  }

  /** White space, a sign and digits, whatever follows them: the number, or the limit it lies beyond. */
  lemma StrToLReads(space: string, sign: string, n: nat, rest: string)
    requires forall c :: c in space ==> c == ' ' || 9 <= c as int <= 13
    requires sign == "" || sign == "+" || sign == "-"
    requires rest == "" || !('0' <= rest[0] <= '9')
    ensures var value := (if sign == "-" then -1 else 1) * n;
            StrToL(space + (sign + (Json.Digits(n) + rest)))
            == if value < -0x8000_0000_0000_0000 then -0x8000_0000_0000_0000
               else if value > 0x7FFF_FFFF_FFFF_FFFF then 0x7FFF_FFFF_FFFF_FFFF
               else value
  {
    var digits := Json.Digits(n) + rest;
    SkipsAllSpace(space, sign + digits);
    DigitsHaveNoDash(n);
    assert Json.Digits(n)[0] in Json.Digits(n) && digits[0] == Json.Digits(n)[0];
    JsonRoundTrip.ParseDigitsOfDigits(n, rest);
    assert Json.ParseDigits(rest, n) == Json.Parsed(n, rest);
    if sign == "" {
      assert sign + digits == digits;
    } else {
      assert (sign + digits)[1..] == digits;
    }
  }

  /** Text that is no number counts as zero. */
  lemma StrToLOfNoNumber(text: string)
    requires text == "" || !(text[0] in "+- " || '0' <= text[0] <= '9' || 9 <= text[0] as int <= 13)
    ensures StrToL(text) == 0
  {
  }

  // ---------- Main results ----------

  function Abs(n: int): nat {
    if n < 0 then -n else n
  }

  /** The fields as tokens: a negative number loses its sign to the separator in front of it. */
  function TokenFields(o: Outgoing): (fields: seq<string>)
    ensures |fields| == 8
  {
    Eight("1", Encoded(o.traceId), Encoded(o.segmentId), Json.Digits(Abs(o.spanId)),
          Encoded(o.service), Encoded(o.serviceInstance), Encoded(o.endpoint), Encoded(o.peer))
  }

  lemma HeaderTokens(o: Outgoing)
    ensures Tokens(EncodedHeader(o)) == NonEmpty(TokenFields(o))
  {
    var f := TokenFields(o);
    NoDashes(o);
    if o.spanId >= 0 {
      assert f == HeaderFields(o);
      TokensOfJoin(f);
    } else {
      var g := f[..3] + [""] + f[3..];
      NegativeNumberSplits(HeaderFields(o), f, 3);
      TokensOfJoin(g);
      NonEmptySkips(f, 3);
    }
  }

  lemma NoDashes(o: Outgoing)
    ensures forall i :: 0 <= i < 8 ==> '-' !in TokenFields(o)[i]
  {
    EncodedHasNoDash(o.traceId);
    EncodedHasNoDash(o.segmentId);
    EncodedHasNoDash(o.service);
    EncodedHasNoDash(o.serviceInstance);
    EncodedHasNoDash(o.endpoint);
    EncodedHasNoDash(o.peer);
    DigitsHaveNoDash(Abs(o.spanId));
    EightWithoutDash("1", Encoded(o.traceId), Encoded(o.segmentId), Json.Digits(Abs(o.spanId)),
                     Encoded(o.service), Encoded(o.serviceInstance), Encoded(o.endpoint), Encoded(o.peer));
  }

  lemma EightWithoutDash(a: string, b: string, c: string, d: string, e: string, f: string, g: string, h: string)
    requires '-' !in a && '-' !in b && '-' !in c && '-' !in d && '-' !in e && '-' !in f && '-' !in g && '-' !in h
    ensures forall i :: 0 <= i < 8 ==> '-' !in Eight(a, b, c, d, e, f, g, h)[i]
  {
  }

  lemma EightNonEmptyIff(fields: seq<string>, sources: seq<bool>)
    requires |fields| == |sources| == 8
    requires forall i :: 0 <= i < 8 ==> (fields[i] != "" <==> sources[i])
    ensures (forall i :: 0 <= i < 8 ==> fields[i] != "")
            <==> sources[0] && sources[1] && sources[2] && sources[3] &&
                 sources[4] && sources[5] && sources[6] && sources[7]
  {
  }

  /** A field that starts with a dash joins like an empty field and the rest of it. */
  lemma {:induction false} NegativeNumberSplits(fields: seq<string>, unsigned: seq<string>, k: nat)
    requires k < |fields| && |unsigned| == |fields|
    requires fields[k] == "-" + unsigned[k]
    requires unsigned == fields[k := unsigned[k]]
    ensures Join(fields) == Join(unsigned[..k] + [""] + unsigned[k..])
    decreases k
  {
    var g := unsigned[..k] + [""] + unsigned[k..];
    if k == 0 {
      assert g == [""] + unsigned && g[1..] == unsigned && fields[1..] == unsigned[1..];
      assert Join(g) == "" + "-" + Join(unsigned);
      if |fields| > 1 {
        assert Join(fields) == "-" + unsigned[0] + "-" + Join(unsigned[1..]);
      }
    } else {
      NegativeNumberSplits(fields[1..], unsigned[1..], k - 1);
      assert g[1..] == unsigned[1..][..k - 1] + [""] + unsigned[1..][k - 1..];
    }
  }

  lemma {:induction false} NonEmptySkips(fields: seq<string>, k: nat)
    requires k <= |fields|
    ensures NonEmpty(fields[..k] + [""] + fields[k..]) == NonEmpty(fields)
    decreases k
  {
    var g := fields[..k] + [""] + fields[k..];
    if k == 0 {
      assert g[1..] == fields;
    } else {
      NonEmptySkips(fields[1..], k - 1);
      assert g[1..] == fields[1..][..k - 1] + [""] + fields[1..][k - 1..];
    }
  }

  predicate NoEmptyField(o: Outgoing) {
    && o.traceId != [] && o.segmentId != []
    && o.service != [] && o.serviceInstance != [] && o.endpoint != [] && o.peer != []
  }

  function FieldSources(o: Outgoing): seq<bool> {
    [true, o.traceId != [], o.segmentId != [], true,
     o.service != [], o.serviceInstance != [], o.endpoint != [], o.peer != []]
  }

  lemma FieldsNonEmptyIff(o: Outgoing)
    ensures (forall i :: 0 <= i < 8 ==> TokenFields(o)[i] != "") <==> NoEmptyField(o)
  {
    forall i | 0 <= i < 8
      ensures TokenFields(o)[i] != "" <==> FieldSources(o)[i]
    {
      FieldNonEmptyIff(o, i);
    }
    EightNonEmptyIff(TokenFields(o), FieldSources(o));
  }

  lemma FieldNonEmptyIff(o: Outgoing, i: nat)
    requires i < 8
    ensures TokenFields(o)[i] != "" <==> FieldSources(o)[i]
  {
  }

  lemma SampleField()
    ensures ToInt(StrToL("1")) == 1
  {
  }

  lemma FieldsDecoded(o: Outgoing)
    requires INT_MIN <= o.spanId <= INT_MAX
    ensures FromTokens(TokenFields(o)) == Received(o).(parentSpanId := ToInt(Abs(o.spanId)))
  {
    SampleField();
    StrToLOfDigits(Abs(o.spanId));
    DecodeUndoesEncode(o.traceId);
    DecodeUndoesEncode(o.segmentId);
    DecodeUndoesEncode(o.service);
    DecodeUndoesEncode(o.serviceInstance);
    DecodeUndoesEncode(o.endpoint);
    DecodeUndoesEncode(o.peer);
  }

  /** What a receiver makes of an encoded header: all fields with the sign of the span id lost, or nothing. */
  lemma ParsedEncoding(o: Outgoing)
    requires INT_MIN <= o.spanId <= INT_MAX
    ensures Parsed(Some(EncodedHeader(o))) ==
            if NoEmptyField(o) then Received(o).(parentSpanId := ToInt(Abs(o.spanId))) else UNSET
  {
    HeaderTokens(o);
    NonEmptyKeepsAll(TokenFields(o));
    FieldsNonEmptyIff(o);
    FieldsDecoded(o);
  }

  lemma SignSurvivesIff(n: int)
    requires INT_MIN <= n <= INT_MAX
    ensures ToInt(Abs(n)) == n <==> n >= 0 || n == INT_MIN
  {
  }

  /**
   A receiver gets all eight fields back exactly if no string is empty and the
   span id is not negative (the least int, whose sign comes back by overflow,
   is the one exception).
   */
  lemma HeaderRoundTripIff(o: Outgoing)
    requires INT_MIN <= o.spanId <= INT_MAX
    ensures Parsed(Some(EncodedHeader(o))) == Received(o)
            <==> NoEmptyField(o) && (o.spanId >= 0 || o.spanId == INT_MIN)
  {
    ParsedEncoding(o);
    SignSurvivesIff(o.spanId);
  }

  /** A segment that starts from an encoded header continues the sender's trace exactly if no field was empty. */
  lemma TraceContinuesIff(o: Outgoing)
    requires INT_MIN <= o.spanId <= INT_MAX
    ensures Parsed(Some(EncodedHeader(o))).traceId == if NoEmptyField(o) then Some(o.traceId) else None
  {
    ParsedEncoding(o);
  }

  /** For instance, a context without an endpoint is lost as a whole. */
  lemma EmptyEndpointLosesEverything(o: Outgoing)
    requires INT_MIN <= o.spanId <= INT_MAX && o.endpoint == []
    ensures Parsed(Some(EncodedHeader(o))) == UNSET
  {
    ParsedEncoding(o);
  }
}
