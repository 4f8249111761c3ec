/**
 The header cache of the curl plugin (src/sky_plugin_curl.c:55-299).

 The plugin hooks curl_setopt, curl_setopt_array, curl_exec and curl_close.  It
 keeps a copy of the header array a program gives to a handle, and before every
 recorded request it hands that copy back to libcurl, through a private option
 number and the hooked curl_setopt.  The question here is when a program cannot
 tell the hooked functions from the original ones by the headers it sends.
 */
module CurlCache {
  import opened Wrappers

  const CURLOPT_HTTPHEADER := 10023
  const SKY_CURLOPT_HTTPHEADER := 9923

  type Handle = nat
  type Headers = seq<string>

  /**
   A PHP value given to an option: an array of header lines; an object whose
   properties are the lines, which the curl extension of PHP 7 takes like an
   array; or something the header option refuses, for PHP 8 also an object.
   */
  datatype Value = Lines(lines: Headers) | ObjectLines(lines: Headers) | Other(text: string)

  /** One element of the array given to curl_setopt_array; `accepted` is libcurl's verdict on the other options. */
  datatype Entry = Entry(option: int, value: Value, accepted: bool)

  predicate UniqueKeys(entries: seq<Entry>) {
    forall i, j :: 0 <= i < j < |entries| ==> entries[i].option != entries[j].option
  }

  /** A PHP array has every key once. */
  type Options = entries: seq<Entry> | UniqueKeys(entries) witness []

  datatype Url = Url(scheme: Option<string>, host: Option<string>)

  /**
   A call of one of the functions, or a handle coming and going.  `on` says that
   the call finds a segment that is not to be skipped; `parsed` is the answer of
   the PHP URL parser; `freed` is false for a curl_close of PHP 8, which leaves
   the handle usable; `Drop` is a handle that goes without a curl_close.
   */
  datatype Op =
    | Open(h: Handle)
    | Setopt(h: Handle, on: bool, option: int, value: Value)
    | SetoptArray(h: Handle, on: bool, entries: Options)
    | Exec(h: Handle, on: bool, url: string, parsed: Option<Url>)
    | Close(h: Handle, on: bool, freed: bool)
    | Drop(h: Handle)

  /** The plugin's cache, and the header list libcurl holds for each open handle. */
  datatype State = State(cache: map<Handle, Value>, libcurl: map<Handle, Headers>)

  /** The start of a request: no handle is open. */
  const START := State(map[], map[])

  // ---------- The original functions ----------

  function OriginSetopt(libcurl: map<Handle, Headers>, h: Handle, option: int, value: Value): map<Handle, Headers> {
    if option == CURLOPT_HTTPHEADER && !value.Other? && h in libcurl then libcurl[h := value.lines] else libcurl
  }

  /** Whether the original curl_setopt_array goes on behind this element. */
  predicate Accepts(e: Entry) {
    if e.option == CURLOPT_HTTPHEADER then !e.value.Other? else e.option != SKY_CURLOPT_HTTPHEADER && e.accepted
  }

  /** The original curl_setopt_array sets the options in order and stops at the first one that is refused. */
  function OriginSetoptArray(libcurl: map<Handle, Headers>, h: Handle, entries: seq<Entry>): map<Handle, Headers> {
    if entries == [] || !Accepts(entries[0]) then libcurl
    else OriginSetoptArray(OriginSetopt(libcurl, h, entries[0].option, entries[0].value), h, entries[1..])
  }

  /** What a call does to libcurl when nothing is hooked. */
  function Origin(libcurl: map<Handle, Headers>, op: Op): map<Handle, Headers> {
    match op
    case Open(h) => libcurl[h := []]
    case Setopt(h, _, option, value) => OriginSetopt(libcurl, h, option, value)
    case SetoptArray(h, _, entries) => OriginSetoptArray(libcurl, h, entries)
    case Exec(_, _, _, _) => libcurl
    case Close(h, _, freed) => if freed then libcurl - {h} else libcurl
    case Drop(h) => libcurl - {h}
  }

  // ---------- The hooked functions ----------

  /** The element `zend_hash_index_find` returns. */
  function Find(entries: seq<Entry>, option: int): Option<Value> {
    if entries == [] then None
    else if entries[0].option == option then Some(entries[0].value)
    else Find(entries[1..], option)
  }

  predicate Recordable(url: string, parsed: Option<Url>) {
    && ("http://" <= url || "https://" <= url)
    && parsed.Some? && parsed.value.scheme.Some? && parsed.value.host.Some?
  }

  function HookedSetopt(s: State, h: Handle, on: bool, option: int, value: Value): State {
    if !on then s.(libcurl := OriginSetopt(s.libcurl, h, option, value))
    else if option == SKY_CURLOPT_HTTPHEADER then s.(libcurl := OriginSetopt(s.libcurl, h, CURLOPT_HTTPHEADER, value))
    else if option == CURLOPT_HTTPHEADER && value.Lines? then
      State(s.cache[h := value], OriginSetopt(s.libcurl, h, option, value))
    else s.(libcurl := OriginSetopt(s.libcurl, h, option, value))
  }

  function Step(s: State, op: Op): State {
    match op
    case Setopt(h, on, option, value) => HookedSetopt(s, h, on, option, value)
    case SetoptArray(h, on, entries) =>
      var header := Find(entries, CURLOPT_HTTPHEADER);
      State(if on && header.Some? then s.cache[h := header.value] else s.cache, Origin(s.libcurl, op))
    case Exec(h, on, url, parsed) =>
      if on && Recordable(url, parsed)
      then HookedSetopt(s, h, true, SKY_CURLOPT_HTTPHEADER, if h in s.cache then s.cache[h] else Lines([]))
      else s
    case Close(h, on, _) => State(if on then s.cache - {h} else s.cache, Origin(s.libcurl, op))
    case Open(_) => s.(libcurl := Origin(s.libcurl, op))
    case Drop(_) => s.(libcurl := Origin(s.libcurl, op))
  }

  /** A request that is recorded, and so sets the cached headers first. */
  predicate Recorded(op: Op) {
    op.Exec? && op.on && Recordable(op.url, op.parsed)
  }

  /** A new handle has an unused number, and curl_exec is called on an open handle. */
  predicate Enabled(s: State, op: Op) {
    (op.Open? ==> op.h !in s.libcurl) && (op.Exec? ==> op.h in s.libcurl)
  }

  // ---------- The handlers as written ----------

  class Plugin {
    var cache: map<Handle, Value>
    var libcurl: map<Handle, Headers>

    constructor ()
      ensures Now() == START
    {
      cache, libcurl := map[], map[];
    }

    ghost function Now(): State
      reads this
    {
      State(cache, libcurl)
    }

    method CallOriginSetopt(h: Handle, option: int, value: Value)
      modifies this`libcurl
      ensures libcurl == OriginSetopt(old(libcurl), h, option, value)
    {
      if option == CURLOPT_HTTPHEADER && !value.Other? && h in libcurl {
        libcurl := libcurl[h := value.lines];
      }
    }

    method CallOriginSetoptArray(h: Handle, entries: Options)
      modifies this`libcurl
      ensures libcurl == OriginSetoptArray(old(libcurl), h, entries)
    {
      var i := 0;
      while i < |entries| && Accepts(entries[i])
        invariant 0 <= i <= |entries|
        invariant OriginSetoptArray(libcurl, h, entries[i..]) == OriginSetoptArray(old(libcurl), h, entries)
      {
        assert entries[i..][1..] == entries[i + 1..];
        CallOriginSetopt(h, entries[i].option, entries[i].value);
        i := i + 1;
      }
    }

    /** curl_init. */
    method OpenHandle(h: Handle)
      requires Enabled(Now(), Open(h))
      modifies this`libcurl
      ensures Now() == Step(old(Now()), Open(h))
    {
      libcurl := libcurl[h := []];
    }

    method SetoptHandler(h: Handle, on: bool, options: int, value: Value)
      modifies this
      ensures Now() == Step(old(Now()), Setopt(h, on, options, value))
    {
      if !on {
        CallOriginSetopt(h, options, value);
        return;
      }
      var argument := options;
      if options == SKY_CURLOPT_HTTPHEADER {
        argument := CURLOPT_HTTPHEADER;
      } else if options == CURLOPT_HTTPHEADER && value.Lines? {
        cache := cache[h := value];
      }
      CallOriginSetopt(h, argument, value);
    }

    method SetoptArrayHandler(h: Handle, on: bool, entries: Options)
      modifies this
      ensures Now() == Step(old(Now()), SetoptArray(h, on, entries))
    {
      if !on {
        CallOriginSetoptArray(h, entries);
        return;
      }
      var header := Find(entries, CURLOPT_HTTPHEADER);
      if header.Some? {
        cache := cache[h := header.value];
      }
      CallOriginSetoptArray(h, entries);
    }

    /** The result is the header list of the request libcurl sends. */
    method ExecHandler(h: Handle, on: bool, url: string, parsed: Option<Url>) returns (sent: Headers)
      requires Enabled(Now(), Exec(h, on, url, parsed))
      modifies this
      ensures Now() == Step(old(Now()), Exec(h, on, url, parsed))
      ensures sent == libcurl[h]
    {
      if !on {
        return libcurl[h];
      }
      var isRecord := false;
      if "http://" <= url || "https://" <= url {
        if parsed.Some? && parsed.value.scheme.Some? && parsed.value.host.Some? {
          isRecord := true;
        }
      }
      if isRecord {
        var header := if h in cache then cache[h] else Lines([]);
        SetoptHandler(h, true, SKY_CURLOPT_HTTPHEADER, header);
      }
      return libcurl[h];
    }

    method CloseHandler(h: Handle, on: bool, freed: bool)
      modifies this
      ensures Now() == Step(old(Now()), Close(h, on, freed))
    {
      if on && h in cache {
        cache := cache - {h};
      }
      if freed {
        libcurl := libcurl - {h};
      }
      assert h !in old(cache) ==> old(cache) - {h} == old(cache);
    }
  }

  // ---------- Runs, hooked and original ----------

  function After(s: State, ops: seq<Op>): State
    decreases |ops|
  {
    if ops == [] then s else Step(After(s, ops[..|ops| - 1]), ops[|ops| - 1])
  }

  predicate IsRun(s: State, ops: seq<Op>) {
    forall i :: 0 <= i < |ops| ==> Enabled(After(s, ops[..i]), ops[i])
  }

  function HeadersOf(libcurl: map<Handle, Headers>, h: Handle): Headers {
    if h in libcurl then libcurl[h] else []
  }

  /** The header lists of the requests in a run, in order. */
  function Sent(s: State, ops: seq<Op>): seq<Headers>
    decreases |ops|
  {
    if ops == [] then []
    else Sent(s, ops[..|ops| - 1]) + Request(After(s, ops).libcurl, ops[|ops| - 1])
  }

  /** What libcurl sends in a call that leaves it like this. */
  function Request(libcurl: map<Handle, Headers>, op: Op): seq<Headers> {
    if op.Exec? then [HeadersOf(libcurl, op.h)] else []
  }

  function OriginAfter(libcurl: map<Handle, Headers>, ops: seq<Op>): map<Handle, Headers>
    decreases |ops|
  {
    if ops == [] then libcurl else Origin(OriginAfter(libcurl, ops[..|ops| - 1]), ops[|ops| - 1])
  }

  function OriginSent(libcurl: map<Handle, Headers>, ops: seq<Op>): seq<Headers>
    decreases |ops|
  {
    if ops == [] then []
    else OriginSent(libcurl, ops[..|ops| - 1]) + Request(OriginAfter(libcurl, ops), ops[|ops| - 1])
  }

  lemma OneOp(s: State, op: Op)
    ensures After(s, [op]) == Step(s, op) && Sent(s, [op]) == Request(Step(s, op).libcurl, op)
    ensures OriginAfter(s.libcurl, [op]) == Origin(s.libcurl, op)
    ensures OriginSent(s.libcurl, [op]) == Request(Origin(s.libcurl, op), op)
  {
    assert [op][..0] == [];
  }

  lemma TwoOps(s: State, a: Op, b: Op)
    ensures After(s, [a, b]) == Step(Step(s, a), b)
    ensures Sent(s, [a, b]) == Sent(s, [a]) + Request(Step(Step(s, a), b).libcurl, b)
    ensures OriginAfter(s.libcurl, [a, b]) == Origin(Origin(s.libcurl, a), b)
    ensures OriginSent(s.libcurl, [a, b]) == OriginSent(s.libcurl, [a]) + Request(Origin(Origin(s.libcurl, a), b), b)
  {
    assert [a, b][..1] == [a];
    OneOp(s, a);
  }

  // ---------- What the cache would do to a handle ----------

  function Cached(s: State, h: Handle): Option<Value> {
    if h in s.cache then Some(s.cache[h]) else None
  }

  /** The headers a handle has once a recorded request has set those of its cache entry. */
  function Restored(entry: Option<Value>, headers: Headers): Headers {
    match entry
    case None => []
    case Some(value) => if value.Other? then headers else value.lines
  }

  /** A recorded request with this cache entry leaves a handle with exactly these headers alone. */
  predicate Restores(entry: Option<Value>, headers: Headers) {
    Restored(entry, headers) == headers
  }

  ghost predicate InStep(s: State) {
    forall h: Handle :: Restores(Cached(s, h), HeadersOf(s.libcurl, h))
  }

  /** The original curl_setopt_array gets as far as the header option. */
  predicate ReachesHeader(entries: seq<Entry>) {
    && entries != [] && Accepts(entries[0])
    && (entries[0].option == CURLOPT_HTTPHEADER || ReachesHeader(entries[1..]))
  }

  /** The header list the original function sets on an open handle, if the call sets one. */
  function Given(op: Op): Option<Headers> {
    match op
    case Setopt(_, _, option, value) =>
      if option == CURLOPT_HTTPHEADER && !value.Other? then Some(value.lines) else None
    case SetoptArray(_, _, entries) =>
      var header := Find(entries, CURLOPT_HTTPHEADER);
      if ReachesHeader(entries) && header.Some? && !header.value.Other? then Some(header.value.lines) else None
    case _ => None
  }

  lemma {:induction false} FindAmongOthers(entries: seq<Entry>, option: int)
    requires forall i :: 0 <= i < |entries| ==> entries[i].option != option
    ensures Find(entries, option).None?
    ensures option == CURLOPT_HTTPHEADER ==> !ReachesHeader(entries)
  {
    if entries != [] {
      FindAmongOthers(entries[1..], option);
    }
  }

  /** The original curl_setopt_array changes the headers exactly if it reaches the header option. */
  lemma {:induction false} OriginSetoptArraySets(libcurl: map<Handle, Headers>, h: Handle, entries: Options)
    ensures var header := Find(entries, CURLOPT_HTTPHEADER);
            && (ReachesHeader(entries) ==> header.Some? && !header.value.Other?)
            && OriginSetoptArray(libcurl, h, entries)
            == if h in libcurl && ReachesHeader(entries) then libcurl[h := header.value.lines] else libcurl
    decreases |entries|
  {
    if entries != [] {
      var rest: Options := entries[1..];
      OriginSetoptArraySets(OriginSetopt(libcurl, h, entries[0].option, entries[0].value), h, rest);
      if entries[0].option == CURLOPT_HTTPHEADER {
        FindAmongOthers(rest, CURLOPT_HTTPHEADER);
      }
    }
  }

  lemma OriginSets(libcurl: map<Handle, Headers>, op: Op)
    requires op.Setopt? || op.SetoptArray?
    ensures Origin(libcurl, op)
         == if op.h in libcurl && Given(op).Some? then libcurl[op.h := Given(op).value] else libcurl
    ensures op.SetoptArray? ==> (Given(op).Some? <==> ReachesHeader(op.entries))
  {
    if op.SetoptArray? {
      OriginSetoptArraySets(libcurl, op.h, op.entries);
    }
  }

  /** A recorded request sends what libcurl held exactly if the cache entry restores it. */
  lemma ExecIsTransparentIff(s: State, h: Handle, url: string, parsed: Option<Url>)
    requires h in s.libcurl && Recordable(url, parsed)
    ensures Sent(s, [Exec(h, true, url, parsed)]) == OriginSent(s.libcurl, [Exec(h, true, url, parsed)])
            <==> Restores(Cached(s, h), HeadersOf(s.libcurl, h))
  {
    var op := Exec(h, true, url, parsed);
    OneOp(s, op);
    assert Sent(s, [op])[0] == HeadersOf(Step(s, op).libcurl, h);
  }

  // ---------- The calls by what they are given ----------

  /** A URL is recorded for its scheme prefix and for what the PHP parser found in it. */
  lemma RecordableIff(url: string, parsed: Option<Url>)
    ensures Recordable(url, parsed) <==>
            && ((|url| >= 7 && url[..7] == "http://") || (|url| >= 8 && url[..8] == "https://"))
            && parsed.Some? && parsed.value.scheme.Some? && parsed.value.host.Some?
  {
  }

  /** A recorded request sets the cached headers, or none if nothing is cached; another one touches nothing. */
  lemma ExecSetsHeadersIffRecorded(s: State, h: Handle, on: bool, url: string, parsed: Option<Url>)
    requires h in s.libcurl
    ensures var t := Step(s, Exec(h, on, url, parsed));
            && t.cache == s.cache
            && t.libcurl ==
               if !on || !Recordable(url, parsed) then s.libcurl
               else if h !in s.cache then s.libcurl[h := []]
               else if s.cache[h].Other? then s.libcurl
               else s.libcurl[h := s.cache[h].lines]
  {
  }

  /** What curl_setopt does with the header option 10023 and the private option 9923; it leaves others alone. */
  lemma SetoptByOption(s: State, h: Handle, on: bool, option: int, value: Value)
    requires h in s.libcurl
    ensures var t := Step(s, Setopt(h, on, option, value));
            && t.cache == (if on && option == 10023 && value.Lines? then s.cache[h := value] else s.cache)
            && t.libcurl ==
               if !value.Other? && (option == 10023 || (on && option == 9923)) then s.libcurl[h := value.lines]
               else s.libcurl
  {
  }

  predicate AllAccepted(entries: seq<Entry>) {
    forall j :: 0 <= j < |entries| ==> entries[j].accepted && entries[j].option != 9923
  }

  lemma {:induction false} OriginArrayByPosition(libcurl: map<Handle, Headers>, h: Handle, entries: Options, k: nat)
    requires k < |entries| && entries[k].option == 10023
    ensures Find(entries, 10023) == Some(entries[k].value)
    ensures OriginSetoptArray(libcurl, h, entries)
         == if h in libcurl && AllAccepted(entries[..k]) && !entries[k].value.Other?
            then libcurl[h := entries[k].value.lines] else libcurl
    decreases |entries|
  {
    var rest: Options := entries[1..];
    if k == 0 {
      FindAmongOthers(rest, 10023);
      OriginSetoptArraySets(OriginSetopt(libcurl, h, 10023, entries[0].value), h, rest);
    } else {
      OriginArrayByPosition(libcurl, h, rest, k - 1);
      assert entries[..k] == [entries[0]] + rest[..k - 1];
      AllAcceptedWithFirst(entries[0], rest[..k - 1]);
    }
  }

  lemma AllAcceptedWithFirst(first: Entry, rest: seq<Entry>)
    ensures AllAccepted([first] + rest) <==> first.accepted && first.option != 9923 && AllAccepted(rest)
  {
    var all := [first] + rest;
    if AllAccepted(all) {
      assert all[0] == first;
      forall j | 0 <= j < |rest| ensures rest[j].accepted && rest[j].option != 9923 {
        assert all[j + 1] == rest[j];
      }
    }
  }

  /**
   With the headers at position k of the array, curl_setopt_array caches them
   when the plugin is on, whatever they are, and libcurl takes them if it takes
   every option in front of them, among which the private one is not.
   */
  lemma SetoptArrayByPosition(s: State, h: Handle, on: bool, entries: Options, k: nat)
    requires h in s.libcurl && k < |entries| && entries[k].option == 10023
    ensures var t := Step(s, SetoptArray(h, on, entries));
            && t.cache == (if on then s.cache[h := entries[k].value] else s.cache)
            && t.libcurl ==
               if AllAccepted(entries[..k]) && !entries[k].value.Other? then s.libcurl[h := entries[k].value.lines]
               else s.libcurl
  {
    OriginArrayByPosition(s.libcurl, h, entries, k);
  }

  /** Without the header option curl_setopt_array leaves the headers and the cache alone. */
  lemma SetoptArrayWithoutHeaders(s: State, h: Handle, on: bool, entries: Options)
    requires forall k :: 0 <= k < |entries| ==> entries[k].option != 10023
    ensures Step(s, SetoptArray(h, on, entries)) == s
  {
    FindAmongOthers(entries, 10023);
    OriginSetoptArraySets(s.libcurl, h, entries);
  }

  /** A close with the plugin on forgets the entry, and no other; freeing the handle forgets its headers. */
  lemma CloseForgets(s: State, h: Handle, on: bool, freed: bool, other: Handle)
    ensures var t := Step(s, Close(h, on, freed));
            && Cached(t, other) == (if on && other == h then None else Cached(s, other))
            && (other in t.libcurl <==> other in s.libcurl && !(freed && other == h))
            && (other in t.libcurl ==> t.libcurl[other] == s.libcurl[other])
  {
  }

  // ---------- One call ----------

  /** With the plugin on, the program does not use the private option to give a handle other headers. */
  predicate LeavesPrivateOption(s: State, op: Op) {
    UsesPrivateOption(op) && op.h in s.libcurl ==> op.value.lines == s.libcurl[op.h]
  }

  predicate UsesPrivateOption(op: Op) {
    op.Setopt? && op.on && op.option == SKY_CURLOPT_HTTPHEADER && !op.value.Other?
  }

  /** As long as the cache is in step, a call does to libcurl what the original does, but for the private option. */
  lemma StepFollowsOriginIff(s: State, op: Op)
    requires InStep(s) && Enabled(s, op)
    ensures Step(s, op).libcurl == Origin(s.libcurl, op) <==> LeavesPrivateOption(s, op)
  {
    if op.Exec? {
      assert Restores(Cached(s, op.h), HeadersOf(s.libcurl, op.h));
    } else if UsesPrivateOption(op) && op.h in s.libcurl {
      assert Step(s, op).libcurl[op.h] == op.value.lines;
    }
  }

  /** What must hold of a call for the cache to be in step behind it. */
  predicate KeepsStep(s: State, op: Op) {
    var headers := HeadersOf(s.libcurl, op.h);
    match op
    case Open(_) => true
    case Exec(_, _, _, _) => true
    case Setopt(h, on, option, value) =>
      if value.Other? then true
      else if on && option == CURLOPT_HTTPHEADER && value.Lines? then h in s.libcurl || value.lines == []
      else if h in s.libcurl && (option == CURLOPT_HTTPHEADER || (on && option == SKY_CURLOPT_HTTPHEADER))
      then Restores(Cached(s, h), value.lines)
      else true
    case SetoptArray(h, on, entries) =>
      var header := Find(entries, CURLOPT_HTTPHEADER);
      if header.None? || header.value.Other? then true
      else if on then (h in s.libcurl && ReachesHeader(entries)) || header.value.lines == headers
      else h in s.libcurl && ReachesHeader(entries) ==> Restores(Cached(s, h), header.value.lines)
    case Close(h, on, freed) =>
      if on then freed || headers == [] else freed ==> Restores(Cached(s, h), [])
    case Drop(h) => Restores(Cached(s, h), [])
  }

  lemma HandleInStepIff(s: State, op: Op)
    requires Restores(Cached(s, op.h), HeadersOf(s.libcurl, op.h)) && Enabled(s, op)
    ensures Restores(Cached(Step(s, op), op.h), HeadersOf(Step(s, op).libcurl, op.h)) <==> KeepsStep(s, op)
  {
    if op.SetoptArray? {
      OriginSets(s.libcurl, op);
    }
  }

  /** The exact condition under which a call keeps the cache in step. */
  lemma StepKeepsStepIff(s: State, op: Op)
    requires InStep(s) && Enabled(s, op)
    ensures InStep(Step(s, op)) <==> KeepsStep(s, op)
  {
    assert Restores(Cached(s, op.h), HeadersOf(s.libcurl, op.h));
    HandleInStepIff(s, op);
    forall h: Handle | h != op.h
      ensures Restores(Cached(Step(s, op), h), HeadersOf(Step(s, op).libcurl, h))
    {
      StepOnHandle(s, op, h);
      assert Restores(Cached(s, h), HeadersOf(s.libcurl, h));
    }
    if InStep(Step(s, op)) {
      assert Restores(Cached(Step(s, op), op.h), HeadersOf(Step(s, op).libcurl, op.h));
    }
  }

  /**
   A call that does not keep step can be told: some request behind it, on its
   handle or on a new handle with the same number, sends other headers than
   libcurl held.
   */
  lemma LostStepIsVisible(s: State, op: Op, url: string, parsed: Option<Url>)
    requires InStep(s) && Enabled(s, op) && !KeepsStep(s, op) && Recordable(url, parsed)
    ensures var t := Step(s, op);
            var exec := Exec(op.h, true, url, parsed);
            var more := if op.h in t.libcurl then [exec] else [Open(op.h), exec];
            IsRun(t, more) && Sent(t, more) != OriginSent(t.libcurl, more)
  {
    HandleInStepIff(s, op);
    var t := Step(s, op);
    var exec := Exec(op.h, true, url, parsed);
    if op.h in t.libcurl {
      ExecIsTransparentIff(t, op.h, url, parsed);
      assert [exec][..0] == [];
    } else {
      var more := [Open(op.h), exec];
      TwoOps(t, Open(op.h), exec);
      OneOp(t, Open(op.h));
      assert more[..0] == [] && more[..1] == [Open(op.h)];
      assert Sent(t, more)[0] == HeadersOf(Step(Step(t, Open(op.h)), exec).libcurl, op.h);
    }
  }

  // ---------- One handle: folds over the calls of a program ----------

  function Listed(libcurl: map<Handle, Headers>, h: Handle): Option<Headers> {
    if h in libcurl then Some(libcurl[h]) else None
  }

  /** The cache entry of a handle after a call on it. */
  function NextEntry(entry: Option<Value>, op: Op): Option<Value> {
    match op
    case Setopt(_, on, option, value) =>
      if on && option == CURLOPT_HTTPHEADER && value.Lines? then Some(value) else entry
    case SetoptArray(_, on, entries) =>
      var header := Find(entries, CURLOPT_HTTPHEADER);
      if on && header.Some? then header else entry
    case Close(_, on, _) => if on then None else entry
    case _ => entry
  }

  /** The header list of a handle, if it is open, after an original call on it. */
  function NextOriginList(list: Option<Headers>, op: Op): Option<Headers> {
    match op
    case Open(_) => Some([])
    case Close(_, _, freed) => if freed then None else list
    case Drop(_) => None
    case _ => if list.Some? && Given(op).Some? then Given(op) else list
  }

  /** The same after a hooked call. */
  function NextList(entry: Option<Value>, list: Option<Headers>, op: Op): Option<Headers> {
    if list.Some? && Recorded(op) then Some(Restored(entry, list.value))
    else if list.Some? && UsesPrivateOption(op) then Some(op.value.lines)
    else NextOriginList(list, op)
  }

  function EntryAfter(ops: seq<Op>, h: Handle): Option<Value>
    decreases |ops|
  {
    if ops == [] then None
    else
      var (before, op) := (EntryAfter(ops[..|ops| - 1], h), ops[|ops| - 1]);
      if op.h == h then NextEntry(before, op) else before
  }

  function ListAfter(ops: seq<Op>, h: Handle): Option<Headers>
    decreases |ops|
  {
    if ops == [] then None
    else
      var (before, op) := (ListAfter(ops[..|ops| - 1], h), ops[|ops| - 1]);
      if op.h == h then NextList(EntryAfter(ops[..|ops| - 1], h), before, op) else before
  }

  function OriginListAfter(ops: seq<Op>, h: Handle): Option<Headers>
    decreases |ops|
  {
    if ops == [] then None
    else
      var (before, op) := (OriginListAfter(ops[..|ops| - 1], h), ops[|ops| - 1]);
      if op.h == h then NextOriginList(before, op) else before
  }

  /** A call changes the entry and the list of its own handle only, and those as the folds say. */
  lemma StepOnHandle(s: State, op: Op, h: Handle)
    ensures Cached(Step(s, op), h) == if op.h == h then NextEntry(Cached(s, h), op) else Cached(s, h)
    ensures Listed(Step(s, op).libcurl, h)
         == if op.h == h then NextList(Cached(s, h), Listed(s.libcurl, h), op) else Listed(s.libcurl, h)
  {
    if op.SetoptArray? {
      OriginSets(s.libcurl, op);
    }
  }

  lemma OriginOnHandle(libcurl: map<Handle, Headers>, op: Op, h: Handle)
    ensures Listed(Origin(libcurl, op), h)
         == if op.h == h then NextOriginList(Listed(libcurl, h), op) else Listed(libcurl, h)
  {
    if op.SetoptArray? {
      OriginSets(libcurl, op);
    }
  }

  /** The folds compute what the two runs leave of a handle, and the same handles are open in both. */
  lemma {:induction false} FoldsAreRuns(ops: seq<Op>, h: Handle)
    ensures Cached(After(START, ops), h) == EntryAfter(ops, h)
    ensures Listed(After(START, ops).libcurl, h) == ListAfter(ops, h)
    ensures Listed(OriginAfter(START.libcurl, ops), h) == OriginListAfter(ops, h)
    ensures ListAfter(ops, h).Some? <==> OriginListAfter(ops, h).Some?
    decreases |ops|
  {
    if ops != [] {
      var init, op := ops[..|ops| - 1], ops[|ops| - 1];
      FoldsAreRuns(init, h);
      StepOnHandle(After(START, init), op, h);
      OriginOnHandle(OriginAfter(START.libcurl, init), op, h);
    }
  }

  // ---------- Whole runs ----------

  /** Call i sends nothing, or the same with and without the plugin. */
  predicate SentAlike(s: State, libcurl: map<Handle, Headers>, ops: seq<Op>, i: nat)
    requires i < |ops|
  {
    Request(Step(After(s, ops[..i]), ops[i]).libcurl, ops[i])
    == Request(Origin(OriginAfter(libcurl, ops[..i]), ops[i]), ops[i])
  }

  lemma SentAlikeInPrefix(s: State, libcurl: map<Handle, Headers>, ops: seq<Op>, n: nat, i: nat)
    requires i < n <= |ops|
    ensures SentAlike(s, libcurl, ops[..n], i) == SentAlike(s, libcurl, ops, i)
  {
    assert ops[..n][..i] == ops[..i];
  }

  lemma {:induction false} SentCallByCall(s: State, libcurl: map<Handle, Headers>, ops: seq<Op>)
    ensures |Sent(s, ops)| == |OriginSent(libcurl, ops)|
    ensures Sent(s, ops) == OriginSent(libcurl, ops) <==>
            forall i :: 0 <= i < |ops| ==> SentAlike(s, libcurl, ops, i)
    decreases |ops|
  {
    if ops != [] {
      var n := |ops| - 1;
      var init := ops[..n];
      SentCallByCall(s, libcurl, init);
      forall i | 0 <= i < n
        ensures SentAlike(s, libcurl, init, i) == SentAlike(s, libcurl, ops, i)
      {
        SentAlikeInPrefix(s, libcurl, ops, n, i);
      }
      LastSent(s, libcurl, ops, n);
    }
  }

  lemma LastSent(s: State, libcurl: map<Handle, Headers>, ops: seq<Op>, n: nat)
    requires n == |ops| - 1 && |Sent(s, ops[..n])| == |OriginSent(libcurl, ops[..n])|
    ensures |Sent(s, ops)| == |OriginSent(libcurl, ops)|
    ensures Sent(s, ops) == OriginSent(libcurl, ops) <==>
            Sent(s, ops[..n]) == OriginSent(libcurl, ops[..n]) && SentAlike(s, libcurl, ops, n)
  {
    var hooked := Request(Step(After(s, ops[..n]), ops[n]).libcurl, ops[n]);
    var plain := Request(Origin(OriginAfter(libcurl, ops[..n]), ops[n]), ops[n]);
    assert Sent(s, ops) == Sent(s, ops[..n]) + hooked;
    assert OriginSent(libcurl, ops) == OriginSent(libcurl, ops[..n]) + plain;
    SplitEqualIff(Sent(s, ops[..n]), hooked, OriginSent(libcurl, ops[..n]), plain);
  }

  lemma SplitEqualIff<T>(a: seq<T>, b: seq<T>, c: seq<T>, d: seq<T>)
    requires |a| == |c|
    ensures a + b == c + d <==> a == c && b == d
  {
    if a + b == c + d {
      assert a == (a + b)[..|a|] == (c + d)[..|c|] == c;
      assert b == (a + b)[|a|..] == (c + d)[|c|..] == d;
    }
  }

  /** At request i the list left to be sent is the one the original calls leave. */
  predicate LeavesAlike(ops: seq<Op>, i: nat)
    requires i < |ops|
  {
    var before, h := ops[..i], ops[i].h;
    ops[i].Exec? ==> NextList(EntryAfter(before, h), ListAfter(before, h), ops[i]) == OriginListAfter(before, h)
  }

  /** At request i, if it is recorded, the cache entry restores the list the original calls leave. */
  predicate RestoredAt(ops: seq<Op>, i: nat)
    requires i < |ops|
  {
    var before, h := ops[..i], ops[i].h;
    var list := OriginListAfter(before, h);
    Recorded(ops[i]) && list.Some? ==> Restores(EntryAfter(before, h), list.value)
  }

  /**
   For every program: the requests are those of a run without the plugin exactly
   if, at each request, the calls so far on its handle leave the list to be sent
   that the original calls leave.
   */
  lemma RunIsTransparentIff(ops: seq<Op>)
    ensures Sent(START, ops) == OriginSent(START.libcurl, ops) <==>
            forall i :: 0 <= i < |ops| ==> LeavesAlike(ops, i)
  {
    SentCallByCall(START, START.libcurl, ops);
    forall i | 0 <= i < |ops|
      ensures SentAlike(START, START.libcurl, ops, i) <==> LeavesAlike(ops, i)
    {
      LeavesAlikeIff(ops, i);
    }
  }

  lemma LeavesAlikeIff(ops: seq<Op>, i: nat)
    requires i < |ops|
    ensures SentAlike(START, START.libcurl, ops, i) <==> LeavesAlike(ops, i)
  {
    var before, op := ops[..i], ops[i];
    FoldsAreRuns(before, op.h);
    StepOnHandle(After(START, before), op, op.h);
    if op.Exec? {
      var hooked, plain := Step(After(START, before), op).libcurl, OriginAfter(START.libcurl, before);
      assert Listed(hooked, op.h).Some? <==> Listed(plain, op.h).Some?;
      assert Request(hooked, op)[0] == HeadersOf(hooked, op.h);
      assert Request(plain, op)[0] == HeadersOf(plain, op.h);
    }
  }

  predicate LeavesPrivateOptionAlone(ops: seq<Op>) {
    forall i :: 0 <= i < |ops| ==> !UsesPrivateOption(ops[i])
  }

  predicate AlikeOrRestored(ops: seq<Op>, i: nat)
    requires i < |ops|
  {
    LeavesAlike(ops, i) || RestoredAt(ops, i)
  }

  /** Up to the first request that differs, both runs hold the same list. */
  lemma {:induction false} ListsAgree(ops: seq<Op>, i: nat, h: Handle)
    requires i <= |ops| && LeavesPrivateOptionAlone(ops)
    requires forall j :: 0 <= j < i ==> AlikeOrRestored(ops, j)
    ensures ListAfter(ops[..i], h) == OriginListAfter(ops[..i], h)
    decreases i
  {
    if i > 0 {
      ListsAgree(ops, i - 1, h);
      assert ops[..i][..i - 1] == ops[..i - 1];
      assert AlikeOrRestored(ops, i - 1);
      assert !UsesPrivateOption(ops[i - 1]);
    }
  }

  lemma AlikeIffRestored(ops: seq<Op>, i: nat)
    requires i < |ops| && LeavesPrivateOptionAlone(ops)
    requires forall j :: 0 <= j < i ==> AlikeOrRestored(ops, j)
    ensures LeavesAlike(ops, i) <==> RestoredAt(ops, i)
  {
    ListsAgree(ops, i, ops[i].h);
  }

  /**
   For every program that leaves the private option alone, only the recorded
   requests matter: the plugin cannot be told exactly if, at each of them, the
   cache entry of the handle restores the list the original calls leave.
   */
  lemma RunIsTransparentIffRestored(ops: seq<Op>)
    requires LeavesPrivateOptionAlone(ops)
    ensures Sent(START, ops) == OriginSent(START.libcurl, ops) <==>
            forall i :: 0 <= i < |ops| ==> RestoredAt(ops, i)
  {
    RunIsTransparentIff(ops);
    if Sent(START, ops) == OriginSent(START.libcurl, ops) {
      forall i | 0 <= i < |ops| ensures RestoredAt(ops, i) {
        assert forall j :: 0 <= j < i ==> AlikeOrRestored(ops, j);
        AlikeIffRestored(ops, i);
      }
    }
    if forall i :: 0 <= i < |ops| ==> RestoredAt(ops, i) {
      forall i | 0 <= i < |ops| ensures LeavesAlike(ops, i) {
        assert forall j :: 0 <= j < i ==> AlikeOrRestored(ops, j);
        AlikeIffRestored(ops, i);
      }
    }
  }

  /** From any state: the private option gives no other headers, and every recorded request finds its handle in step. */
  predicate RequestsInStep(s: State, ops: seq<Op>) {
    forall i :: 0 <= i < |ops| ==> RequestInStep(After(s, ops[..i]), ops[i])
  }

  predicate RequestInStep(s: State, op: Op) {
    LeavesPrivateOption(s, op) && (Recorded(op) ==> Restores(Cached(s, op.h), HeadersOf(s.libcurl, op.h)))
  }

  lemma {:induction false} RunIsTransparent(s: State, ops: seq<Op>)
    requires IsRun(s, ops) && RequestsInStep(s, ops)
    ensures After(s, ops).libcurl == OriginAfter(s.libcurl, ops)
    ensures Sent(s, ops) == OriginSent(s.libcurl, ops)
    decreases |ops|
  {
    if ops != [] {
      var n := |ops| - 1;
      var init := ops[..n];
      assert forall i :: 0 <= i < n ==> init[..i] == ops[..i] && init[i] == ops[i];
      RunIsTransparent(s, init);
      assert Enabled(After(s, init), ops[n]) && RequestInStep(After(s, init), ops[n]);
      CallFollowsOrigin(After(s, init), ops[n]);
    }
  }

  lemma CallFollowsOrigin(s: State, op: Op)
    requires Enabled(s, op) && RequestInStep(s, op)
    ensures Step(s, op).libcurl == Origin(s.libcurl, op)
  {
  }

  predicate KeepsStepThroughout(s: State, ops: seq<Op>) {
    forall i :: 0 <= i < |ops| ==> CallKeepsStep(After(s, ops[..i]), ops[i])
  }

  predicate CallKeepsStep(s: State, op: Op) {
    KeepsStep(s, op) && LeavesPrivateOption(s, op)
  }

  lemma {:induction false} StaysInStep(s: State, ops: seq<Op>, i: nat)
    requires InStep(s) && IsRun(s, ops) && KeepsStepThroughout(s, ops) && i <= |ops|
    ensures InStep(After(s, ops[..i]))
    decreases i
  {
    if i > 0 {
      StaysInStep(s, ops, i - 1);
      var t, op := After(s, ops[..i - 1]), ops[i - 1];
      assert Enabled(t, op) && CallKeepsStep(t, op);
      StepKeepsStepIff(t, op);
      assert ops[..i][..i - 1] == ops[..i - 1];
    }
  }

  /** In particular every request of a run that starts in step, and whose calls all keep step. */
  lemma KeptStepIsTransparent(s: State, ops: seq<Op>)
    requires InStep(s) && IsRun(s, ops) && KeepsStepThroughout(s, ops)
    ensures InStep(After(s, ops)) && Sent(s, ops) == OriginSent(s.libcurl, ops)
  {
    assert ops[..|ops|] == ops;
    StaysInStep(s, ops, |ops|);
    forall i | 0 <= i < |ops| ensures RequestInStep(After(s, ops[..i]), ops[i]) {
      StaysInStep(s, ops, i);
      var t, h := After(s, ops[..i]), ops[i].h;
      assert CallKeepsStep(t, ops[i]) && Restores(Cached(t, h), HeadersOf(t.libcurl, h));
    }
    RunIsTransparent(s, ops);
  }

  // ---------- Careful programs ----------

  /** The header list the program gave the handle last, since it was opened and until it is closed. */
  function LastGiven(ops: seq<Op>, h: Handle): Option<Headers>
    decreases |ops|
  {
    if ops == [] then None
    else
      var (before, op) := (ops[..|ops| - 1], ops[|ops| - 1]);
      if op.h != h then LastGiven(before, h)
      else if op.Open? || op.Close? || op.Drop? then None
      else if OriginListAfter(before, h).Some? && Given(op).Some? then Given(op)
      else LastGiven(before, h)
  }

  /** The handle was closed by a curl_close that did not free it, and is still there. */
  predicate Closed(ops: seq<Op>, h: Handle)
    decreases |ops|
  {
    ops != [] &&
    var op := ops[|ops| - 1];
    if op.h != h then Closed(ops[..|ops| - 1], h)
    else if op.Open? || op.Drop? then false
    else if op.Close? then !op.freed
    else Closed(ops[..|ops| - 1], h)
  }

  /**
   Conditions a program can meet without looking into the plugin: headers are
   given as arrays, to open handles, with the plugin on, and are not refused;
   and a handle that was given headers is closed before it goes, and not used
   after that.
   */
  predicate Careful(before: seq<Op>, op: Op) {
    var inUse := OriginListAfter(before, op.h).Some? && !Closed(before, op.h);
    match op
    case Open(_) => true
    case Exec(_, _, _, _) => inUse
    case Setopt(_, on, option, value) =>
      && inUse && option != SKY_CURLOPT_HTTPHEADER
      && (option == CURLOPT_HTTPHEADER ==> on && !value.ObjectLines?)
    case SetoptArray(_, on, entries) =>
      inUse && (Find(entries, CURLOPT_HTTPHEADER).Some? ==> on && ReachesHeader(entries))
    case Close(h, on, _) => on || LastGiven(before, h).None?
    case Drop(h) => Closed(before, h) || LastGiven(before, h).None?
  }

  predicate CarefulRun(ops: seq<Op>) {
    forall i :: 0 <= i < |ops| ==> Careful(ops[..i], ops[i])
  }

  /** The entry is the list given last, and there is none if none was given. */
  predicate Holds(entry: Option<Value>, given: Option<Headers>) {
    match entry
    case None => given.None?
    case Some(value) => !value.Other? && given == Some(value.lines)
  }

  /** What holds of a handle after careful calls. */
  predicate Exact(ops: seq<Op>, h: Handle) {
    && ListAfter(ops, h) == OriginListAfter(ops, h)
    && Holds(EntryAfter(ops, h), LastGiven(ops, h))
    && match OriginListAfter(ops, h)
       case None => LastGiven(ops, h).None?
       case Some(list) =>
         if Closed(ops, h) then LastGiven(ops, h).None?
         else list == if LastGiven(ops, h).Some? then LastGiven(ops, h).value else []
  }

  lemma CarefulCallKeepsExact(before: seq<Op>, op: Op, h: Handle)
    requires Exact(before, h) && Careful(before, op)
    requires op.Open? && op.h == h ==> OriginListAfter(before, h).None?
    ensures Exact(before + [op], h)
  {
    var ops := before + [op];
    assert ops[..|ops| - 1] == before;
    if op.SetoptArray? {
      OriginSets(map[], op);
    }
  }

  lemma {:induction false} CarefulRunIsExact(ops: seq<Op>, i: nat, h: Handle)
    requires IsRun(START, ops) && CarefulRun(ops) && i <= |ops|
    ensures Exact(ops[..i], h)
    decreases i
  {
    if i > 0 {
      CarefulRunIsExact(ops, i - 1, h);
      FoldsAreRuns(ops[..i - 1], h);
      assert Enabled(After(START, ops[..i - 1]), ops[i - 1]) && Careful(ops[..i - 1], ops[i - 1]);
      CarefulCallKeepsExact(ops[..i - 1], ops[i - 1], h);
      assert ops[..i - 1] + [ops[i - 1]] == ops[..i];
    }
  }

  /**
   In every careful program the cache entry of every handle is the header list
   the program gave to the handle last, and the requests are those of a run
   without the plugin.
   */
  lemma CarefulProgramIsTransparent(ops: seq<Op>)
    requires IsRun(START, ops) && CarefulRun(ops)
    ensures forall h: Handle :: Holds(Cached(After(START, ops), h), LastGiven(ops, h))
    ensures After(START, ops).libcurl == OriginAfter(START.libcurl, ops)
    ensures Sent(START, ops) == OriginSent(START.libcurl, ops)
  {
    assert ops[..|ops|] == ops;
    forall h: Handle
      ensures Holds(Cached(After(START, ops), h), LastGiven(ops, h))
      ensures Listed(After(START, ops).libcurl, h) == Listed(OriginAfter(START.libcurl, ops), h)
    {
      CarefulRunIsExact(ops, |ops|, h);
      FoldsAreRuns(ops, h);
    }
    SameLists(After(START, ops).libcurl, OriginAfter(START.libcurl, ops));
    RunIsTransparentIff(ops);
    forall i | 0 <= i < |ops|
      ensures LeavesAlike(ops, i)
    {
      assert Careful(ops[..i], ops[i]);
      CarefulRunIsExact(ops, i, ops[i].h);
    }
  }

  lemma SameLists(a: map<Handle, Headers>, b: map<Handle, Headers>)
    requires forall h: Handle :: Listed(a, h) == Listed(b, h)
    ensures a == b
  {
    assert forall h: Handle :: (h in a <==> h in b) by {
      forall h: Handle ensures h in a <==> h in b {
        assert Listed(a, h) == Listed(b, h);
      }
    }
    assert forall h :: h in a ==> Listed(a, h) == Listed(b, h);
  }

  lemma OneMoreCarefulCall(before: seq<Op>, op: Op)
    requires IsRun(START, before) && CarefulRun(before)
    requires Enabled(After(START, before), op) && Careful(before, op)
    ensures IsRun(START, before + [op]) && CarefulRun(before + [op])
  {
    var ops := before + [op];
    forall i | 0 <= i < |ops|
      ensures Enabled(After(START, ops[..i]), ops[i]) && Careful(ops[..i], ops[i])
    {
      if i < |before| {
        assert ops[..i] == before[..i] && ops[i] == before[i];
        assert Enabled(After(START, before[..i]), before[i]) && Careful(before[..i], before[i]);
      } else {
        assert ops[..i] == before && ops[i] == op;
      }
    }
  }

  lemma LastCall(before: seq<Op>, op: Op)
    ensures Closed(before + [op], op.h)
         == if op.Close? then !op.freed else !op.Open? && !op.Drop? && Closed(before, op.h)
    ensures OriginListAfter(before + [op], op.h) == NextOriginList(OriginListAfter(before, op.h), op)
    ensures EntryAfter(before + [op], op.h) == NextEntry(EntryAfter(before, op.h), op)
  {
    assert (before + [op])[..|before|] == before;
  }

  /**
   After every careful program a handle can be closed the way of PHP 8, where
   curl_close leaves it to its last reference, then go, and its number can be
   used again: that is careful too, and the new handle starts without an entry.
   */
  lemma ClosedHandleMayComeAgain(ops: seq<Op>, h: Handle)
    requires IsRun(START, ops) && CarefulRun(ops)
    ensures var again := ops + [Close(h, true, false)] + [Drop(h)] + [Open(h)];
            && IsRun(START, again) && CarefulRun(again)
            && h in After(START, again).libcurl && Cached(After(START, again), h).None?
  {
    var closed := ops + [Close(h, true, false)];
    OneMoreCarefulCall(ops, Close(h, true, false));
    LastCall(ops, Close(h, true, false));
    var gone := closed + [Drop(h)];
    OneMoreCarefulCall(closed, Drop(h));
    LastCall(closed, Drop(h));
    FoldsAreRuns(gone, h);
    OneMoreCarefulCall(gone, Open(h));
    LastCall(gone, Open(h));
    FoldsAreRuns(gone + [Open(h)], h);
  }

  // ---------- Programs that are not careful ----------

  /** The header array was not applied, because an option in front of it was refused; the next request sends it. */
  lemma RefusedHeadersAreSent(h: Handle, lines: Headers, refused: Entry, url: string, parsed: Option<Url>)
    requires lines != [] && Recordable(url, parsed)
    requires refused.option != CURLOPT_HTTPHEADER && !Accepts(refused)
    ensures var s := State(map[], map[h := []]);
            var ops := [SetoptArray(h, true, [refused, Entry(CURLOPT_HTTPHEADER, Lines(lines), true)]),
                        Exec(h, true, url, parsed)];
            Sent(s, ops) == [lines] && OriginSent(s.libcurl, ops) == [[]]
  {
    var s := State(map[], map[h := []]);
    var entries: Options := [refused, Entry(CURLOPT_HTTPHEADER, Lines(lines), true)];
    assert entries[1..] == [Entry(CURLOPT_HTTPHEADER, Lines(lines), true)];
    assert Find(entries, CURLOPT_HTTPHEADER) == Some(Lines(lines));
    TwoOps(s, SetoptArray(h, true, entries), Exec(h, true, url, parsed));
    OneOp(s, SetoptArray(h, true, entries));
  }

  /** Headers given while the plugin is off, or as an object, are replaced by none in the next recorded request. */
  lemma UncachedHeadersAreLost(h: Handle, on: bool, value: Value, url: string, parsed: Option<Url>)
    requires !value.Other? && value.lines != [] && (on ==> value.ObjectLines?) && Recordable(url, parsed)
    ensures var s := State(map[], map[h := []]);
            var ops := [Setopt(h, on, CURLOPT_HTTPHEADER, value), Exec(h, true, url, parsed)];
            Sent(s, ops) == [[]] && OriginSent(s.libcurl, ops) == [value.lines]
  {
    var s := State(map[], map[h := []]);
    var given, exec := Setopt(h, on, CURLOPT_HTTPHEADER, value), Exec(h, true, url, parsed);
    var t := Step(s, given);
    assert t == State(map[], map[h := value.lines]);
    assert Step(t, exec).libcurl == map[h := []];
    TwoOps(s, given, exec);
    OneOp(s, given);
  }
}
