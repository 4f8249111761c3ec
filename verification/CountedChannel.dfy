/**
 The bounded channel inside the reporter (CountedSender and CountedReceiver of
 src/reporter/grpc.rs), as a transition system whose steps are the atomic
 operations of `try_send` and `recv_all`.

 Any number of producers push an item and only afterwards add one to the
 counter.  The single consumer reads the counter once and then receives that
 many items, subtracting one from the counter after each of them.
 */
module CountedChannel {
  import opened Wrappers

  // The counter is an AtomicI32: its additions and subtractions wrap around.
  const I32_LIMIT := 0x8000_0000

  function WrapI32(n: int): (r: int)
    ensures -0x8000_0000 <= r < 0x8000_0000 && (r - n) % 0x1_0000_0000 == 0
    ensures -I32_LIMIT <= n < I32_LIMIT ==> r == n
  {
    (n + I32_LIMIT) % (2 * I32_LIMIT) - I32_LIMIT
  }

  /** A producer between its push and its `fetch_add` is `Uncounted`. */
  datatype Producer = Idle | Uncounted

  /** Where the consumer stands inside `recv_all`: `left` receives are still to be done. */
  datatype Consumer<T> =
    | Resting
    | Draining(left: nat, buffered: seq<T>)
    | Received(left: nat, buffered: seq<T>, item: T)

  datatype State<T> = State(
    capacity: nat,
    channel: seq<T>,
    count: int,
    producers: seq<Producer>,
    consumer: Consumer<T>)

  datatype Action<T> =
    | Push(p: nat, item: T)
    | PushRefused(p: nat)
    | FetchAdd(p: nat)
    | Load
    | Receive
    | FetchSub
    | Return

  predicate Init<T(==)>(s: State<T>) {
    && s.channel == [] && s.count == 0 && s.consumer == Resting
    && (forall p :: 0 <= p < |s.producers| ==> s.producers[p] == Idle)
    && s.capacity + 1 < I32_LIMIT
  }

  predicate Enabled<T>(s: State<T>, a: Action<T>) {
    match a
    case Push(p, _) => p < |s.producers| && s.producers[p].Idle? && |s.channel| < s.capacity
    case PushRefused(p) => p < |s.producers| && s.producers[p].Idle? && |s.channel| >= s.capacity
    case FetchAdd(p) => p < |s.producers| && s.producers[p].Uncounted?
    case Load => s.consumer.Resting?
    case Receive => s.consumer.Draining? && s.consumer.left > 0 && |s.channel| > 0
    case FetchSub => s.consumer.Received?
    case Return => s.consumer.Draining? && s.consumer.left == 0
  }

  function Apply<T>(s: State<T>, a: Action<T>): State<T>
    requires Enabled(s, a)
  {
    match a
    case Push(p, item) => s.(channel := s.channel + [item], producers := s.producers[p := Uncounted])
    case PushRefused(p) => s
    case FetchAdd(p) => s.(count := WrapI32(s.count + 1), producers := s.producers[p := Idle])
    case Load => if s.count <= 0 then s else s.(consumer := Draining(s.count, []))
    case Receive =>
      s.(channel := s.channel[1..], consumer := Received(s.consumer.left - 1, s.consumer.buffered, s.channel[0]))
    case FetchSub =>
      s.(count := WrapI32(s.count - 1),
         consumer := Draining(s.consumer.left, s.consumer.buffered + [s.consumer.item]))
    case Return => s.(consumer := Resting)
  }

  predicate IsRun<T>(s: State<T>, run: seq<Action<T>>)
    decreases |run|
  {
    |run| == 0 || (Enabled(s, run[0]) && IsRun(Apply(s, run[0]), run[1..]))
  }

  function After<T>(s: State<T>, run: seq<Action<T>>): State<T>
    requires IsRun(s, run)
    decreases |run|
  {
    if |run| == 0 then s else After(Apply(s, run[0]), run[1..])
  }

  // ---------- The counted-channel law ----------

  function UncountedProducers(ps: seq<Producer>): nat {
    if ps == [] then 0 else (if ps[0].Uncounted? then 1 else 0) + UncountedProducers(ps[1..])
  }

  lemma {:induction false} UncountedAfterUpdate(ps: seq<Producer>, p: nat, x: Producer)
    requires p < |ps|
    ensures UncountedProducers(ps[p := x]) - UncountedProducers(ps)
         == (if x.Uncounted? then 1 else 0) - (if ps[p].Uncounted? then 1 else 0)
  {
    if p == 0 {
      assert ps[p := x][1..] == ps[1..];
    } else {
      assert ps[p := x][1..] == ps[1..][p - 1 := x];
      UncountedAfterUpdate(ps[1..], p - 1, x);
    }
  }

  lemma {:induction false} NoneUncounted(ps: seq<Producer>)
    requires forall p :: 0 <= p < |ps| ==> ps[p] == Idle
    ensures UncountedProducers(ps) == 0
  {
    if ps != [] {
      NoneUncounted(ps[1..]);
    }
  }

  /** 1 while the consumer holds an item it has not subtracted yet. */
  function InHand<T>(c: Consumer<T>): nat {
    if c.Received? then 1 else 0
  }

  /** Receives the consumer has committed to and not begun. */
  function Left<T>(c: Consumer<T>): nat {
    if c.Resting? then 0 else c.left
  }

  predicate Valid<T>(s: State<T>) {
    && s.capacity + 1 < I32_LIMIT
    && |s.channel| <= s.capacity
    && s.count + UncountedProducers(s.producers) == |s.channel| + InHand(s.consumer)
    && Left(s.consumer) + InHand(s.consumer) <= s.count
  }

  lemma InitIsValid<T>(s: State<T>)
    requires Init(s)
    ensures Valid(s)
  {
    NoneUncounted(s.producers);
  }

  lemma UncountedAfterStep<T>(s: State<T>, a: Action<T>)
    requires Enabled(s, a)
    ensures UncountedProducers(Apply(s, a).producers)
         == UncountedProducers(s.producers) + (if a.Push? then 1 else 0) - (if a.FetchAdd? then 1 else 0)
  {
    if a.Push? {
      UncountedAfterUpdate(s.producers, a.p, Uncounted);
    } else if a.FetchAdd? {
      UncountedAfterUpdate(s.producers, a.p, Idle);
    }
  }

  lemma StepKeepsValid<T>(s: State<T>, a: Action<T>)
    requires Valid(s) && Enabled(s, a)
    ensures Valid(Apply(s, a))
  {
    UncountedAfterStep(s, a);
  }

  lemma {:induction false} RunKeepsValid<T>(s: State<T>, run: seq<Action<T>>)
    requires Valid(s) && IsRun(s, run)
    ensures Valid(After(s, run))
    decreases |run|
  {
    if |run| > 0 {
      StepKeepsValid(s, run[0]);
      RunKeepsValid(Apply(s, run[0]), run[1..]);
    }
  }

  /** The law for any number of producers and every interleaving. */
  lemma CountedChannelLaw<T>(s: State<T>, run: seq<Action<T>>)
    requires Init(s) && IsRun(s, run)
    ensures var t := After(s, run);
            && t.count + UncountedProducers(t.producers) == |t.channel| + InHand(t.consumer)
            && 0 <= t.count <= t.capacity + 1
            && |t.channel| <= t.capacity
  {
    InitIsValid(s);
    RunKeepsValid(s, run);
    RunKeepsCapacity(s, run);
  }

  lemma {:induction false} RunKeepsCapacity<T>(s: State<T>, run: seq<Action<T>>)
    requires IsRun(s, run)
    ensures After(s, run).capacity == s.capacity
    decreases |run|
  {
    if |run| > 0 {
      RunKeepsCapacity(Apply(s, run[0]), run[1..]);
    }
  }

  // ---------- `recv_all` never waits and returns exactly the front of the channel ----------

  /** While receives are outstanding the channel holds an item for each, so `recv` never has to wait. */
  lemma ReceiveNeverWaits<T>(s: State<T>, run: seq<Action<T>>)
    requires Init(s) && IsRun(s, run)
    ensures var t := After(s, run);
            && Left(t.consumer) <= |t.channel|
            && (t.consumer.Draining? ==> Enabled(t, if t.consumer.left > 0 then Receive else Return))
  {
    InitIsValid(s);
    RunKeepsValid(s, run);
  }

  function PushedIn<T>(run: seq<Action<T>>): seq<T> {
    if |run| == 0 then [] else (if run[0].Push? then [run[0].item] else []) + PushedIn(run[1..])
  }

  /** What the current call of `recv_all` has taken out of the channel so far. */
  function Taken<T>(c: Consumer<T>): seq<T> {
    match c
    case Resting => []
    case Draining(_, buffered) => buffered
    case Received(_, buffered, item) => buffered + [item]
  }

  predicate DuringOneCall<T>(run: seq<Action<T>>) {
    forall i :: 0 <= i < |run| ==> !run[i].Load? && !run[i].Return?
  }

  lemma StepConservesItems<T>(s: State<T>, a: Action<T>)
    requires Enabled(s, a) && !a.Load? && !a.Return?
    ensures var t := Apply(s, a);
            && Taken(t.consumer) + t.channel == Taken(s.consumer) + s.channel + (if a.Push? then [a.item] else [])
            && (s.consumer.Resting? <==> t.consumer.Resting?)
            && (!s.consumer.Resting? ==> |Taken(t.consumer)| + t.consumer.left == |Taken(s.consumer)| + s.consumer.left)
  {
  }

  /** Until the call returns, items only move from the front of the channel to the batch. */
  lemma {:induction false} ItemsAreConserved<T>(s: State<T>, run: seq<Action<T>>)
    requires IsRun(s, run) && DuringOneCall(run)
    ensures Taken(After(s, run).consumer) + After(s, run).channel
         == Taken(s.consumer) + s.channel + PushedIn(run)
    ensures !s.consumer.Resting? ==>
              !After(s, run).consumer.Resting? &&
              |Taken(After(s, run).consumer)| + After(s, run).consumer.left == |Taken(s.consumer)| + s.consumer.left
    decreases |run|
  {
    if |run| > 0 {
      var t := Apply(s, run[0]);
      assert !run[0].Load? && !run[0].Return?;
      assert forall i :: 0 <= i < |run[1..]| ==> run[1..][i] == run[i + 1];
      ItemsAreConserved(t, run[1..]);
      var pushed := if run[0].Push? then [run[0].item] else [];
      StepConservesItems(s, run[0]);
      Regroup(Taken(s.consumer) + s.channel, pushed, PushedIn(run[1..]));
    }
  }

  /**
   Whatever the producers do meanwhile, the batch `recv_all` returns is the
   first `count` items of the channel at the moment it read `count`, in order.
   */
  lemma BatchIsFrontOfChannel<T>(init: State<T>, before: seq<Action<T>>, during: seq<Action<T>>)
    requires Init(init) && IsRun(init, before)
    requires var s := After(init, before);
             && Enabled(s, Load) && s.count > 0
             && IsRun(Apply(s, Load), during) && DuringOneCall(during)
             && Enabled(After(Apply(s, Load), during), Return)
    ensures var s := After(init, before);
            && s.count <= |s.channel|
            && After(Apply(s, Load), during).consumer.buffered == s.channel[..s.count]
  {
    var s := After(init, before);
    InitIsValid(init);
    RunKeepsValid(init, before);
    var t := Apply(s, Load);
    ItemsAreConserved(t, during);
    var batch := After(t, during).consumer.buffered;
    assert |batch| == s.count;
    assert batch == (batch + After(t, during).channel)[..s.count];
    assert batch == (s.channel + PushedIn(during))[..s.count];
  }

  // ---------- Items are refused only by a full channel ----------

  /** The state before step k, or after the last step. */
  function At<T>(s: State<T>, run: seq<Action<T>>, k: nat): State<T>
    requires IsRun(s, run) && k <= |run|
    decreases k
  {
    if k == 0 then s else At(Apply(s, run[0]), run[1..], k - 1)
  }

  lemma {:induction false} ValidAt<T>(s: State<T>, run: seq<Action<T>>, k: nat)
    requires Valid(s) && IsRun(s, run) && k <= |run|
    ensures Valid(At(s, run, k)) && At(s, run, k).capacity == s.capacity
    ensures k < |run| ==> Enabled(At(s, run, k), run[k]) && At(s, run, k + 1) == Apply(At(s, run, k), run[k])
    decreases k
  {
    if k > 0 {
      StepKeepsValid(s, run[0]);
      ValidAt(Apply(s, run[0]), run[1..], k - 1);
    }
  }

  /** In every interleaving a refusal finds `capacity` items in the channel, and takes nothing out of it. */
  lemma RefusedOnlyWhenFull<T>(s: State<T>, run: seq<Action<T>>, k: nat)
    requires Init(s) && IsRun(s, run) && k < |run| && run[k].PushRefused?
    ensures |At(s, run, k).channel| == s.capacity && At(s, run, k + 1) == At(s, run, k)
  {
    InitIsValid(s);
    ValidAt(s, run, k);
  }

  /** An idle producer is never stuck: below capacity it can push and not be refused, at capacity the other way. */
  lemma PushOrRefusal<T>(s: State<T>, p: nat, item: T)
    requires Valid(s) && p < |s.producers| && s.producers[p].Idle?
    ensures Enabled(s, Push(p, item)) <==> |s.channel| < s.capacity
    ensures Enabled(s, PushRefused(p)) <==> |s.channel| == s.capacity
  {
  }

  // ---------- `try_send` and `recv_all` as written ----------

  /** The steps of one producer in an uninterrupted call of `try_send`. */
  function TrySendRun<T>(message: T, fits: bool): seq<Action<T>> {
    if fits then [Push(0, message), FetchAdd(0)] else [PushRefused(0)]
  }

  /** n receives, each followed by its subtraction. */
  function Drain<T>(n: nat): seq<Action<T>> {
    if n == 0 then [] else [Receive, FetchSub] + Drain<T>(n - 1)
  }

  /** The steps of the consumer in a call of `recv_all` that reads this counter and nobody interrupts. */
  function RecvAllRun<T>(count: int): seq<Action<T>> {
    if count <= 0 then [Load] else [Load] + Drain<T>(count) + [Return]
  }

  lemma {:induction false} DrainRun<T>(s: State<T>)
    requires s.consumer.Draining? && s.consumer.left <= |s.channel|
    requires s.consumer.left <= s.count < I32_LIMIT
    ensures var run := Drain<T>(s.consumer.left) + [Return];
            && IsRun(s, run)
            && After(s, run) == s.(channel := s.channel[s.consumer.left..], count := s.count - s.consumer.left,
                                   consumer := Resting)
    decreases s.consumer.left
  {
    var n := s.consumer.left;
    var run := Drain<T>(n) + [Return];
    if n == 0 {
      assert run == [Return] && run[1..] == [];
    } else {
      var t := Apply(s, Receive);
      var u := Apply(t, FetchSub);
      assert run[0] == Receive && run[1..][0] == FetchSub;
      assert run[1..][1..] == Drain<T>(n - 1) + [Return];
      DrainRun(u);
      assert u.channel[n - 1..] == s.channel[n..];
    }
  }

  lemma OneStep<T>(s: State<T>, a: Action<T>)
    requires Enabled(s, a)
    ensures IsRun(s, [a]) && After(s, [a]) == Apply(s, a)
  {
    assert [a][1..] == [];
  }

  lemma TwoSteps<T>(s: State<T>, a: Action<T>, b: Action<T>)
    requires Enabled(s, a) && Enabled(Apply(s, a), b)
    ensures IsRun(s, [a, b]) && After(s, [a, b]) == Apply(Apply(s, a), b)
  {
    assert [a, b][1..] == [b];
    OneStep(Apply(s, a), b);
  }

  lemma WholeRecvAll<T>(s: State<T>)
    requires Valid(s) && s.consumer.Resting? && s.count == |s.channel|
    ensures IsRun(s, RecvAllRun<T>(s.count)) && After(s, RecvAllRun<T>(s.count)) == s.(channel := [], count := 0)
  {
    if s.count == 0 {
      OneStep(s, Load);
      assert s.channel == [];
    } else {
      var run := RecvAllRun<T>(s.count);
      assert run[1..] == Drain<T>(s.count) + [Return];
      DrainRun(Apply(s, Load));
    }
  }

  /** The channel and its counter, with the code of the two functions run without interruption. */
  class Channel<T> {
    const capacity: nat
    var channel: seq<T>
    var count: int

    /** `counted_channel` */
    constructor (buffer: nat)
      requires buffer + 1 < I32_LIMIT
      ensures View() == State(buffer, [], 0, [Idle], Resting) && Counted()
    {
      capacity, channel, count := buffer, [], 0;
    }

    ghost function View(): State<T>
      reads this
    {
      State(capacity, channel, count, [Idle], Resting)
    }

    ghost predicate Counted()
      reads this
    {
      Valid(View())
    }

    method TrySend(message: T) returns (ok: bool)
      requires Counted()
      modifies this
      ensures Counted()
      ensures ok <==> |old(channel)| < capacity
      ensures channel == if ok then old(channel) + [message] else old(channel)
      ensures IsRun(old(View()), TrySendRun(message, ok)) && View() == After(old(View()), TrySendRun(message, ok))
    {
      if |channel| >= capacity {
        OneStep(View(), PushRefused(0));
        return false;
      }
      TwoSteps(View(), Push(0, message), FetchAdd(0));
      channel := channel + [message];
      count := WrapI32(count + 1);
      return true;
    }

    /** Without interruption every item in the channel is counted, so the call empties it. */
    method RecvAll() returns (buffered: seq<T>)
      requires Counted()
      modifies this
      ensures Counted()
      ensures buffered == old(channel) && channel == []
      ensures IsRun(old(View()), RecvAllRun<T>(old(count)))
      ensures View() == After(old(View()), RecvAllRun<T>(old(count)))
    {
      WholeRecvAll(View());
      var n := count;
      buffered := [];
      if n <= 0 {
        return;
      }
      for i := 0 to n
        invariant |channel| == count == n - i
        invariant buffered + channel == old(channel)
      {
        var data := channel[0];
        channel := channel[1..];
        count := WrapI32(count - 1);
        buffered := buffered + [data];
      }
    }
  }
}
