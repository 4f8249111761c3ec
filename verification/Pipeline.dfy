/**
 The whole way of a segment: the workers' queue, the receiving task that parses
 what it pops and forwards it into the bounded channel, the sending task that
 drains the channel in batches, and the start-up that holds the sender back
 (src/reporter/ipc.rs and src/reporter/grpc.rs).

 The state is that of the three component machines, what the receiving task
 holds, and a history of what was pushed, what became of each message, and the
 batches handed to the collector.
 */
module Pipeline {
  import opened Wrappers
  import opened SegmentJson
  import opened SegmentRoundTrip
  import Ipc = IpcQueue
  import Chan = CountedChannel
  import Boot = Startup

  type Message = Ipc.Message

  /** What a received text parses to, if anything. */
  type Parser = Message -> Option<Segment>

  /** What became of a received message. */
  datatype Outcome = Forwarded(segment: Segment) | Empty | Unparsable | ChannelFull

  datatype Handled = Handled(message: Message, outcome: Outcome)

  /** The receiving task: waiting in `receive`, or holding what `receive` returned. */
  datatype Hand = Nothing | Holding(message: Message)

  datatype State = State(
    ipc: Ipc.State,
    hand: Hand,
    chan: Chan.State<Segment>,
    boot: Boot.State,
    pushed: seq<Message>,
    handled: seq<Handled>,
    batches: seq<seq<Segment>>)

  datatype Action =
    | Worker(a: Ipc.Action)
    | PopMessage
    | FinishReceive
    | DropEmpty
    | DropUnparsable
    | DropFull
    | Forward
    | CountForwarded
    | BootStep(b: Boot.Action)
    | LoadCount
    | TakeItem
    | UncountItem
    | CollectBatch

  /** `worker` creates the channel with this capacity and runs one receiving task, which is its only producer. */
  const CHANNEL_CAPACITY := 5000

  predicate Init(s: State) {
    && Ipc.Init(s.ipc)
    && s.hand == Nothing
    && s.chan == Chan.State(CHANNEL_CAPACITY, [], 0, [Chan.Producer.Idle], Chan.Consumer.Resting)
    && s.boot == Boot.INITIAL
    && s.pushed == [] && s.handled == [] && s.batches == []
  }

  predicate ReceiverFree(s: State) {
    s.hand.Nothing? && s.chan.producers == [Chan.Producer.Idle]
  }

  predicate Enabled(parse: Parser, s: State, a: Action) {
    match a
    case Worker(w) => !w.Pop? && !w.FetchSub? && Ipc.Enabled(s.ipc, w)
    case PopMessage => ReceiverFree(s) && Ipc.Enabled(s.ipc, Ipc.Pop)
    case FinishReceive => ReceiverFree(s) && Ipc.Enabled(s.ipc, Ipc.FetchSub)
    case DropEmpty => s.hand.Holding? && s.hand.message == ""
    case DropUnparsable => s.hand.Holding? && s.hand.message != "" && parse(s.hand.message).None?
    case DropFull =>
      && s.hand.Holding? && s.hand.message != "" && parse(s.hand.message).Some?
      && Chan.Enabled(s.chan, Chan.PushRefused(0))
    case Forward =>
      && s.hand.Holding? && s.hand.message != "" && parse(s.hand.message).Some?
      && Chan.Enabled(s.chan, Chan.Push(0, parse(s.hand.message).value))
    case CountForwarded => Chan.Enabled(s.chan, Chan.FetchAdd(0))
    case BootStep(b) => !b.SenderRound? && Boot.Enabled(s.boot, b)
    case LoadCount => s.boot.sender.Ready? && Chan.Enabled(s.chan, Chan.Load)
    case TakeItem => Chan.Enabled(s.chan, Chan.Receive)
    case UncountItem => Chan.Enabled(s.chan, Chan.FetchSub)
    case CollectBatch => s.boot.sender.Ready? && Chan.Enabled(s.chan, Chan.Return)
  }

  function Handle(s: State, outcome: Outcome): State
    requires s.hand.Holding?
  {
    s.(hand := Nothing, handled := s.handled + [Handled(s.hand.message, outcome)])
  }

  function Apply(parse: Parser, s: State, a: Action): State
    requires Enabled(parse, s, a)
  {
    match a
    case Worker(w) => s.(ipc := Ipc.Apply(s.ipc, w), pushed := s.pushed + Ipc.PushedBy(s.ipc, w))
    case PopMessage => s.(ipc := Ipc.Apply(s.ipc, Ipc.Pop))
    case FinishReceive =>
      s.(ipc := Ipc.Apply(s.ipc, Ipc.FetchSub), hand := Holding(s.ipc.receiver.data))
    case DropEmpty => Handle(s, Empty)
    case DropUnparsable => Handle(s, Unparsable)
    case DropFull => Handle(s, ChannelFull)
    case Forward =>
      var segment := parse(s.hand.message).value;
      Handle(s, Forwarded(segment)).(chan := Chan.Apply(s.chan, Chan.Push(0, segment)))
    case CountForwarded => s.(chan := Chan.Apply(s.chan, Chan.FetchAdd(0)))
    case BootStep(b) => s.(boot := Boot.Apply(s.boot, b))
    case LoadCount =>
      var chan := Chan.Apply(s.chan, Chan.Load);
      if chan.consumer.Resting? then s.(boot := Boot.Apply(s.boot, Boot.SenderRound(false)))
      else s.(chan := chan)
    case TakeItem => s.(chan := Chan.Apply(s.chan, Chan.Receive))
    case UncountItem => s.(chan := Chan.Apply(s.chan, Chan.FetchSub))
    case CollectBatch =>
      s.(chan := Chan.Apply(s.chan, Chan.Return),
         boot := Boot.Apply(s.boot, Boot.SenderRound(true)),
         batches := s.batches + [s.chan.consumer.buffered])
  }

  predicate IsRun(parse: Parser, s: State, run: seq<Action>)
    decreases |run|
  {
    run == [] || (Enabled(parse, s, run[0]) && IsRun(parse, Apply(parse, s, run[0]), run[1..]))
  }

  function After(parse: Parser, s: State, run: seq<Action>): State
    requires IsRun(parse, s, run)
    decreases |run|
  {
    if run == [] then s else After(parse, Apply(parse, s, run[0]), run[1..])
  }

  // ---------- The history ----------

  function Messages(handled: seq<Handled>): (ms: seq<Message>)
    ensures |ms| == |handled|
  {
    seq(|handled|, i requires 0 <= i < |handled| => handled[i].message)
  }

  /** The segments that went into the channel, in order. */
  function Kept(handled: seq<Handled>): seq<Segment> {
    if handled == [] then []
    else Kept(handled[..|handled| - 1]) +
         (if handled[|handled| - 1].outcome.Forwarded? then [handled[|handled| - 1].outcome.segment] else [])
  }

  function Flatten<T>(batches: seq<seq<T>>): seq<T> {
    if |batches| == 0 then [] else Flatten(batches[..|batches| - 1]) + batches[|batches| - 1]
  }

  /** A message is dropped only if it is empty, does not parse, or finds the channel full. */
  predicate OutcomeOk(parse: Parser, h: Handled) {
    match h.outcome
    case Empty => h.message == ""
    case Unparsable => h.message != "" && parse(h.message).None?
    case ChannelFull => h.message != "" && parse(h.message).Some?
    case Forwarded(segment) => h.message != "" && parse(h.message) == Some(segment)
  }

  /** The message between the queue and the receiving task's decision, if any. */
  function InTransit(s: State): seq<Message> {
    (match s.hand case Nothing => [] case Holding(m) => [m]) +
    (match s.ipc.receiver case Waiting => [] case Popped(m) => [m])
  }

  /** Where the tasks stand; with the components' own invariants this is `Coordinated`. */
  predicate InPlace(s: State) {
    && |s.chan.producers| == 1 && s.chan.capacity == CHANNEL_CAPACITY
    && (s.hand.Holding? ==> s.ipc.receiver.Waiting? && s.chan.producers == [Chan.Producer.Idle])
    && (!s.chan.consumer.Resting? ==> s.boot.sender.Ready?)
    && (s.batches != [] ==> s.boot.login.LoginDone?)
  }

  /** Each component keeps its own invariant, and the tasks are where the others expect them. */
  predicate Coordinated(s: State) {
    Ipc.Valid(s.ipc) && Chan.Valid(s.chan) && Boot.Valid(s.boot) && InPlace(s)
  }

  /** Every message and every segment is accounted for, in order. */
  predicate Accounted(parse: Parser, s: State) {
    && s.pushed == Messages(s.handled) + InTransit(s) + s.ipc.queue
    && Kept(s.handled) == Flatten(s.batches) + Chan.Taken(s.chan.consumer) + s.chan.channel
    && forall i :: 0 <= i < |s.handled| ==> OutcomeOk(parse, s.handled[i])
  }

  lemma InitIsValid(parse: Parser, s: State)
    requires Init(s)
    ensures Coordinated(s) && Accounted(parse, s)
  {
    Ipc.InitIsValid(s.ipc);
    Chan.InitIsValid(s.chan);
    Boot.InitialIsValid();
  }

  predicate OfHand(a: Action) {
    a.DropEmpty? || a.DropUnparsable? || a.DropFull? || a.Forward?
  }

  /** The step of the bounded channel that an action stands for, if it is one. */
  function ChanStep(parse: Parser, s: State, a: Action): Option<Chan.Action<Segment>>
    requires Enabled(parse, s, a)
  {
    match a
    case DropFull => Some(Chan.PushRefused(0))
    case Forward => Some(Chan.Push(0, parse(s.hand.message).value))
    case CountForwarded => Some(Chan.FetchAdd(0))
    case LoadCount => Some(Chan.Load)
    case TakeItem => Some(Chan.Receive)
    case UncountItem => Some(Chan.FetchSub)
    case CollectBatch => Some(Chan.Return)
    case _ => None
  }

  function BootStepOf(s: State, a: Action): Option<Boot.Action> {
    match a
    case BootStep(b) => Some(b)
    case LoadCount => if s.chan.count <= 0 then Some(Boot.SenderRound(false)) else None
    case CollectBatch => Some(Boot.SenderRound(true))
    case _ => None
  }

  function IpcStep(a: Action): Option<Ipc.Action> {
    match a
    case Worker(w) => Some(w)
    case PopMessage => Some(Ipc.Pop)
    case FinishReceive => Some(Ipc.FetchSub)
    case _ => None
  }

  /** Every step of the pipeline is one step, or none, of each component. */
  lemma StepIsComponentSteps(parse: Parser, s: State, a: Action)
    requires Coordinated(s) && Enabled(parse, s, a)
    ensures var i := IpcStep(a);
            if i.Some? then Ipc.Enabled(s.ipc, i.value) && Apply(parse, s, a).ipc == Ipc.Apply(s.ipc, i.value)
            else Apply(parse, s, a).ipc == s.ipc
    ensures var c := ChanStep(parse, s, a);
            if c.Some? then Chan.Enabled(s.chan, c.value) && Apply(parse, s, a).chan == Chan.Apply(s.chan, c.value)
            else Apply(parse, s, a).chan == s.chan
    ensures var b := BootStepOf(s, a);
            if b.Some? then Boot.Enabled(s.boot, b.value) && Apply(parse, s, a).boot == Boot.Apply(s.boot, b.value)
            else Apply(parse, s, a).boot == s.boot
  {
  }

  lemma ComponentsStayValid(parse: Parser, s: State, a: Action)
    requires Coordinated(s) && Enabled(parse, s, a)
    ensures var t := Apply(parse, s, a); Ipc.Valid(t.ipc) && Chan.Valid(t.chan) && Boot.Valid(t.boot)
  {
    StepIsComponentSteps(parse, s, a);
    var i, c, b := IpcStep(a), ChanStep(parse, s, a), BootStepOf(s, a);
    if i.Some? {
      Ipc.StepKeepsValid(s.ipc, i.value);
    }
    if c.Some? {
      Chan.StepKeepsValid(s.chan, c.value);
    }
    if b.Some? {
      Boot.StepKeepsValid(s.boot, b.value);
    }
  }

  lemma StepKeepsPlaces(parse: Parser, s: State, a: Action)
    requires InPlace(s) && (s.boot.sender.Ready? ==> s.boot.login.LoginDone?) && Enabled(parse, s, a)
    ensures InPlace(Apply(parse, s, a))
  {
  }

  lemma StepKeepsCoordinated(parse: Parser, s: State, a: Action)
    requires Coordinated(s) && Enabled(parse, s, a)
    ensures Coordinated(Apply(parse, s, a))
  {
    ComponentsStayValid(parse, s, a);
    StepKeepsPlaces(parse, s, a);
  }

  lemma HandledAppend(handled: seq<Handled>, h: Handled)
    ensures Messages(handled + [h]) == Messages(handled) + [h.message]
    ensures Kept(handled + [h]) == Kept(handled) + if h.outcome.Forwarded? then [h.outcome.segment] else []
  {
    assert (handled + [h])[..|handled|] == handled;
  }

  lemma FlattenAppend<T>(batches: seq<seq<T>>, batch: seq<T>)
    ensures Flatten(batches + [batch]) == Flatten(batches) + batch
  {
    assert (batches + [batch])[..|batches|] == batches;
  }

  /** Nothing is decided, and messages at most move from the queue into the receiving task, behind `more` new ones. */
  lemma MessagesOnlyMove(parse: Parser, s: State, t: State, more: seq<Message>)
    requires Accounted(parse, s)
    requires t.handled == s.handled && t.batches == s.batches && t.chan == s.chan && t.pushed == s.pushed + more
    requires InTransit(t) + t.ipc.queue == InTransit(s) + s.ipc.queue + more
    ensures Accounted(parse, t)
  {
    Regroup(Messages(s.handled), InTransit(s), s.ipc.queue);
    Regroup(Messages(s.handled), InTransit(s) + s.ipc.queue, more);
    Regroup(Messages(s.handled), InTransit(t), t.ipc.queue);
  }

  lemma WorkerStepKeepsAccounts(parse: Parser, s: State, a: Ipc.Action)
    requires Coordinated(s) && Accounted(parse, s) && Enabled(parse, s, Worker(a))
    ensures Accounted(parse, Apply(parse, s, Worker(a)))
  {
    var t, more := Apply(parse, s, Worker(a)), Ipc.PushedBy(s.ipc, a);
    assert t.ipc.queue == s.ipc.queue + more && InTransit(t) == InTransit(s);
    Regroup(InTransit(s), s.ipc.queue, more);
    MessagesOnlyMove(parse, s, t, more);
  }

  lemma PopKeepsAccounts(parse: Parser, s: State)
    requires Coordinated(s) && Accounted(parse, s) && Enabled(parse, s, PopMessage)
    ensures Accounted(parse, Apply(parse, s, PopMessage))
  {
    var t := Apply(parse, s, PopMessage);
    var front := [s.ipc.queue[0]];
    assert InTransit(s) == [] && InTransit(t) == front;
    assert front + t.ipc.queue == s.ipc.queue == [] + s.ipc.queue + [];
    assert t.pushed == s.pushed + [];
    MessagesOnlyMove(parse, s, t, []);
  }

  lemma FinishKeepsAccounts(parse: Parser, s: State)
    requires Coordinated(s) && Accounted(parse, s) && Enabled(parse, s, FinishReceive)
    ensures Accounted(parse, Apply(parse, s, FinishReceive))
  {
    var t := Apply(parse, s, FinishReceive);
    assert InTransit(t) == InTransit(s) == [s.ipc.receiver.data];
    assert InTransit(s) + s.ipc.queue == InTransit(s) + s.ipc.queue + [];
    assert t.pushed == s.pushed + [];
    MessagesOnlyMove(parse, s, t, []);
  }

  /** The one message in transit is decided, and its segment goes into the channel if it is kept. */
  lemma DecisionIsAccounted(parse: Parser, s: State, t: State, h: Handled)
    requires Accounted(parse, s) && OutcomeOk(parse, h)
    requires t.handled == s.handled + [h] && InTransit(s) == [h.message] && InTransit(t) == []
    requires t.ipc == s.ipc && t.pushed == s.pushed && t.batches == s.batches && t.chan.consumer == s.chan.consumer
    requires t.chan.channel == s.chan.channel + if h.outcome.Forwarded? then [h.outcome.segment] else []
    ensures Accounted(parse, t)
  {
    HandledAppend(s.handled, h);
    assert Messages(t.handled) + InTransit(t) == Messages(s.handled) + InTransit(s);
    var added := if h.outcome.Forwarded? then [h.outcome.segment] else [];
    Regroup(Flatten(s.batches) + Chan.Taken(s.chan.consumer), s.chan.channel, added);
  }

  /** A decision moves the held message to the list of decided ones, and a forwarded segment into the channel. */
  lemma HandStepKeepsAccounts(parse: Parser, s: State, a: Action)
    requires Coordinated(s) && Accounted(parse, s) && Enabled(parse, s, a) && OfHand(a)
    ensures Accounted(parse, Apply(parse, s, a))
  {
    DecisionIsAccounted(parse, s, Apply(parse, s, a), DecisionOf(parse, s, a));
  }

  function DecisionOf(parse: Parser, s: State, a: Action): Handled
    requires Enabled(parse, s, a) && OfHand(a)
  {
    Handled(s.hand.message,
            if a.DropEmpty? then Empty else if a.DropUnparsable? then Unparsable
            else if a.DropFull? then ChannelFull else Forwarded(parse(s.hand.message).value))
  }

  /** Nothing happens to the messages, and kept segments at most move from the channel into batches. */
  lemma SegmentsOnlyMove(parse: Parser, s: State, t: State)
    requires Accounted(parse, s)
    requires t.ipc == s.ipc && t.hand == s.hand && t.pushed == s.pushed && t.handled == s.handled
    requires Flatten(t.batches) + Chan.Taken(t.chan.consumer) + t.chan.channel
          == Flatten(s.batches) + Chan.Taken(s.chan.consumer) + s.chan.channel
    ensures Accounted(parse, t)
  {
  }

  /** Draining moves items from the front of the channel into the batch. */
  lemma DrainKeepsAccounts(parse: Parser, s: State, a: Action)
    requires Coordinated(s) && Accounted(parse, s) && Enabled(parse, s, a) && (a.TakeItem? || a.UncountItem?)
    ensures Accounted(parse, Apply(parse, s, a))
  {
    var t := Apply(parse, s, a);
    Chan.StepConservesItems(s.chan, ChanStep(parse, s, a).value);
    Regroup(Flatten(s.batches), Chan.Taken(s.chan.consumer), s.chan.channel);
    Regroup(Flatten(t.batches), Chan.Taken(t.chan.consumer), t.chan.channel);
    SegmentsOnlyMove(parse, s, t);
  }

  lemma NothingBetween<T>(a: seq<T>, b: seq<T>)
    ensures a + [] + b == a + b
  {
  }

  lemma CollectKeepsAccounts(parse: Parser, s: State)
    requires Coordinated(s) && Accounted(parse, s) && Enabled(parse, s, CollectBatch)
    ensures Accounted(parse, Apply(parse, s, CollectBatch))
  {
    var t := Apply(parse, s, CollectBatch);
    var batch := s.chan.consumer.buffered;
    FlattenAppend(s.batches, batch);
    assert t.chan.channel == s.chan.channel && t.chan.consumer.Resting? && Chan.Taken(t.chan.consumer) == [];
    NothingBetween(Flatten(s.batches) + batch, s.chan.channel);
    SegmentsOnlyMove(parse, s, t);
  }

  lemma OtherStepKeepsAccounts(parse: Parser, s: State, a: Action)
    requires Coordinated(s) && Accounted(parse, s) && Enabled(parse, s, a)
    requires a.CountForwarded? || a.BootStep? || a.LoadCount?
    ensures Accounted(parse, Apply(parse, s, a))
  {
    var t := Apply(parse, s, a);
    assert t.chan.channel == s.chan.channel && Chan.Taken(t.chan.consumer) == Chan.Taken(s.chan.consumer);
    SegmentsOnlyMove(parse, s, t);
  }

  lemma StepKeepsAccounts(parse: Parser, s: State, a: Action)
    requires Coordinated(s) && Accounted(parse, s) && Enabled(parse, s, a)
    ensures Accounted(parse, Apply(parse, s, a))
  {
    if a.Worker? {
      WorkerStepKeepsAccounts(parse, s, a.a);
    } else if a.PopMessage? {
      PopKeepsAccounts(parse, s);
    } else if a.FinishReceive? {
      FinishKeepsAccounts(parse, s);
    } else if OfHand(a) {
      HandStepKeepsAccounts(parse, s, a);
    } else if a.TakeItem? || a.UncountItem? {
      DrainKeepsAccounts(parse, s, a);
    } else if a.CollectBatch? {
      CollectKeepsAccounts(parse, s);
    } else {
      OtherStepKeepsAccounts(parse, s, a);
    }
  }

  lemma {:induction false} RunKeepsValid(parse: Parser, s: State, run: seq<Action>)
    requires Coordinated(s) && Accounted(parse, s) && IsRun(parse, s, run)
    ensures Coordinated(After(parse, s, run)) && Accounted(parse, After(parse, s, run))
    decreases |run|
  {
    if run != [] {
      StepKeepsCoordinated(parse, s, run[0]);
      StepKeepsAccounts(parse, s, run[0]);
      RunKeepsValid(parse, Apply(parse, s, run[0]), run[1..]);
    }
  }

  /** The workers and the start-up take their steps whatever the reporter does. */
  lemma OthersAreNotHeldUp(parse: Parser, s: State, w: Ipc.Action, b: Boot.Action)
    ensures Enabled(parse, s, Worker(w)) <==> !w.Pop? && !w.FetchSub? && Ipc.Enabled(s.ipc, w)
    ensures Enabled(parse, s, BootStep(b)) <==> !b.SenderRound? && Boot.Enabled(s.boot, b)
  {
  }

  // ---------- Delivery ----------

  /** The positions of the messages that went into the channel. */
  function KeptAt(handled: seq<Handled>): seq<nat> {
    if handled == [] then []
    else KeptAt(handled[..|handled| - 1]) +
         (if handled[|handled| - 1].outcome.Forwarded? then [|handled| - 1] else [])
  }

  predicate Increasing(positions: seq<nat>, bound: nat) {
    && (forall k :: 0 <= k < |positions| ==> positions[k] < bound)
    && (forall j, k :: 0 <= j < k < |positions| ==> positions[j] < positions[k])
  }

  lemma {:induction false} KeptAtSelects(handled: seq<Handled>)
    ensures |KeptAt(handled)| == |Kept(handled)| && Increasing(KeptAt(handled), |handled|)
    ensures forall k :: 0 <= k < |Kept(handled)| ==> handled[KeptAt(handled)[k]].outcome == Forwarded(Kept(handled)[k])
  {
    if handled != [] {
      var init := handled[..|handled| - 1];
      KeptAtSelects(init);
      assert forall k :: 0 <= k < |Kept(init)| ==> handled[KeptAt(init)[k]] == init[KeptAt(init)[k]];
    }
  }

  /**
   In every reachable state: the pushed messages are those the receiving task
   has decided about, the one on its way and the queued ones; and the segments
   it kept are the collected batches, the partly drained batch and the channel.
   A message finds the channel full only behind 5000 kept ones.
   */
  lemma EndToEndLaw(parse: Parser, s: State, run: seq<Action>)
    requires Init(s) && IsRun(parse, s, run)
    ensures var t := After(parse, s, run);
            && t.pushed == Messages(t.handled) + InTransit(t) + t.ipc.queue && |InTransit(t)| <= 1
            && Kept(t.handled) == Flatten(t.batches) + Chan.Taken(t.chan.consumer) + t.chan.channel
            && (forall i :: 0 <= i < |t.handled| ==> OutcomeOk(parse, t.handled[i]))
            && FullDropsAreLate(t.handled)
  {
    InitIsValid(parse, s);
    RunKeepsValid(parse, s, run);
    RunKeepsDropsLate(parse, s, run);
  }

  /**
   Delivery is in order and at most once: the collected segments stem from
   strictly increasing positions among the pushed messages.
   */
  lemma DeliveredInOrderAtMostOnce(parse: Parser, s: State, run: seq<Action>) returns (from: seq<nat>)
    requires Init(s) && IsRun(parse, s, run)
    ensures var t := After(parse, s, run);
            && |from| == |Flatten(t.batches)| && Increasing(from, |t.pushed|)
            && forall k :: 0 <= k < |from| ==> parse(t.pushed[from[k]]) == Some(Flatten(t.batches)[k])
  {
    EndToEndLaw(parse, s, run);
    var t := After(parse, s, run);
    KeptAtSelects(t.handled);
    from := KeptAt(t.handled)[..|Flatten(t.batches)|];
    forall k | 0 <= k < |from| ensures parse(t.pushed[from[k]]) == Some(Flatten(t.batches)[k]) {
      var h := t.handled[from[k]];
      assert h.outcome == Forwarded(Kept(t.handled)[k]) && OutcomeOk(parse, h);
      assert t.pushed[from[k]] == Messages(t.handled)[from[k]] == h.message;
    }
  }

  /** Nothing is taken out of the channel, let alone collected, before the reporter has logged in. */
  lemma NothingCollectedBeforeLogin(parse: Parser, s: State, run: seq<Action>)
    requires Init(s) && IsRun(parse, s, run)
    requires After(parse, s, run).batches != [] || !After(parse, s, run).chan.consumer.Resting?
    ensures var boot := After(parse, s, run).boot;
            boot.channel.Some? && Boot.BootLog(boot.channel.value) <= boot.log
  {
    InitIsValid(parse, s);
    RunKeepsValid(parse, s, run);
  }

  /** Both counters hold what their laws say at every state of the whole pipeline, so neither queue overflows. */
  lemma BothQueuesStayBounded(parse: Parser, s: State, run: seq<Action>)
    requires Init(s) && IsRun(parse, s, run)
    ensures var t := After(parse, s, run);
            && |t.ipc.queue| <= Ipc.MAX_MESSAGE_QUEUE_COUNT
            && |t.chan.channel| <= CHANNEL_CAPACITY
            && Ipc.InFlight(t.ipc) <= t.ipc.count
            && Chan.Left(t.chan.consumer) <= |t.chan.channel|
  {
    InitIsValid(parse, s);
    RunKeepsValid(parse, s, run);
  }

  // ---------- What is dropped, and when ----------

  /** The state before step k, or after the last step. */
  function At(parse: Parser, s: State, run: seq<Action>, k: nat): State
    requires IsRun(parse, s, run) && k <= |run|
    decreases k
  {
    if k == 0 then s else At(parse, Apply(parse, s, run[0]), run[1..], k - 1)
  }

  lemma {:induction false} StepAt(parse: Parser, s: State, run: seq<Action>, k: nat)
    requires IsRun(parse, s, run) && k <= |run|
    ensures k < |run| ==>
              Enabled(parse, At(parse, s, run, k), run[k]) &&
              At(parse, s, run, k + 1) == Apply(parse, At(parse, s, run, k), run[k])
    ensures k == |run| ==> At(parse, s, run, k) == After(parse, s, run)
    decreases k
  {
    if k > 0 {
      StepAt(parse, Apply(parse, s, run[0]), run[1..], k - 1);
    }
  }

  lemma {:induction false} ValidAt(parse: Parser, s: State, run: seq<Action>, k: nat)
    requires Coordinated(s) && Accounted(parse, s) && IsRun(parse, s, run) && k <= |run|
    ensures Coordinated(At(parse, s, run, k)) && Accounted(parse, At(parse, s, run, k))
    decreases k
  {
    if k > 0 {
      StepKeepsCoordinated(parse, s, run[0]);
      StepKeepsAccounts(parse, s, run[0]);
      ValidAt(parse, Apply(parse, s, run[0]), run[1..], k - 1);
    }
  }

  /** A segment is dropped for lack of room only while 5000 others stand in the channel. */
  lemma DroppedOnlyWhenFull(parse: Parser, s: State, run: seq<Action>, k: nat)
    requires Init(s) && IsRun(parse, s, run) && k < |run| && run[k].DropFull?
    ensures |At(parse, s, run, k).chan.channel| == 5000
    ensures At(parse, s, run, k + 1).chan == At(parse, s, run, k).chan
  {
    InitIsValid(parse, s);
    ValidAt(parse, s, run, k);
    StepAt(parse, s, run, k);
  }

  /** What becomes of a message is settled by the message and the room in the channel: one decision is open to it. */
  lemma OneDecisionIsOpen(parse: Parser, s: State)
    requires Coordinated(s) && s.hand.Holding?
    ensures var m := s.hand.message;
            && (Enabled(parse, s, DropEmpty) <==> m == "")
            && (Enabled(parse, s, DropUnparsable) <==> m != "" && parse(m).None?)
            && (Enabled(parse, s, DropFull) <==> m != "" && parse(m).Some? && |s.chan.channel| == 5000)
            && (Enabled(parse, s, Forward) <==> m != "" && parse(m).Some? && |s.chan.channel| < 5000)
  {
  }

  /** Every message dropped for lack of room has 5000 kept segments in front of it. */
  ghost predicate FullDropsAreLate(handled: seq<Handled>) {
    forall i :: 0 <= i < |handled| && handled[i].outcome.ChannelFull? ==> |Kept(handled[..i])| >= 5000
  }

  lemma LateDropsAppend(handled: seq<Handled>, h: Handled)
    requires FullDropsAreLate(handled)
    requires h.outcome.ChannelFull? ==> |Kept(handled)| >= 5000
    ensures FullDropsAreLate(handled + [h])
  {
    var all := handled + [h];
    forall i | 0 <= i < |all| && all[i].outcome.ChannelFull? ensures |Kept(all[..i])| >= 5000 {
      if i < |handled| {
        assert all[..i] == handled[..i] && all[i] == handled[i];
      } else {
        assert all[..i] == handled;
      }
    }
  }

  lemma StepKeepsDropsLate(parse: Parser, s: State, a: Action)
    requires Coordinated(s) && Accounted(parse, s) && Enabled(parse, s, a) && FullDropsAreLate(s.handled)
    ensures FullDropsAreLate(Apply(parse, s, a).handled)
  {
    if OfHand(a) {
      OneDecisionIsOpen(parse, s);
      LateDropsAppend(s.handled, DecisionOf(parse, s, a));
    }
  }

  lemma {:induction false} RunKeepsDropsLate(parse: Parser, s: State, run: seq<Action>)
    requires Coordinated(s) && Accounted(parse, s) && FullDropsAreLate(s.handled) && IsRun(parse, s, run)
    ensures FullDropsAreLate(After(parse, s, run).handled)
    decreases |run|
  {
    if run != [] {
      StepKeepsCoordinated(parse, s, run[0]);
      StepKeepsAccounts(parse, s, run[0]);
      StepKeepsDropsLate(parse, s, run[0]);
      RunKeepsDropsLate(parse, Apply(parse, s, run[0]), run[1..]);
    }
  }

  lemma {:induction false} KeptIsShort(handled: seq<Handled>)
    ensures |Kept(handled)| <= |handled|
  {
    if handled != [] {
      KeptIsShort(handled[..|handled| - 1]);
    }
  }

  /** With at most 5000 messages pushed, no segment is ever dropped for lack of room. */
  lemma NoDropWithinCapacity(parse: Parser, s: State, run: seq<Action>, i: nat)
    requires Init(s) && IsRun(parse, s, run)
    requires |After(parse, s, run).pushed| <= 5000 && i < |After(parse, s, run).handled|
    ensures !After(parse, s, run).handled[i].outcome.ChannelFull?
  {
    InitIsValid(parse, s);
    RunKeepsDropsLate(parse, s, run);
    EndToEndLaw(parse, s, run);
    KeptIsShort(After(parse, s, run).handled[..i]);
  }

  // ---------- Nothing before the login ----------

  ghost predicate Stored(run: seq<Action>, n: int) {
    exists i :: 0 <= i < n && i < |run| && run[i] == BootStep(Boot.SetChannel)
  }

  ghost predicate LoggedInBefore(run: seq<Action>, n: int) {
    exists j :: 0 <= j < n && j < |run| && run[j] == BootStep(Boot.LoginSucceeds) && Stored(run, j)
  }

  ghost predicate RegisteredBefore(run: seq<Action>, n: int) {
    exists k :: 0 <= k < n && k < |run| && run[k] == BootStep(Boot.SetRegister) && LoggedInBefore(run, k)
  }

  lemma {:induction false} BootComesFromSteps(parse: Parser, s: State, run: seq<Action>, n: nat)
    requires Init(s) && IsRun(parse, s, run) && n <= |run|
    ensures var b := At(parse, s, run, n).boot;
            && (b.channel.Some? || b.login.LoggingIn? ==> Stored(run, n))
            && (b.login.LoggedIn? ==> LoggedInBefore(run, n))
            && (b.login.LoginDone? || b.register.Some? ==> RegisteredBefore(run, n))
    decreases n
  {
    if n > 0 {
      BootComesFromSteps(parse, s, run, n - 1);
      StepAt(parse, s, run, n - 1);
      BootStepIsSeen(parse, At(parse, s, run, n - 1), run[n - 1]);
    }
  }

  /** The cells and the login move only by the start-up's own steps. */
  lemma BootStepIsSeen(parse: Parser, s: State, a: Action)
    requires Enabled(parse, s, a)
    ensures var b, t := s.boot, Apply(parse, s, a).boot;
            && (t.channel.Some? ==> b.channel.Some? || a == BootStep(Boot.SetChannel))
            && (t.login.LoggingIn? ==> b.login.LoggingIn? || b.channel.Some?)
            && (t.login.LoggedIn? ==>
                  b.login.LoggedIn? || (a == BootStep(Boot.LoginSucceeds) && b.login.LoggingIn?))
            && (t.login.LoginDone? || t.register.Some? ==>
                  b.login.LoginDone? || b.register.Some? || (a == BootStep(Boot.SetRegister) && b.login.LoggedIn?))
  {
  }

  /** Reading the counter, taking an item and collecting a batch all come behind an accepted login. */
  lemma DrainingComesFromLogin(parse: Parser, s: State, run: seq<Action>, m: nat) returns (i: nat, j: nat, k: nat)
    requires Init(s) && IsRun(parse, s, run) && m < |run|
    requires run[m].LoadCount? || run[m].TakeItem? || run[m].UncountItem? || run[m].CollectBatch?
    ensures i < j < k < m
    ensures run[i] == BootStep(Boot.SetChannel) && run[j] == BootStep(Boot.LoginSucceeds)
    ensures run[k] == BootStep(Boot.SetRegister)
  {
    InitIsValid(parse, s);
    ValidAt(parse, s, run, m);
    StepAt(parse, s, run, m);
    BootComesFromSteps(parse, s, run, m);
    assert At(parse, s, run, m).boot.sender.Ready?;
    k :| 0 <= k < m && k < |run| && run[k] == BootStep(Boot.SetRegister) && LoggedInBefore(run, k);
    j :| 0 <= j < k && j < |run| && run[j] == BootStep(Boot.LoginSucceeds) && Stored(run, j);
    i :| 0 <= i < j && i < |run| && run[i] == BootStep(Boot.SetChannel);
  }

  // ---------- Calls of the collector ----------

  function Collects(log: seq<Boot.Event>): nat {
    if log == [] then 0
    else Collects(log[..|log| - 1]) + if log[|log| - 1].Collect? then 1 else 0
  }

  /** The collector has been called once for each batch, and a batch holds something, as does the one being filled. */
  predicate CallsAreBatches(s: State) {
    && Collects(s.boot.log) == |s.batches|
    && (forall i :: 0 <= i < |s.batches| ==> |s.batches[i]| > 0)
    && (!s.chan.consumer.Resting? ==> |Chan.Taken(s.chan.consumer)| + s.chan.consumer.left > 0)
  }

  lemma CollectsAppend(log: seq<Boot.Event>, e: Boot.Event)
    ensures Collects(log + [e]) == Collects(log) + if e.Collect? then 1 else 0
  {
    assert (log + [e])[..|log|] == log;
  }

  lemma CollectsAfterStep(b: Boot.State, step: Boot.Action)
    requires Boot.Enabled(b, step)
    ensures Collects(Boot.Apply(b, step).log) == Collects(b.log) + if step == Boot.SenderRound(true) then 1 else 0
  {
    Boot.StepLogsWhatIsObserved(b, step);
    if Boot.Observed(b, step) == [] {
      assert b.log + [] == b.log;
    } else {
      CollectsAppend(b.log, Boot.Observed(b, step)[0]);
      assert Boot.Observed(b, step) == [Boot.Observed(b, step)[0]];
    }
  }

  lemma StepCountsCollects(parse: Parser, s: State, a: Action)
    requires Coordinated(s) && Enabled(parse, s, a)
    ensures Collects(Apply(parse, s, a).boot.log) == Collects(s.boot.log) + if a.CollectBatch? then 1 else 0
  {
    StepIsComponentSteps(parse, s, a);
    var b := BootStepOf(s, a);
    if b.Some? {
      CollectsAfterStep(s.boot, b.value);
    }
  }

  lemma StepKeepsCalls(parse: Parser, s: State, a: Action)
    requires Coordinated(s) && Enabled(parse, s, a) && CallsAreBatches(s)
    ensures CallsAreBatches(Apply(parse, s, a))
  {
    StepCountsCollects(parse, s, a);
    BatchHoldsSomething(parse, s, a);
    var t := Apply(parse, s, a);
    if a.CollectBatch? {
      assert t.batches == s.batches + [Chan.Taken(s.chan.consumer)];
    } else {
      assert t.batches == s.batches;
    }
  }

  lemma BatchHoldsSomething(parse: Parser, s: State, a: Action)
    requires Enabled(parse, s, a)
    requires !s.chan.consumer.Resting? ==> |Chan.Taken(s.chan.consumer)| + s.chan.consumer.left > 0
    ensures var c := Apply(parse, s, a).chan.consumer; !c.Resting? ==> |Chan.Taken(c)| + c.left > 0
    ensures a.CollectBatch? ==> |Chan.Taken(s.chan.consumer)| > 0
  {
  }

  /** In every run the collector is called once for each batch, and never with an empty one. */
  lemma {:induction false} CollectorIsCalledPerBatch(parse: Parser, s: State, run: seq<Action>)
    requires Coordinated(s) && CallsAreBatches(s) && IsRun(parse, s, run)
    ensures CallsAreBatches(After(parse, s, run))
    decreases |run|
  {
    if run != [] {
      StepKeepsCoordinated(parse, s, run[0]);
      StepKeepsCalls(parse, s, run[0]);
      CollectorIsCalledPerBatch(parse, Apply(parse, s, run[0]), run[1..]);
    }
  }

  lemma CallsFromTheStart(parse: Parser, s: State, run: seq<Action>)
    requires Init(s) && IsRun(parse, s, run)
    ensures var t := After(parse, s, run);
            Collects(t.boot.log) == |t.batches| && forall i :: 0 <= i < |t.batches| ==> |t.batches[i]| > 0
  {
    InitIsValid(parse, s);
    CollectorIsCalledPerBatch(parse, s, run);
  }

  // ---------- Nothing gets stuck ----------

  /** Every message is decided, and every kept segment collected. */
  predicate Idle(s: State) {
    && s.ipc.queue == [] && InTransit(s) == [] && s.chan.channel == []
    && s.chan.consumer.Resting? && s.chan.producers == [Chan.Producer.Idle]
  }

  /** A step that brings the pipeline closer to being idle. */
  function Progress(parse: Parser, s: State): Action
    requires Coordinated(s) && !Idle(s)
  {
    if s.chan.producers[0].Uncounted? then CountForwarded
    else if s.chan.consumer.Received? then UncountItem
    else if s.chan.consumer.Draining? then if s.chan.consumer.left > 0 then TakeItem else CollectBatch
    else if s.chan.channel != [] then
      if s.boot.sender.Ready? then LoadCount else BootStep(Boot.Progress(s.boot))
    else if s.hand.Holding? then
      if s.hand.message == "" then DropEmpty
      else if parse(s.hand.message).None? then DropUnparsable
      else Forward
    else if s.ipc.receiver.Popped? then FinishReceive
    else PopMessage
  }

  function Upstream(s: State): nat {
    3 * |s.ipc.queue| + (if s.ipc.receiver.Popped? then 2 else 0) + (if s.hand.Holding? then 1 else 0)
  }

  function Downstream(s: State): nat {
    2 * |s.chan.channel| + Chan.InHand(s.chan.consumer)
  }

  /** How far the sender is from a batch that takes the whole channel. */
  function Round(s: State): nat {
    if s.chan.consumer.Resting? then if s.chan.channel == [] then 0 else 2
    else if s.chan.consumer.left < |s.chan.channel| then 3 else 1
  }

  lemma ProgressIsEnabled(parse: Parser, s: State)
    requires Coordinated(s) && !Idle(s)
    ensures Enabled(parse, s, Progress(parse, s))
  {
    var idle := s.chan.producers == [Chan.Producer.Idle];
    assert s.chan.producers == [s.chan.producers[0]];
    assert idle || s.chan.producers[0].Uncounted?;
  }

  lemma ProgressIsProgress(parse: Parser, s: State)
    requires Coordinated(s) && !Idle(s) && Enabled(parse, s, Progress(parse, s))
    ensures var t := Apply(parse, s, Progress(parse, s));
            var p, q := Chan.UncountedProducers(s.chan.producers), Chan.UncountedProducers(t.chan.producers);
            || Upstream(t) < Upstream(s)
            || (Upstream(t) == Upstream(s) &&
                (|| q < p
                 || (q == p &&
                     (|| Downstream(t) < Downstream(s)
                      || (Downstream(t) == Downstream(s) &&
                          (Round(t) < Round(s) || (Round(t) == Round(s) && Boot.Rank(t.boot) < Boot.Rank(s.boot))))))))
  {
  }

  lemma ProgressKeepsValid(parse: Parser, s: State)
    requires Coordinated(s) && Accounted(parse, s) && !Idle(s) && Enabled(parse, s, Progress(parse, s))
    ensures var t := Apply(parse, s, Progress(parse, s));
            Coordinated(t) && Accounted(parse, t) && t.pushed == s.pushed
  {
    StepKeepsCoordinated(parse, s, Progress(parse, s));
    StepKeepsAccounts(parse, s, Progress(parse, s));
  }

  lemma IdleIsAccounted(parse: Parser, s: State)
    requires Accounted(parse, s) && Idle(s)
    ensures s.pushed == Messages(s.handled) && Kept(s.handled) == Flatten(s.batches)
  {
  }

  /** From every reachable state some continuation decides every message and collects every kept segment. */
  lemma {:induction false} DeliveryStaysPossible(parse: Parser, s: State) returns (more: seq<Action>)
    requires Coordinated(s) && Accounted(parse, s)
    ensures IsRun(parse, s, more)
    ensures var t := After(parse, s, more);
            t.pushed == s.pushed == Messages(t.handled) && Kept(t.handled) == Flatten(t.batches)
    decreases Upstream(s), Chan.UncountedProducers(s.chan.producers), Downstream(s), Round(s), Boot.Rank(s.boot)
  {
    if Idle(s) {
      more := [];
      IdleIsAccounted(parse, s);
    } else {
      var a := Progress(parse, s);
      ProgressIsEnabled(parse, s);
      ProgressIsProgress(parse, s);
      ProgressKeepsValid(parse, s);
      var rest := DeliveryStaysPossible(parse, Apply(parse, s, a));
      more := [a] + rest;
      assert more[1..] == rest;
    }
  }

  // ---------- Printed segments ----------

  /** Every pushed message is the printed form of the segment at the same place. */
  predicate Prints(pushed: seq<Message>, sent: seq<Segment>) {
    |pushed| == |sent| &&
    forall i :: 0 <= i < |pushed| ==> pushed[i] == SegmentText(sent[i]) && PlainSegment(sent[i])
  }

  /**
   When the workers send printed segments with plain strings, the collector
   gets segments they sent, unchanged, in order and none twice; and while the
   bounded channel has not been full, it gets all of them from the first on.
   */
  lemma PrintedSegmentsArrive(s: State, run: seq<Action>, sent: seq<Segment>) returns (from: seq<nat>)
    requires Init(s) && IsRun(ParseSegment, s, run)
    requires Prints(After(ParseSegment, s, run).pushed, sent)
    ensures var t := After(ParseSegment, s, run);
            && |from| == |Flatten(t.batches)| && Increasing(from, |sent|)
            && (forall k :: 0 <= k < |from| ==> Flatten(t.batches)[k] == sent[from[k]])
            && ((forall i :: 0 <= i < |t.handled| ==> !t.handled[i].outcome.ChannelFull?)
                ==> Flatten(t.batches) <= sent)
  {
    var t := After(ParseSegment, s, run);
    from := DeliveredInOrderAtMostOnce(ParseSegment, s, run);
    PrintsParse(t.pushed, sent);
    if forall i :: 0 <= i < |t.handled| ==> !t.handled[i].outcome.ChannelFull? {
      NothingIsSkipped(ParseSegment, s, run, sent);
    }
  }

  /** If every pushed message parses and the channel was never full, the collected segments are the first ones. */
  lemma NothingIsSkipped(parse: Parser, s: State, run: seq<Action>, sent: seq<Segment>)
    requires Init(s) && IsRun(parse, s, run)
    requires var t := After(parse, s, run);
             && |t.pushed| == |sent|
             && (forall i :: 0 <= i < |sent| ==> t.pushed[i] != "" && parse(t.pushed[i]) == Some(sent[i]))
             && (forall i :: 0 <= i < |t.handled| ==> !t.handled[i].outcome.ChannelFull?)
    ensures Flatten(After(parse, s, run).batches) <= sent
  {
    var t := After(parse, s, run);
    EndToEndLaw(parse, s, run);
    KeptWithoutLoss(parse, t.handled, t.pushed, sent);
    assert Flatten(t.batches) <= Kept(t.handled);
  }

  lemma PrintsParse(pushed: seq<Message>, sent: seq<Segment>)
    requires Prints(pushed, sent)
    ensures forall i :: 0 <= i < |pushed| ==> pushed[i] != "" && ParseSegment(pushed[i]) == Some(sent[i])
  {
    forall i | 0 <= i < |pushed| ensures pushed[i] != "" && ParseSegment(pushed[i]) == Some(sent[i]) {
      SegmentRoundTripIffPlain(sent[i]);
    }
  }

  lemma KeptWithoutLoss(parse: Parser, handled: seq<Handled>, pushed: seq<Message>, sent: seq<Segment>)
    requires |pushed| == |sent| && Messages(handled) <= pushed
    requires forall i :: 0 <= i < |pushed| ==> pushed[i] != "" && parse(pushed[i]) == Some(sent[i])
    requires forall i :: 0 <= i < |handled| ==> OutcomeOk(parse, handled[i]) && !handled[i].outcome.ChannelFull?
    ensures Kept(handled) <= sent
  {
    forall i | 0 <= i < |handled| ensures handled[i].outcome == Forwarded(sent[i]) {
      assert handled[i].message == Messages(handled)[i] == pushed[i];
    }
    AllKept(handled, sent);
  }

  lemma {:induction false} AllKept(handled: seq<Handled>, sent: seq<Segment>)
    requires |handled| <= |sent|
    requires forall i :: 0 <= i < |handled| ==> handled[i].outcome == Forwarded(sent[i])
    ensures Kept(handled) == sent[..|handled|]
  {
    if handled != [] {
      AllKept(handled[..|handled| - 1], sent);
    }
  }
}
