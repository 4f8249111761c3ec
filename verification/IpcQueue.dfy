/**
 The message queue between the PHP workers and the reporter process
 (src/reporter/ipc.rs), as a transition system whose steps are the atomic
 operations of `send` and `receive`.

 Any number of workers run `send` and one receiver runs `receive`.  A worker
 first adds one to the shared counter.  If the counter had already reached the
 limit the worker is refused and takes the counter back down with `fetch_min`;
 otherwise it is accepted and then either pushes its message or fails (the
 sender lock is busy, or the channel reports an error).  The receiver pops a
 message and then subtracts one from the counter.
 */
module IpcQueue {
  import opened Wrappers

  const MAX_MESSAGE_QUEUE_COUNT := 4096

  // The counter is an AtomicUsize: its additions and subtractions wrap around.
  const USIZE_MODULUS := 0x1_0000_0000_0000_0000

  type Message = string

  /** Where a worker stands inside `send`. */
  datatype Worker = Idle | Accepted(data: Message) | Refused

  /** Where the receiver stands inside `receive`. */
  datatype Receiver = Waiting | Popped(data: Message)

  datatype State = State(
    count: nat,
    queue: seq<Message>,
    workers: seq<Worker>,
    receiver: Receiver)

  datatype Action =
    | FetchAdd(w: nat, data: Message)
    | FetchMin(w: nat)
    | Push(w: nat)
    | FailSend(w: nat)
    | Pop
    | FetchSub

  predicate Init(s: State) {
    && s.count == 0
    && s.queue == []
    && (forall w :: 0 <= w < |s.workers| ==> s.workers[w] == Idle)
    && s.receiver == Waiting
    && |s.workers| + MAX_MESSAGE_QUEUE_COUNT < USIZE_MODULUS
  }

  predicate Enabled(s: State, a: Action) {
    match a
    case FetchAdd(w, _) => w < |s.workers| && s.workers[w].Idle?
    case FetchMin(w) => w < |s.workers| && s.workers[w].Refused?
    case Push(w) => w < |s.workers| && s.workers[w].Accepted?
    case FailSend(w) => w < |s.workers| && s.workers[w].Accepted?
    case Pop => s.receiver.Waiting? && s.queue != []
    case FetchSub => s.receiver.Popped?
  }

  function Apply(s: State, a: Action): State
    requires Enabled(s, a)
  {
    match a
    case FetchAdd(w, data) =>
      s.(count := (s.count + 1) % USIZE_MODULUS,
         workers := s.workers[w := if s.count >= MAX_MESSAGE_QUEUE_COUNT then Refused else Accepted(data)])
    case FetchMin(w) =>
      s.(count := Min(s.count, MAX_MESSAGE_QUEUE_COUNT), workers := s.workers[w := Idle])
    case Push(w) =>
      s.(queue := s.queue + [s.workers[w].data], workers := s.workers[w := Idle])
    case FailSend(w) =>
      s.(workers := s.workers[w := Idle])
    case Pop =>
      s.(queue := s.queue[1..], receiver := Popped(s.queue[0]))
    case FetchSub =>
      s.(count := (s.count - 1) % USIZE_MODULUS, receiver := Waiting)
  }

  // ---------- Runs ----------

  predicate IsRun(s: State, run: seq<Action>)
    decreases |run|
  {
    run == [] || (Enabled(s, run[0]) && IsRun(Apply(s, run[0]), run[1..]))
  }

  function After(s: State, run: seq<Action>): State
    requires IsRun(s, run)
    decreases |run|
  {
    if run == [] then s else After(Apply(s, run[0]), run[1..])
  }

  /** Steps after which the counter stands one above the messages it should account for. */
  predicate IsLeak(s: State, a: Action) {
    a.FailSend? || (a.FetchSub? && s.count > MAX_MESSAGE_QUEUE_COUNT)
  }

  function Leaks(s: State, run: seq<Action>): nat
    requires IsRun(s, run)
    decreases |run|
  {
    if run == [] then 0
    else (if IsLeak(s, run[0]) then 1 else 0) + Leaks(Apply(s, run[0]), run[1..])
  }

  // ---------- Counting workers ----------

  function AcceptedCount(ws: seq<Worker>): nat {
    if ws == [] then 0 else (if ws[0].Accepted? then 1 else 0) + AcceptedCount(ws[1..])
  }

  function RefusedCount(ws: seq<Worker>): nat {
    if ws == [] then 0 else (if ws[0].Refused? then 1 else 0) + RefusedCount(ws[1..])
  }

  lemma {:induction false} CountsAfterUpdate(ws: seq<Worker>, w: nat, x: Worker)
    requires w < |ws|
    ensures AcceptedCount(ws[w := x]) - AcceptedCount(ws)
         == (if x.Accepted? then 1 else 0) - (if ws[w].Accepted? then 1 else 0)
    ensures RefusedCount(ws[w := x]) - RefusedCount(ws)
         == (if x.Refused? then 1 else 0) - (if ws[w].Refused? then 1 else 0)
  {
    if w == 0 {
      assert ws[w := x][1..] == ws[1..];
    } else {
      assert ws[w := x][1..] == ws[1..][w - 1 := x];
      CountsAfterUpdate(ws[1..], w - 1, x);
    }
  }

  lemma {:induction false} CountsAreBounded(ws: seq<Worker>)
    ensures RefusedCount(ws) <= |ws|
    ensures (forall w :: 0 <= w < |ws| ==> ws[w].Idle?) ==> AcceptedCount(ws) == RefusedCount(ws) == 0
    ensures AcceptedCount(ws) == 0 ==> forall w :: 0 <= w < |ws| ==> !ws[w].Accepted?
    ensures RefusedCount(ws) == 0 ==> forall w :: 0 <= w < |ws| ==> !ws[w].Refused?
  {
    if ws != [] {
      CountsAreBounded(ws[1..]);
      assert forall w :: 0 < w < |ws| ==> ws[w] == ws[1..][w - 1];
      assert (forall w :: 0 <= w < |ws| ==> ws[w].Idle?) ==> forall w :: 0 <= w < |ws[1..]| ==> ws[1..][w] == ws[w + 1];
    }
  }

  // ---------- Safety and the accounting law ----------

  /** Messages the counter has to cover: queued, accepted but not pushed yet, popped but not subtracted yet. */
  function InFlight(s: State): nat {
    |s.queue| + AcceptedCount(s.workers) + (if s.receiver.Popped? then 1 else 0)
  }

  /** How far the (clamped) counter stands above the messages in flight. */
  function Slack(s: State): int {
    Min(s.count, MAX_MESSAGE_QUEUE_COUNT) - InFlight(s)
  }

  predicate Valid(s: State) {
    && |s.workers| + MAX_MESSAGE_QUEUE_COUNT < USIZE_MODULUS
    && s.count <= MAX_MESSAGE_QUEUE_COUNT + RefusedCount(s.workers)
    && 0 <= Slack(s)
  }

  lemma InitIsValid(s: State)
    requires Init(s)
    ensures Valid(s) && Slack(s) == 0
  {
    CountsAreBounded(s.workers);
  }

  /** The counter never wraps around: additions and subtractions move it by exactly one. */
  lemma CounterDoesNotWrap(s: State, a: Action)
    requires Valid(s) && Enabled(s, a)
    ensures a.FetchAdd? ==> Apply(s, a).count == s.count + 1
    ensures a.FetchSub? ==> s.count > 0 && Apply(s, a).count == s.count - 1
  {
    CountsAreBounded(s.workers);
    if a.FetchAdd? {
      CountsAfterUpdate(s.workers, a.w, Refused);
      CountsAreBounded(s.workers[a.w := Refused]);
    }
  }

  /** From any state, valid or not, the counter stays a 64-bit number: past its ends it wraps around. */
  lemma CounterIsUsize(s: State, a: Action)
    requires s.count < USIZE_MODULUS && Enabled(s, a)
    ensures Apply(s, a).count < 0x1_0000_0000_0000_0000
    ensures a.FetchAdd? && s.count == 0xFFFF_FFFF_FFFF_FFFF ==> Apply(s, a).count == 0
    ensures a.FetchSub? && s.count == 0 ==> Apply(s, a).count == 0xFFFF_FFFF_FFFF_FFFF
  {
  }

  lemma WorkerCountsAfterStep(s: State, a: Action)
    requires Enabled(s, a)
    ensures var t := Apply(s, a).workers;
            && |t| == |s.workers|
            && AcceptedCount(t) == AcceptedCount(s.workers)
               + (if a.FetchAdd? && s.count < MAX_MESSAGE_QUEUE_COUNT then 1 else 0)
               - (if a.Push? || a.FailSend? then 1 else 0)
            && RefusedCount(t) == RefusedCount(s.workers)
               + (if a.FetchAdd? && s.count >= MAX_MESSAGE_QUEUE_COUNT then 1 else 0)
               - (if a.FetchMin? then 1 else 0)
  {
    match a {
      case FetchAdd(w, data) => CountsAfterUpdate(s.workers, w, Apply(s, a).workers[w]);
      case FetchMin(w) => CountsAfterUpdate(s.workers, w, Idle);
      case Push(w) => CountsAfterUpdate(s.workers, w, Idle);
      case FailSend(w) => CountsAfterUpdate(s.workers, w, Idle);
      case Pop =>
      case FetchSub =>
    }
  }

  /** Only a leak changes the slack, and it raises it by one. */
  lemma StepKeepsValid(s: State, a: Action)
    requires Valid(s) && Enabled(s, a)
    ensures Valid(Apply(s, a))
    ensures Slack(Apply(s, a)) == Slack(s) + if IsLeak(s, a) then 1 else 0
  {
    CounterDoesNotWrap(s, a);
    WorkerCountsAfterStep(s, a);
  }

  lemma {:induction false} RunKeepsValid(s: State, run: seq<Action>)
    requires Valid(s) && IsRun(s, run)
    ensures Valid(After(s, run))
    ensures Slack(After(s, run)) == Slack(s) + Leaks(s, run)
    decreases |run|
  {
    if run != [] {
      StepKeepsValid(s, run[0]);
      RunKeepsValid(Apply(s, run[0]), run[1..]);
    }
  }

  /** Safety of every interleaving: what is in flight stays within the counter and within the limit. */
  lemma QueueStaysBounded(s: State, run: seq<Action>)
    requires Init(s) && IsRun(s, run)
    ensures var t := After(s, run);
            && InFlight(t) <= t.count
            && InFlight(t) <= MAX_MESSAGE_QUEUE_COUNT
            && |t.queue| <= MAX_MESSAGE_QUEUE_COUNT
            && t.count <= MAX_MESSAGE_QUEUE_COUNT + RefusedCount(t.workers)
            && (t.receiver.Popped? ==> t.count > 0)
  {
    InitIsValid(s);
    RunKeepsValid(s, run);
  }

  /** Exact accounting: the clamped counter is what is in flight plus the leaks of the run so far. */
  lemma AccountingLaw(s: State, run: seq<Action>)
    requires Init(s) && IsRun(s, run)
    ensures var t := After(s, run);
            Min(t.count, MAX_MESSAGE_QUEUE_COUNT) == InFlight(t) + Leaks(s, run)
  {
    InitIsValid(s);
    RunKeepsValid(s, run);
  }

  predicate Quiescent(s: State) {
    s.receiver.Waiting? && forall w :: 0 <= w < |s.workers| ==> s.workers[w].Idle?
  }

  /** When nobody is inside `send` or `receive`, the counter is the queue length exactly if the run leaked nothing. */
  lemma CounterExactIffNoLeak(s: State, run: seq<Action>)
    requires Init(s) && IsRun(s, run) && Quiescent(After(s, run))
    ensures After(s, run).count == |After(s, run).queue| + Leaks(s, run)
    ensures After(s, run).count == |After(s, run).queue| <==> Leaks(s, run) == 0
  {
    AccountingLaw(s, run);
    QueueStaysBounded(s, run);
    CountsAreBounded(After(s, run).workers);
  }

  /** Every accepted send is pushed, and no subtraction falls between a refusal and its `fetch_min`. */
  predicate Undisturbed(s: State, run: seq<Action>)
    requires IsRun(s, run)
    decreases |run|
  {
    run == [] ||
    (&& !run[0].FailSend?
     && (run[0].FetchSub? ==> RefusedCount(s.workers) == 0)
     && Undisturbed(Apply(s, run[0]), run[1..]))
  }

  lemma {:induction false} UndisturbedRunsDoNotLeak(s: State, run: seq<Action>)
    requires Valid(s) && IsRun(s, run) && Undisturbed(s, run)
    ensures Leaks(s, run) == 0
    decreases |run|
  {
    if run != [] {
      StepKeepsValid(s, run[0]);
      UndisturbedRunsDoNotLeak(Apply(s, run[0]), run[1..]);
    }
  }

  /** However many refusals overlap, an undisturbed run leaves the counter equal to the queue length. */
  lemma UndisturbedRunsAreExact(s: State, run: seq<Action>)
    requires Init(s) && IsRun(s, run) && Undisturbed(s, run) && Quiescent(After(s, run))
    ensures After(s, run).count == |After(s, run).queue|
  {
    InitIsValid(s);
    UndisturbedRunsDoNotLeak(s, run);
    CounterExactIffNoLeak(s, run);
  }

  // ---------- One `fetch_min` undoes every refusal before it ----------

  /** The state before step k, or after the last step. */
  function At(s: State, run: seq<Action>, k: nat): State
    requires IsRun(s, run) && k <= |run|
    decreases k
  {
    if k == 0 then s else At(Apply(s, run[0]), run[1..], k - 1)
  }

  lemma {:induction false} StepAt(s: State, run: seq<Action>, k: nat)
    requires IsRun(s, run) && k <= |run|
    ensures k < |run| ==> Enabled(At(s, run, k), run[k]) && At(s, run, k + 1) == Apply(At(s, run, k), run[k])
    ensures k == |run| ==> At(s, run, k) == After(s, run)
    decreases k
  {
    if k > 0 {
      StepAt(Apply(s, run[0]), run[1..], k - 1);
    }
  }

  lemma {:induction false} ValidAt(s: State, run: seq<Action>, k: nat)
    requires Valid(s) && IsRun(s, run) && k <= |run|
    ensures Valid(At(s, run, k))
    decreases k
  {
    if k > 0 {
      StepKeepsValid(s, run[0]);
      ValidAt(Apply(s, run[0]), run[1..], k - 1);
    }
  }

  /** Above 4096 the counter drops to 4096 at once, however many refused workers have added to it. */
  lemma FetchMinClamps(s: State, w: nat)
    requires Enabled(s, FetchMin(w))
    ensures Apply(s, FetchMin(w)).count == if s.count > 4096 then 4096 else s.count
  {
  }

  /** Until the next addition the counter stays there, so no subtraction leaks. */
  lemma {:induction false} ClampedUntilNextAdd(s: State, run: seq<Action>, k: nat, j: nat)
    requires Valid(s) && IsRun(s, run) && k < j <= |run| && run[k].FetchMin?
    requires forall i :: k < i < j ==> !run[i].FetchAdd?
    ensures At(s, run, j).count <= 4096
    ensures j < |run| && run[j].FetchSub? ==> !IsLeak(At(s, run, j), run[j])
    decreases j
  {
    StepAt(s, run, j - 1);
    ValidAt(s, run, j - 1);
    if j == k + 1 {
      FetchMinClamps(At(s, run, k), run[k].w);
    } else {
      ClampedUntilNextAdd(s, run, k, j - 1);
      CounterDoesNotWrap(At(s, run, j - 1), run[j - 1]);
    }
  }

  /** A counter above 4096 has a refusal behind it that no `fetch_min` has followed yet. */
  lemma {:induction false} HighCounterHasRefusal(s: State, run: seq<Action>, j: nat) returns (i: nat)
    requires Valid(s) && s.count <= 4096 && IsRun(s, run) && j <= |run| && At(s, run, j).count > 4096
    ensures i < j && run[i].FetchAdd? && At(s, run, i).count >= 4096
    ensures forall m :: i < m < j ==> !run[m].FetchMin?
    decreases j
  {
    StepAt(s, run, j - 1);
    ValidAt(s, run, j - 1);
    CounterDoesNotWrap(At(s, run, j - 1), run[j - 1]);
    if run[j - 1].FetchAdd? {
      i := j - 1;
    } else {
      i := HighCounterHasRefusal(s, run, j - 1);
    }
  }

  /** Between every refusal and a later subtraction some worker, whichever, comes to its `fetch_min`. */
  ghost predicate RefusalsAreUndone(s: State, run: seq<Action>)
    requires IsRun(s, run)
  {
    forall i, j :: 0 <= i < j < |run| && run[i].FetchAdd? && At(s, run, i).count >= 4096 && run[j].FetchSub? ==>
      exists m :: i < m < j && run[m].FetchMin?
  }

  lemma {:induction false} NoLeakAnywhere(s: State, run: seq<Action>)
    requires IsRun(s, run)
    requires forall k :: 0 <= k < |run| ==> !IsLeak(At(s, run, k), run[k])
    ensures Leaks(s, run) == 0
    decreases |run|
  {
    if run != [] {
      assert !IsLeak(At(s, run, 0), run[0]);
      var t := Apply(s, run[0]);
      forall k | 0 <= k < |run| - 1 ensures !IsLeak(At(t, run[1..], k), run[1..][k]) {
        assert !IsLeak(At(s, run, k + 1), run[k + 1]);
      }
      NoLeakAnywhere(t, run[1..]);
    }
  }

  /**
   However many refusals overlap and whichever `fetch_min` comes, one of them
   before the next subtraction is enough: without failed sends the counter ends
   as the queue length.
   */
  lemma OneFetchMinIsEnough(s: State, run: seq<Action>)
    requires Init(s) && IsRun(s, run) && RefusalsAreUndone(s, run)
    requires forall k :: 0 <= k < |run| ==> !run[k].FailSend?
    ensures Leaks(s, run) == 0
    ensures Quiescent(After(s, run)) ==> After(s, run).count == |After(s, run).queue|
  {
    InitIsValid(s);
    forall j | 0 <= j < |run| ensures !IsLeak(At(s, run, j), run[j]) {
      if run[j].FetchSub? && At(s, run, j).count > 4096 {
        var i := HighCounterHasRefusal(s, run, j);
        assert false;
      }
    }
    NoLeakAnywhere(s, run);
    if Quiescent(After(s, run)) {
      CounterExactIffNoLeak(s, run);
    }
  }

  // ---------- Delivery order ----------

  predicate ActsFor(a: Action, w: nat) {
    (a.FetchAdd? || a.FetchMin? || a.Push? || a.FailSend?) && a.w == w
  }

  /** A worker inside `send` is where its own last addition put it, with the message it was called with. */
  lemma {:induction false} WorkerStandsWhereItsCallPutIt(s: State, run: seq<Action>, k: nat, w: nat) returns (i: nat)
    requires Init(s) && IsRun(s, run) && k <= |run|
    requires w < |At(s, run, k).workers| && !At(s, run, k).workers[w].Idle?
    ensures i < k && run[i].FetchAdd? && run[i].w == w
    ensures forall m :: i < m < k ==> !ActsFor(run[m], w)
    ensures At(s, run, k).workers[w] == if At(s, run, i).count < 4096 then Accepted(run[i].data) else Refused
    decreases k
  {
    if k == 0 {
      assert false;
    } else {
      StepAt(s, run, k - 1);
      if ActsFor(run[k - 1], w) {
        i := k - 1;
      } else {
        i := WorkerStandsWhereItsCallPutIt(s, run, k - 1, w);
      }
    }
  }

  /** What a worker pushes is the message of its own call of `send`, admitted below 4096. */
  lemma PushedIsWhatWasSent(s: State, run: seq<Action>, k: nat) returns (i: nat)
    requires Init(s) && IsRun(s, run) && k < |run| && run[k].Push?
    ensures i < k && run[i].FetchAdd? && run[i].w == run[k].w && At(s, run, i).count < 4096
    ensures forall m :: i < m < k ==> !ActsFor(run[m], run[k].w)
    ensures At(s, run, k + 1).queue == At(s, run, k).queue + [run[i].data]
  {
    StepAt(s, run, k);
    i := WorkerStandsWhereItsCallPutIt(s, run, k, run[k].w);
  }

  /** The message a step pushes, as a list of length 0 or 1. */
  function PushedBy(s: State, a: Action): seq<Message>
    requires Enabled(s, a)
  {
    if a.Push? then [s.workers[a.w].data] else []
  }

  function Pushed(s: State, run: seq<Action>): seq<Message>
    requires IsRun(s, run)
    decreases |run|
  {
    if run == [] then [] else PushedBy(s, run[0]) + Pushed(Apply(s, run[0]), run[1..])
  }

  function PoppedIn(s: State, run: seq<Action>): seq<Message>
    requires IsRun(s, run)
    decreases |run|
  {
    if run == [] then []
    else (if run[0].Pop? then [s.queue[0]] else []) + PoppedIn(Apply(s, run[0]), run[1..])
  }

  /** First in, first out: what was popped, followed by the queue, is the old queue followed by what was pushed. */
  lemma {:induction false} FirstInFirstOut(s: State, run: seq<Action>)
    requires IsRun(s, run)
    ensures PoppedIn(s, run) + After(s, run).queue == s.queue + Pushed(s, run)
    decreases |run|
  {
    if run != [] {
      var t := Apply(s, run[0]);
      FirstInFirstOut(t, run[1..]);
      var popped := if run[0].Pop? then [s.queue[0]] else [];
      Regroup(popped, PoppedIn(t, run[1..]), After(s, run).queue);
      Regroup(popped, t.queue, Pushed(t, run[1..]));
      assert popped + t.queue == s.queue + PushedBy(s, run[0]);
      Regroup(s.queue, PushedBy(s, run[0]), Pushed(t, run[1..]));
    }
  }

  // ---------- When the queue is lost for good ----------

  predicate PushesSomething(run: seq<Action>) {
    exists k :: 0 <= k < |run| && run[k].Push?
  }

  ghost predicate CanStillPush(s: State) {
    exists run :: IsRun(s, run) && PushesSomething(run)
  }

  lemma {:induction false} FullSlackBlocksEveryPush(s: State, run: seq<Action>)
    requires Valid(s) && Slack(s) == MAX_MESSAGE_QUEUE_COUNT && IsRun(s, run)
    ensures !PushesSomething(run)
    decreases |run|
  {
    CountsAreBounded(s.workers);
    if run != [] {
      StepKeepsValid(s, run[0]);
      FullSlackBlocksEveryPush(Apply(s, run[0]), run[1..]);
      assert forall k :: 0 < k < |run| ==> run[k] == run[1..][k - 1];
    }
  }

  lemma CanPushAfterStep(s: State, a: Action)
    requires Enabled(s, a) && (a.Push? || CanStillPush(Apply(s, a)))
    ensures CanStillPush(s)
  {
    if a.Push? {
      assert IsRun(s, [a]) by { assert [a][1..] == []; }
      assert PushesSomething([a]) by { assert [a][0].Push?; }
    } else {
      var rest: seq<Action> :| IsRun(Apply(s, a), rest) && PushesSomething(rest);
      var k :| 0 <= k < |rest| && rest[k].Push?;
      var run := [a] + rest;
      assert run[1..] == rest && run[k + 1] == rest[k];
      assert IsRun(s, run) && PushesSomething(run);
    }
  }

  /** As long as the slack is below the limit, some continuation still gets a message through. */
  lemma {:induction false} SlackLeavesRoom(s: State)
    requires Valid(s) && Slack(s) < MAX_MESSAGE_QUEUE_COUNT && |s.workers| > 0
    ensures CanStillPush(s)
    decreases RefusedCount(s.workers), InFlight(s), s.receiver.Waiting?
  {
    CountsAreBounded(s.workers);
    if w :| 0 <= w < |s.workers| && s.workers[w].Accepted? {
      CanPushAfterStep(s, Push(w));
    } else if w :| 0 <= w < |s.workers| && s.workers[w].Refused? {
      StepKeepsValid(s, FetchMin(w));
      CountsAfterUpdate(s.workers, w, Idle);
      SlackLeavesRoom(Apply(s, FetchMin(w)));
      CanPushAfterStep(s, FetchMin(w));
    } else if s.count < MAX_MESSAGE_QUEUE_COUNT {
      assert s.workers[0].Idle?;
      var a := FetchAdd(0, "");
      var t := Apply(s, a);
      assert t.workers[0].Accepted?;
      CanPushAfterStep(t, Push(0));
      CanPushAfterStep(s, a);
    } else if s.receiver.Popped? {
      StepKeepsValid(s, FetchSub);
      SlackLeavesRoom(Apply(s, FetchSub));
      CanPushAfterStep(s, FetchSub);
    } else {
      assert AcceptedCount(s.workers) == 0 by { NoneAccepted(s.workers); }
      StepKeepsValid(s, Pop);
      SlackLeavesRoom(Apply(s, Pop));
      CanPushAfterStep(s, Pop);
    }
  }

  lemma {:induction false} NoneAccepted(ws: seq<Worker>)
    requires forall w :: 0 <= w < |ws| ==> !ws[w].Accepted?
    ensures AcceptedCount(ws) == 0
  {
    if ws != [] {
      NoneAccepted(ws[1..]);
    }
  }

  /**
   Each leak takes one place away for good.  After a run, another message can
   still be sent exactly if fewer than 4096 leaks have happened.
   */
  lemma DeadIffAllSlotsLeaked(s: State, run: seq<Action>)
    requires Init(s) && |s.workers| > 0 && IsRun(s, run)
    ensures Leaks(s, run) <= MAX_MESSAGE_QUEUE_COUNT
    ensures CanStillPush(After(s, run)) <==> Leaks(s, run) < MAX_MESSAGE_QUEUE_COUNT
  {
    InitIsValid(s);
    RunKeepsValid(s, run);
    var t := After(s, run);
    RunKeepsWorkers(s, run);
    if Slack(t) < MAX_MESSAGE_QUEUE_COUNT {
      SlackLeavesRoom(t);
    } else {
      forall more | IsRun(t, more) ensures !PushesSomething(more) {
        FullSlackBlocksEveryPush(t, more);
      }
    }
  }

  /** Worker 0 is accepted and then finds the sender lock busy, n times in a row. */
  function FailedSends(n: nat): seq<Action> {
    if n == 0 then [] else [FetchAdd(0, ""), FailSend(0)] + FailedSends(n - 1)
  }

  lemma {:induction false} FailedSendsLeak(s: State, n: nat)
    requires 0 < |s.workers| && s.workers[0].Idle? && s.count + n <= MAX_MESSAGE_QUEUE_COUNT
    ensures IsRun(s, FailedSends(n))
    ensures After(s, FailedSends(n)) == s.(count := s.count + n)
    ensures Leaks(s, FailedSends(n)) == n
    decreases n
  {
    if n > 0 {
      var run := FailedSends(n);
      var t := Apply(s, run[0]);
      var u := Apply(t, run[1]);
      assert u == s.(count := s.count + 1) by { assert u.workers == s.workers; }
      assert run[1..][1..] == FailedSends(n - 1);
      FailedSendsLeak(u, n - 1);
    }
  }

  /** The limit of `DeadIffAllSlotsLeaked` is reached: after 4096 failed sends an empty queue refuses everybody. */
  lemma FailedSendsCanCloseTheQueue(s: State)
    requires Init(s) && |s.workers| > 0
    ensures var run := FailedSends(MAX_MESSAGE_QUEUE_COUNT);
            && IsRun(s, run) && Quiescent(After(s, run))
            && After(s, run).queue == [] && !CanStillPush(After(s, run))
  {
    FailedSendsLeak(s, MAX_MESSAGE_QUEUE_COUNT);
    DeadIffAllSlotsLeaked(s, FailedSends(MAX_MESSAGE_QUEUE_COUNT));
  }

  lemma {:induction false} RunKeepsWorkers(s: State, run: seq<Action>)
    requires IsRun(s, run)
    ensures |After(s, run).workers| == |s.workers|
    decreases |run|
  {
    if run != [] {
      RunKeepsWorkers(Apply(s, run[0]), run[1..]);
    }
  }

  // ---------- `send` and `receive` as written ----------

  /** The steps one worker takes in an uninterrupted call of `send`. */
  function SendRun(count: nat, data: Message, works: bool): seq<Action> {
    [FetchAdd(0, data),
     if count >= MAX_MESSAGE_QUEUE_COUNT then FetchMin(0) else if works then Push(0) else FailSend(0)]
  }

  lemma TwoSteps(s: State, a: Action, b: Action)
    requires Enabled(s, a) && Enabled(Apply(s, a), b)
    ensures IsRun(s, [a, b]) && After(s, [a, b]) == Apply(Apply(s, a), b)
  {
    assert [a, b][1..] == [b] && [b][1..] == [];
    assert After(Apply(s, a), [b]) == After(Apply(Apply(s, a), b), []);
  }

  /** The shared counter and channel, with the code of the two functions run without interruption. */
  class MessageQueue {
    var count: nat
    var queue: seq<Message>

    constructor ()
      ensures View() == State(0, [], [Idle], Waiting)
    {
      count, queue := 0, [];
    }

    ghost function View(): State
      reads this
    {
      State(count, queue, [Idle], Waiting)
    }

    method Send(data: Message, lockFree: bool, channelWorks: bool) returns (ok: bool)
      requires count < USIZE_MODULUS
      modifies this
      ensures IsRun(old(View()), SendRun(old(count), data, lockFree && channelWorks))
      ensures View() == After(old(View()), SendRun(old(count), data, lockFree && channelWorks))
      ensures ok <==> old(count) < 4096 && lockFree && channelWorks
      ensures 4096 <= old(count) < USIZE_MODULUS - 1 ==> count == 4096
      ensures queue == if ok then old(queue) + [data] else old(queue)
    {
      ghost var run := SendRun(count, data, lockFree && channelWorks);
      TwoSteps(View(), run[0], run[1]);
      var oldCount := count;
      count := (count + 1) % USIZE_MODULUS;
      if oldCount >= MAX_MESSAGE_QUEUE_COUNT {
        count := Min(count, MAX_MESSAGE_QUEUE_COUNT);
        return false;
      }
      if !lockFree {
        return false;
      }
      if !channelWorks {
        return false;
      }
      queue := queue + [data];
      return true;
    }

    /** The call blocks until a message is there, unless the lock or the channel fails first. */
    method Receive(lockWorks: bool, channelWorks: bool) returns (r: Option<Message>)
      requires count < USIZE_MODULUS
      requires lockWorks && channelWorks ==> queue != []
      modifies this
      ensures r.Some? <==> lockWorks && channelWorks
      ensures r.None? ==> View() == old(View())
      ensures r.Some? ==> r.value == old(queue)[0]
      ensures r.Some? ==> IsRun(old(View()), [Pop, FetchSub]) && View() == After(old(View()), [Pop, FetchSub])
    {
      if !lockWorks || !channelWorks {
        return None;
      }
      TwoSteps(View(), Pop, FetchSub);
      r := Some(queue[0]);
      queue := queue[1..];
      count := (count - 1) % USIZE_MODULUS;
    }
  }
}
