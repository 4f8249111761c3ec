/**
 The start-up of the reporter (src/reporter/grpc.rs): the connect, login,
 keep-alive and sender tasks, which only meet in two cells that can be set once.

 A step is one access to a cell, one outcome of a remote call, or one round of
 the sender.  The log records what the collector or the cells can observe.
 */
module Startup {
  import opened Wrappers

  type Connection = nat

  /** `do_connect`: retries until it has a connection, then stores it. */
  datatype Connect = Connecting | Connected(ch: Connection) | ConnectDone

  /** `login`: reads the connection cell, calls the collector, then sets the register cell. */
  datatype Login = LoginPolling | LoggingIn(ch: Connection) | LoggedIn | LoginDone

  /** `keep_alive` and `sender`: both read the register cell first and the connection cell second. */
  datatype Gated = Polling | SawRegister | Ready(ch: Connection)

  datatype Event = ChannelSet(ch: Connection) | LoginOk(ch: Connection) | RegisterSet
                 | Ping(ch: Connection) | Collect(ch: Connection)

  datatype State = State(
    channel: Option<Connection>,
    register: Option<bool>,
    connect: Connect,
    login: Login,
    keepAlive: Gated,
    sender: Gated,
    log: seq<Event>)

  datatype Action =
    | ConnectFails
    | ConnectSucceeds(ch: Connection)
    | SetChannel
    | LoginReadsChannel
    | LoginFails
    | LoginSucceeds
    | SetRegister
    | KeepAliveReadsRegister
    | KeepAliveReadsChannel
    | SendPing
    | SenderReadsRegister
    | SenderReadsChannel
    | SenderRound(collects: bool)

  const INITIAL := State(None, None, Connecting, LoginPolling, Polling, Polling, [])

  predicate Enabled(s: State, a: Action) {
    match a
    case ConnectFails => s.connect.Connecting?
    case ConnectSucceeds(_) => s.connect.Connecting?
    case SetChannel => s.connect.Connected?
    case LoginReadsChannel => s.login.LoginPolling?
    case LoginFails => s.login.LoggingIn?
    case LoginSucceeds => s.login.LoggingIn?
    case SetRegister => s.login.LoggedIn?
    case KeepAliveReadsRegister => s.keepAlive.Polling?
    case KeepAliveReadsChannel => s.keepAlive.SawRegister?
    case SendPing => s.keepAlive.Ready?
    case SenderReadsRegister => s.sender.Polling?
    case SenderReadsChannel => s.sender.SawRegister?
    case SenderRound(_) => s.sender.Ready?
  }

  /** `OnceCell::set` reports an error, which the tasks ignore, when the cell is already set. */
  function SetOnce<T>(cell: Option<T>, value: T): Option<T> {
    if cell.None? then Some(value) else cell
  }

  function Apply(s: State, a: Action): State
    requires Enabled(s, a)
  {
    match a
    case ConnectFails => s
    case ConnectSucceeds(ch) => s.(connect := Connected(ch))
    case SetChannel =>
      s.(channel := SetOnce(s.channel, s.connect.ch), connect := ConnectDone,
         log := s.log + [ChannelSet(s.connect.ch)])
    case LoginReadsChannel =>
      if s.channel.None? then s else s.(login := LoggingIn(s.channel.value))
    case LoginFails => s.(login := LoginPolling)
    case LoginSucceeds => s.(login := LoggedIn, log := s.log + [LoginOk(s.login.ch)])
    case SetRegister =>
      s.(register := SetOnce(s.register, true), login := LoginDone, log := s.log + [RegisterSet])
    case KeepAliveReadsRegister =>
      if s.register.None? then s else s.(keepAlive := SawRegister)
    case KeepAliveReadsChannel =>
      s.(keepAlive := if s.channel.None? then Polling else Ready(s.channel.value))
    case SendPing => s.(keepAlive := Polling, log := s.log + [Ping(s.keepAlive.ch)])
    case SenderReadsRegister =>
      if s.register.None? then s else s.(sender := SawRegister)
    case SenderReadsChannel =>
      s.(sender := if s.channel.None? then Polling else Ready(s.channel.value))
    case SenderRound(collects) =>
      s.(sender := Polling, log := if collects then s.log + [Collect(s.sender.ch)] else s.log)
  }

  predicate IsRun(s: State, run: seq<Action>)
    decreases |run|
  {
    run == [] || (Enabled(s, run[0]) && IsRun(Apply(s, run[0]), run[1..]))
  }

  function After(s: State, run: seq<Action>): State
    requires IsRun(s, run)
    decreases |run|
  {
    if run == [] then s else After(Apply(s, run[0]), run[1..])
  }

  // ---------- The invariant ----------

  /** What the log starts with once everything is up. */
  function BootLog(ch: Connection): seq<Event> {
    [ChannelSet(ch), LoginOk(ch), RegisterSet]
  }

  predicate IsTraffic(e: Event, ch: Connection) {
    e == Ping(ch) || e == Collect(ch)
  }

  predicate GatedOk(g: Gated, s: State) {
    match g
    case Polling => true
    case SawRegister => s.login.LoginDone?
    case Ready(ch) => s.login.LoginDone? && s.channel == Some(ch)
  }

  predicate Valid(s: State) {
    && (s.channel.Some? <==> s.connect.ConnectDone?)
    && (s.register.Some? <==> s.login.LoginDone?) && (s.register.Some? ==> s.register.value)
    && (s.login.LoggingIn? ==> s.channel == Some(s.login.ch))
    && (s.login.LoggedIn? || s.login.LoginDone? ==> s.channel.Some?)
    && GatedOk(s.keepAlive, s)
    && GatedOk(s.sender, s)
    && match s.channel
       case None => s.log == []
       case Some(ch) =>
         if s.login.LoginDone? then
           && 3 <= |s.log| && s.log[..3] == BootLog(ch)
           && forall i :: 3 <= i < |s.log| ==> IsTraffic(s.log[i], ch)
         else s.log == BootLog(ch)[..if s.login.LoggedIn? then 2 else 1]
  }

  lemma InitialIsValid()
    ensures Valid(INITIAL)
  {
  }

  lemma StepKeepsValid(s: State, a: Action)
    requires Valid(s) && Enabled(s, a)
    ensures Valid(Apply(s, a))
  {
  }

  lemma {:induction false} RunKeepsValid(s: State, run: seq<Action>)
    requires Valid(s) && IsRun(s, run)
    ensures Valid(After(s, run))
    decreases |run|
  {
    if run != [] {
      StepKeepsValid(s, run[0]);
      RunKeepsValid(Apply(s, run[0]), run[1..]);
    }
  }

  // ---------- Gating ----------

  /** The register cell is only set over a stored connection and after a login on that connection. */
  lemma RegisterImpliesLoggedIn(run: seq<Action>)
    requires IsRun(INITIAL, run) && After(INITIAL, run).register.Some?
    ensures var s := After(INITIAL, run);
            && s.channel.Some?
            && |s.log| >= 2 && s.log[0] == ChannelSet(s.channel.value) && s.log[1] == LoginOk(s.channel.value)
  {
    RunKeepsValid(INITIAL, run);
    var s := After(INITIAL, run);
    assert s.log[0] == s.log[..3][0] && s.log[1] == s.log[..3][1];
  }

  /** Pings and collects come after the connection, the login and the registration, and use the stored connection. */
  lemma TrafficOnlyAfterLogin(run: seq<Action>, i: nat)
    requires IsRun(INITIAL, run)
    requires var log := After(INITIAL, run).log; i < |log| && (log[i].Ping? || log[i].Collect?)
    ensures var s := After(INITIAL, run);
            && 3 <= i && s.channel.Some? && s.log[..3] == BootLog(s.channel.value)
            && s.log[i].ch == s.channel.value
  {
    RunKeepsValid(INITIAL, run);
    BootEvents(After(INITIAL, run));
  }

  /** The first events of a valid log are those of the boot sequence. */
  lemma BootEvents(s: State)
    requires Valid(s)
    ensures forall i :: 0 <= i < |s.log| && i < 3 ==> s.channel.Some? && s.log[i] == BootLog(s.channel.value)[i]
  {
  }

  /** Each cell is written at most once in any run. */
  lemma CellsAreWrittenOnce(run: seq<Action>, i: nat, j: nat)
    requires IsRun(INITIAL, run)
    requires var log := After(INITIAL, run).log;
             && i < |log| && j < |log|
             && ((log[i].ChannelSet? && log[j].ChannelSet?) || (log[i].RegisterSet? && log[j].RegisterSet?))
    ensures i == j
  {
    RunKeepsValid(INITIAL, run);
    BootEvents(After(INITIAL, run));
  }

  // ---------- What really happened ----------

  /** The state before step k, or after the last step. */
  function At(s: State, run: seq<Action>, k: nat): State
    requires IsRun(s, run) && k <= |run|
    decreases k
  {
    if k == 0 then s else At(Apply(s, run[0]), run[1..], k - 1)
  }

  lemma {:induction false} StepAt(s: State, run: seq<Action>, k: nat)
    requires IsRun(s, run) && k <= |run|
    ensures k < |run| ==> Enabled(At(s, run, k), run[k]) && At(s, run, k + 1) == Apply(At(s, run, k), run[k])
    ensures k == |run| ==> At(s, run, k) == After(s, run)
    decreases k
  {
    if k > 0 {
      StepAt(Apply(s, run[0]), run[1..], k - 1);
    }
  }

  /** Before step n a connection was stored. */
  ghost predicate Stored(run: seq<Action>, n: int) {
    exists i :: 0 <= i < n && i < |run| && run[i].SetChannel?
  }

  /** Before step n the collector accepted a login, after a connection was stored. */
  ghost predicate LoggedInBefore(run: seq<Action>, n: int) {
    exists j :: 0 <= j < n && j < |run| && run[j].LoginSucceeds? && Stored(run, j)
  }

  /** Before step n the register cell was set, after such a login. */
  ghost predicate RegisteredBefore(run: seq<Action>, n: int) {
    exists k :: 0 <= k < n && k < |run| && run[k].SetRegister? && LoggedInBefore(run, k)
  }

  predicate PastPolling(g: Gated) {
    !g.Polling?
  }

  /** The cells and the tasks can only be where the steps taken so far have put them. */
  lemma {:induction false} StateComesFromSteps(run: seq<Action>, n: nat)
    requires IsRun(INITIAL, run) && n <= |run|
    ensures var s := At(INITIAL, run, n);
            && (s.channel.Some? || s.login.LoggingIn? ==> Stored(run, n))
            && (s.login.LoggedIn? ==> LoggedInBefore(run, n))
            && (s.login.LoginDone? || s.register.Some? ==> RegisteredBefore(run, n))
            && (PastPolling(s.keepAlive) || PastPolling(s.sender) ==> RegisteredBefore(run, n))
    decreases n
  {
    if n > 0 {
      StateComesFromSteps(run, n - 1);
      StepAt(INITIAL, run, n - 1);
    }
  }

  /** The register cell is set only behind an accepted login, and that only behind a stored connection. */
  lemma RegisterComesFromLogin(run: seq<Action>) returns (i: nat, j: nat, k: nat)
    requires IsRun(INITIAL, run) && After(INITIAL, run).register.Some?
    ensures i < j < k < |run| && run[i].SetChannel? && run[j].LoginSucceeds? && run[k].SetRegister?
  {
    StateComesFromSteps(run, |run|);
    StepAt(INITIAL, run, |run|);
    i, j, k := Registration(run, |run|);
  }

  lemma Registration(run: seq<Action>, n: nat) returns (i: nat, j: nat, k: nat)
    requires RegisteredBefore(run, n)
    ensures i < j < k < n && k < |run| && run[i].SetChannel? && run[j].LoginSucceeds? && run[k].SetRegister?
  {
    k :| 0 <= k < n && k < |run| && run[k].SetRegister? && LoggedInBefore(run, k);
    j :| 0 <= j < k && j < |run| && run[j].LoginSucceeds? && Stored(run, j);
    i :| 0 <= i < j && i < |run| && run[i].SetChannel?;
  }

  /** The connection in the cell, and the one waiting to be stored, is the last one that was made. */
  lemma {:induction false} StoredConnectionWasMade(run: seq<Action>, n: nat) returns (i: nat)
    requires IsRun(INITIAL, run) && n <= |run|
    requires At(INITIAL, run, n).connect.Connected? || At(INITIAL, run, n).channel.Some?
    ensures var s := At(INITIAL, run, n);
            i < n && run[i] == ConnectSucceeds(if s.channel.Some? then s.channel.value else s.connect.ch)
    decreases n
  {
    if n == 0 {
      assert false;
    } else {
      StepAt(INITIAL, run, n - 1);
      ValidAt(INITIAL, run, n - 1);
      if run[n - 1].ConnectSucceeds? {
        i := n - 1;
      } else {
        i := StoredConnectionWasMade(run, n - 1);
      }
    }
  }

  lemma {:induction false} ValidAt(s: State, run: seq<Action>, k: nat)
    requires Valid(s) && IsRun(s, run) && k <= |run|
    ensures Valid(At(s, run, k))
    decreases k
  {
    if k > 0 {
      StepKeepsValid(s, run[0]);
      ValidAt(Apply(s, run[0]), run[1..], k - 1);
    }
  }

  /** Every ping and every round of the sender comes behind an accepted login. */
  lemma TrafficComesFromLogin(run: seq<Action>, m: nat) returns (i: nat, j: nat, k: nat)
    requires IsRun(INITIAL, run) && m < |run| && (run[m].SendPing? || run[m].SenderRound?)
    ensures i < j < k < m && run[i].SetChannel? && run[j].LoginSucceeds? && run[k].SetRegister?
  {
    StateComesFromSteps(run, m);
    StepAt(INITIAL, run, m);
    i, j, k := Registration(run, m);
  }

  /** What the collector or the cells observe of a step. */
  function Observed(s: State, a: Action): seq<Event>
    requires Enabled(s, a)
  {
    match a
    case SetChannel => [ChannelSet(s.connect.ch)]
    case LoginSucceeds => [LoginOk(s.login.ch)]
    case SetRegister => [RegisterSet]
    case SendPing => [Ping(s.keepAlive.ch)]
    case SenderRound(collects) => if collects then [Collect(s.sender.ch)] else []
    case _ => []
  }

  lemma StepLogsWhatIsObserved(s: State, a: Action)
    requires Enabled(s, a)
    ensures Apply(s, a).log == s.log + Observed(s, a)
  {
  }

  function ObservedIn(s: State, run: seq<Action>): seq<Event>
    requires IsRun(s, run)
    decreases |run|
  {
    if run == [] then [] else Observed(s, run[0]) + ObservedIn(Apply(s, run[0]), run[1..])
  }

  /** The log is the steps as observed: a `LoginOk` for each accepted login, and for nothing else. */
  lemma {:induction false} LogIsWhatHappened(s: State, run: seq<Action>)
    requires IsRun(s, run)
    ensures After(s, run).log == s.log + ObservedIn(s, run)
    decreases |run|
  {
    if run != [] {
      var t := Apply(s, run[0]);
      StepLogsWhatIsObserved(s, run[0]);
      LogIsWhatHappened(t, run[1..]);
      Regroup(s.log, Observed(s, run[0]), ObservedIn(t, run[1..]));
    }
  }

  /** A refused connection or login leaves both cells and the log alone, and the task tries again. */
  lemma FailureIsRetried(s: State, a: Action)
    requires Enabled(s, a) && (a.ConnectFails? || a.LoginFails?)
    ensures var t := Apply(s, a);
            && t.channel == s.channel && t.register == s.register && t.log == s.log
            && t.keepAlive == s.keepAlive && t.sender == s.sender
            && (a.ConnectFails? ==> t.connect.Connecting? && t.login == s.login)
            && (a.LoginFails? ==> t.login.LoginPolling? && t.connect == s.connect)
  {
  }

  /** Every attempt may succeed or fail, whatever was tried before. */
  lemma AttemptsMayFail(s: State, ch: Connection)
    ensures Enabled(s, ConnectFails) <==> s.connect.Connecting?
    ensures Enabled(s, ConnectSucceeds(ch)) <==> s.connect.Connecting?
    ensures Enabled(s, LoginFails) <==> s.login.LoggingIn?
    ensures Enabled(s, LoginSucceeds) <==> s.login.LoggingIn?
  {
  }

  /** After a ping or a round of the sender the task reads both cells again. */
  lemma RoundsStartOver(s: State, a: Action)
    requires Enabled(s, a) && (a.SendPing? || a.SenderRound?)
    ensures var t := Apply(s, a);
            && t.channel == s.channel && t.register == s.register && t.login == s.login && t.connect == s.connect
            && t.keepAlive == (if a.SendPing? then Polling else s.keepAlive)
            && t.sender == (if a.SenderRound? then Polling else s.sender)
            && (a == SenderRound(false) ==> t.log == s.log)
  {
  }

  // ---------- The reporter never gets stuck ----------

  predicate Serving(s: State) {
    s.keepAlive.Ready? && s.sender.Ready?
  }

  function Rank(s: State): nat {
    (match s.connect case Connecting => 2 case Connected(_) => 1 case ConnectDone => 0)
    + (match s.login case LoginPolling => 3 case LoggingIn(_) => 2 case LoggedIn => 1 case LoginDone => 0)
    + GatedRank(s.keepAlive) + GatedRank(s.sender)
  }

  function GatedRank(g: Gated): nat {
    match g
    case Polling => 2
    case SawRegister => 1
    case Ready(_) => 0
  }

  /** A step that brings the reporter closer to serving. */
  function Progress(s: State): Action
    requires !Serving(s)
  {
    if s.connect.Connecting? then ConnectSucceeds(0)
    else if s.connect.Connected? then SetChannel
    else if s.login.LoginPolling? then LoginReadsChannel
    else if s.login.LoggingIn? then LoginSucceeds
    else if s.login.LoggedIn? then SetRegister
    else if s.keepAlive.Polling? then KeepAliveReadsRegister
    else if s.keepAlive.SawRegister? then KeepAliveReadsChannel
    else if s.sender.Polling? then SenderReadsRegister
    else SenderReadsChannel
  }

  /** From every reachable state, whatever failed before, some continuation logs in and serves. */
  lemma {:induction false} ServingStaysPossible(s: State) returns (more: seq<Action>)
    requires Valid(s)
    ensures IsRun(s, more) && Serving(After(s, more))
    ensures After(s, more).register.Some? && After(s, more).register.value
    decreases Rank(s)
  {
    if Serving(s) {
      more := [];
    } else {
      var a := Progress(s);
      StepKeepsValid(s, a);
      var rest := ServingStaysPossible(Apply(s, a));
      more := [a] + rest;
      assert more[1..] == rest;
    }
  }
}
