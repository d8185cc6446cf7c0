/** How the Mac app finds, starts and restarts its server (desktop/main.swift, "Server Management").

    The app is one object whose methods run on the main queue. Between two methods it waits: for an
    HTTP answer, a timer, a child process, a background stop. `App` holds the object's fields and,
    in `pool`, every callback it still waits for, so a step is "one pending callback arrives", in any
    order. Several can be pending at once: nothing in the source makes a recovery cancel a wait. */
module ServerStart {
  import opened Options

  const MAX_REDISCOVERIES := 3
  const MAX_RESTARTS := 5

  datatype Screen = Loading | Console | ErrorScreen

  /** What the lock file names: a server's pid and, once it has written it, its port. */
  datatype Holder = Holder(pid: nat, port: Option<nat>)

  /** A callback the app waits for. */
  datatype Activity =
    | Check(index: nat, probed: nat)           // the probe of `probed`, ports[index]
    | Ask(port: nat, recheck: bool)            // GET /api/config, for the login session
    | StopOrphan(index: nat, pid: nat)         // stopping our own orphan, then spawning
    | StopEnded(port: nat, pid: nat)           // stopping a server of an ended session
    | Proc(pid: nat, index: nat, served: nat, confirmed: bool, settled: bool)   // our child, told to serve on `served`
    | Confirm(port: nat)                       // queued when the child prints "listening"
    | Poll(port: nat, tracked: bool)           // pollForServer's timer; tracked: retryTimer names it
    | SpawnFailed                              // queued when the child could not run

  datatype App = App(
    ports: seq<nat>,
    rediscoveries: nat,
    attempts: nat,                             // serverRestartPolicy.attemptCount
    recovering: bool,
    owns: bool,
    port: Option<nat>,                         // serverPort
    current: Option<nat>,                      // serverProcess, by pid
    lastSpawned: Option<nat>,
    recorded: Option<nat>,                     // server.pid
    replaced: bool,                            // replacedEndedSessionServer
    screen: Screen,
    wait: Option<Holder>,                      // runningServerWaitTimer
    backoff: bool,                             // serverRestartWorkItem
    recheck: Option<nat>,                      // endedSessionRecheck
    pool: seq<Activity>,
    attaches: nat,                             // "existing_server_attached" lines in the log
    spawns: nat,                               // "server_process_started" lines in the log
    replacements: nat)                         // "ended_session_server_replaced" lines in the log

  /** What the process table, the lock file and a spawn answer while one method runs. */
  datatype Env = Env(lock: Option<Holder>, lockIsWalnut: bool, ownPid: nat, sessionWorks: bool, spawn: Spawn)
  datatype Spawn = Started(pid: nat) | RunFailed | NoRuntime

  // ------------------------------------------------------------------ the methods

  function LiveLockHolder(a: App, env: Env): Option<Holder> {
    if env.lock.Some? && env.lock.value.pid != env.ownPid && Some(env.lock.value.pid) != a.lastSpawned
       && Some(env.lock.value.pid) != a.recorded && env.lockIsWalnut
    then env.lock else None
  }

  function Queue(a: App, act: Activity): App {
    a.(pool := a.pool + [act])
  }

  function Without(pool: seq<Activity>, i: nat): seq<Activity>
    requires i < |pool|
  {
    pool[..i] + pool[i + 1..]
  }

  /** retryTimer is overwritten or set to nil: no poll is the tracked one any more. */
  function Untrack(pool: seq<Activity>): seq<Activity> {
    seq(|pool|, i requires 0 <= i < |pool| =>
      if pool[i].Poll? then Poll(pool[i].port, false) else pool[i])
  }

  /** retryTimer is invalidated. */
  function DropTracked(pool: seq<Activity>): seq<Activity> {
    if pool == [] then []
    else (if pool[0].Poll? && pool[0].tracked then [] else [pool[0]]) + DropTracked(pool[1..])
  }

  /** No server was attached or replaced between a and b. */
  predicate SameServer(a: App, b: App) {
    b.ports == a.ports && b.replaced == a.replaced && b.attaches == a.attaches && b.replacements == a.replacements
  }

  function StartServer(a: App, env: Env): (b: App)
    ensures SameServer(a, b)
  {
    var holder := LiveLockHolder(a, env);
    if holder.Some? then a.(wait := holder) else CheckExistingServer(a, 0, env)
  }

  function CheckExistingServer(a: App, index: nat, env: Env): (b: App)
    ensures SameServer(a, b)
  {
    if index < |a.ports| then Queue(a, Check(index, a.ports[index])) else TryStartServerOnPort(a, 0, env)
  }

  function TryStartServerOnPort(a: App, index: nat, env: Env): (b: App)
    ensures SameServer(a, b)
  {
    if index >= |a.ports| then HandleStartupFailure(a, env)
    else match env.spawn
      case NoRuntime => HandleStartupFailure(a, env)
      case RunFailed => Queue(a.(current := None), SpawnFailed)
      case Started(pid) =>
        Queue(a.(current := Some(pid), recorded := Some(pid), lastSpawned := Some(pid), spawns := a.spawns + 1),
              Proc(pid, index, a.ports[index], false, false))
  }

  function HandleStartupFailure(a: App, env: Env): (b: App)
    ensures SameServer(a, b)
  {
    var holder := LiveLockHolder(a, env);
    if holder.Some? then a.(wait := holder)
    else if a.recovering then ScheduleRecovery(a, false)
    else a.(screen := ErrorScreen)
  }

  /** `healthy`: the server that stopped had served for healthyResetInterval. */
  function ScheduleRecovery(a: App, healthy: bool): (b: App)
    ensures SameServer(a, b)
  {
    var b := a.(backoff := false, pool := DropTracked(a.pool));
    var n := if healthy then 0 else a.attempts;
    if n < MAX_RESTARTS then b.(attempts := n + 1, recovering := true, screen := Loading, backoff := true)
    else b.(attempts := n, recovering := false, screen := ErrorScreen)
  }

  function AttachExistingServer(a: App, port: nat, env: Env): (b: App)
    ensures b.replaced == a.replaced && b.replacements == a.replacements
  {
    if a.replaced || !env.sessionWorks then AttachServer(a, port) else Queue(a, Ask(port, false))
  }

  function AttachServer(a: App, port: nat): App {
    a.(rediscoveries := 0, attempts := 0, recovering := false, owns := false, port := Some(port),
       screen := Console, attaches := a.attaches + 1)
  }

  function ReplaceEndedSessionServer(a: App, port: nat, culprit: Option<nat>): App {
    var b := a.(replaced := true);
    if culprit.None? then AttachServer(b, port)
    else Queue(b.(port := None, replacements := a.replacements + 1), StopEnded(port, culprit.value))
  }

  function FirstIndex(ports: seq<nat>, port: nat): nat {
    if exists i :: 0 <= i < |ports| && ports[i] == port then IndexFrom(ports, port, 0) else 0
  }

  function IndexFrom(ports: seq<nat>, port: nat, i: nat): (k: nat)
    requires exists j :: i <= j < |ports| && ports[j] == port
    ensures i <= k < |ports| && ports[k] == port && forall j :: i <= j < k ==> ports[j] != port
    decreases |ports| - i
  {
    if ports[i] == port then i else IndexFrom(ports, port, i + 1)
  }

  function PollForServer(a: App): App {
    if a.port.None? then a else Queue(a.(pool := Untrack(a.pool)), Poll(a.port.value, true))
  }

  function LoadWebUI(a: App): App {
    if a.port.None? then a else a.(screen := Console)
  }

  // ------------------------------------------------------------------ the steps

  datatype Event =
    | LookAnswered(i: nat, listener: Option<nat>, looksOwn: bool)
    | LookSilent(i: nat)
    | AskFine(i: nat)                              // no problems, or no answer at all
    | AskProblems(i: nat, culprit: Option<nat>)    // culprit: the server found to stop
    | StopDone(i: nat, gone: bool)
    | Listens(i: nat)
    | Exits(i: nat, portInUse: bool, healthy: bool)
    | TimesOut(i: nat)
    | ConfirmRuns(i: nat)
    | PollAnswers(i: nat)
    | PollGivesUp(i: nat)
    | SpawnFailureRuns(i: nat)
    | BackoffFires
    | WaitGone
    | WaitDeadline
    | WaitAnswers(port: nat)
    | RecheckFires

  /** Whether the app waits for this event. */
  predicate Enabled(a: App, e: Event) {
    match e
    case LookAnswered(i, _, _) => i < |a.pool| && a.pool[i].Check?
    case LookSilent(i) => i < |a.pool| && a.pool[i].Check?
    case AskFine(i) => i < |a.pool| && a.pool[i].Ask?
    case AskProblems(i, _) => i < |a.pool| && a.pool[i].Ask?
    case StopDone(i, _) => i < |a.pool| && (a.pool[i].StopOrphan? || a.pool[i].StopEnded?)
    case Listens(i) => i < |a.pool| && a.pool[i].Proc? && !a.pool[i].confirmed && !a.pool[i].settled
    case Exits(i, _, _) => i < |a.pool| && a.pool[i].Proc?
    case TimesOut(i) => i < |a.pool| && a.pool[i].Proc? && !a.pool[i].confirmed && !a.pool[i].settled
                        && a.current == Some(a.pool[i].pid)
    case ConfirmRuns(i) => i < |a.pool| && a.pool[i].Confirm?
    case PollAnswers(i) => i < |a.pool| && a.pool[i].Poll?
    case PollGivesUp(i) => i < |a.pool| && a.pool[i].Poll?
    case SpawnFailureRuns(i) => i < |a.pool| && a.pool[i].SpawnFailed?
    case BackoffFires => a.backoff
    case WaitGone => a.wait.Some?
    case WaitDeadline => a.wait.Some?
    case WaitAnswers(_) => a.wait.Some?
    case RecheckFires => a.recheck.Some?
  }

  function OnLookAnswered(a: App, i: nat, listener: Option<nat>, looksOwn: bool, env: Env): App
    requires i < |a.pool| && a.pool[i].Check?
  {
    var index := a.pool[i].index;
    var b := a.(pool := Without(a.pool, i));
    if a.recorded.Some? && listener == a.recorded && looksOwn then Queue(b, StopOrphan(index, a.recorded.value))
    else
      var c := if a.recorded.Some? && listener == a.recorded then b.(recorded := None) else b;
      AttachExistingServer(c, a.pool[i].probed, env)
  }

  function OnAskFine(a: App, i: nat): App
    requires i < |a.pool| && a.pool[i].Ask?
  {
    var b := a.(pool := Without(a.pool, i));
    if a.pool[i].recheck then b else AttachServer(b, a.pool[i].port).(recheck := Some(a.pool[i].port))
  }

  function OnAskProblems(a: App, i: nat, culprit: Option<nat>): App
    requires i < |a.pool| && a.pool[i].Ask?
  {
    var port := a.pool[i].port;
    var b := a.(pool := Without(a.pool, i));
    if !a.pool[i].recheck then ReplaceEndedSessionServer(b, port, culprit)
    else if !a.replaced && a.port == Some(port) then ReplaceEndedSessionServer(b.(screen := Loading), port, culprit)
    else b
  }

  function OnStopDone(a: App, i: nat, gone: bool, env: Env): App
    requires i < |a.pool| && (a.pool[i].StopOrphan? || a.pool[i].StopEnded?)
  {
    var act := a.pool[i];
    var b := a.(pool := Without(a.pool, i),
                recorded := if gone && a.recorded == Some(act.pid) then None else a.recorded);
    if act.StopOrphan? then TryStartServerOnPort(b, act.index, env)
    else if gone then TryStartServerOnPort(b, FirstIndex(a.ports, act.port), env)
    else AttachServer(b, act.port)
  }

  function OnListens(a: App, i: nat): App
    requires i < |a.pool| && a.pool[i].Proc?
  {
    var p := a.pool[i];
    Queue(a.(pool := a.pool[i := p.(confirmed := true)]), Confirm(p.served))
  }

  /** The fields when the i-th child has exited, before what its exit means is decided. */
  function Exited(a: App, i: nat): (b: App)
    requires i < |a.pool| && a.pool[i].Proc?
    ensures SameServer(a, b) && b.owns == a.owns && b.current == a.current
  {
    var p := a.pool[i];
    a.(pool := Without(a.pool, i), recorded := if a.recorded == Some(p.pid) then None else a.recorded)
  }

  function OnExits(a: App, i: nat, portInUse: bool, healthy: bool, env: Env): App
    requires i < |a.pool| && a.pool[i].Proc?
  {
    var p := a.pool[i];
    var isCurrent := a.current == Some(p.pid);
    var b := Exited(a, i);
    if p.confirmed && a.owns && isCurrent then
      ScheduleRecovery(b.(current := None, port := None, owns := false), healthy)
    else if p.confirmed || p.settled then b
    else
      var c := if isCurrent then b.(current := None) else b;
      if portInUse then TryStartServerOnPort(c, p.index + 1, env) else HandleStartupFailure(c, env)
  }

  function OnTimesOut(a: App, i: nat, env: Env): App
    requires i < |a.pool| && a.pool[i].Proc?
  {
    HandleStartupFailure(a.(pool := a.pool[i := a.pool[i].(settled := true)], current := None), env)
  }

  function OnConfirm(a: App, i: nat): App
    requires i < |a.pool| && a.pool[i].Confirm?
  {
    PollForServer(a.(pool := Without(a.pool, i), owns := true, port := Some(a.pool[i].port), recovering := false))
  }

  function OnPollAnswers(a: App, i: nat): App
    requires i < |a.pool|
  {
    LoadWebUI(a.(pool := Untrack(Without(a.pool, i))))
  }

  function OnPollGivesUp(a: App, i: nat, env: Env): App
    requires i < |a.pool|
  {
    HandleStartupFailure(a.(pool := Untrack(Without(a.pool, i))), env)
  }

  function OnBackoff(a: App, env: Env): App {
    StartServer(a.(backoff := false, port := None), env)
  }

  function OnWaitGone(a: App, env: Env): App {
    var b := a.(wait := None);
    if a.rediscoveries < MAX_REDISCOVERIES then StartServer(b.(rediscoveries := a.rediscoveries + 1), env)
    else b.(screen := ErrorScreen)
  }

  function OnRecheck(a: App): App
    requires a.recheck.Some?
  {
    var b := a.(recheck := None);
    if !a.replaced && !a.owns && a.port == a.recheck then Queue(b, Ask(a.recheck.value, true)) else b
  }

  function Step(a: App, e: Event, env: Env): App
    requires Enabled(a, e)
  {
    match e
    case LookAnswered(i, listener, looksOwn) => OnLookAnswered(a, i, listener, looksOwn, env)
    case LookSilent(i) => CheckExistingServer(a.(pool := Without(a.pool, i)), a.pool[i].index + 1, env)
    case AskFine(i) => OnAskFine(a, i)
    case AskProblems(i, culprit) => OnAskProblems(a, i, culprit)
    case StopDone(i, gone) => OnStopDone(a, i, gone, env)
    case Listens(i) => OnListens(a, i)
    case Exits(i, portInUse, healthy) => OnExits(a, i, portInUse, healthy, env)
    case TimesOut(i) => OnTimesOut(a, i, env)
    case ConfirmRuns(i) => OnConfirm(a, i)
    case PollAnswers(i) => OnPollAnswers(a, i)
    case PollGivesUp(i) => OnPollGivesUp(a, i, env)
    case SpawnFailureRuns(i) => HandleStartupFailure(a.(pool := Without(a.pool, i)), env)
    case BackoffFires => OnBackoff(a, env)
    case WaitGone => OnWaitGone(a, env)
    case WaitDeadline => a.(wait := None, screen := ErrorScreen)
    case WaitAnswers(port) => AttachExistingServer(a.(wait := None), port, env)
    case RecheckFires => OnRecheck(a)
  }

  /** The app when a launch is about to call startServer: `recorded` is what an earlier run left in server.pid. */
  function Fresh(ports: seq<nat>, recorded: Option<nat>): App {
    App(ports, 0, 0, false, false, None, None, None, recorded, false, Loading, None, false, None, [], 0, 0, 0)
  }
}
