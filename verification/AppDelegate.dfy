/** The object of desktop/main.swift that the machine in ServerStart specifies: its fields, and its
    methods as they update them. `pool` is what the run loop holds for it. */
module AppDelegate {
  import opened Options
  import opened ServerStart
  import opened ServerStartPolls
  import opened ServerStartRuns
  import opened ServerStartTermination

  /** What holds of a launch from its first startServer on: the restart and rediscovery counts are within
      their limits, the loading screen always has something behind it, and no poll the app can still name is
      pending while it recovers. */
  ghost predicate Sound(a: App) { Bounded(a) && Attended(a) && Quiet(a) }

  lemma StartSound(a: App, env: Env)
    requires Bounded(a) && Quiet(a)
    ensures Sound(ServerStart.StartServer(a, env))
  {
    hide ServerStart.StartServer, Attended, Evident, Weight, Quiet;
    StartSpends(a, env);
    StartEvident(a, 0, env);
    EvidentIsAttended(ServerStart.StartServer(a, env));
    SpawnQuiet(a, 0, env);
  }

  lemma StepSound(a: App, e: Event, env: Env)
    requires Sound(a) && Enabled(a, e)
    ensures Sound(Step(a, e, env))
  {
    hide Step, Enabled, Bounded, Attended, Quiet;
    StepBounded(a, e, env);
    StepAttended(a, e, env);
    StepQuiet(a, e, env);
  }

  class AppDelegate {
    const portsToTry: seq<nat>
    var rediscoveries: nat
    var attemptCount: nat
    var isRecoveringServer: bool
    var ownsServer: bool
    var serverPort: Option<nat>
    var serverProcess: Option<nat>
    var lastSpawnedServerPid: Option<nat>
    var recordedServerPid: Option<nat>
    var replacedEndedSessionServer: bool
    var screen: Screen
    var runningServerWait: Option<Holder>
    var restartWorkItem: bool
    var endedSessionRecheck: Option<nat>
    var pool: seq<Activity>
    var attachLines: nat
    var spawnLines: nat
    var replaceLines: nat

    function View(): App
      reads this
    {
      App(portsToTry, rediscoveries, attemptCount, isRecoveringServer, ownsServer, serverPort, serverProcess,
          lastSpawnedServerPid, recordedServerPid, replacedEndedSessionServer, screen, runningServerWait,
          restartWorkItem, endedSessionRecheck, pool, attachLines, spawnLines, replaceLines)
    }

    ghost predicate Valid()
      reads this
    {
      Sound(View())
    }

    constructor (ports: seq<nat>, recorded: Option<nat>)
      ensures View() == Fresh(ports, recorded) && Bounded(View()) && Quiet(View())
    {
      portsToTry := ports;
      rediscoveries, attemptCount, isRecoveringServer, ownsServer := 0, 0, false, false;
      serverPort, serverProcess, lastSpawnedServerPid, recordedServerPid := None, None, None, recorded;
      replacedEndedSessionServer, screen, runningServerWait := false, Loading, None;
      restartWorkItem, endedSessionRecheck, pool := false, None, [];
      attachLines, spawnLines, replaceLines := 0, 0, 0;
    }

    method StartServer(env: Env)
      modifies this
      ensures View() == ServerStart.StartServer(old(View()), env)
    {
      var holder := LiveLockHolder(View(), env);
      if holder.Some? {
        runningServerWait := holder;
        return;
      }
      CheckExistingServer(0, env);
    }

    method CheckExistingServer(index: nat, env: Env)
      modifies this
      ensures View() == ServerStart.CheckExistingServer(old(View()), index, env)
    {
      if index >= |portsToTry| {
        TryStartServerOnPort(0, env);
        return;
      }
      pool := pool + [Check(index, portsToTry[index])];
    }

    method TryStartServerOnPort(index: nat, env: Env)
      modifies this
      ensures View() == ServerStart.TryStartServerOnPort(old(View()), index, env)
    {
      if index >= |portsToTry| || env.spawn.NoRuntime? {
        HandleServerStartupFailure(env);
        return;
      }
      match env.spawn
      case RunFailed =>
        serverProcess := None;
        pool := pool + [SpawnFailed];
      case Started(pid) =>
        serverProcess := Some(pid);
        recordedServerPid := Some(pid);
        lastSpawnedServerPid := Some(pid);
        spawnLines := spawnLines + 1;
        pool := pool + [Proc(pid, index, portsToTry[index], false, false)];
    }

    method HandleServerStartupFailure(env: Env)
      modifies this
      ensures View() == HandleStartupFailure(old(View()), env)
    {
      var holder := LiveLockHolder(View(), env);
      if holder.Some? {
        runningServerWait := holder;
      } else if isRecoveringServer {
        ScheduleServerRecovery(false);
      } else {
        screen := ErrorScreen;
      }
    }

    method ScheduleServerRecovery(healthy: bool)
      modifies this
      ensures View() == ScheduleRecovery(old(View()), healthy)
    {
      hide DropTracked;
      restartWorkItem := false;
      pool := DropTracked(pool);
      if healthy { attemptCount := 0; }
      if attemptCount >= MAX_RESTARTS {
        isRecoveringServer := false;
        screen := ErrorScreen;
        return;
      }
      attemptCount := attemptCount + 1;
      isRecoveringServer := true;
      screen := Loading;
      restartWorkItem := true;
    }

    method AttachExistingServer(port: nat, env: Env)
      modifies this
      ensures View() == ServerStart.AttachExistingServer(old(View()), port, env)
    {
      if replacedEndedSessionServer || !env.sessionWorks {
        AttachServer(port);
        return;
      }
      pool := pool + [Ask(port, false)];
    }

    method AttachServer(port: nat)
      modifies this
      ensures View() == ServerStart.AttachServer(old(View()), port)
    {
      attachLines := attachLines + 1;
      ResetCounters();
      isRecoveringServer := false;
      ownsServer := false;
      serverPort := Some(port);
      LoadWebUI();
    }

    method ResetCounters()
      modifies this`rediscoveries, this`attemptCount
      ensures rediscoveries == attemptCount == 0
    {
      rediscoveries, attemptCount := 0, 0;
    }

    method LoadWebUI()
      modifies this`screen
      ensures View() == ServerStart.LoadWebUI(old(View()))
    {
      if serverPort.Some? { screen := Console; }
    }

    method ReplaceEndedSessionServer(port: nat, culprit: Option<nat>)
      modifies this
      ensures View() == ServerStart.ReplaceEndedSessionServer(old(View()), port, culprit)
    {
      replacedEndedSessionServer := true;
      if culprit.None? {
        AttachServer(port);
        return;
      }
      replaceLines := replaceLines + 1;
      serverPort := None;
      pool := pool + [StopEnded(port, culprit.value)];
    }

    method PollForServer()
      modifies this
      ensures View() == ServerStart.PollForServer(old(View()))
    {
      if serverPort.None? { return; }
      pool := Untrack(pool) + [Poll(serverPort.value, true)];
    }

    // -------------------------------------------------------------- the callbacks

    method LookAnswered(i: nat, listener: Option<nat>, looksOwn: bool, env: Env)
      requires i < |pool| && pool[i].Check?
      modifies this
      ensures View() == OnLookAnswered(old(View()), i, listener, looksOwn, env)
    {
      var look := pool[i];
      pool := Without(pool, i);
      if recordedServerPid.Some? && listener == recordedServerPid {
        if looksOwn {
          pool := pool + [StopOrphan(look.index, recordedServerPid.value)];
          return;
        }
        recordedServerPid := None;
      }
      AttachExistingServer(look.probed, env);
    }

    method LookUnanswered(i: nat, env: Env)
      requires i < |pool| && pool[i].Check?
      modifies this
      ensures View() == ServerStart.CheckExistingServer(old(View()).(pool := Without(old(pool), i)),
                                                        old(pool)[i].index + 1, env)
    {
      hide Without;
      var next := pool[i].index + 1;
      pool := Without(pool, i);
      CheckExistingServer(next, env);
    }

    method SpawnFailureReported(i: nat, env: Env)
      requires i < |pool| && pool[i].SpawnFailed?
      modifies this
      ensures View() == HandleStartupFailure(old(View()).(pool := Without(old(pool), i)), env)
    {
      hide Without;
      pool := Without(pool, i);
      HandleServerStartupFailure(env);
    }

    method AskAnswered(i: nat, problems: bool, culprit: Option<nat>)
      requires i < |pool| && pool[i].Ask?
      modifies this
      ensures View() == if problems then OnAskProblems(old(View()), i, culprit) else OnAskFine(old(View()), i)
    {
      var ask := pool[i];
      pool := Without(pool, i);
      if !ask.recheck {
        if problems {
          ReplaceEndedSessionServer(ask.port, culprit);
        } else {
          AttachServer(ask.port);
          endedSessionRecheck := Some(ask.port);
        }
      } else if problems && !replacedEndedSessionServer && serverPort == Some(ask.port) {
        screen := Loading;
        ReplaceEndedSessionServer(ask.port, culprit);
      }
    }

    method StopFinished(i: nat, gone: bool, env: Env)
      requires i < |pool| && (pool[i].StopOrphan? || pool[i].StopEnded?)
      modifies this
      ensures View() == OnStopDone(old(View()), i, gone, env)
    {
      var act := pool[i];
      pool := Without(pool, i);
      if gone && recordedServerPid == Some(act.pid) { recordedServerPid := None; }
      if act.StopOrphan? {
        TryStartServerOnPort(act.index, env);
      } else if !gone {
        AttachServer(act.port);
      } else {
        TryStartServerOnPort(FirstIndex(portsToTry, act.port), env);
      }
    }

    method ServerListens(i: nat)
      requires i < |pool| && pool[i].Proc?
      modifies this
      ensures View() == OnListens(old(View()), i)
    {
      var p := pool[i];
      pool := pool[i := p.(confirmed := true)] + [Confirm(p.served)];
    }

    method PortConfirmed(i: nat)
      requires i < |pool| && pool[i].Confirm?
      modifies this
      ensures View() == OnConfirm(old(View()), i)
    {
      ownsServer := true;
      serverPort := Some(pool[i].port);
      isRecoveringServer := false;
      pool := Without(pool, i);
      assert View() == old(View()).(pool := Without(old(pool), i), owns := true, port := Some(old(pool)[i].port),
                                   recovering := false);
      hide ServerStart.PollForServer, Without;
      PollForServer();
    }

    method ForgetProcess(i: nat)
      requires i < |pool| && pool[i].Proc?
      modifies this
      ensures View() == Exited(old(View()), i)
    {
      if recordedServerPid == Some(pool[i].pid) { recordedServerPid := None; }
      pool := Without(pool, i);
    }

    method ProcessExited(i: nat, portInUse: bool, healthy: bool, env: Env)
      requires i < |pool| && pool[i].Proc?
      modifies this
      ensures View() == OnExits(old(View()), i, portInUse, healthy, env)
    {
      hide Without, ScheduleRecovery, HandleStartupFailure, ServerStart.TryStartServerOnPort;
      var p := pool[i];
      var isCurrentProcess := serverProcess == Some(p.pid);
      ForgetProcess(i);
      if p.confirmed && ownsServer && isCurrentProcess {
        serverProcess := None;
        serverPort := None;
        ownsServer := false;
        ScheduleServerRecovery(healthy);
        return;
      }
      if p.confirmed || p.settled { return; }
      if isCurrentProcess { serverProcess := None; }
      if portInUse {
        TryStartServerOnPort(p.index + 1, env);
      } else {
        HandleServerStartupFailure(env);
      }
    }

    method StartupTimedOut(i: nat, env: Env)
      requires i < |pool| && pool[i].Proc?
      modifies this
      ensures View() == OnTimesOut(old(View()), i, env)
    {
      pool := pool[i := pool[i].(settled := true)];
      serverProcess := None;
      HandleServerStartupFailure(env);
    }

    method PollEnds(i: nat, answered: bool, env: Env)
      requires i < |pool| && pool[i].Poll?
      modifies this
      ensures View() == if answered then OnPollAnswers(old(View()), i) else OnPollGivesUp(old(View()), i, env)
    {
      pool := Untrack(Without(pool, i));
      if answered {
        LoadWebUI();
      } else {
        HandleServerStartupFailure(env);
      }
    }

    method RestartFires(env: Env)
      requires restartWorkItem
      modifies this
      ensures View() == OnBackoff(old(View()), env)
    {
      restartWorkItem := false;
      serverPort := None;
      StartServer(env);
    }

    method HolderGone(env: Env)
      requires runningServerWait.Some?
      modifies this
      ensures View() == OnWaitGone(old(View()), env)
    {
      hide ServerStart.StartServer;
      runningServerWait := None;
      if rediscoveries < MAX_REDISCOVERIES {
        rediscoveries := rediscoveries + 1;
        StartServer(env);
      } else {
        screen := ErrorScreen;
      }
    }

    method HolderNeverAnswered()
      modifies this
      ensures View() == old(View()).(wait := None, screen := ErrorScreen)
    {
      runningServerWait := None;
      screen := ErrorScreen;
    }

    method HolderAnswered(port: nat, env: Env)
      modifies this
      ensures View() == ServerStart.AttachExistingServer(old(View()).(wait := None), port, env)
    {
      runningServerWait := None;
      AttachExistingServer(port, env);
    }

    method RecheckDue()
      requires endedSessionRecheck.Some?
      modifies this
      ensures View() == OnRecheck(old(View()))
    {
      var port := endedSessionRecheck;
      endedSessionRecheck := None;
      if !replacedEndedSessionServer && !ownsServer && serverPort == port {
        pool := pool + [Ask(port.value, true)];
      }
    }

    /** The launch: the first startServer makes the object valid. */
    method Launch(env: Env)
      requires Bounded(View()) && Quiet(View())
      modifies this
      ensures Valid() && View() == ServerStart.StartServer(old(View()), env)
    {
      hide ServerStart.StartServer, Sound, Bounded, Quiet;
      StartSound(View(), env);
      StartServer(env);
    }

    /** Whatever the run loop delivers, in whatever order, the object takes the machine's step and stays valid. */
    method Deliver(e: Event, env: Env)
      requires Valid() && Enabled(View(), e)
      modifies this
      ensures Valid() && View() == Step(old(View()), e, env)
    {
      hide Step, Enabled, Sound;
      StepSound(View(), e, env);
      Handle(e, env);
    }

    method Handle(e: Event, env: Env)
      requires Enabled(View(), e)
      modifies this
      ensures View() == Step(old(View()), e, env)
    {
      hide OnLookAnswered, OnAskFine, OnAskProblems, OnStopDone, OnListens, OnExits, OnTimesOut, OnConfirm,
           OnPollAnswers, OnPollGivesUp, OnBackoff, OnWaitGone, OnRecheck, HandleStartupFailure,
           ServerStart.CheckExistingServer, ServerStart.AttachExistingServer, Without;
      match e
      case LookAnswered(i, listener, looksOwn) => LookAnswered(i, listener, looksOwn, env);
      case LookSilent(i) => LookUnanswered(i, env);
      case AskFine(i) => AskAnswered(i, false, None);
      case AskProblems(i, culprit) => AskAnswered(i, true, culprit);
      case StopDone(i, gone) => StopFinished(i, gone, env);
      case Listens(i) => ServerListens(i);
      case Exits(i, portInUse, healthy) => ProcessExited(i, portInUse, healthy, env);
      case TimesOut(i) => StartupTimedOut(i, env);
      case ConfirmRuns(i) => PortConfirmed(i);
      case PollAnswers(i) => PollEnds(i, true, env);
      case PollGivesUp(i) => PollEnds(i, false, env);
      case SpawnFailureRuns(i) => SpawnFailureReported(i, env);
      case BackoffFires => RestartFires(env);
      case WaitGone => HolderGone(env);
      case WaitDeadline => HolderNeverAnswered();
      case WaitAnswers(port) => HolderAnswered(port, env);
      case RecheckFires => RecheckDue();
    }
  }
}
