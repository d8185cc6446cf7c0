/** Whole launches of the server machine: what holds in every reachable state, and the runs that break
    what the source's comments promise. */
module ServerStartRuns {
  import opened Options
  import opened ServerStart
  import opened ServerStartTermination

  datatype Moment = Moment(e: Event, env: Env)

  /** The state after the moments of `trace`, None when one of them was not pending. */
  function After(a: App, trace: seq<Moment>): Option<App>
    decreases |trace|
  {
    if trace == [] then Some(a)
    else if Enabled(a, trace[0].e) then After(Step(a, trace[0].e, trace[0].env), trace[1..])
    else None
  }

  /** A launch: startServer on the fresh app, then the moments of `trace`. */
  function Launch(ports: seq<nat>, recorded: Option<nat>, env: Env, trace: seq<Moment>): Option<App> {
    After(StartServer(Fresh(ports, recorded), env), trace)
  }

  lemma {:induction false} AfterConcat(a: App, t: seq<Moment>, u: seq<Moment>)
    requires After(a, t).Some?
    ensures After(a, t + u) == After(After(a, t).value, u)
    decreases |t|
  {
    if t == [] {
      assert t + u == u;
    } else {
      assert (t + u)[1..] == t[1..] + u && (t + u)[0] == t[0];
      AfterConcat(Step(a, t[0].e, t[0].env), t[1..], u);
    }
  }

  // ------------------------------------------------------------------ no stranded screen

  /** A callback that will move the launch on by itself (a poll needs a known port to show anything). */
  predicate Drives(act: Activity) {
    match act
    case Ask(_, recheck) => !recheck
    case Proc(_, _, _, confirmed, settled) => !confirmed && !settled
    case Poll(_, _) => false
    case _ => true
  }

  ghost predicate Driven(a: App) {
    a.wait.Some? || a.backoff || exists i :: 0 <= i < |a.pool| && Drives(a.pool[i])
  }

  ghost predicate Polled(a: App) {
    exists i :: 0 <= i < |a.pool| && a.pool[i].Poll?
  }

  /** The loading screen always has something behind it, and a forgotten port does too. */
  ghost predicate Attended(a: App) {
    && (a.screen.Loading? ==> Driven(a) || Polled(a))
    && (a.port.None? ==> a.screen.ErrorScreen? || Driven(a))
  }

  /** A state that is attended for a reason the last step left behind. */
  ghost predicate Evident(b: App) {
    || b.wait.Some? || b.backoff || b.screen.ErrorScreen?
    || (b.screen.Console? && b.port.Some?)
    || (|b.pool| > 0 && Drives(b.pool[|b.pool| - 1]))
    || (|b.pool| > 0 && b.pool[|b.pool| - 1].Poll? && b.port.Some?)
  }

  lemma EvidentIsAttended(b: App)
    requires Evident(b)
    ensures Attended(b)
  {
    if |b.pool| > 0 {
      assert Drives(b.pool[|b.pool| - 1]) ==> Driven(b);
      assert b.pool[|b.pool| - 1].Poll? ==> Polled(b);
    }
  }

  lemma FailureEvident(a: App, env: Env)
    ensures Evident(HandleStartupFailure(a, env))
  {
    hide DropTracked;
  }

  lemma SpawnEvident(a: App, index: nat, env: Env)
    ensures Evident(TryStartServerOnPort(a, index, env))
  {
    hide HandleStartupFailure;
    FailureEvident(a, env);
  }

  lemma StartEvident(a: App, index: nat, env: Env)
    ensures Evident(CheckExistingServer(a, index, env)) && Evident(StartServer(a, env))
  {
    hide TryStartServerOnPort;
    SpawnEvident(a, 0, env);
  }

  /** Every driver of a but the i-th is still there in b. */
  lemma Survives(a: App, i: nat, b: App)
    requires Attended(a) && i < |a.pool| && !Drives(a.pool[i])
    requires b.wait == a.wait && b.backoff == a.backoff && b.port == a.port && b.screen == a.screen
    requires b.pool == Without(a.pool, i) && !a.pool[i].Poll?
    ensures Attended(b)
  {
    if Driven(a) && a.wait.None? && !a.backoff {
      var j :| 0 <= j < |a.pool| && Drives(a.pool[j]);
      assert Drives(b.pool[if j < i then j else j - 1]);
    }
    if Polled(a) {
      var j :| 0 <= j < |a.pool| && a.pool[j].Poll?;
      assert b.pool[if j < i then j else j - 1].Poll?;
    }
  }

  lemma PollAnswerAttended(a: App, i: nat)
    requires Attended(a) && i < |a.pool| && a.pool[i].Poll?
    ensures Attended(OnPollAnswers(a, i))
  {
    var b := OnPollAnswers(a, i);
    if a.port.None? && a.wait.None? && !a.backoff && !a.screen.ErrorScreen? {
      var j :| 0 <= j < |a.pool| && Drives(a.pool[j]);
      assert Drives(b.pool[if j < i then j else j - 1]);
    }
  }

  lemma RecheckAttended(a: App)
    requires Attended(a) && a.recheck.Some?
    ensures Attended(OnRecheck(a))
  {
    var b := OnRecheck(a);
    assert forall j :: 0 <= j < |a.pool| ==> b.pool[j] == a.pool[j];
  }

  lemma ExitAttended(a: App, i: nat, portInUse: bool, healthy: bool, env: Env)
    requires Attended(a) && i < |a.pool| && a.pool[i].Proc?
    ensures Attended(OnExits(a, i, portInUse, healthy, env))
  {
    hide DropTracked, HandleStartupFailure, TryStartServerOnPort, Without;
    var p := a.pool[i];
    var b := Exited(a, i);
    if p.confirmed && a.owns && a.current == Some(p.pid) {
    } else if p.confirmed || p.settled {
      Survives(a, i, b);
    } else {
      var c := if a.current == Some(p.pid) then b.(current := None) else b;
      FailureEvident(c, env);
      SpawnEvident(c, p.index + 1, env);
      EvidentIsAttended(OnExits(a, i, portInUse, healthy, env));
    }
  }

  lemma AskAttended(a: App, e: Event, env: Env)
    requires Attended(a) && Enabled(a, e) && (e.AskFine? || e.AskProblems?)
    ensures Attended(Step(a, e, env))
  {
    hide Without;
    if a.pool[e.i].recheck {
      Survives(a, e.i, a.(pool := Without(a.pool, e.i)));
      if e.AskProblems? && !a.replaced && a.port == Some(a.pool[e.i].port) {
        EvidentIsAttended(Step(a, e, env));
      }
    } else {
      EvidentIsAttended(Step(a, e, env));
    }
  }

  lemma OtherStepAttended(a: App, e: Event, env: Env)
    requires Enabled(a, e)
    requires !e.AskFine? && !e.AskProblems? && !e.Exits? && !e.PollAnswers? && !e.RecheckFires?
    ensures Attended(Step(a, e, env))
  {
    hide Without, Untrack, DropTracked, HandleStartupFailure, TryStartServerOnPort, CheckExistingServer, StartServer;
    match e {
      case LookSilent(i) =>
        StartEvident(a.(pool := Without(a.pool, i)), a.pool[i].index + 1, env);
      case StopDone(i, gone) =>
        var act := a.pool[i];
        var b := a.(pool := Without(a.pool, i),
                    recorded := if gone && a.recorded == Some(act.pid) then None else a.recorded);
        SpawnEvident(b, if act.StopOrphan? then act.index else FirstIndex(a.ports, act.port), env);
      case TimesOut(i) =>
        FailureEvident(a.(pool := a.pool[i := a.pool[i].(settled := true)], current := None), env);
      case PollGivesUp(i) => FailureEvident(a.(pool := Untrack(Without(a.pool, i))), env);
      case SpawnFailureRuns(i) => FailureEvident(a.(pool := Without(a.pool, i)), env);
      case BackoffFires => StartEvident(a.(backoff := false, port := None), 0, env);
      case WaitGone => StartEvident(a.(wait := None, rediscoveries := a.rediscoveries + 1), 0, env);
      case _ =>
    }
    EvidentIsAttended(Step(a, e, env));
  }

  lemma StepAttended(a: App, e: Event, env: Env)
    requires Attended(a) && Enabled(a, e)
    ensures Attended(Step(a, e, env))
  {
    hide Without, Untrack, DropTracked, HandleStartupFailure, TryStartServerOnPort, CheckExistingServer,
         StartServer, AttachExistingServer, Attended, Evident;
    match e
    case AskFine(i) => AskAttended(a, e, env);
    case AskProblems(i, culprit) => AskAttended(a, e, env);
    case Exits(i, portInUse, healthy) => ExitAttended(a, i, portInUse, healthy, env);
    case PollAnswers(i) => PollAnswerAttended(a, i);
    case RecheckFires => RecheckAttended(a);
    case _ => OtherStepAttended(a, e, env);
  }

  lemma {:induction false} RunAttended(a: App, trace: seq<Moment>)
    requires Attended(a) && After(a, trace).Some?
    ensures Attended(After(a, trace).value)
    decreases |trace|
  {
    hide Step, Enabled, Attended;
    if trace != [] {
      StepAttended(a, trace[0].e, trace[0].env);
      RunAttended(Step(a, trace[0].e, trace[0].env), trace[1..]);
    }
  }

  /** No launch is left on the loading screen: in every reachable state a callback that moves the launch on
      is pending, or the error is shown, or the port is known and shown or polled. */
  lemma NoLaunchIsStranded(ports: seq<nat>, recorded: Option<nat>, env: Env, trace: seq<Moment>)
    requires Launch(ports, recorded, env, trace).Some?
    ensures var a := Launch(ports, recorded, env, trace).value;
            Driven(a) || a.screen.ErrorScreen? || (a.port.Some? && (a.screen.Console? || Polled(a)))
  {
    StartEvident(Fresh(ports, recorded), 0, env);
    EvidentIsAttended(StartServer(Fresh(ports, recorded), env));
    RunAttended(StartServer(Fresh(ports, recorded), env), trace);
  }

  // ------------------------------------------------------------------ the budgets

  lemma {:induction false} RunBudgets(a: App, trace: seq<Moment>)
    requires Bounded(a) && After(a, trace).Some?
    ensures Bounded(After(a, trace).value)
    decreases |trace|
  {
    hide Step, Enabled, Lowers;
    if trace != [] {
      StepBounded(a, trace[0].e, trace[0].env);
      RunBudgets(Step(a, trace[0].e, trace[0].env), trace[1..]);
    }
  }

  lemma StepBounded(a: App, e: Event, env: Env)
    requires Bounded(a) && Enabled(a, e)
    ensures Bounded(Step(a, e, env))
  {
    if Healthy(e) {
      hide DropTracked, Without, TryStartServerOnPort, HandleStartupFailure;
      ExitLowers(a, e.i, e.portInUse, env);
    } else {
      hide Step;
      StepLowers(a, e, env);
    }
  }

  /** Never more than five restarts and three rediscoveries in a row, in any reachable state. */
  lemma BudgetsHold(ports: seq<nat>, recorded: Option<nat>, env: Env, trace: seq<Moment>)
    requires Launch(ports, recorded, env, trace).Some?
    ensures Bounded(Launch(ports, recorded, env, trace).value)
  {
    StartSpends(Fresh(ports, recorded), env);
    RunBudgets(StartServer(Fresh(ports, recorded), env), trace);
  }

  // ------------------------------------------------------------------ where the promises fail

  const PORTS: seq<nat> := [3456, 4567]

  /** Nobody holds the lock; a spawn gives our child this pid. */
  function Alone(pid: nat): Env { Env(None, false, 1, true, Started(pid)) }

  /** Another Walnut, pid 7, holds the lock and serves on 9000. */
  const OTHER := Env(Some(Holder(7, Some(9000))), true, 1, true, NoRuntime)

  /** Attached to the other Walnut with a restart of our own still pending: nothing cancelled it. */
  function AttachedWithRestartPending(lastPid: nat, n: nat): App {
    App(PORTS, 0, 0, false, false, Some(9000), None, Some(lastPid), None, false, Console, None, true, Some(9000),
        [], n, n, 0)
  }

  lemma Then(a: App, m: Moment, rest: seq<Moment>)
    requires Enabled(a, m.e)
    ensures After(a, [m] + rest) == After(Step(a, m.e, m.env), rest)
  {
    assert ([m] + rest)[1..] == rest;
  }

  /** Discovery finds nothing; our server starts and says it listens. */
  function OurServerStarts(pid: nat): seq<Moment> {
    var e := Alone(pid);
    [Moment(LookSilent(0), e)] + ([Moment(LookSilent(0), e)]
    + ([Moment(Listens(0), e)] + ([Moment(ConfirmRuns(1), e)] + [])))
  }

  /** It never answers, the app waits for the other Walnut, ours exits, and the wait attaches: the
      restart count starts again under the pending restart. */
  function OurServerLoses(pid: nat): seq<Moment> {
    [Moment(PollGivesUp(1), OTHER)] + ([Moment(Exits(0, false, false), Alone(pid))]
    + ([Moment(WaitAnswers(9000), OTHER)] + ([Moment(AskFine(0), OTHER)] + [])))
  }

  /** Discovery has just begun, on its first port. */
  predicate Discovering(a: App, n: nat) {
    && a.ports == PORTS && a.rediscoveries == 0 && a.attempts == 0 && !a.owns && a.port.None? && a.wait.None?
    && !a.backoff && !a.replaced && a.pool == [Check(0, 3456)]
    && a.attaches == n && a.spawns == n && a.replacements == 0
  }

  predicate Listening(a: App, n: nat, pid: nat) {
    && a.ports == PORTS && a.rediscoveries == 0 && a.attempts == 0 && a.owns && a.port == Some(3456) && a.wait.None?
    && !a.backoff && !a.replaced && !a.recovering && a.pool == [Proc(pid, 0, 3456, true, false), Poll(3456, true)]
    && a.attaches == n && a.spawns == n + 1 && a.replacements == 0
    && a.current == Some(pid) && a.lastSpawned == Some(pid) && a.recorded == Some(pid)
  }

  lemma OurServerStartsRun(a: App, n: nat, pid: nat)
    requires Discovering(a, n)
    ensures After(a, OurServerStarts(pid)).Some? && Listening(After(a, OurServerStarts(pid)).value, n, pid)
  {
    hide After, HandleStartupFailure, ScheduleRecovery;
    var e := Alone(pid);
    var m1, m3, m4 := Moment(LookSilent(0), e), Moment(Listens(0), e), Moment(ConfirmRuns(1), e);
    var t4: seq<Moment> := [m4] + [];
    Then(a, m1, [m1] + ([m3] + t4));
    var b := Step(a, m1.e, e);
    assert b.pool == [Check(1, 4567)];
    Then(b, m1, [m3] + t4);
    var c := Step(b, m1.e, e);
    assert c.pool == [Proc(pid, 0, 3456, false, false)];
    Then(c, m3, t4);
    var d := Step(c, m3.e, e);
    assert d.pool == [Proc(pid, 0, 3456, true, false), Confirm(3456)];
    Then(d, m4, []);
    var f := Step(d, m4.e, e);
    assert f.pool == [Proc(pid, 0, 3456, true, false), Poll(3456, true)];
    AfterNothing(f);
  }

  lemma AfterNothing(a: App)
    ensures After(a, []) == Some(a)
  {
  }

  lemma OurServerLosesRun(a: App, n: nat, pid: nat)
    requires Listening(a, n, pid) && pid != 7
    ensures After(a, OurServerLoses(pid)) == Some(AttachedWithRestartPending(pid, n + 1))
  {
    hide After, TryStartServerOnPort;
    var e := Alone(pid);
    var m1, m2 := Moment(PollGivesUp(1), OTHER), Moment(Exits(0, false, false), e);
    var m3, m4 := Moment(WaitAnswers(9000), OTHER), Moment(AskFine(0), OTHER);
    var t4: seq<Moment> := [m4] + [];
    Then(a, m1, [m2] + ([m3] + t4));
    var b := Step(a, m1.e, OTHER);
    assert b.pool == [Proc(pid, 0, 3456, true, false)];
    Then(b, m2, [m3] + t4);
    var c := Step(b, m2.e, e);
    assert c.pool == [];
    Then(c, m3, t4);
    var d := Step(c, m3.e, OTHER);
    assert d.pool == [Ask(9000, false)];
    Then(d, m4, []);
    var f := Step(d, m4.e, OTHER);
    assert f.pool == [];
    AfterNothing(f);
  }

  lemma RoundRun(a: App, n: nat, pid: nat)
    requires Discovering(a, n) && pid != 7
    ensures After(a, OurServerStarts(pid) + OurServerLoses(pid)) == Some(AttachedWithRestartPending(pid, n + 1))
  {
    hide After, OurServerStarts, OurServerLoses;
    OurServerStartsRun(a, n, pid);
    OurServerLosesRun(After(a, OurServerStarts(pid)).value, n, pid);
    AfterConcat(a, OurServerStarts(pid), OurServerLoses(pid));
  }

  lemma RoundIsUnhealthy(pid: nat)
    ensures forall m <- OurServerStarts(pid) + OurServerLoses(pid) :: !Healthy(m.e)
  {
    assert forall m <- OurServerStarts(pid) :: !Healthy(m.e);
    assert forall m <- OurServerLoses(pid) :: !Healthy(m.e);
  }

  /** The five-restart limit does not bound a launch: for every n there is one that starts n + 1 servers,
      none of which ever stays healthy, because each attach resets the count under a restart it leaves
      pending. */
  lemma {:induction false} RestartsWithoutBound(n: nat) returns (trace: seq<Moment>)
    ensures Launch(PORTS, None, Alone(2), trace) == Some(AttachedWithRestartPending(2, n + 1))
    ensures forall m <- trace :: !Healthy(m.e)
  {
    hide After, OurServerStarts, OurServerLoses;
    var round := OurServerStarts(2) + OurServerLoses(2);
    RoundIsUnhealthy(2);
    var a := StartServer(Fresh(PORTS, None), Alone(2));
    if n == 0 {
      assert Discovering(a, 0);
      RoundRun(a, 0, 2);
      trace := round;
    } else {
      var before := RestartsWithoutBound(n - 1);
      var fires := Moment(BackoffFires, Alone(2));
      var b := AttachedWithRestartPending(2, n);
      var c := Step(b, BackoffFires, Alone(2));
      assert c.pool == [Check(0, 3456)];
      RoundRun(c, n, 2);
      Then(b, fires, round);
      AfterConcat(a, before, [fires] + round);
      trace := before + ([fires] + round);
    }
  }

  /** "Replaced at most once per launch" is checked before a server is asked, not when it has answered:
      a server is replaced after another exactly when a first ask was still out at that moment. */
  lemma ReplacesAgainIff(a: App, e: Event, env: Env)
    requires Enabled(a, e) && a.replaced
    ensures Step(a, e, env).replacements > a.replacements
            <==> e.AskProblems? && !a.pool[e.i].recheck && e.culprit.Some?
  {
    hide Without, Untrack, DropTracked, HandleStartupFailure, TryStartServerOnPort, CheckExistingServer,
         StartServer, ScheduleRecovery, AttachExistingServer, Exited;
  }

  /** The part of OurServerLoses before the answer, then the pending restart finds the same server, and
      both asks are answered with problems. */
  function TwoAsks(pid: nat): seq<Moment> {
    [Moment(PollGivesUp(1), OTHER)] + ([Moment(Exits(0, false, false), Alone(pid))]
    + ([Moment(WaitAnswers(9000), OTHER)] + ([Moment(BackoffFires, OTHER)] + ([Moment(WaitAnswers(9000), OTHER)]
    + ([Moment(AskProblems(0, Some(7)), OTHER)] + ([Moment(AskProblems(0, Some(8)), OTHER)] + []))))))
  }

  lemma TwoAsksRun(a: App, n: nat, pid: nat)
    requires Listening(a, n, pid) && pid != 7
    ensures After(a, TwoAsks(pid)).Some? && After(a, TwoAsks(pid)).value.replacements == 2
  {
    hide After, TryStartServerOnPort;
    var e := Alone(pid);
    var t7: seq<Moment> := [Moment(AskProblems(0, Some(8)), OTHER)] + [];
    var t6 := [Moment(AskProblems(0, Some(7)), OTHER)] + t7;
    var t5 := [Moment(WaitAnswers(9000), OTHER)] + t6;
    var t4 := [Moment(BackoffFires, OTHER)] + t5;
    var t3 := [Moment(WaitAnswers(9000), OTHER)] + t4;
    Then(a, Moment(PollGivesUp(1), OTHER), [Moment(Exits(0, false, false), e)] + t3);
    var b := Step(a, PollGivesUp(1), OTHER);
    assert b.pool == [Proc(pid, 0, 3456, true, false)];
    Then(b, Moment(Exits(0, false, false), e), t3);
    var c := Step(b, Exits(0, false, false), e);
    assert c.pool == [];
    Then(c, Moment(WaitAnswers(9000), OTHER), t4);
    var d := Step(c, WaitAnswers(9000), OTHER);
    assert d.pool == [Ask(9000, false)];
    Then(d, Moment(BackoffFires, OTHER), t5);
    var f := Step(d, BackoffFires, OTHER);
    Then(f, Moment(WaitAnswers(9000), OTHER), t6);
    var g := Step(f, WaitAnswers(9000), OTHER);
    assert g.pool == [Ask(9000, false), Ask(9000, false)];
    Then(g, Moment(AskProblems(0, Some(7)), OTHER), t7);
    var h := Step(g, AskProblems(0, Some(7)), OTHER);
    assert h.pool == [Ask(9000, false), StopEnded(9000, 7)];
    Then(h, Moment(AskProblems(0, Some(8)), OTHER), []);
    AfterNothing(Step(h, AskProblems(0, Some(8)), OTHER));
  }

  /** A launch that replaces two servers. */
  lemma TwoReplacements() returns (trace: seq<Moment>)
    ensures Launch(PORTS, None, Alone(2), trace).Some?
    ensures Launch(PORTS, None, Alone(2), trace).value.replacements == 2
  {
    hide After, OurServerStarts, TwoAsks;
    var a := StartServer(Fresh(PORTS, None), Alone(2));
    assert Discovering(a, 0);
    OurServerStartsRun(a, 0, 2);
    TwoAsksRun(After(a, OurServerStarts(2)).value, 0, 2);
    AfterConcat(a, OurServerStarts(2), TwoAsks(2));
    trace := OurServerStarts(2) + TwoAsks(2);
  }
}
