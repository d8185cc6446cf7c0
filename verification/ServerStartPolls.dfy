/** What becomes of a server that says it listens and never answers: pollForServer's give-up. */
module ServerStartPolls {
  import opened Options
  import opened ServerStart
  import opened ServerStartRuns

  // ------------------------------------------------------------------ the guard

  /** The event schedules one more restart. */
  predicate Retries(a: App, e: Event, env: Env)
    requires Enabled(a, e)
  {
    Step(a, e, env).attempts > a.attempts
  }

  /** A give-up is retried exactly when no other Walnut holds the lock, the recovering flag is still up and a
      restart is left; with no holder and no retry it ends on the error screen. */
  lemma GiveUpRetriesIff(a: App, i: nat, env: Env)
    requires Enabled(a, PollGivesUp(i))
    ensures Retries(a, PollGivesUp(i), env)
        <==> LiveLockHolder(a, env).None? && a.recovering && a.attempts < MAX_RESTARTS
    ensures Retries(a, PollGivesUp(i), env) ==> Step(a, PollGivesUp(i), env).backoff
    ensures LiveLockHolder(a, env).None? && !Retries(a, PollGivesUp(i), env) ==>
              Step(a, PollGivesUp(i), env).screen.ErrorScreen?
  {
    hide Without, Untrack, DropTracked;
  }

  // ------------------------------------------------------------------ the flag and the timer

  /** No poll the app can still name is pending: retryTimer is nil. */
  ghost predicate NoTracked(pool: seq<Activity>) {
    forall i :: 0 <= i < |pool| ==> pool[i].Poll? ==> !pool[i].tracked
  }

  /** While the app recovers, no poll is the tracked one: scheduling a restart invalidates it, and a server
      that listens clears the flag before its poll begins. */
  ghost predicate Quiet(a: App) { a.recovering ==> NoTracked(a.pool) }

  lemma {:induction false} DropTrackedLeavesNone(pool: seq<Activity>)
    ensures NoTracked(DropTracked(pool))
  {
    if pool != [] { DropTrackedLeavesNone(pool[1..]); }
  }

  lemma WithoutLeavesNone(pool: seq<Activity>, i: nat)
    requires i < |pool| && NoTracked(pool)
    ensures NoTracked(Without(pool, i))
  {
  }

  lemma FailureQuiet(a: App, env: Env)
    requires Quiet(a)
    ensures Quiet(HandleStartupFailure(a, env))
  {
    hide DropTracked, NoTracked;
    DropTrackedLeavesNone(a.pool);
  }

  lemma SpawnQuiet(a: App, index: nat, env: Env)
    requires Quiet(a)
    ensures Quiet(TryStartServerOnPort(a, index, env)) && Quiet(CheckExistingServer(a, index, env))
    ensures Quiet(StartServer(a, env))
  {
    hide HandleStartupFailure;
    FailureQuiet(a, env);
  }

  lemma ExitQuiet(a: App, i: nat, portInUse: bool, healthy: bool, env: Env)
    requires Quiet(a) && i < |a.pool| && a.pool[i].Proc?
    ensures Quiet(OnExits(a, i, portInUse, healthy, env))
  {
    hide DropTracked, HandleStartupFailure, TryStartServerOnPort, NoTracked;
    var p, b := a.pool[i], Exited(a, i);
    if NoTracked(a.pool) { WithoutLeavesNone(a.pool, i); }
    DropTrackedLeavesNone(b.pool);
    var c := if a.current == Some(p.pid) then b.(current := None) else b;
    FailureQuiet(c, env);
    SpawnQuiet(c, p.index + 1, env);
  }

  lemma StopQuiet(a: App, i: nat, gone: bool, env: Env)
    requires Quiet(a) && i < |a.pool| && (a.pool[i].StopOrphan? || a.pool[i].StopEnded?)
    ensures Quiet(OnStopDone(a, i, gone, env))
  {
    hide TryStartServerOnPort, NoTracked;
    var act := a.pool[i];
    var b := a.(pool := Without(a.pool, i),
                recorded := if gone && a.recorded == Some(act.pid) then None else a.recorded);
    if NoTracked(a.pool) { WithoutLeavesNone(a.pool, i); }
    SpawnQuiet(b, if act.StopOrphan? then act.index else FirstIndex(a.ports, act.port), env);
  }

  lemma ProcQuiet(a: App, e: Event, env: Env)
    requires Quiet(a) && Enabled(a, e) && (e.Listens? || e.TimesOut? || e.PollAnswers? || e.PollGivesUp?)
    ensures Quiet(Step(a, e, env))
  {
    hide HandleStartupFailure;
    match e {
      case TimesOut(i) => FailureQuiet(a.(pool := a.pool[i := a.pool[i].(settled := true)], current := None), env);
      case PollGivesUp(i) => FailureQuiet(a.(pool := Untrack(Without(a.pool, i))), env);
      case _ =>
    }
  }

  lemma AskQuiet(a: App, e: Event, env: Env)
    requires Quiet(a) && Enabled(a, e)
    requires e.LookAnswered? || e.AskFine? || e.AskProblems? || e.WaitAnswers? || e.RecheckFires?
    ensures Quiet(Step(a, e, env))
  {
    hide Without;
    if (e.LookAnswered? || e.AskFine? || e.AskProblems?) && NoTracked(a.pool) { WithoutLeavesNone(a.pool, e.i); }
  }

  lemma StepQuiet(a: App, e: Event, env: Env)
    requires Quiet(a) && Enabled(a, e)
    ensures Quiet(Step(a, e, env))
  {
    hide Without, Untrack, DropTracked, HandleStartupFailure, TryStartServerOnPort, CheckExistingServer, StartServer,
         AttachExistingServer, NoTracked, OnLookAnswered, OnAskFine, OnAskProblems, OnStopDone, OnExits, OnListens,
         OnTimesOut, OnPollAnswers, OnPollGivesUp, OnRecheck;
    match e {
      case LookSilent(i) =>
        if NoTracked(a.pool) { WithoutLeavesNone(a.pool, i); }
        SpawnQuiet(a.(pool := Without(a.pool, i)), a.pool[i].index + 1, env);
      case StopDone(i, gone) => StopQuiet(a, i, gone, env);
      case Exits(i, portInUse, healthy) => ExitQuiet(a, i, portInUse, healthy, env);
      case SpawnFailureRuns(i) =>
        if NoTracked(a.pool) { WithoutLeavesNone(a.pool, i); }
        FailureQuiet(a.(pool := Without(a.pool, i)), env);
      case BackoffFires => SpawnQuiet(a.(backoff := false, port := None), 0, env);
      case WaitGone => SpawnQuiet(a.(wait := None, rediscoveries := a.rediscoveries + 1), 0, env);
      case Listens(_) => ProcQuiet(a, e, env);
      case TimesOut(_) => ProcQuiet(a, e, env);
      case PollAnswers(_) => ProcQuiet(a, e, env);
      case PollGivesUp(_) => ProcQuiet(a, e, env);
      case ConfirmRuns(_) =>
      case WaitDeadline =>
      case _ => AskQuiet(a, e, env);
    }
  }

  lemma {:induction false} RunQuiet(a: App, trace: seq<Moment>)
    requires Quiet(a) && After(a, trace).Some?
    ensures Quiet(After(a, trace).value)
    decreases |trace|
  {
    hide Step, Enabled, Quiet;
    if trace != [] {
      StepQuiet(a, trace[0].e, trace[0].env);
      RunQuiet(Step(a, trace[0].e, trace[0].env), trace[1..]);
    }
  }

  /** pollForServer's comment routes its give-up through the recovery. In every reachable state that happens
      for a poll exactly when it is not the tracked one, the app recovers from some other server, a restart
      is left and nobody holds the lock; the give-up of the poll the app started last is never retried. */
  lemma GiveUpOfTrackedPollIsNeverRetried(ports: seq<nat>, recorded: Option<nat>, env: Env, trace: seq<Moment>,
                                          i: nat, later: Env)
    requires Launch(ports, recorded, env, trace).Some?
    requires Enabled(Launch(ports, recorded, env, trace).value, PollGivesUp(i))
    ensures var a := Launch(ports, recorded, env, trace).value;
            && (a.pool[i].tracked ==> !Retries(a, PollGivesUp(i), later))
            && (Retries(a, PollGivesUp(i), later)
                <==> !a.pool[i].tracked && a.recovering && a.attempts < MAX_RESTARTS && LiveLockHolder(a, later).None?)
  {
    hide StartServer, After, Step, LiveLockHolder;
    SpawnQuiet(Fresh(ports, recorded), 0, env);
    RunQuiet(StartServer(Fresh(ports, recorded), env), trace);
    GiveUpRetriesIff(Launch(ports, recorded, env, trace).value, i, later);
  }

  // ------------------------------------------------------------------ one that is retried

  /** Our first server listens and never answers; the app waits for the other Walnut and schedules a restart
      when ours exits; the restart begins. */
  function FirstServer(): seq<Moment> {
    [Moment(PollGivesUp(1), OTHER)] + ([Moment(Exits(0, false, false), Alone(2))]
    + ([Moment(BackoffFires, Alone(3))] + []))
  }

  /** The second server listens; then the other Walnut goes away and discovery begins again. */
  function SecondServer(): seq<Moment> {
    var e := Alone(3);
    [Moment(LookSilent(0), e)] + ([Moment(LookSilent(0), e)] + ([Moment(Listens(0), e)]
    + ([Moment(ConfirmRuns(1), e)] + ([Moment(WaitGone, Alone(4))] + []))))
  }

  /** The third finds its port taken and starts on the next. */
  function ThirdServer(): seq<Moment> {
    [Moment(LookSilent(2), Alone(4))] + ([Moment(LookSilent(2), Alone(4))]
    + ([Moment(Exits(2, true, false), Alone(5))] + []))
  }

  /** It listens, which untracks the second's poll, and exits. */
  function ThirdServerExits(): seq<Moment> {
    var e := Alone(5);
    [Moment(Listens(2), e)] + ([Moment(ConfirmRuns(3), e)] + ([Moment(Exits(2, false, false), e)] + []))
  }

  predicate Restarting(a: App) {
    && a.ports == PORTS && a.pool == [Check(0, 3456)] && a.wait == Some(Holder(7, Some(9000))) && a.recovering
    && a.attempts == 1 && a.rediscoveries == 0
  }

  predicate Rediscovering(a: App) {
    && a.ports == PORTS && a.pool == [Proc(3, 0, 3456, true, false), Poll(3456, true), Check(0, 3456)]
    && a.wait.None? && !a.recovering && a.attempts == 1
  }

  predicate StartingThird(a: App) {
    && a.ports == PORTS && !a.recovering && a.attempts == 1 && a.current == Some(5)
    && a.pool == [Proc(3, 0, 3456, true, false), Poll(3456, true), Proc(5, 1, 4567, false, false)]
  }

  predicate LeftBehind(a: App) {
    && a.pool == [Proc(3, 0, 3456, true, false), Poll(3456, false)] && a.recovering && a.attempts == 2
  }

  lemma FirstServerRun(a: App)
    requires Listening(a, 0, 2)
    ensures After(a, FirstServer()).Some? && Restarting(After(a, FirstServer()).value)
  {
    hide After, TryStartServerOnPort;
    var m1, m2 := Moment(PollGivesUp(1), OTHER), Moment(Exits(0, false, false), Alone(2));
    var m3 := Moment(BackoffFires, Alone(3));
    var t3: seq<Moment> := [m3] + [];
    Then(a, m1, [m2] + t3);
    var b := Step(a, m1.e, m1.env);
    assert b.pool == [Proc(2, 0, 3456, true, false)];
    Then(b, m2, t3);
    var c := Step(b, m2.e, m2.env);
    assert c.pool == [];
    Then(c, m3, []);
    AfterNothing(Step(c, m3.e, m3.env));
  }

  lemma SecondServerRun(a: App)
    requires Restarting(a)
    ensures After(a, SecondServer()).Some? && Rediscovering(After(a, SecondServer()).value)
  {
    hide After, HandleStartupFailure;
    var e := Alone(3);
    var m1, m3, m4 := Moment(LookSilent(0), e), Moment(Listens(0), e), Moment(ConfirmRuns(1), e);
    var m5 := Moment(WaitGone, Alone(4));
    var t5: seq<Moment> := [m5] + [];
    Then(a, m1, [m1] + ([m3] + ([m4] + t5)));
    var b := Step(a, m1.e, e);
    assert b.pool == [Check(1, 4567)];
    Then(b, m1, [m3] + ([m4] + t5));
    var c := Step(b, m1.e, e);
    assert c.pool == [Proc(3, 0, 3456, false, false)];
    Then(c, m3, [m4] + t5);
    var d := Step(c, m3.e, e);
    assert d.pool == [Proc(3, 0, 3456, true, false), Confirm(3456)];
    Then(d, m4, t5);
    var f := Step(d, m4.e, e);
    assert f.pool == [Proc(3, 0, 3456, true, false), Poll(3456, true)];
    Then(f, m5, []);
    AfterNothing(Step(f, m5.e, m5.env));
  }

  lemma ThirdServerRun(a: App)
    requires Rediscovering(a)
    ensures After(a, ThirdServer()).Some? && StartingThird(After(a, ThirdServer()).value)
  {
    hide After, HandleStartupFailure;
    var m1, m2 := Moment(LookSilent(2), Alone(4)), Moment(Exits(2, true, false), Alone(5));
    var t2: seq<Moment> := [m2] + [];
    Then(a, m1, [m1] + t2);
    var b := Step(a, m1.e, m1.env);
    assert b.pool == a.pool[..2] + [Check(1, 4567)];
    Then(b, m1, t2);
    var c := Step(b, m1.e, m1.env);
    assert c.pool == a.pool[..2] + [Proc(4, 0, 3456, false, false)];
    Then(c, m2, []);
    var d := Step(c, m2.e, m2.env);
    assert d.pool == a.pool[..2] + [Proc(5, 1, 4567, false, false)];
    AfterNothing(d);
  }

  lemma ThirdServerExitsRun(a: App)
    requires StartingThird(a)
    ensures After(a, ThirdServerExits()).Some? && LeftBehind(After(a, ThirdServerExits()).value)
  {
    hide After, HandleStartupFailure, TryStartServerOnPort;
    var e := Alone(5);
    var m1, m2, m3 := Moment(Listens(2), e), Moment(ConfirmRuns(3), e), Moment(Exits(2, false, false), e);
    var t3: seq<Moment> := [m3] + [];
    Then(a, m1, [m2] + t3);
    var b := Step(a, m1.e, e);
    assert b.pool == a.pool[..2] + [Proc(5, 1, 4567, true, false), Confirm(4567)];
    Then(b, m2, t3);
    var c := Step(b, m2.e, e);
    assert c.pool == [a.pool[0], Poll(3456, false), Proc(5, 1, 4567, true, false), Poll(4567, true)];
    Then(c, m3, []);
    LastDropped(Without(c.pool, 2));
    AfterNothing(Step(c, m3.e, e));
  }

  lemma LastDropped(pool: seq<Activity>)
    requires pool == [Proc(3, 0, 3456, true, false), Poll(3456, false), Poll(4567, true)]
    ensures DropTracked(pool) == pool[..2]
  {
    assert pool[1..][1..] == [pool[2]] && [pool[2]][1..] == [];
    assert DropTracked([pool[2]]) == [];
  }

  /** A poll becomes untracked and outlives its turn when a second server listens before it ended: when that
      one exits, the older poll's give-up is counted as a failure of the recovery and retried. */
  lemma UntrackedGiveUpIsRetried() returns (trace: seq<Moment>)
    ensures Launch(PORTS, None, Alone(2), trace).Some?
    ensures var a := Launch(PORTS, None, Alone(2), trace).value;
            Enabled(a, PollGivesUp(1)) && !a.pool[1].tracked && Retries(a, PollGivesUp(1), Alone(6))
  {
    hide After, Step, OurServerStarts, FirstServer, SecondServer, ThirdServer, ThirdServerExits, StartServer;
    var a := StartServer(Fresh(PORTS, None), Alone(2));
    assert Discovering(a, 0) by { LaunchDiscovers(); }
    OurServerStartsRun(a, 0, 2);
    var b := After(a, OurServerStarts(2)).value;
    FirstServerRun(b);
    var c := After(b, FirstServer()).value;
    SecondServerRun(c);
    var d := After(c, SecondServer()).value;
    ThirdServerRun(d);
    var f := After(d, ThirdServer()).value;
    ThirdServerExitsRun(f);
    AfterConcat(d, ThirdServer(), ThirdServerExits());
    AfterConcat(c, SecondServer(), ThirdServer() + ThirdServerExits());
    AfterConcat(b, FirstServer(), SecondServer() + (ThirdServer() + ThirdServerExits()));
    trace := OurServerStarts(2) + (FirstServer() + (SecondServer() + (ThirdServer() + ThirdServerExits())));
    AfterConcat(a, OurServerStarts(2), FirstServer() + (SecondServer() + (ThirdServer() + ThirdServerExits())));
    GiveUpRetriesIff(After(f, ThirdServerExits()).value, 1, Alone(6));
  }

  lemma LaunchDiscovers()
    ensures Discovering(StartServer(Fresh(PORTS, None), Alone(2)), 0)
  {
  }
}
