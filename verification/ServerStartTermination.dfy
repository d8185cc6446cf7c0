/** When the start and recovery machine stops: a lexicographic measure every step lowers, and the one
    way a run can go on for ever. */
module ServerStartTermination {
  import opened Options
  import opened ServerStart

  // ------------------------------------------------------------------ the measure

  /** What is left of rediscoveries and automatic restarts. */
  function Budget(a: App): int {
    MAX_REDISCOVERIES - a.rediscoveries + MAX_RESTARTS - a.attempts
  }

  /** The cost of a pending wait for a running server; it may still ask that server once. */
  function WaitCost(replaced: bool): nat { if replaced then 1 else 2 }

  function Cost(act: Activity, n: nat, replaced: bool): nat {
    var w := WaitCost(replaced);
    match act
    case Check(index, _) => w + 6 + n + (if index < n then n - index else 0)
    case Ask(_, recheck) => if replaced && !recheck then w + 6 + n else 1
    case StopOrphan(_, _) => w + 5 + n
    case StopEnded(_, _) => w + 5 + n
    case Proc(_, index, _, confirmed, settled) =>
      if confirmed || settled then 1 else w + 4 + (if index < n then n - index else 0)
    case Confirm(_) => w + 2
    case Poll(_, _) => w + 1
    case SpawnFailed => w + 1
  }

  function Costs(pool: seq<Activity>, n: nat, replaced: bool): nat {
    if pool == [] then 0 else Cost(pool[0], n, replaced) + Costs(pool[1..], n, replaced)
  }

  function Weight(a: App): nat {
    var n := |a.ports|;
    Costs(a.pool, n, a.replaced)
    + (if a.wait.Some? then WaitCost(a.replaced) else 0)
    + (if a.backoff then WaitCost(a.replaced) + 7 + 2 * n else 0)
    + (if a.recheck.Some? then 2 else 0)
  }

  lemma {:induction false} CostsOfConcat(p: seq<Activity>, q: seq<Activity>, n: nat, r: bool)
    ensures Costs(p + q, n, r) == Costs(p, n, r) + Costs(q, n, r)
  {
    if p == [] {
      assert p + q == q;
    } else {
      assert (p + q)[1..] == p[1..] + q;
      CostsOfConcat(p[1..], q, n, r);
    }
  }

  lemma CostsOfQueue(p: seq<Activity>, act: Activity, n: nat, r: bool)
    ensures Costs(p + [act], n, r) == Costs(p, n, r) + Cost(act, n, r)
  {
    CostsOfConcat(p, [act], n, r);
  }

  lemma CostsOfWithout(p: seq<Activity>, i: nat, n: nat, r: bool)
    requires i < |p|
    ensures Costs(p, n, r) == Costs(Without(p, i), n, r) + Cost(p[i], n, r)
  {
    assert p == p[..i] + ([p[i]] + p[i + 1..]);
    CostsOfConcat(p[..i], [p[i]] + p[i + 1..], n, r);
    CostsOfConcat([p[i]], p[i + 1..], n, r);
    CostsOfConcat(p[..i], p[i + 1..], n, r);
  }

  lemma CostsOfUpdate(p: seq<Activity>, i: nat, act: Activity, n: nat, r: bool)
    requires i < |p|
    ensures Costs(p[i := act], n, r) + Cost(p[i], n, r) == Costs(p, n, r) + Cost(act, n, r)
  {
    CostsOfWithout(p, i, n, r);
    CostsOfWithout(p[i := act], i, n, r);
    assert Without(p[i := act], i) == Without(p, i);
  }

  lemma {:induction false} CostsOfUntrack(p: seq<Activity>, n: nat, r: bool)
    ensures Costs(Untrack(p), n, r) == Costs(p, n, r)
  {
    if p != [] {
      assert Untrack(p)[1..] == Untrack(p[1..]);
      CostsOfUntrack(p[1..], n, r);
    }
  }

  lemma {:induction false} CostsOfDropTracked(p: seq<Activity>, n: nat, r: bool)
    ensures Costs(DropTracked(p), n, r) <= Costs(p, n, r)
  {
    if p != [] {
      CostsOfDropTracked(p[1..], n, r);
      CostsOfConcat(if p[0].Poll? && p[0].tracked then [] else [p[0]], DropTracked(p[1..]), n, r);
      assert Costs([p[0]], n, r) == Cost(p[0], n, r);
    }
  }

  // ------------------------------------------------------------------ one step lowers it

  /** b comes after a: an attach happened or the launch's one replacement did, or something else was used up. */
  ghost predicate Lowers(b: App, a: App) {
    && b.ports == a.ports && Bounded(b) && (a.replaced ==> b.replaced) && a.attaches <= b.attaches
    && (b.attaches == a.attaches && b.replaced == a.replaced ==>
          Budget(b) < Budget(a) || (Budget(b) == Budget(a) && Weight(b) < Weight(a)))
  }

  /** The result of a method called with `slack` of weight already released: no attach, and either a
      budget was spent or the weight is below the caller's plus slack. */
  ghost predicate Spends(b: App, a: App, slack: nat) {
    && b.ports == a.ports && b.replaced == a.replaced && b.attaches == a.attaches
    && b.attempts <= MAX_RESTARTS && b.rediscoveries <= MAX_REDISCOVERIES
    && (Budget(b) < Budget(a) || (Budget(b) == Budget(a) && Weight(b) <= Weight(a) + slack))
  }

  ghost predicate Bounded(a: App) {
    a.attempts <= MAX_RESTARTS && a.rediscoveries <= MAX_REDISCOVERIES
  }

  lemma RecoverySpends(a: App)
    requires Bounded(a)
    ensures Spends(ScheduleRecovery(a, false), a, 0)
  {
    hide Costs, DropTracked;
    CostsOfDropTracked(a.pool, |a.ports|, a.replaced);
  }

  lemma FailureSpends(a: App, env: Env)
    requires Bounded(a)
    ensures Spends(HandleStartupFailure(a, env), a, WaitCost(a.replaced))
  {
    RecoverySpends(a);
  }

  lemma SpawnSpends(a: App, index: nat, env: Env)
    requires Bounded(a)
    ensures Spends(TryStartServerOnPort(a, index, env), a,
                   WaitCost(a.replaced) + (if index < |a.ports| then 4 + |a.ports| - index else 0))
  {
    hide Costs, DropTracked;
    if index >= |a.ports| || env.spawn.NoRuntime? {
      FailureSpends(a, env);
    } else if env.spawn.RunFailed? {
      CostsOfQueue(a.pool, SpawnFailed, |a.ports|, a.replaced);
    } else {
      CostsOfQueue(a.pool, Proc(env.spawn.pid, index, a.ports[index], false, false), |a.ports|, a.replaced);
    }
  }

  lemma CheckSpends(a: App, index: nat, env: Env)
    requires Bounded(a)
    ensures Spends(CheckExistingServer(a, index, env), a,
                   WaitCost(a.replaced) + |a.ports| + (if index < |a.ports| then 6 + |a.ports| - index else 4))
  {
    hide Costs, DropTracked;
    if index < |a.ports| {
      CostsOfQueue(a.pool, Check(index, a.ports[index]), |a.ports|, a.replaced);
    } else {
      SpawnSpends(a, 0, env);
    }
  }

  lemma StartSpends(a: App, env: Env)
    requires Bounded(a)
    ensures Spends(StartServer(a, env), a, WaitCost(a.replaced) + 6 + 2 * |a.ports|)
  {
    CheckSpends(a, 0, env);
  }

  /** An attach either happens now (and is counted) or waits for one answer, which costs 1. */
  lemma AttachSpends(a: App, port: nat, env: Env)
    requires Bounded(a)
    ensures var b := AttachExistingServer(a, port, env);
            || (b.attaches > a.attaches && Bounded(b) && b.ports == a.ports && b.replaced == a.replaced)
            || Spends(b, a, 1)
  {
    CostsOfQueue(a.pool, Ask(port, false), |a.ports|, a.replaced);
  }

  predicate Healthy(e: Event) { e.Exits? && e.healthy }

  /** c is a with `released` of its weight taken out of the pool. */
  ghost predicate Releases(c: App, a: App, released: nat) {
    && c.ports == a.ports && c.replaced == a.replaced && c.attaches == a.attaches
    && c.attempts == a.attempts && c.rediscoveries == a.rediscoveries
    && Weight(c) + released <= Weight(a)
  }

  lemma ReleaseLowers(b: App, c: App, a: App, released: nat, spent: nat)
    requires Bounded(a) && Releases(c, a, released) && Spends(b, c, spent) && spent < released
    ensures Lowers(b, a)
  {
    hide Weight;
  }

  lemma LookLowers(a: App, i: nat, listener: Option<nat>, looksOwn: bool, env: Env)
    requires Bounded(a) && i < |a.pool| && a.pool[i].Check?
    ensures Lowers(OnLookAnswered(a, i, listener, looksOwn, env), a)
  {
    hide Costs, DropTracked, Without, Untrack, AttachExistingServer;
    CostsOfWithout(a.pool, i, |a.ports|, a.replaced);
    var b := a.(pool := Without(a.pool, i));
    var index := a.pool[i].index;
    if a.recorded.Some? && listener == a.recorded && looksOwn {
      CostsOfQueue(b.pool, StopOrphan(index, a.recorded.value), |a.ports|, a.replaced);
    } else {
      var c := if a.recorded.Some? && listener == a.recorded then b.(recorded := None) else b;
      var port := a.pool[i].probed;
      AttachSpends(c, port, env);
      if Spends(AttachExistingServer(c, port, env), c, 1) {
        ReleaseLowers(AttachExistingServer(c, port, env), c, a, 7, 1);
      }
    }
  }

  lemma SilenceLowers(a: App, i: nat, env: Env)
    requires Bounded(a) && i < |a.pool| && a.pool[i].Check?
    ensures Lowers(CheckExistingServer(a.(pool := Without(a.pool, i)), a.pool[i].index + 1, env), a)
  {
    hide Costs, DropTracked, Without, Untrack;
    CostsOfWithout(a.pool, i, |a.ports|, a.replaced);
    CheckSpends(a.(pool := Without(a.pool, i)), a.pool[i].index + 1, env);
  }

  lemma AskProblemsLowers(a: App, i: nat, culprit: Option<nat>)
    requires Bounded(a) && i < |a.pool| && a.pool[i].Ask?
    ensures Lowers(OnAskProblems(a, i, culprit), a)
  {
    hide Costs, DropTracked, Without, Untrack;
    CostsOfWithout(a.pool, i, |a.ports|, a.replaced);
    if culprit.Some? {
      CostsOfQueue(Without(a.pool, i), StopEnded(a.pool[i].port, culprit.value), |a.ports|, true);
    }
  }

  lemma StopLowers(a: App, i: nat, gone: bool, env: Env)
    requires Bounded(a) && i < |a.pool| && (a.pool[i].StopOrphan? || a.pool[i].StopEnded?)
    ensures Lowers(OnStopDone(a, i, gone, env), a)
  {
    hide Costs, DropTracked, Without, Untrack, TryStartServerOnPort;
    CostsOfWithout(a.pool, i, |a.ports|, a.replaced);
    var act := a.pool[i];
    var b := a.(pool := Without(a.pool, i),
                recorded := if gone && a.recorded == Some(act.pid) then None else a.recorded);
    if act.StopOrphan? {
      SpawnSpends(b, act.index, env);
    } else if gone {
      SpawnSpends(b, FirstIndex(a.ports, act.port), env);
    }
  }

  lemma RecheckLowers(a: App)
    requires Bounded(a) && a.recheck.Some?
    ensures Lowers(OnRecheck(a), a)
  {
    hide Costs, DropTracked, Without, Untrack;
    CostsOfQueue(a.pool, Ask(a.recheck.value, true), |a.ports|, a.replaced);
  }

  lemma ListensLowers(a: App, i: nat)
    requires Bounded(a) && i < |a.pool| && a.pool[i].Proc? && !a.pool[i].confirmed && !a.pool[i].settled
    ensures Lowers(OnListens(a, i), a)
  {
    hide Costs, DropTracked, Without, Untrack;
    var p := a.pool[i];
    CostsOfUpdate(a.pool, i, p.(confirmed := true), |a.ports|, a.replaced);
    CostsOfQueue(a.pool[i := p.(confirmed := true)], Confirm(p.served), |a.ports|, a.replaced);
  }

  lemma TimeoutLowers(a: App, i: nat, env: Env)
    requires Bounded(a) && i < |a.pool| && a.pool[i].Proc? && !a.pool[i].confirmed && !a.pool[i].settled
    ensures Lowers(OnTimesOut(a, i, env), a)
  {
    hide Costs, DropTracked, Without, Untrack;
    var p := a.pool[i].(settled := true);
    CostsOfUpdate(a.pool, i, p, |a.ports|, a.replaced);
    FailureSpends(a.(pool := a.pool[i := p], current := None), env);
  }

  lemma ServedExitLowers(a: App, i: nat)
    requires Bounded(a) && i < |a.pool| && a.pool[i].Proc? && a.pool[i].confirmed
    ensures Lowers(ScheduleRecovery(Exited(a, i).(current := None, port := None, owns := false), false), a)
  {
    hide Costs, DropTracked, Without, ScheduleRecovery;
    CostsOfWithout(a.pool, i, |a.ports|, a.replaced);
    var c := Exited(a, i).(current := None, port := None, owns := false);
    RecoverySpends(c);
    ReleaseLowers(ScheduleRecovery(c, false), c, a, 1, 0);
  }

  lemma StartupExitLowers(a: App, i: nat, current: Option<nat>, env: Env)
    requires Bounded(a) && i < |a.pool| && a.pool[i].Proc? && !a.pool[i].confirmed && !a.pool[i].settled
    ensures var c := Exited(a, i).(current := current);
            Lowers(TryStartServerOnPort(c, a.pool[i].index + 1, env), a) && Lowers(HandleStartupFailure(c, env), a)
  {
    hide Costs, DropTracked, Without, HandleStartupFailure, TryStartServerOnPort;
    CostsOfWithout(a.pool, i, |a.ports|, a.replaced);
    var c := Exited(a, i).(current := current);
    var n, w, index := |a.ports|, WaitCost(a.replaced), a.pool[i].index;
    SpawnSpends(c, index + 1, env);
    FailureSpends(c, env);
    ReleaseLowers(HandleStartupFailure(c, env), c, a, w + 4, w);
    ReleaseLowers(TryStartServerOnPort(c, index + 1, env), c, a, w + 4 + (if index < n then n - index else 0),
                  w + (if index + 1 < n then 3 + n - index else 0));
  }

  lemma ExitLowers(a: App, i: nat, portInUse: bool, env: Env)
    requires Bounded(a) && i < |a.pool| && a.pool[i].Proc?
    ensures Lowers(OnExits(a, i, portInUse, false, env), a)
  {
    hide Costs, DropTracked, HandleStartupFailure, TryStartServerOnPort, ScheduleRecovery;
    var p := a.pool[i];
    if p.confirmed && a.owns && a.current == Some(p.pid) {
      ServedExitLowers(a, i);
    } else if p.confirmed || p.settled {
      CostsOfWithout(a.pool, i, |a.ports|, a.replaced);
    } else {
      StartupExitLowers(a, i, if a.current == Some(p.pid) then None else a.current, env);
    }
  }

  lemma ConfirmLowers(a: App, i: nat)
    requires Bounded(a) && i < |a.pool| && a.pool[i].Confirm?
    ensures Lowers(OnConfirm(a, i), a)
  {
    hide Costs, DropTracked, Without, Untrack;
    var rest := Without(a.pool, i);
    CostsOfWithout(a.pool, i, |a.ports|, a.replaced);
    CostsOfUntrack(rest, |a.ports|, a.replaced);
    CostsOfQueue(Untrack(rest), Poll(a.pool[i].port, true), |a.ports|, a.replaced);
  }

  lemma PollLowers(a: App, i: nat, env: Env)
    requires Bounded(a) && i < |a.pool| && a.pool[i].Poll?
    ensures Lowers(OnPollAnswers(a, i), a) && Lowers(OnPollGivesUp(a, i, env), a)
  {
    hide Costs, DropTracked, Without, Untrack, HandleStartupFailure;
    var rest := Without(a.pool, i);
    CostsOfWithout(a.pool, i, |a.ports|, a.replaced);
    CostsOfUntrack(rest, |a.ports|, a.replaced);
    FailureSpends(a.(pool := Untrack(rest)), env);
  }

  lemma SpawnFailureLowers(a: App, i: nat, env: Env)
    requires Bounded(a) && i < |a.pool| && a.pool[i].SpawnFailed?
    ensures Lowers(HandleStartupFailure(a.(pool := Without(a.pool, i)), env), a)
  {
    hide Costs, DropTracked, Without, Untrack;
    CostsOfWithout(a.pool, i, |a.ports|, a.replaced);
    FailureSpends(a.(pool := Without(a.pool, i)), env);
  }

  lemma WaitGoneLowers(a: App, env: Env)
    requires Bounded(a) && a.wait.Some?
    ensures Lowers(OnWaitGone(a, env), a)
  {
    hide Costs, DropTracked, Without, Untrack;
    if a.rediscoveries < MAX_REDISCOVERIES {
      StartSpends(a.(wait := None, rediscoveries := a.rediscoveries + 1), env);
    }
  }

  lemma WaitAnswersLowers(a: App, port: nat, env: Env)
    requires Bounded(a) && a.wait.Some?
    ensures Lowers(AttachExistingServer(a.(wait := None), port, env), a)
  {
    hide Costs, DropTracked, Without, Untrack;
    AttachSpends(a.(wait := None), port, env);
  }

  /** Between two attaches, and while no server has stayed healthy, every step uses something up. */
  lemma StepLowers(a: App, e: Event, env: Env)
    requires Bounded(a) && Enabled(a, e) && !Healthy(e)
    ensures Lowers(Step(a, e, env), a)
  {
    hide Costs, DropTracked, Without, Untrack, HandleStartupFailure, TryStartServerOnPort, CheckExistingServer,
         AttachExistingServer,
         OnLookAnswered, OnAskProblems, OnStopDone, OnListens, OnExits, OnTimesOut, OnConfirm, OnPollAnswers,
             OnPollGivesUp,
         OnWaitGone, OnRecheck;
    match e
    case LookAnswered(i, listener, looksOwn) => LookLowers(a, i, listener, looksOwn, env);
    case LookSilent(i) => SilenceLowers(a, i, env);
    case AskFine(i) => CostsOfWithout(a.pool, i, |a.ports|, a.replaced);
    case AskProblems(i, culprit) => AskProblemsLowers(a, i, culprit);
    case StopDone(i, gone) => StopLowers(a, i, gone, env);
    case Listens(i) => ListensLowers(a, i);
    case Exits(i, portInUse, healthy) => ExitLowers(a, i, portInUse, env);
    case TimesOut(i) => TimeoutLowers(a, i, env);
    case ConfirmRuns(i) => ConfirmLowers(a, i);
    case PollAnswers(i) => PollLowers(a, i, env);
    case PollGivesUp(i) => PollLowers(a, i, env);
    case SpawnFailureRuns(i) => SpawnFailureLowers(a, i, env);
    case BackoffFires => StartSpends(a.(backoff := false, port := None), env);
    case WaitGone => WaitGoneLowers(a, env);
    case WaitDeadline =>
    case WaitAnswers(port) => WaitAnswersLowers(a, port, env);
    case RecheckFires => RecheckLowers(a);
  }

  // ------------------------------------------------------------------ whole runs

  /** Nothing pending can attach, spawn or restart any more, short of replacing an ended-session server. */
  ghost predicate Calm(a: App) {
    && a.wait.None? && !a.backoff && !a.owns
    && forall i :: 0 <= i < |a.pool| ==> Inert(a.pool[i])
  }

  /** A look at an attached server's session, or a child whose exit no longer matters to a non-owner. */
  predicate Inert(act: Activity) {
    (act.Ask? && act.recheck) || (act.Proc? && (act.confirmed || act.settled))
  }

  ghost function Era(a: App): nat {
    if a.replaced then (if Calm(a) then 0 else 1) else (if Calm(a) then 2 else 3)
  }

  lemma CalmStays(a: App, e: Event, env: Env)
    requires Calm(a) && Enabled(a, e)
    ensures var b := Step(a, e, env); b.replaced == a.replaced ==> Calm(b) && b.attaches == a.attaches
  {
    hide DropTracked, Untrack;
  }

  /** One step of a run in which no server stays healthy and every attach leaves nothing pending. */
  ghost predicate CalmStep(a: App, b: App) {
    exists e, env :: Enabled(a, e) && !Healthy(e) && b == Step(a, e, env) && (b.attaches > a.attaches ==> Calm(b))
  }

  ghost predicate Descends(b: App, a: App) {
    || Era(b) < Era(a)
    || (Era(b) == Era(a) && Budget(b) < Budget(a))
    || (Era(b) == Era(a) && Budget(b) == Budget(a) && Weight(b) < Weight(a))
  }

  lemma CalmStepDescends(a: App, b: App)
    requires Bounded(a) && CalmStep(a, b)
    ensures Bounded(b) && Descends(b, a)
  {
    hide Weight, Step;
    var e, env :| Enabled(a, e) && !Healthy(e) && b == Step(a, e, env) && (b.attaches > a.attaches ==> Calm(b));
    StepLowers(a, e, env);
    if Calm(a) {
      CalmStays(a, e, env);
    }
  }

  ghost predicate CalmAt(run: nat -> App, i: nat) { CalmStep(run(i), run(i + 1)) }

  /** Every such run is finite: from any point some step is the last. */
  lemma {:induction false} CalmRunsEnd(run: nat -> App, from: nat)
    requires Bounded(run(from))
    ensures exists i: nat :: i >= from && !CalmAt(run, i)
    decreases Era(run(from)), Budget(run(from)), Weight(run(from))
  {
    if CalmAt(run, from) {
      CalmStepDescends(run(from), run(from + 1));
      CalmRunsEnd(run, from + 1);
    }
  }

  /** Step i of a run with no healthy server, whatever it attaches to. */
  ghost predicate StepAt(run: nat -> App, i: nat) {
    exists e, env :: Enabled(run(i), e) && !Healthy(e) && run(i + 1) == Step(run(i), e, env)
  }

  ghost predicate AttachesWhilePending(run: nat -> App, i: nat) {
    run(i + 1).attaches > run(i).attaches && !Calm(run(i + 1))
  }

  lemma {:induction false} RunBounded(run: nat -> App, n: nat)
    requires Bounded(run(0)) && forall i: nat :: StepAt(run, i)
    ensures Bounded(run(n))
  {
    hide Step, Weight;
    if n > 0 {
      RunBounded(run, n - 1);
      assert StepAt(run, n - 1);
      var e, env :| Enabled(run(n - 1), e) && !Healthy(e) && run(n) == Step(run(n - 1), e, env);
      StepLowers(run(n - 1), e, env);
    }
  }

  /** The only way to go on for ever without a healthy server: attach, again and again, to a running
      server while a restart, a wait or a start of our own is still pending. */
  lemma EndlessRunsAttachWhilePending(run: nat -> App, from: nat)
    requires Bounded(run(0)) && forall i: nat :: StepAt(run, i)
    ensures exists i: nat :: i >= from && AttachesWhilePending(run, i)
  {
    hide Step, Weight, Calm;
    RunBounded(run, from);
    CalmRunsEnd(run, from);
    var i: nat :| i >= from && !CalmAt(run, i);
    assert StepAt(run, i);
    RunBounded(run, i);
    var e, env :| Enabled(run(i), e) && !Healthy(e) && run(i + 1) == Step(run(i), e, env);
    StepLowers(run(i), e, env);
    assert AttachesWhilePending(run, i);
  }
}
