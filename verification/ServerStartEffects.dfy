/** What the app begins to wait for, effect by effect: for every event at once, exactly when a port is probed, a
    server is asked, stopped or started. */
module ServerStartEffects {
  import opened Options
  import opened ServerStart

  // ------------------------------------------------------------------ what is new in the pool

  /** The step from a to b made the app wait for one more of these. */
  ghost predicate New(a: App, b: App, act: Activity) {
    multiset(b.pool)[act] > multiset(a.pool)[act]
  }

  /** q is p with `come` added, its polls aside. */
  ghost predicate Adds(p: seq<Activity>, q: seq<Activity>, come: seq<Activity>) {
    forall act: Activity :: !act.Poll? ==> multiset(q)[act] == multiset(p)[act] + multiset(come)[act]
  }

  lemma AddsNone(p: seq<Activity>)
    ensures Adds(p, p, [])
  {
  }

  lemma AddsOne(p: seq<Activity>, act: Activity)
    ensures Adds(p, p + [act], if act.Poll? then [] else [act])
  {
  }

  lemma AddsNext(p: seq<Activity>, q: seq<Activity>, r: seq<Activity>, c: seq<Activity>)
    requires Adds(p, q, []) && Adds(q, r, c)
    ensures Adds(p, r, c)
  {
  }

  lemma WithoutAdds(p: seq<Activity>, i: nat)
    requires i < |p|
    ensures Adds(Without(p, i), p, if p[i].Poll? then [] else [p[i]])
  {
    assert p == p[..i] + [p[i]] + p[i + 1..];
  }

  lemma UpdateAdds(p: seq<Activity>, i: nat, act: Activity)
    requires i < |p| && !act.Poll?
    ensures Adds(Without(p, i), p[i := act], [act])
  {
    assert p[i := act] == p[..i] + [act] + p[i + 1..];
  }

  lemma {:induction false} UntrackKeeps(p: seq<Activity>, act: Activity)
    requires !act.Poll?
    ensures multiset(Untrack(p))[act] == multiset(p)[act]
  {
    if p != [] {
      UntrackKeeps(p[1..], act);
      assert Untrack(p) == Untrack(p[..1]) + Untrack(p[1..]) && p == p[..1] + p[1..];
    }
  }

  lemma UntrackAdds(p: seq<Activity>)
    ensures Adds(p, Untrack(p), [])
  {
    forall act: Activity | !act.Poll? ensures multiset(Untrack(p))[act] == multiset(p)[act] { UntrackKeeps(p, act); }
  }

  lemma {:induction false} DropAdds(p: seq<Activity>)
    ensures Adds(p, DropTracked(p), [])
  {
    if p != [] {
      DropAdds(p[1..]);
      assert p == p[..1] + p[1..];
    }
  }

  /** Where p is a's pool without `gone` and b's is p with `come`, the new ones are those that came. */
  lemma NewIff(p: seq<Activity>, a: App, b: App, gone: seq<Activity>, come: seq<Activity>, act: Activity)
    requires Adds(p, a.pool, gone) && Adds(p, b.pool, come) && !act.Poll?
    requires |gone| <= 1 && (gone != [] ==> gone[0] !in come)
    ensures New(a, b, act) <==> act in come
  {
  }

  // ------------------------------------------------------------------ what an event means

  /** The live Walnut another process runs on this data directory: neither this app, nor its last server, nor
      the one an earlier run of it left. */
  predicate Foreign(a: App, env: Env, h: Holder) {
    && env.lock == Some(h) && env.lockIsWalnut
    && h.pid != env.ownPid && a.lastSpawned != Some(h.pid) && a.recorded != Some(h.pid)
  }

  /** No other Walnut is there. */
  ghost predicate NoForeign(a: App, env: Env) { forall h :: !Foreign(a, env, h) }

  lemma ForeignIff(a: App, env: Env)
    ensures NoForeign(a, env) <==> LiveLockHolder(a, env).None?
    ensures forall h :: Foreign(a, env, h) <==> LiveLockHolder(a, env) == Some(h)
  {
    if env.lock.Some? { assert Foreign(a, env, env.lock.value) <==> LiveLockHolder(a, env).Some?; }
  }

  /** The app looks for a server from the beginning. */
  predicate Discovers(a: App, e: Event) {
    e.BackoffFires? || (e.WaitGone? && a.rediscoveries < 3)
  }

  /** The place of `port` in the list, or the first where it is not in it. */
  predicate PlaceOf(ports: seq<nat>, port: nat, k: nat) {
    if port in ports then k < |ports| && ports[k] == port && port !in ports[..k] else k == 0
  }

  /** The event asks for a server on the k-th port: every probe was silent, what served there was stopped, or the
      port before was taken. */
  predicate WantsServer(a: App, e: Event, k: nat)
    requires Enabled(a, e)
  {
    match e
    case LookSilent(i) => k == 0 && a.pool[i].index + 1 >= |a.ports|
    case StopDone(i, gone) =>
      if a.pool[i].StopOrphan? then k == a.pool[i].index else gone && PlaceOf(a.ports, a.pool[i].port, k)
    case Exits(i, portInUse, _) => !a.pool[i].confirmed && !a.pool[i].settled && portInUse && k == a.pool[i].index + 1
    case _ => false
  }

  /** A child of ours ended before it said it listens, and nobody has dealt with it. */
  predicate EndsEarly(a: App, e: Event)
    requires Enabled(a, e)
  {
    e.Exits? && !a.pool[e.i].confirmed && !a.pool[e.i].settled
  }

  /** A look met the server an earlier run of this app left: the recorded pid serves, and its command is ours. */
  predicate MeetsOrphan(a: App, e: Event, k: nat, pid: nat)
    requires Enabled(a, e)
  {
    e.LookAnswered? && a.pool[e.i].index == k && e.listener == Some(pid) && a.recorded == Some(pid) && e.looksOwn
  }

  /** A port answered the app's probe or its wait, and it is no orphan of ours. */
  predicate Answers(a: App, e: Event, port: nat)
    requires Enabled(a, e)
  {
    || (e.LookAnswered? && a.pool[e.i].probed == port && !(e.looksOwn && a.recorded.Some? && e.listener == a.recorded))
    || (e.WaitAnswers? && e.port == port)
  }

  /** A server was found to be of an ended login session, and may be replaced for it. */
  predicate FoundEnded(a: App, e: Event, port: nat)
    requires Enabled(a, e)
  {
    e.AskProblems? && a.pool[e.i].port == port && (a.pool[e.i].recheck ==> !a.replaced && a.port == Some(port))
  }

  lemma PlaceFound(ports: seq<nat>, port: nat)
    ensures forall k :: PlaceOf(ports, port, k) <==> k == FirstIndex(ports, port)
  {
    if port in ports {
      var j :| 0 <= j < |ports| && ports[j] == port;
      var k := FirstIndex(ports, port);
      assert forall j :: 0 <= j < k ==> ports[j] != port;
    }
  }

  // ------------------------------------------------------------------ what the methods add

  lemma FailureAdds(a: App, env: Env)
    ensures Adds(a.pool, HandleStartupFailure(a, env).pool, [])
  {
    hide DropTracked, Adds;
    DropAdds(a.pool);
    AddsNone(a.pool);
  }

  lemma RecoveryAdds(a: App, healthy: bool)
    ensures Adds(a.pool, ScheduleRecovery(a, healthy).pool, [])
  {
    hide DropTracked, Adds;
    DropAdds(a.pool);
  }

  function SpawnCome(ports: seq<nat>, index: nat, env: Env): seq<Activity> {
    if index >= |ports| || env.spawn.NoRuntime? then []
    else if env.spawn.RunFailed? then [SpawnFailed]
    else [Proc(env.spawn.pid, index, ports[index], false, false)]
  }

  lemma SpawnAdds(a: App, index: nat, env: Env)
    ensures Adds(a.pool, TryStartServerOnPort(a, index, env).pool, SpawnCome(a.ports, index, env))
  {
    hide HandleStartupFailure, Adds;
    FailureAdds(a, env);
    AddsOne(a.pool, SpawnFailed);
    if index < |a.ports| && env.spawn.Started? {
      AddsOne(a.pool, Proc(env.spawn.pid, index, a.ports[index], false, false));
    }
  }

  function CheckCome(ports: seq<nat>, index: nat, env: Env): seq<Activity> {
    if index < |ports| then [Check(index, ports[index])] else SpawnCome(ports, 0, env)
  }

  lemma CheckAdds(a: App, index: nat, env: Env)
    ensures Adds(a.pool, CheckExistingServer(a, index, env).pool, CheckCome(a.ports, index, env))
  {
    hide TryStartServerOnPort, Adds;
    SpawnAdds(a, 0, env);
    if index < |a.ports| { AddsOne(a.pool, Check(index, a.ports[index])); }
  }

  // ------------------------------------------------------------------ what one event adds

  /** The pool without the callback that arrives. */
  function Left(a: App, e: Event): seq<Activity>
    requires Enabled(a, e)
  {
    match e
    case BackoffFires | WaitGone | WaitDeadline | RecheckFires => a.pool
    case WaitAnswers(_) => a.pool
    case _ => Without(a.pool, e.i)
  }

  function Gone(a: App, e: Event): (g: seq<Activity>)
    requires Enabled(a, e)
    ensures |g| <= 1
  {
    match e
    case BackoffFires | WaitGone | WaitDeadline | RecheckFires => []
    case WaitAnswers(_) => []
    case _ => if a.pool[e.i].Poll? then [] else [a.pool[e.i]]
  }

  lemma LeftAdds(a: App, e: Event)
    requires Enabled(a, e)
    ensures Adds(Left(a, e), a.pool, Gone(a, e))
  {
    hide Adds, Without;
    match e
    case BackoffFires | WaitGone | WaitDeadline | RecheckFires => AddsNone(a.pool);
    case WaitAnswers(_) => AddsNone(a.pool);
    case _ => WithoutAdds(a.pool, e.i);
  }

  /** All that is added, its polls aside. */
  function Come(a: App, e: Event, env: Env): seq<Activity>
    requires Enabled(a, e)
  {
    match e
    case LookAnswered(i, listener, looksOwn) =>
      if looksOwn && a.recorded.Some? && listener == a.recorded then [StopOrphan(a.pool[i].index, a.recorded.value)]
      else if !a.replaced && env.sessionWorks then [Ask(a.pool[i].probed, false)] else []
    case LookSilent(i) => CheckCome(a.ports, a.pool[i].index + 1, env)
    case AskProblems(i, culprit) =>
      if culprit.Some? && FoundEnded(a, e, a.pool[i].port) then [StopEnded(a.pool[i].port, culprit.value)] else []
    case StopDone(i, gone) =>
      if a.pool[i].StopOrphan? then SpawnCome(a.ports, a.pool[i].index, env)
      else if gone then SpawnCome(a.ports, FirstIndex(a.ports, a.pool[i].port), env) else []
    case Listens(i) => [a.pool[i].(confirmed := true), Confirm(a.pool[i].served)]
    case Exits(i, portInUse, _) =>
      if !a.pool[i].confirmed && !a.pool[i].settled && portInUse then SpawnCome(a.ports, a.pool[i].index + 1, env)
      else []
    case TimesOut(i) => [a.pool[i].(settled := true)]
    case BackoffFires => if LiveLockHolder(a, env).Some? then [] else CheckCome(a.ports, 0, env)
    case WaitGone => if LiveLockHolder(a, env).Some? || a.rediscoveries >= 3 then [] else CheckCome(a.ports, 0, env)
    case WaitAnswers(port) => if !a.replaced && env.sessionWorks then [Ask(port, false)] else []
    case RecheckFires => if !a.replaced && !a.owns && a.port == a.recheck then [Ask(a.recheck.value, true)] else []
    case _ => []
  }

  lemma LookAdds(a: App, e: Event, env: Env)
    requires Enabled(a, e) && (e.LookAnswered? || e.LookSilent?)
    ensures Adds(Left(a, e), Step(a, e, env).pool, Come(a, e, env))
  {
    hide Adds, Without, CheckExistingServer;
    var p := Left(a, e);
    AddsNone(p);
    if e.LookSilent? { CheckAdds(a.(pool := p), a.pool[e.i].index + 1, env); }
    else { forall act { AddsOne(p, act); } }
  }

  lemma AskAdds(a: App, e: Event, env: Env)
    requires Enabled(a, e) && (e.AskFine? || e.AskProblems? || e.WaitAnswers? || e.RecheckFires?)
    ensures Adds(Left(a, e), Step(a, e, env).pool, Come(a, e, env))
  {
    hide Adds, Without;
    AddsNone(Left(a, e));
    forall act { AddsOne(Left(a, e), act); }
  }

  lemma StopAdds(a: App, e: Event, env: Env)
    requires Enabled(a, e) && e.StopDone?
    ensures Adds(Left(a, e), Step(a, e, env).pool, Come(a, e, env))
  {
    hide Adds, Without, TryStartServerOnPort, FirstIndex;
    var s, p := a.pool[e.i], Left(a, e);
    var b := a.(pool := p, recorded := if e.gone && a.recorded == Some(s.pid) then None else a.recorded);
    SpawnAdds(b, if s.StopOrphan? then s.index else FirstIndex(a.ports, s.port), env);
    AddsNone(p);
  }

  lemma ListensAdds(a: App, e: Event, env: Env)
    requires Enabled(a, e) && e.Listens?
    ensures Adds(Left(a, e), Step(a, e, env).pool, Come(a, e, env))
  {
    var p := a.pool[e.i].(confirmed := true);
    UpdateAdds(a.pool, e.i, p);
  }

  lemma ChildAdds(a: App, e: Event, env: Env)
    requires Enabled(a, e) && (e.TimesOut? || e.Exits?)
    ensures Adds(Left(a, e), Step(a, e, env).pool, Come(a, e, env))
  {
    hide Adds, Without, TryStartServerOnPort, HandleStartupFailure, ScheduleRecovery;
    var p := a.pool[e.i];
    if e.TimesOut? {
      var b := a.(pool := a.pool[e.i := p.(settled := true)], current := None);
      UpdateAdds(a.pool, e.i, p.(settled := true));
      FailureAdds(b, env);
      AddsAfter(Left(a, e), b.pool, Step(a, e, env).pool, Come(a, e, env));
    } else {
      var b := Exited(a, e.i);
      var c := if a.current == Some(p.pid) then b.(current := None) else b;
      RecoveryAdds(b.(current := None, port := None, owns := false), e.healthy);
      SpawnAdds(c, p.index + 1, env);
      FailureAdds(c, env);
      AddsNone(b.pool);
    }
  }

  lemma AddsAfter(p: seq<Activity>, q: seq<Activity>, r: seq<Activity>, c: seq<Activity>)
    requires Adds(p, q, c) && Adds(q, r, [])
    ensures Adds(p, r, c)
  {
  }

  lemma PollAdds(a: App, e: Event, env: Env)
    requires Enabled(a, e) && (e.ConfirmRuns? || e.PollAnswers? || e.PollGivesUp? || e.SpawnFailureRuns?)
    ensures Adds(Left(a, e), Step(a, e, env).pool, [])
  {
    hide Adds, Without, HandleStartupFailure, Untrack;
    var p := Left(a, e);
    UntrackAdds(p);
    FailureAdds(a.(pool := p), env);
    FailureAdds(a.(pool := Untrack(p)), env);
    AddsNext(p, Untrack(p), HandleStartupFailure(a.(pool := Untrack(p)), env).pool, []);
    if e.ConfirmRuns? {
      AddsOne(Untrack(p), Poll(a.pool[e.i].port, true));
      AddsNext(p, Untrack(p), Untrack(p) + [Poll(a.pool[e.i].port, true)], []);
    }
  }

  lemma DiscoveryAdds(a: App, e: Event, env: Env)
    requires Enabled(a, e) && (e.BackoffFires? || e.WaitGone? || e.WaitDeadline?)
    ensures Adds(Left(a, e), Step(a, e, env).pool, Come(a, e, env))
  {
    hide Adds, CheckExistingServer;
    var b := if e.BackoffFires? then a.(backoff := false, port := None)
             else a.(wait := None, rediscoveries := a.rediscoveries + 1);
    AddsNone(a.pool);
    CheckAdds(b, 0, env);
  }

  lemma StepAdds(a: App, e: Event, env: Env)
    requires Enabled(a, e)
    ensures Adds(Left(a, e), Step(a, e, env).pool, Come(a, e, env))
  {
    hide Adds, Left, Step;
    match e
    case LookAnswered(_, _, _) => LookAdds(a, e, env);
    case LookSilent(_) => LookAdds(a, e, env);
    case AskFine(_) => AskAdds(a, e, env);
    case AskProblems(_, _) => AskAdds(a, e, env);
    case WaitAnswers(_) => AskAdds(a, e, env);
    case RecheckFires => AskAdds(a, e, env);
    case StopDone(_, _) => StopAdds(a, e, env);
    case Listens(_) => ListensAdds(a, e, env);
    case Exits(_, _, _) => ChildAdds(a, e, env);
    case TimesOut(_) => ChildAdds(a, e, env);
    case BackoffFires => DiscoveryAdds(a, e, env);
    case WaitGone => DiscoveryAdds(a, e, env);
    case WaitDeadline => DiscoveryAdds(a, e, env);
    case _ => PollAdds(a, e, env);
  }

  // ------------------------------------------------------------------ what the app waits for

  /** The event makes the app wait for this: a probe of the next port, an ask, a stop, a child, what it says. */
  ghost predicate Queues(a: App, e: Event, env: Env, act: Activity)
    requires Enabled(a, e) && !act.Poll?
  {
    match act
    case Check(k, port) =>
      k < |a.ports| && port == a.ports[k]
      && if k == 0 then Discovers(a, e) && NoForeign(a, env) else e.LookSilent? && a.pool[e.i].index + 1 == k
    case Ask(port, recheck) =>
      !a.replaced && if recheck then e.RecheckFires? && a.recheck == Some(port) && a.port == Some(port) && !a.owns
                     else Answers(a, e, port) && env.sessionWorks
    case StopOrphan(k, pid) => MeetsOrphan(a, e, k, pid)
    case StopEnded(port, pid) => FoundEnded(a, e, port) && e.culprit == Some(pid)
    case Proc(pid, k, port, confirmed, settled) =>
      if confirmed then e.Listens? && a.pool[e.i] == act.(confirmed := false)
      else if settled then e.TimesOut? && a.pool[e.i] == act.(settled := false)
      else k < |a.ports| && port == a.ports[k] && WantsServer(a, e, k) && env.spawn == Started(pid)
    case Confirm(port) => e.Listens? && a.pool[e.i].served == port
    case SpawnFailed => env.spawn.RunFailed? && exists k :: 0 <= k < |a.ports| && WantsServer(a, e, k)
  }

  /** The one place an event can ask a server on. */
  function Place(a: App, e: Event): nat
    requires Enabled(a, e)
  {
    match e
    case StopDone(i, _) => if a.pool[i].StopOrphan? then a.pool[i].index else FirstIndex(a.ports, a.pool[i].port)
    case Exits(i, _, _) => a.pool[i].index + 1
    case _ => 0
  }

  lemma OnePlace(a: App, e: Event, k: nat)
    requires Enabled(a, e)
    ensures WantsServer(a, e, k) <==>
              && k == Place(a, e)
              && match e
                 case LookSilent(i) => a.pool[i].index + 1 >= |a.ports|
                 case StopDone(i, gone) => a.pool[i].StopOrphan? || gone
                 case Exits(_, portInUse, _) => EndsEarly(a, e) && portInUse
                 case _ => false
  {
    hide PlaceOf, FirstIndex;
    if e.StopDone? && a.pool[e.i].StopEnded? { PlaceFound(a.ports, a.pool[e.i].port); }
  }

  lemma ServerCome(a: App, e: Event, env: Env, act: Activity)
    requires Enabled(a, e) && !act.Poll? && (e.StopDone? || e.Exits?)
    ensures act in Come(a, e, env) <==> Queues(a, e, env, act)
  {
    hide WantsServer, FirstIndex;
    OnePlace(a, e, Place(a, e));
    match act
    case Proc(_, k, _, _, _) => OnePlace(a, e, k);
    case SpawnFailed => forall k: nat { OnePlace(a, e, k); }
    case _ =>
  }

  lemma ComeIff(a: App, e: Event, env: Env, act: Activity)
    requires Enabled(a, e) && !act.Poll?
    ensures act in Come(a, e, env) <==> Queues(a, e, env, act)
  {
    if e.StopDone? || e.Exits? {
      ServerCome(a, e, env, act);
    } else {
      ForeignIff(a, env);
      hide LiveLockHolder, Foreign, NoForeign;
      assert e.LookSilent? ==> (WantsServer(a, e, 0) <==> a.pool[e.i].index + 1 >= |a.ports|);
    }
  }

  /** In any step, of everything but polls, the app begins to wait for exactly this. It follows that it stops no
      server but the recorded orphan whose command is its own, or one that an ended session was found of; that it
      starts one only where nothing is left to ask; and that it probes every port, in order, before. */
  lemma QueuesIff(a: App, e: Event, env: Env, act: Activity)
    requires Enabled(a, e) && !act.Poll?
    ensures New(a, Step(a, e, env), act) <==> Queues(a, e, env, act)
  {
    hide Adds, Left, Step, Queues;
    StepAdds(a, e, env);
    LeftAdds(a, e);
    if Gone(a, e) != [] { GoneStaysAway(a, e, env); }
    NewIff(Left(a, e), a, Step(a, e, env), Gone(a, e), Come(a, e, env), act);
    ComeIff(a, e, env, act);
  }

  lemma GoneStaysAway(a: App, e: Event, env: Env)
    requires Enabled(a, e) && Gone(a, e) != []
    ensures Gone(a, e)[0] !in Come(a, e, env)
  {
    hide LiveLockHolder, FirstIndex;
  }
}
