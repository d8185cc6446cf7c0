/** What becomes of a launch, outcome by outcome: for every event at once, exactly when the app waits for another
    Walnut, schedules a restart, gives up, attaches or starts a server, and what the launch is then. */
module ServerStartFates {
  import opened Options
  import opened ServerStart
  import opened ServerStartEffects

  // ------------------------------------------------------------------ the outcomes

  /** What an event can do to the launch, beyond its own bookkeeping. */
  datatype Fate =
    | WaitsFor(holder: Holder)        // another Walnut is to be shown
    | Restarts(attempt: nat)          // one more automatic restart is scheduled
    | Exhausted                       // no restart is left
    | Fails                           // the error is shown
    | Attaches(port: nat)
    | Starts(pid: nat)                // a child runs
    | CannotRun                       // a child could not be run

  /** A server of ours that served is gone. */
  predicate Crashes(a: App, e: Event)
    requires Enabled(a, e)
  {
    e.Exits? && a.pool[e.i].confirmed && a.owns && a.current == Some(a.pool[e.i].pid)
  }

  /** A server is to be started on the k-th port, but there is none, or nothing to run. */
  predicate CannotStart(a: App, e: Event, env: Env, k: nat)
    requires Enabled(a, e)
  {
    WantsServer(a, e, k) && (k >= |a.ports| || env.spawn.NoRuntime?)
  }

  /** The start has failed. */
  ghost predicate StartFails(a: App, e: Event, env: Env)
    requires Enabled(a, e)
  {
    || e.TimesOut? || e.PollGivesUp? || e.SpawnFailureRuns? || (EndsEarly(a, e) && !e.portInUse)
    || (exists k: nat :: CannotStart(a, e, env, k))
    || (Discovers(a, e) && a.ports == [])
  }

  /** The fields an event changes whatever becomes of the launch. */
  function Booked(a: App, e: Event): App
    requires Enabled(a, e)
  {
    var ended := e.AskProblems? && FoundEnded(a, e, a.pool[e.i].port);
    a.(wait := if e.WaitGone? || e.WaitDeadline? || e.WaitAnswers? then None else a.wait,
       backoff := a.backoff && !e.BackoffFires?,
       rediscoveries := a.rediscoveries + if e.WaitGone? && a.rediscoveries < 3 then 1 else 0,
       recheck := if e.RecheckFires? then None
                  else if e.AskFine? && !a.pool[e.i].recheck then Some(a.pool[e.i].port) else a.recheck,
       recorded := if Forgets(a, e) then None else a.recorded,
       current := if e.TimesOut? || ((Crashes(a, e) || EndsEarly(a, e)) && a.current == Some(a.pool[e.i].pid)) then None
                  else a.current,
       owns := e.ConfirmRuns? || (a.owns && !Crashes(a, e)),
       recovering := a.recovering && !e.ConfirmRuns?,
       port := if e.ConfirmRuns? then Some(a.pool[e.i].port)
               else if e.BackoffFires? || Crashes(a, e) || (ended && e.culprit.Some?) then None else a.port,
       replaced := a.replaced || ended,
       replacements := a.replacements + if ended && e.culprit.Some? then 1 else 0,
       screen := if e.PollAnswers? && a.port.Some? then Console
                 else if ended && a.pool[e.i].recheck then Loading else a.screen)
  }

  /** The record of the app's own server is dropped: that process is gone, or its pid serves something else. */
  predicate Forgets(a: App, e: Event)
    requires Enabled(a, e)
  {
    a.recorded.Some?
    && match e
       case LookAnswered(_, listener, looksOwn) => listener == a.recorded && !looksOwn
       case StopDone(i, gone) => gone && a.recorded == Some(a.pool[i].pid)
       case Exits(i, _, _) => a.recorded == Some(a.pool[i].pid)
       case _ => false
  }

  /** Who else is there when the event is dealt with. */
  ghost predicate Alone(a: App, e: Event, env: Env)
    requires Enabled(a, e)
  {
    NoForeign(Booked(a, e), env)
  }

  /** The restarts in a row so far: none after a server that stayed healthy. */
  function InARow(a: App, e: Event): nat { if e.Exits? && e.healthy then 0 else a.attempts }

  /** A recovery is due: a server of ours is gone, or the start of another has failed with nobody to wait for. */
  ghost predicate Recovers(a: App, e: Event, env: Env)
    requires Enabled(a, e)
  {
    Crashes(a, e) || (StartFails(a, e, env) && a.recovering && Alone(a, e, env))
  }

  /** When the event has this fate. */
  ghost predicate Meets(a: App, e: Event, env: Env, f: Fate)
    requires Enabled(a, e)
  {
    match f
    case WaitsFor(holder) => (Discovers(a, e) || StartFails(a, e, env)) && Foreign(Booked(a, e), env, holder)
    case Restarts(n) =>
      Recovers(a, e, env) && if Crashes(a, e) then InARow(a, e) < 5 && n == InARow(a, e) + 1
                             else a.attempts < 5 && n == a.attempts + 1
    case Exhausted => Recovers(a, e, env) && 5 <= if Crashes(a, e) then InARow(a, e) else a.attempts
    case Fails =>
      || (StartFails(a, e, env) && !a.recovering && Alone(a, e, env))
      || e.WaitDeadline? || (e.WaitGone? && a.rediscoveries >= 3)
    case Attaches(port) =>
      || (Answers(a, e, port) && (a.replaced || !env.sessionWorks))
      || (e.AskFine? && !a.pool[e.i].recheck && a.pool[e.i].port == port)
      || (FoundEnded(a, e, port) && e.culprit.None?)
      || (e.StopDone? && a.pool[e.i].StopEnded? && !e.gone && a.pool[e.i].port == port)
    case Starts(pid) => env.spawn == Started(pid) && exists k: nat :: k < |a.ports| && WantsServer(a, e, k)
    case CannotRun => env.spawn.RunFailed? && exists k: nat :: k < |a.ports| && WantsServer(a, e, k)
  }

  /** The launch after that. */
  function Told(b: App, f: Fate): App {
    match f
    case WaitsFor(holder) => b.(wait := Some(holder))
    case Restarts(n) => b.(attempts := n, recovering := true, screen := Loading, backoff := true)
    case Exhausted => b.(recovering := false, screen := ErrorScreen, backoff := false)
    case Fails => b.(screen := ErrorScreen)
    case Attaches(port) => b.(rediscoveries := 0, attempts := 0, recovering := false, owns := false, port := Some(port),
                              screen := Console, attaches := b.attaches + 1)
    case Starts(pid) =>
      b.(current := Some(pid), recorded := Some(pid), lastSpawned := Some(pid), spawns := b.spawns + 1)
    case CannotRun => b.(current := None)
  }

  /** Alike but for the pool. */
  predicate Like(c: App, b: App) { c == b.(pool := c.pool) }

  /** As Told, or as it is. */
  predicate Ends(c: App, b: App, f: Option<Fate>) {
    Like(c, match f case Some(fate) => Told(b, fate) case None => b)
  }

  // ------------------------------------------------------------------ the fate of each event

  function FailFate(b: App, env: Env): Fate {
    var holder := LiveLockHolder(b, env);
    if holder.Some? then WaitsFor(holder.value)
    else if !b.recovering then Fails
    else if b.attempts < 5 then Restarts(b.attempts + 1)
    else Exhausted
  }

  function StartFate(b: App, k: nat, env: Env): Fate {
    if k >= |b.ports| || env.spawn.NoRuntime? then FailFate(b, env)
    else if env.spawn.RunFailed? then CannotRun
    else Starts(env.spawn.pid)
  }

  function DiscoveryFate(b: App, env: Env): Option<Fate> {
    if LiveLockHolder(b, env).Some? || b.ports == [] then Some(FailFate(b, env)) else None
  }

  function AttachFate(b: App, port: nat, env: Env): Option<Fate> {
    if b.replaced || !env.sessionWorks then Some(Attaches(port)) else None
  }

  function FateOf(a: App, e: Event, env: Env): Option<Fate>
    requires Enabled(a, e)
  {
    var b := Booked(a, e);
    match e
    case LookAnswered(i, _, _) =>
      if Answers(a, e, a.pool[i].probed) then AttachFate(b, a.pool[i].probed, env) else None
    case WaitAnswers(port) => AttachFate(b, port, env)
    case LookSilent(i) => if a.pool[i].index + 1 >= |a.ports| then Some(StartFate(b, 0, env)) else None
    case AskFine(i) => if a.pool[i].recheck then None else Some(Attaches(a.pool[i].port))
    case AskProblems(i, culprit) =>
      if culprit.None? && FoundEnded(a, e, a.pool[i].port) then Some(Attaches(a.pool[i].port)) else None
    case StopDone(i, gone) =>
      if a.pool[i].StopOrphan? then Some(StartFate(b, a.pool[i].index, env))
      else if gone then Some(StartFate(b, FirstIndex(a.ports, a.pool[i].port), env))
      else Some(Attaches(a.pool[i].port))
    case Exits(i, portInUse, _) =>
      if Crashes(a, e) then Some(if InARow(a, e) < 5 then Restarts(InARow(a, e) + 1) else Exhausted)
      else if !EndsEarly(a, e) then None
      else Some(if portInUse then StartFate(b, a.pool[i].index + 1, env) else FailFate(b, env))
    case TimesOut(_) => Some(FailFate(b, env))
    case PollGivesUp(_) => Some(FailFate(b, env))
    case SpawnFailureRuns(_) => Some(FailFate(b, env))
    case BackoffFires => DiscoveryFate(b, env)
    case WaitGone => if a.rediscoveries < 3 then DiscoveryFate(b, env) else Some(Fails)
    case WaitDeadline => Some(Fails)
    case _ => None
  }

  lemma FailEnds(c: App, b: App, env: Env)
    requires Like(c, b)
    ensures Ends(HandleStartupFailure(c, env), b, Some(FailFate(b, env)))
  {
    hide DropTracked;
    assert LiveLockHolder(c, env) == LiveLockHolder(b, env);
  }

  lemma StartEnds(c: App, b: App, k: nat, env: Env)
    requires Like(c, b)
    ensures Ends(TryStartServerOnPort(c, k, env), b, Some(StartFate(b, k, env)))
  {
    hide HandleStartupFailure, FailFate, LiveLockHolder;
    assert c.ports == b.ports;
    if k >= |b.ports| || env.spawn.NoRuntime? {
      hide Ends;
      FailEnds(c, b, env);
    }
  }

  lemma DiscoveryEnds(c: App, b: App, env: Env)
    requires Like(c, b)
    ensures Ends(StartServer(c, env), b, DiscoveryFate(b, env))
  {
    hide HandleStartupFailure, TryStartServerOnPort;
    assert LiveLockHolder(c, env) == LiveLockHolder(b, env);
    StartEnds(c, b, 0, env);
  }

  lemma CrashEnds(a: App, e: Event, env: Env)
    requires Enabled(a, e) && Crashes(a, e)
    ensures Ends(Step(a, e, env), Booked(a, e), FateOf(a, e, env))
  {
    hide Without, DropTracked;
  }

  lemma EarlyEnds(a: App, e: Event, env: Env)
    requires Enabled(a, e) && EndsEarly(a, e)
    ensures Ends(Step(a, e, env), Booked(a, e), FateOf(a, e, env))
  {
    hide HandleStartupFailure, TryStartServerOnPort, Without, FailFate, StartFate;
    var p, b, x := a.pool[e.i], Booked(a, e), Exited(a, e.i);
    var c := if a.current == Some(p.pid) then x.(current := None) else x;
    assert Like(c, b);
    hide Booked, Ends;
    if e.portInUse { StartEnds(c, b, p.index + 1, env); } else { FailEnds(c, b, env); }
  }

  lemma ChildEnds(a: App, e: Event, env: Env)
    requires Enabled(a, e) && e.Exits?
    ensures Ends(Step(a, e, env), Booked(a, e), FateOf(a, e, env))
  {
    hide Without;
    if Crashes(a, e) || EndsEarly(a, e) {
      hide Ends, Step, Booked, FateOf;
      if Crashes(a, e) { CrashEnds(a, e, env); } else { EarlyEnds(a, e, env); }
    }
  }

  lemma FailureEnds(a: App, e: Event, env: Env)
    requires Enabled(a, e) && (e.TimesOut? || e.PollGivesUp? || e.SpawnFailureRuns?)
    ensures Ends(Step(a, e, env), Booked(a, e), FateOf(a, e, env))
  {
    hide HandleStartupFailure, Without, Untrack, FailFate;
    var b := Booked(a, e);
    match e
    case TimesOut(i) => FailEnds(a.(pool := a.pool[i := a.pool[i].(settled := true)], current := None), b, env);
    case PollGivesUp(i) => FailEnds(a.(pool := Untrack(Without(a.pool, i))), b, env);
    case SpawnFailureRuns(i) => FailEnds(a.(pool := Without(a.pool, i)), b, env);
  }

  lemma DiscoversEnds(a: App, e: Event, env: Env)
    requires Enabled(a, e) && (e.BackoffFires? || e.WaitGone?)
    ensures Ends(Step(a, e, env), Booked(a, e), FateOf(a, e, env))
  {
    hide StartServer, DiscoveryFate;
    var b := Booked(a, e);
    if e.BackoffFires? {
      DiscoveryEnds(a.(backoff := false, port := None), b, env);
    } else if a.rediscoveries < 3 {
      DiscoveryEnds(a.(wait := None, rediscoveries := a.rediscoveries + 1), b, env);
    }
  }

  lemma SilenceEnds(a: App, e: Event, env: Env)
    requires Enabled(a, e) && e.LookSilent?
    ensures Ends(Step(a, e, env), Booked(a, e), FateOf(a, e, env))
  {
    hide TryStartServerOnPort, Without, StartFate;
    StartEnds(a.(pool := Without(a.pool, e.i)), Booked(a, e), 0, env);
  }

  lemma StoppedEnds(a: App, e: Event, env: Env)
    requires Enabled(a, e) && e.StopDone? && (a.pool[e.i].StopOrphan? || e.gone)
    ensures Ends(Step(a, e, env), Booked(a, e), FateOf(a, e, env))
  {
    hide TryStartServerOnPort, Without, StartFate, FirstIndex;
    var s, b := a.pool[e.i], Booked(a, e);
    var c := a.(pool := Without(a.pool, e.i),
                recorded := if e.gone && a.recorded == Some(s.pid) then None else a.recorded);
    assert Like(c, b);
    hide Booked, Ends;
    StartEnds(c, b, if s.StopOrphan? then s.index else FirstIndex(a.ports, s.port), env);
  }

  lemma StopEnds(a: App, e: Event, env: Env)
    requires Enabled(a, e) && e.StopDone?
    ensures Ends(Step(a, e, env), Booked(a, e), FateOf(a, e, env))
  {
    hide Without;
    if a.pool[e.i].StopOrphan? || e.gone {
      hide Ends, Step, Booked, FateOf;
      StoppedEnds(a, e, env);
    }
  }

  lemma WaitEnds(a: App, e: Event, env: Env)
    requires Enabled(a, e) && e.WaitAnswers?
    ensures Ends(Step(a, e, env), Booked(a, e), FateOf(a, e, env))
  {
  }

  lemma LookEnds(a: App, e: Event, env: Env)
    requires Enabled(a, e) && e.LookAnswered?
    ensures Ends(Step(a, e, env), Booked(a, e), FateOf(a, e, env))
  {
    hide Without;
  }

  lemma FineEnds(a: App, e: Event, env: Env)
    requires Enabled(a, e) && e.AskFine?
    ensures Ends(Step(a, e, env), Booked(a, e), FateOf(a, e, env))
  {
    hide Without;
  }

  lemma ReplacedEnds(a: App, e: Event, env: Env)
    requires Enabled(a, e) && e.AskProblems? && e.culprit.Some? && FoundEnded(a, e, a.pool[e.i].port)
    ensures Ends(Step(a, e, env), Booked(a, e), FateOf(a, e, env))
  {
    hide Without;
  }

  lemma UnreplacedEnds(a: App, e: Event, env: Env)
    requires Enabled(a, e) && e.AskProblems? && e.culprit.None? && FoundEnded(a, e, a.pool[e.i].port)
    ensures Ends(Step(a, e, env), Booked(a, e), FateOf(a, e, env))
  {
    hide Without;
  }

  lemma ProblemsEnd(a: App, e: Event, env: Env)
    requires Enabled(a, e) && e.AskProblems?
    ensures Ends(Step(a, e, env), Booked(a, e), FateOf(a, e, env))
  {
    hide Without;
    if FoundEnded(a, e, a.pool[e.i].port) {
      hide Ends, Step, Booked, FateOf;
      if e.culprit.Some? { ReplacedEnds(a, e, env); } else { UnreplacedEnds(a, e, env); }
    }
  }

  lemma OtherEnds(a: App, e: Event, env: Env)
    requires Enabled(a, e)
    requires e.Listens? || e.ConfirmRuns? || e.PollAnswers? || e.WaitDeadline? || e.RecheckFires?
    ensures Ends(Step(a, e, env), Booked(a, e), FateOf(a, e, env))
  {
    hide Without, Untrack;
  }

  lemma StepEnds(a: App, e: Event, env: Env)
    requires Enabled(a, e)
    ensures Ends(Step(a, e, env), Booked(a, e), FateOf(a, e, env))
  {
    hide Ends, Step, Booked, FateOf;
    match e
    case Exits(_, _, _) => ChildEnds(a, e, env);
    case TimesOut(_) => FailureEnds(a, e, env);
    case PollGivesUp(_) => FailureEnds(a, e, env);
    case SpawnFailureRuns(_) => FailureEnds(a, e, env);
    case LookSilent(_) => SilenceEnds(a, e, env);
    case BackoffFires => DiscoversEnds(a, e, env);
    case WaitGone => DiscoversEnds(a, e, env);
    case StopDone(_, _) => StopEnds(a, e, env);
    case LookAnswered(_, _, _) => LookEnds(a, e, env);
    case WaitAnswers(_) => WaitEnds(a, e, env);
    case AskFine(_) => FineEnds(a, e, env);
    case AskProblems(_, _) => ProblemsEnd(a, e, env);
    case _ => OtherEnds(a, e, env);
  }

  // ------------------------------------------------------------------ the fate, by what the app has met

  lemma SameForeignIff(a: App, e: Event, env: Env)
    requires Enabled(a, e)
    ensures Alone(a, e, env) <==> LiveLockHolder(Booked(a, e), env).None?
    ensures forall h :: Foreign(Booked(a, e), env, h) <==> LiveLockHolder(Booked(a, e), env) == Some(h)
  {
    hide Booked, LiveLockHolder, Foreign, NoForeign;
    ForeignIff(Booked(a, e), env);
  }

  lemma BookedKeeps(a: App, e: Event)
    requires Enabled(a, e)
    ensures var b := Booked(a, e);
            && b.ports == a.ports && b.attempts == a.attempts
            && (!e.ConfirmRuns? ==> b.recovering == a.recovering) && (!e.AskProblems? ==> b.replaced == a.replaced)
  {
    hide Crashes, EndsEarly, Forgets, FoundEnded;
  }

  lemma PlaceDecides(a: App, e: Event, env: Env)
    requires Enabled(a, e)
    ensures CannotStart(a, e, env, Place(a, e)) <==> exists j: nat :: CannotStart(a, e, env, j)
    ensures Place(a, e) < |a.ports| && WantsServer(a, e, Place(a, e))
        <==> exists j: nat :: j < |a.ports| && WantsServer(a, e, j)
  {
    forall k: nat { OnePlace(a, e, k); }
    hide WantsServer, Place;
  }

  lemma MeetsOfServer(a: App, e: Event, env: Env, f: Fate)
    requires Enabled(a, e) && (e.LookSilent? || e.StopDone?)
    ensures Meets(a, e, env, f) <==> FateOf(a, e, env) == Some(f)
  {
    SameForeignIff(a, e, env);
    OnePlace(a, e, Place(a, e));
    PlaceDecides(a, e, env);
    BookedKeeps(a, e);
    hide LiveLockHolder, Foreign, Alone, WantsServer, Booked, FirstIndex;
  }

  lemma MeetsOfChild(a: App, e: Event, env: Env, f: Fate)
    requires Enabled(a, e) && e.Exits?
    ensures Meets(a, e, env, f) <==> FateOf(a, e, env) == Some(f)
  {
    SameForeignIff(a, e, env);
    OnePlace(a, e, Place(a, e));
    PlaceDecides(a, e, env);
    BookedKeeps(a, e);
    hide LiveLockHolder, Foreign, Alone, WantsServer, Booked;
  }

  lemma MeetsOfRest(a: App, e: Event, env: Env, f: Fate)
    requires Enabled(a, e) && !e.LookSilent? && !e.StopDone? && !e.Exits?
    ensures Meets(a, e, env, f) <==> FateOf(a, e, env) == Some(f)
  {
    SameForeignIff(a, e, env);
    BookedKeeps(a, e);
    OnePlace(a, e, Place(a, e));
    PlaceDecides(a, e, env);
    hide LiveLockHolder, Foreign, Alone, WantsServer, Booked, Place;
  }

  lemma MeetsIff(a: App, e: Event, env: Env, f: Fate)
    requires Enabled(a, e)
    ensures Meets(a, e, env, f) <==> FateOf(a, e, env) == Some(f)
  {
    hide Meets, FateOf;
    if e.LookSilent? || e.StopDone? { MeetsOfServer(a, e, env, f); }
    else if e.Exits? { MeetsOfChild(a, e, env, f); }
    else { MeetsOfRest(a, e, env, f); }
  }

  /** In any step the launch has at most one fate, and its fields are then the event's own bookkeeping and what
      that fate makes of them; with none, the bookkeeping alone. */
  lemma StepIff(a: App, e: Event, env: Env)
    requires Enabled(a, e)
    ensures forall f, g :: Meets(a, e, env, f) && Meets(a, e, env, g) ==> f == g
    ensures forall f :: Meets(a, e, env, f) ==> Like(Step(a, e, env), Told(Booked(a, e), f))
    ensures (forall f :: !Meets(a, e, env, f)) ==> Like(Step(a, e, env), Booked(a, e))
  {
    hide Meets, FateOf, Step, Booked, Like, Told;
    forall f { MeetsIff(a, e, env, f); }
    StepEnds(a, e, env);
  }
}
