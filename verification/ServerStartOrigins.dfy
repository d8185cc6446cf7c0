/** Where everything a launch waits for, means to stop or remembers came from. */
module ServerStartOrigins {
  import opened Options
  import opened ServerStart
  import opened ServerStartRuns
  import opened ServerStartEffects
  import opened ServerStartFates

  // ------------------------------------------------------------------ over a launch

  /** The state when the j-th moment of a run from `start` arrives, and that it may. */
  ghost predicate At(start: App, trace: seq<Moment>, j: nat, a: App) {
    j < |trace| && After(start, trace[..j]) == Some(a) && Enabled(a, trace[j].e)
  }

  lemma {:induction false} LastMoment(start: App, trace: seq<Moment>)
    requires trace != [] && After(start, trace).Some?
    ensures var n := |trace| - 1;
            && After(start, trace[..n]).Some? && At(start, trace, n, After(start, trace[..n]).value)
            && After(start, trace) == Some(Step(After(start, trace[..n]).value, trace[n].e, trace[n].env))
    decreases |trace|
  {
    hide Step, Enabled;
    var n := |trace| - 1;
    if n > 0 {
      var next := Step(start, trace[0].e, trace[0].env);
      LastMoment(next, trace[1..]);
      assert trace[..n][1..] == trace[1..][..n - 1] && trace[1..][n - 1] == trace[n];
    } else {
      assert trace[1..] == [] && trace[..0] == [];
    }
  }

  lemma EarlierMoment(start: App, trace: seq<Moment>, j: nat, a: App)
    requires trace != [] && At(start, trace[..|trace| - 1], j, a)
    ensures At(start, trace, j, a)
  {
    assert trace[..|trace| - 1][..j] == trace[..j];
  }

  /** The j-th moment made the app wait for this. */
  ghost predicate QueuedAt(start: App, trace: seq<Moment>, j: nat, act: Activity)
    requires !act.Poll?
  {
    exists a :: At(start, trace, j, a) && Queues(a, trace[j].e, trace[j].env, act)
  }

  /** Whatever the app waits for was pending at the start or queued since. */
  lemma {:induction false} EveryCallbackWasQueued(start: App, trace: seq<Moment>, act: Activity)
    requires After(start, trace).Some? && !act.Poll? && act in After(start, trace).value.pool
    ensures act in start.pool || exists j: nat :: QueuedAt(start, trace, j, act)
    decreases |trace|
  {
    if trace != [] {
      hide After, Step, Enabled, Queues;
      var n := |trace| - 1;
      LastMoment(start, trace);
      var a := After(start, trace[..n]).value;
      if act in a.pool {
        EveryCallbackWasQueued(start, trace[..n], act);
        if j: nat :| QueuedAt(start, trace[..n], j, act) {
          var b :| At(start, trace[..n], j, b) && Queues(b, trace[..n][j].e, trace[..n][j].env, act);
          EarlierMoment(start, trace, j, b);
          assert QueuedAt(start, trace, j, act);
        }
      } else {
        QueuesIff(a, trace[n].e, trace[n].env, act);
        assert QueuedAt(start, trace, n, act);
      }
    }
  }

  lemma LaunchHasNoStop(ports: seq<nat>, recorded: Option<nat>, env: Env)
    ensures forall act <- StartServer(Fresh(ports, recorded), env).pool :: act.Check?
  {
    hide LiveLockHolder;
  }

  /** Every server a launch means to stop, in whatever state it is, was found by a look at a port where the pid
      recorded as this app's own child was listening and ran this app's own command, or by an ask that found it of
      an ended session: never a server started by someone else. */
  lemma EveryStopWasEarned(ports: seq<nat>, recorded: Option<nat>, env: Env, trace: seq<Moment>, place: nat, pid: nat)
    requires Launch(ports, recorded, env, trace).Some?
    ensures var start, a := StartServer(Fresh(ports, recorded), env), Launch(ports, recorded, env, trace).value;
            && (StopOrphan(place, pid) in a.pool ==>
                  exists j: nat, b :: At(start, trace, j, b) && MeetsOrphan(b, trace[j].e, place, pid))
            && (StopEnded(place, pid) in a.pool ==>
                  exists j: nat, b :: At(start, trace, j, b) && FoundEnded(b, trace[j].e, place)
                                      && trace[j].e.culprit == Some(pid))
  {
    hide After, StartServer, MeetsOrphan, FoundEnded, Enabled;
    var start, a := StartServer(Fresh(ports, recorded), env), Launch(ports, recorded, env, trace).value;
    LaunchHasNoStop(ports, recorded, env);
    if StopOrphan(place, pid) in a.pool {
      EveryCallbackWasQueued(start, trace, StopOrphan(place, pid));
      var j: nat :| QueuedAt(start, trace, j, StopOrphan(place, pid));
      var b :| At(start, trace, j, b) && Queues(b, trace[j].e, trace[j].env, StopOrphan(place, pid));
    }
    if StopEnded(place, pid) in a.pool {
      EveryCallbackWasQueued(start, trace, StopEnded(place, pid));
      var j: nat :| QueuedAt(start, trace, j, StopEnded(place, pid));
      var b :| At(start, trace, j, b) && Queues(b, trace[j].e, trace[j].env, StopEnded(place, pid));
    }
  }

  lemma {:induction false} RecordedSince(start: App, trace: seq<Moment>, pid: nat)
    requires After(start, trace).Some? && After(start, trace).value.recorded == Some(pid)
    ensures start.recorded == Some(pid) || exists j :: 0 <= j < |trace| && trace[j].env.spawn == Started(pid)
    decreases |trace|
  {
    if trace != [] {
      hide After, Step, Enabled, Meets, Like, Booked, Told;
      var n := |trace| - 1;
      LastMoment(start, trace);
      var a, e, env := After(start, trace[..n]).value, trace[n].e, trace[n].env;
      RecordIff(a, e, env);
      if a.recorded == Some(pid) { RecordedSince(start, trace[..n], pid); }
    }
  }

  lemma ToldFields(b: App, f: Fate)
    ensures var c := Told(b, f);
            && c.wait == (if f.WaitsFor? then Some(f.holder) else b.wait)
            && c.recorded == (if f.Starts? then Some(f.pid) else b.recorded)
            && c.spawns == b.spawns + if f.Starts? then 1 else 0
  {
  }

  lemma LikeFields(c: App, b: App)
    requires Like(c, b)
    ensures c.wait == b.wait && c.recorded == b.recorded && c.spawns == b.spawns
  {
  }

  lemma EndsFields(c: App, b: App, f: Option<Fate>)
    requires Ends(c, b, f)
    ensures c.wait == if f.Some? && f.value.WaitsFor? then Some(f.value.holder) else b.wait
    ensures c.recorded == if f.Some? && f.value.Starts? then Some(f.value.pid) else b.recorded
    ensures c.spawns == b.spawns + if f.Some? && f.value.Starts? then 1 else 0
  {
    hide Like, Told;
    if f.Some? { ToldFields(b, f.value); }
    LikeFields(c, if f.Some? then Told(b, f.value) else b);
  }

  lemma BookedFields(a: App, e: Event)
    requires Enabled(a, e)
    ensures var b := Booked(a, e);
            && b.recorded == (if Forgets(a, e) then None else a.recorded) && b.spawns == a.spawns
            && b.wait == if e.WaitGone? || e.WaitDeadline? || e.WaitAnswers? then None else a.wait
  {
    hide Crashes, EndsEarly, Forgets, FoundEnded;
  }

  lemma FateFields(a: App, e: Event, env: Env)
    requires Enabled(a, e)
    ensures var b, c, f := Booked(a, e), Step(a, e, env), FateOf(a, e, env);
            && Ends(c, b, f)
            && (f.Some? ==> Meets(a, e, env, f.value))
            && (f.Some? && f.value.Starts? ==> env.spawn == Started(f.value.pid))
  {
    hide Ends, Step, FateOf, Booked;
    StepEnds(a, e, env);
    if FateOf(a, e, env).Some? { MeetsIff(a, e, env, FateOf(a, e, env).value); }
  }

  /** The record changes exactly when a child starts, to its pid, or the recorded process is known to be gone. */
  lemma RecordIff(a: App, e: Event, env: Env)
    requires Enabled(a, e)
    ensures var b := Step(a, e, env);
            && (b.spawns > a.spawns ==> env.spawn.Started? && b.recorded == Some(env.spawn.pid))
            && (b.spawns == a.spawns ==> b.recorded == if Forgets(a, e) then None else a.recorded)
            && b.spawns >= a.spawns
  {
    hide Ends, Step, FateOf, Booked, Forgets, Meets;
    FateFields(a, e, env);
    EndsFields(Step(a, e, env), Booked(a, e), FateOf(a, e, env));
    BookedFields(a, e);
  }

  /** So what it reclaims is always a process this app started, in this launch or an earlier one. */
  lemma RecordIsOurs(ports: seq<nat>, recorded: Option<nat>, env: Env, trace: seq<Moment>, pid: nat)
    requires Launch(ports, recorded, env, trace).Some?
    requires Launch(ports, recorded, env, trace).value.recorded == Some(pid)
    ensures recorded == Some(pid) || exists j :: 0 <= j < |trace| && trace[j].env.spawn == Started(pid)
  {
    hide After;
    RecordedSince(StartServer(Fresh(ports, recorded), env), trace, pid);
    LaunchRecord(ports, recorded, env);
  }

  lemma LaunchRecord(ports: seq<nat>, recorded: Option<nat>, env: Env)
    ensures StartServer(Fresh(ports, recorded), env).recorded == recorded
  {
    hide LiveLockHolder, DropTracked;
  }

  /** The j-th moment made the app wait for this server, which another process runs. */
  ghost predicate WaitedAt(start: App, trace: seq<Moment>, j: nat, h: Holder) {
    exists a :: At(start, trace, j, a) && Meets(a, trace[j].e, trace[j].env, WaitsFor(h))
  }

  lemma {:induction false} WaitedSince(start: App, trace: seq<Moment>, h: Holder)
    requires After(start, trace).Some? && After(start, trace).value.wait == Some(h)
    ensures start.wait == Some(h) || exists j: nat :: WaitedAt(start, trace, j, h)
    decreases |trace|
  {
    if trace != [] {
      hide After, Step, Enabled, Meets;
      var n := |trace| - 1;
      LastMoment(start, trace);
      var a := After(start, trace[..n]).value;
      if a.wait == Some(h) {
        WaitedSince(start, trace[..n], h);
        if j: nat :| WaitedAt(start, trace[..n], j, h) {
          var b :| At(start, trace[..n], j, b) && Meets(b, trace[..n][j].e, trace[..n][j].env, WaitsFor(h));
          EarlierMoment(start, trace, j, b);
          assert WaitedAt(start, trace, j, h);
        }
      } else {
        NewWait(a, trace[n].e, trace[n].env, h);
        assert WaitedAt(start, trace, n, h);
      }
    }
  }

  lemma NewWait(a: App, e: Event, env: Env, h: Holder)
    requires Enabled(a, e) && a.wait != Some(h) && Step(a, e, env).wait == Some(h)
    ensures Meets(a, e, env, WaitsFor(h))
  {
    hide Ends, Step, FateOf, Booked, Forgets, Meets;
    FateFields(a, e, env);
    EndsFields(Step(a, e, env), Booked(a, e), FateOf(a, e, env));
    BookedFields(a, e);
  }

  /** Whomever a launch waits for is, when it begins to, a live Walnut that neither this app nor an earlier run of
      it started. */
  lemma EveryWaitIsForAnother(ports: seq<nat>, recorded: Option<nat>, env: Env, trace: seq<Moment>, h: Holder)
    requires Launch(ports, recorded, env, trace).Some? && Launch(ports, recorded, env, trace).value.wait == Some(h)
    ensures || Foreign(Fresh(ports, recorded), env, h)
            || exists j: nat, b :: At(StartServer(Fresh(ports, recorded), env), trace, j, b)
                                   && Foreign(Booked(b, trace[j].e), trace[j].env, h)
  {
    hide After, Enabled, Booked, Foreign, StartServer;
    var start := StartServer(Fresh(ports, recorded), env);
    WaitedSince(start, trace, h);
    if start.wait == Some(h) {
      LaunchWait(ports, recorded, env, h);
    } else {
      var j: nat :| WaitedAt(start, trace, j, h);
      var b :| At(start, trace, j, b) && Meets(b, trace[j].e, trace[j].env, WaitsFor(h));
    }
  }

  lemma LaunchWait(ports: seq<nat>, recorded: Option<nat>, env: Env, h: Holder)
    requires StartServer(Fresh(ports, recorded), env).wait == Some(h)
    ensures Foreign(Fresh(ports, recorded), env, h)
  {
    hide DropTracked;
  }
}
