/** What the watchdog's samples lead to over every run: which of them ask for a recycle, when there are none, how old
    a process they take the page's to be, and which levels they log. */
module WatchdogSamples {
  import opened Options
  import opened WebContentPolicy
  import opened WatchdogMachine
  import opened WatchdogRuns

  // ------------------------------------------------------------------ what every recycle was asked for

  /** The state when the i-th event arrives. */
  function Before(w: Watch, l: Limits, es: seq<Event>, i: nat): Watch
    requires Possible(w, l, es) && i < |es|
    decreases i
  {
    if i == 0 then w else Before(Do(w, l, es[0]), l, es[1..], i - 1)
  }

  /** Since when the sampled process is known to serve the page: a pid that replaced another just started. */
  function ServingSince(w: Watch, e: Event): real
    requires e.Tick? && e.reading.Some?
  {
    if w.lastPid != 0 && e.reading.value.pid != w.lastPid then e.now else w.startedAt
  }

  /** In state w the sample e asked for this recycle of the attached view: its size or bundle gave the reason,
      its process was old enough, nobody was looking, and the last hour left room for one. */
  predicate Earned(w: Watch, l: Limits, e: Event, q: Question) {
    && e.Tick? && e.ready && e.reading.Some? && !w.inFlight && q.view == w.view
    && e.now - ServingSince(w, e) >= l.minProcessAge
    && |InLastHour(w.times, e.now)| < l.maxPerHour
    && var s := Sample(e.reading.value.bytes, e.now - ServingSince(w, e), e.idle, e.visible, e.stale);
       AsksFor(e.t, s, q.reason) && NobodyLooks(l, s, q.reason)
  }

  /** The i-th event asked the question. */
  predicate EarnedAt(w: Watch, l: Limits, es: seq<Event>, i: nat, q: Question)
    requires Possible(w, l, es)
  {
    i < |es| && Earned(Before(w, l, es, i), l, es[i], q)
  }

  /** One step asks a new question exactly for an earning sample, and drops none but the one answered. */
  lemma AsksIff(w: Watch, l: Limits, e: Event, q: Question)
    requires Enabled(w, e) && !e.Answer?
    ensures Do(w, l, e).questions == w.questions + [q] <==> Earned(w, l, e, q)
    ensures Do(w, l, e).questions != w.questions ==> exists p :: Earned(w, l, e, p)
  {
    hide LevelFor, ReportLevel, ReportSuppression, VerdictFor, AsksFor, NobodyLooks, Recent;
    if e.Tick? && e.ready && !w.inFlight && e.reading.Some? {
      var v := w.(clock := e.now);
      var w1 := NotePid(v, e.now, e.reading.value.pid);
      var w2 := ReportLevel(w1, LevelFor(e.t, e.reading.value.bytes), l.reportEvery);
      var s := SampleOf(w2, e);
      assert s == Sample(e.reading.value.bytes, e.now - ServingSince(w, e), e.idle, e.visible, e.stale);
      VerdictIff(e.t, l, s, w.times, e.now, q.reason);
      var verdict := VerdictFor(e.t, l, s, w.times, e.now);
      assert (w.questions + [q])[|w.questions|] == q;
      if verdict.Recycle? {
        var asked := Question(w.view, verdict.reason);
        VerdictIff(e.t, l, s, w.times, e.now, verdict.reason);
        assert Do(w, l, e).questions == w.questions + [asked] && (w.questions + [asked])[|w.questions|] == asked;
        assert Earned(w, l, e, asked);
      }
    }
  }

  /** The event at i recorded a recycle at time t: the attached view answered that nothing was unsaved. */
  predicate RecordedAt(w: Watch, l: Limits, es: seq<Event>, i: nat, t: real, q: Question)
    requires Possible(w, l, es)
  {
    && i < |es| && es[i].Answer? && !es[i].unsaved && es[i].now == t
    && var b := Before(w, l, es, i);
       es[i].k < |b.questions| && q == b.questions[es[i].k] && q.view == b.view
  }

  lemma OneLater(w: Watch, l: Limits, es: seq<Event>, i: nat, t: real, q: Question)
    requires es != [] && Possible(w, l, es)
    ensures EarnedAt(Do(w, l, es[0]), l, es[1..], i, q) ==> EarnedAt(w, l, es, i + 1, q)
    ensures RecordedAt(Do(w, l, es[0]), l, es[1..], i, t, q) ==> RecordedAt(w, l, es, i + 1, t, q)
  {
    hide Do, Possible, Earned;
    assert i < |es[1..]| ==> es[1..][i] == es[i + 1];
  }

  /** A pending question was there at the start or earned since. */
  lemma {:induction false} QuestionsEarned(w: Watch, l: Limits, es: seq<Event>, q: Question)
    requires Possible(w, l, es) && q in Ran(w, l, es).questions
    ensures q in w.questions || exists i: nat :: EarnedAt(w, l, es, i, q)
    decreases |es|
  {
    hide Do, Earned;
    if es != [] {
      QuestionsEarned(Do(w, l, es[0]), l, es[1..], q);
      if i: nat :| EarnedAt(Do(w, l, es[0]), l, es[1..], i, q) {
        OneLater(w, l, es, i, 0.0, q);
      } else {
        NewIsEarned(w, l, es[0], q);
        if Earned(w, l, es[0], q) { assert EarnedAt(w, l, es, 0, q); }
      }
    }
  }

  lemma NewIsEarned(w: Watch, l: Limits, e: Event, q: Question)
    requires Enabled(w, e) && q in Do(w, l, e).questions
    ensures q in w.questions || Earned(w, l, e, q)
  {
    hide ReportLevel, ReportSuppression, VerdictFor, Recent, Earned;
    if !e.Answer? && Do(w, l, e).questions != w.questions {
      AsksIff(w, l, e, q);
      var p :| Earned(w, l, e, p);
      AsksIff(w, l, e, p);
    }
  }

  lemma {:induction false} RecycleRecorded(w: Watch, l: Limits, es: seq<Event>, j: nat)
    requires Possible(w, l, es) && |w.recycled| <= j < |Ran(w, l, es).recycled|
    ensures exists i: nat, q :: RecordedAt(w, l, es, i, Ran(w, l, es).recycled[j], q)
    decreases |es|
  {
    hide ReportLevel, ReportSuppression, VerdictFor, Recent;
    var t, d := Ran(w, l, es).recycled[j], Do(w, l, es[0]);
    if j < |d.recycled| {
      RecycledStay(d, l, es[1..]);
      assert t == d.recycled[j];
      assert RecordedAt(w, l, es, 0, t, w.questions[es[0].k]);
    } else {
      RecycleRecorded(d, l, es[1..], j);
      var i: nat, q :| RecordedAt(d, l, es[1..], i, t, q);
      OneLater(w, l, es, i, t, q);
    }
  }

  lemma {:induction false} RecycledStay(w: Watch, l: Limits, es: seq<Event>)
    requires Possible(w, l, es)
    ensures w.recycled <= Ran(w, l, es).recycled
    decreases |es|
  {
    hide ReportLevel, ReportSuppression, VerdictFor, Recent;
    if es != [] { RecycledStay(Do(w, l, es[0]), l, es[1..]); }
  }

  lemma {:induction false} BeforeIsRan(w: Watch, l: Limits, es: seq<Event>, i: nat)
    requires Possible(w, l, es) && i < |es|
    ensures Possible(w, l, es[..i]) && Before(w, l, es, i) == Ran(w, l, es[..i])
    ensures forall k: nat, q :: EarnedAt(w, l, es[..i], k, q) ==> EarnedAt(w, l, es, k, q)
    decreases i
  {
    hide Do, Earned;
    if i > 0 {
      BeforeIsRan(Do(w, l, es[0]), l, es[1..], i - 1);
      assert es[..i][1..] == es[1..][..i - 1];
    }
    forall k: nat, q | EarnedAt(w, l, es[..i], k, q) ensures EarnedAt(w, l, es, k, q) { SameBefore(w, l, es, i, k); }
  }

  lemma {:induction false} SameBefore(w: Watch, l: Limits, es: seq<Event>, i: nat, k: nat)
    requires Possible(w, l, es) && k < i < |es| && Possible(w, l, es[..i])
    ensures Before(w, l, es[..i], k) == Before(w, l, es, k)
    decreases k
  {
    hide Do;
    if k > 0 {
      assert es[..i][1..] == es[1..][..i - 1];
      SameBefore(Do(w, l, es[0]), l, es[1..], i - 1, k - 1);
    }
  }

  /** In every run each recorded recycle follows an answer of the attached view that nothing was unsaved, and that
      answer a sample that earned the question: a page is never replaced while the user is at it. */
  lemma EveryRecycleWasEarned(l: Limits, start: real, es: seq<Event>, j: nat)
    requires Possible(Fresh(start), l, es) && j < |Ran(Fresh(start), l, es).recycled|
    ensures exists asked: nat, i: nat, q ::
              && RecordedAt(Fresh(start), l, es, i, Ran(Fresh(start), l, es).recycled[j], q)
              && asked < i && EarnedAt(Fresh(start), l, es, asked, q)
  {
    hide Do, Earned, Before;
    var w := Fresh(start);
    RecycleRecorded(w, l, es, j);
    var i: nat, q :| RecordedAt(w, l, es, i, Ran(w, l, es).recycled[j], q);
    BeforeIsRan(w, l, es, i);
    QuestionsEarned(w, l, es[..i], q);
    var asked: nat :| EarnedAt(w, l, es[..i], asked, q);
    assert asked < i;
  }

  // ------------------------------------------------------------------ when the page is sampled

  /** The event samples the attached page. */
  predicate Samples(w: Watch, e: Event) { e.Tick? && e.ready && !w.inFlight && e.reading.Some? }

  predicate SampledAt(w: Watch, l: Limits, es: seq<Event>, i: nat)
    requires Possible(w, l, es)
  {
    i < |es| && Samples(Before(w, l, es, i), es[i])
  }

  /** A recycle was recorded and no web view attached since. */
  ghost predicate SwapPending(w: Watch, l: Limits, es: seq<Event>)
    requires Possible(w, l, es)
  {
    exists i: nat, q :: i < |es| && RecordedAt(w, l, es, i, es[i].now, q) && forall j :: i < j < |es| ==> !es[j].Attach?
  }

  predicate NoAttach(es: seq<Event>) { forall i :: 0 <= i < |es| ==> !es[i].Attach? }

  /** A recycle is on its way after one step: this recorded it, or it was and nothing was attached. */
  lemma StepSwaps(w: Watch, l: Limits, e: Event)
    requires Inv(w, l) && Enabled(w, e)
    ensures Swapping(Do(w, l, e))
        <==> || (Swapping(w) && !e.Attach?)
             || (e.Answer? && !e.unsaved && w.questions[e.k].view == w.view)
    ensures Awaiting(Do(w, l, e)) || Swapping(Do(w, l, e)) <==> Do(w, l, e).inFlight
  {
    hide History, Timed, Limited, Asked, OneEach, Recent, VerdictFor, LevelFor, ReportLevel, ReportSuppression, NotePid;
    StepKeeps(w, l, e);
    if e.Answer? {
      OneAnswered(w.questions, w.view, e.k);
      if w.questions[e.k].view == w.view { AskedAt(w.questions, w.view, e.k); }
    } else if e.Attach? {
      NotAskedYet(w.questions, w.view);
    } else if e.Tick? {
      TickAsks(w.(clock := e.now), l, e);
    }
  }

  lemma TickAsks(w: Watch, l: Limits, e: Event)
    requires e.Tick?
    ensures var n := Ticked(w, l, e);
            && n.view == w.view
            && (n.inFlight && !w.inFlight ==> Asked(n.questions, w.view))
            && (!n.inFlight || w.inFlight ==> n.questions == w.questions)
            && (w.inFlight ==> n == w)
  {
    hide VerdictFor, LevelFor, ReportLevel, ReportSuppression;
    if !w.inFlight && Ticked(w, l, e).inFlight { AskedAt(Ticked(w, l, e).questions, w.view, |w.questions|); }
  }

  lemma LaterSwap(w: Watch, l: Limits, es: seq<Event>)
    requires es != [] && Possible(w, l, es)
    ensures SwapPending(w, l, es)
        <==> || SwapPending(Do(w, l, es[0]), l, es[1..])
             || (es[0].Answer? && !es[0].unsaved && w.questions[es[0].k].view == w.view && NoAttach(es[1..]))
  {
    hide Do;
    var d, rest := Do(w, l, es[0]), es[1..];
    if SwapPending(d, l, rest) {
      var i: nat, q :| i < |rest| && RecordedAt(d, l, rest, i, rest[i].now, q)
                       && forall j :: i < j < |rest| ==> !rest[j].Attach?;
      OneLater(w, l, es, i, rest[i].now, q);
      assert forall j :: i + 1 < j < |es| ==> es[j] == rest[j - 1];
      assert RecordedAt(w, l, es, i + 1, es[i + 1].now, q);
    }
    if es[0].Answer? && !es[0].unsaved && w.questions[es[0].k].view == w.view && NoAttach(rest) {
      assert RecordedAt(w, l, es, 0, es[0].now, w.questions[es[0].k]);
      assert forall j :: 0 < j < |es| ==> es[j] == rest[j - 1];
    }
    if SwapPending(w, l, es) {
      var i: nat, q :| i < |es| && RecordedAt(w, l, es, i, es[i].now, q) && forall j :: i < j < |es| ==> !es[j].Attach?;
      assert forall j :: 0 <= j < |rest| ==> rest[j] == es[j + 1];
      if i > 0 { assert RecordedAt(d, l, rest, i - 1, rest[i - 1].now, q); }
    }
  }

  lemma {:induction false} RunSwaps(w: Watch, l: Limits, es: seq<Event>)
    requires Inv(w, l) && Possible(w, l, es)
    ensures Swapping(Ran(w, l, es)) <==> SwapPending(w, l, es) || (Swapping(w) && NoAttach(es))
    decreases |es|
  {
    hide Inv, Do, Swapping, SwapPending;
    if es == [] {
      NoSwapYet(w, l);
    } else {
      StepKeeps(w, l, es[0]);
      StepSwaps(w, l, es[0]);
      RunSwaps(Do(w, l, es[0]), l, es[1..]);
      LaterSwap(w, l, es);
      assert NoAttach(es) <==> !es[0].Attach? && NoAttach(es[1..]) by {
        assert forall i :: 0 < i < |es| ==> es[i] == es[1..][i - 1];
      }
    }
  }

  lemma NoSwapYet(w: Watch, l: Limits)
    ensures !SwapPending(w, l, [])
  {
  }

  /** In every run the page goes unsampled for exactly two reasons: the attached view still owes an answer, or a
      recycle of it was recorded and it has not been replaced. */
  lemma HeldExactlyWhile(l: Limits, start: real, es: seq<Event>)
    requires Possible(Fresh(start), l, es)
    ensures var w := Ran(Fresh(start), l, es);
            w.inFlight <==> Awaiting(w) || SwapPending(Fresh(start), l, es)
  {
    hide Do, Swapping, SwapPending, Asked, OneEach, Limited, Pruned;
    var w0 := Fresh(start);
    FreshInv(start, l);
    RunSwaps(w0, l, es);
    FreshHeld(start);
    HeldIff(w0, l, es);
  }

  lemma FreshHeld(start: real)
    ensures !Fresh(start).inFlight && !Swapping(Fresh(start)) && !Awaiting(Fresh(start))
  {
  }

  lemma {:induction false} HeldIff(w: Watch, l: Limits, es: seq<Event>)
    requires Inv(w, l) && Possible(w, l, es) && (w.inFlight <==> Awaiting(w) || Swapping(w))
    ensures var n := Ran(w, l, es); n.inFlight <==> Awaiting(n) || Swapping(n)
    decreases |es|
  {
    hide Inv, Do, Swapping, Awaiting;
    if es != [] {
      StepKeeps(w, l, es[0]);
      StepSwaps(w, l, es[0]);
      HeldIff(Do(w, l, es[0]), l, es[1..]);
    }
  }

  // ------------------------------------------------------------------ how old the page process is

  /** The event starts the clock of the page process anew: another view, or a process that went away. */
  predicate Restarts(e: Event) { e.Attach? || e.ProcessGone? }

  /** What w knows of the process that serves the page, after these events: nothing in them is later than since
      when it is timed, but samples of that very process. */
  predicate Timely(now: Watch, w: Watch, l: Limits, es: seq<Event>)
    requires Possible(w, l, es)
  {
    forall i: nat :: i < |es| ==>
      && es[i].now <= now.clock
      && (Restarts(es[i]) ==> es[i].now <= now.startedAt)
      && (SampledAt(w, l, es, i) ==> es[i].now <= now.startedAt || es[i].reading.value.pid == now.lastPid)
  }

  lemma StepTimes(w: Watch, l: Limits, e: Event)
    requires Enabled(w, e) && w.startedAt <= w.clock
    ensures var n := Do(w, l, e);
            && w.startedAt <= n.startedAt <= n.clock == e.now
            && (Restarts(e) ==> n.startedAt == e.now && n.lastPid == 0)
            && (Samples(w, e) ==> n.startedAt == ServingSince(w, e) && n.lastPid == e.reading.value.pid)
            && (!Restarts(e) && !Samples(w, e) ==> n.startedAt == w.startedAt && n.lastPid == w.lastPid)
  {
    hide VerdictFor, LevelFor, ReportLevel, ReportSuppression, Recent;
  }

  lemma {:induction false} RunTimes(w: Watch, l: Limits, es: seq<Event>)
    requires Possible(w, l, es) && w.startedAt <= w.clock
    ensures var n := Ran(w, l, es);
            && Timely(n, w, l, es) && w.startedAt <= n.startedAt <= n.clock && w.clock <= n.clock
            && (n.lastPid == w.lastPid || w.clock <= n.startedAt || w.lastPid == 0)
    decreases |es|
  {
    hide Do;
    if es != [] {
      var d, rest := Do(w, l, es[0]), es[1..];
      StepTimes(w, l, es[0]);
      RunTimes(d, l, rest);
      var n := Ran(w, l, es);
      forall i: nat | i < |es|
        ensures es[i].now <= n.clock
        ensures Restarts(es[i]) ==> es[i].now <= n.startedAt
        ensures SampledAt(w, l, es, i) ==> es[i].now <= n.startedAt || es[i].reading.value.pid == n.lastPid
      {
        if i > 0 {
          assert es[i] == rest[i - 1];
          assert SampledAt(w, l, es, i) <==> SampledAt(d, l, rest, i - 1);
        }
      }
    }
  }

  /** A recycle never replaces a process younger than the least age: in that time before the sample that earned it,
      no view was attached, no process went away, and every sample met this same process. */
  lemma NoYoungProcessIsReplaced(l: Limits, start: real, es: seq<Event>, asked: nat, q: Question, i: nat)
    requires Possible(Fresh(start), l, es) && EarnedAt(Fresh(start), l, es, asked, q)
    requires i < asked && es[asked].now - es[i].now < l.minProcessAge
    ensures !Restarts(es[i])
    ensures SampledAt(Fresh(start), l, es, i) ==> es[i].reading.value.pid == es[asked].reading.value.pid
  {
    hide Do, Before, Ran;
    var w := Fresh(start);
    BeforeIsRan(w, l, es, asked);
    RunTimes(w, l, es[..asked]);
    SameBefore(w, l, es, asked, i);
    assert SampledAt(w, l, es[..asked], i) <==> SampledAt(w, l, es, i);
    EventPossible(w, l, es, i);
    EventPossible(w, l, es, asked);
    assert es[..asked][i] == es[i];
  }

  lemma {:induction false} EventPossible(w: Watch, l: Limits, es: seq<Event>, i: nat)
    requires Possible(w, l, es) && i < |es|
    ensures Enabled(Before(w, l, es, i), es[i])
    decreases i
  {
    hide Do, Enabled;
    if i > 0 { EventPossible(Do(w, l, es[0]), l, es[1..], i - 1); }
  }

  // ------------------------------------------------------------------ which levels are logged

  /** The level the log last gave. */
  function LastLogged(log: seq<Line>): Option<Level> {
    if log == [] then None
    else if log[|log| - 1].Sampled? then Some(log[|log| - 1].level) else LastLogged(log[..|log| - 1])
  }

  lemma LastLoggedNext(log: seq<Line>, line: Line)
    ensures LastLogged(log + [line]) == if line.Sampled? then Some(line.level) else LastLogged(log)
  {
    assert (log + [line])[..|log|] == log;
  }

  lemma ReportsNoted(w: Watch, level: Level, every: nat, v: Verdict)
    requires LastLogged(w.log) == w.lastLevel
    ensures var r := ReportLevel(w, level, every);
            && r.lastLevel == Some(level) == LastLogged(r.log)
            && (r.log == w.log + [Sampled(level)] <==> LastLogged(w.log) != Some(level) || w.sinceReport + 1 >= every)
            && (r.log == w.log || r.log == w.log + [Sampled(level)])
    ensures var r := ReportSuppression(w, v); r.lastLevel == w.lastLevel == LastLogged(r.log)
  {
    forall line { LastLoggedNext(w.log, line); }
    assert w.log + [Sampled(level)] != w.log by { assert |w.log + [Sampled(level)]| == |w.log| + 1; }
  }

  lemma StepNoted(w: Watch, l: Limits, e: Event)
    requires Enabled(w, e) && LastLogged(w.log) == w.lastLevel
    ensures var n := Do(w, l, e); LastLogged(n.log) == n.lastLevel
    ensures Samples(w, e) ==>
              var level := LevelFor(e.t, e.reading.value.bytes);
              (w.log + [Sampled(level)] <= Do(w, l, e).log
               <==> LastLogged(w.log) != Some(level) || w.sinceReport + 1 >= l.reportEvery)
  {
    hide VerdictFor, LevelFor, ReportLevel, ReportSuppression, Recent, LastLogged;
    var v := w.(clock := e.now);
    if Samples(w, e) {
      var level := LevelFor(e.t, e.reading.value.bytes);
      var w1 := NotePid(v, e.now, e.reading.value.pid);
      var w2 := ReportLevel(w1, level, l.reportEvery);
      var verdict := VerdictFor(e.t, l, SampleOf(w2, e), w2.times, e.now);
      ReportsNoted(w1, level, l.reportEvery, verdict);
      ReportsNoted(w2, level, l.reportEvery, verdict);
      SuppressionAddsNoLevel(w2, verdict, w.log, level);
    } else if e.Answer? {
      var q := w.questions[e.k];
      ReportsNoted(v.(questions := w.questions[..e.k] + w.questions[e.k + 1..], inFlight := false), Normal, 0,
                   Suppressed(q.reason, UnsavedWork));
      LastLoggedNext(w.log, Recycled(q.reason));
    }
  }

  lemma SuppressionAddsNoLevel(w: Watch, v: Verdict, before: seq<Line>, level: Level)
    requires w.log == before || w.log == before + [Sampled(level)]
    ensures before + [Sampled(level)] <= ReportSuppression(w, v).log <==> w.log == before + [Sampled(level)]
  {
    var r := ReportSuppression(w, v);
    assert (before + [Sampled(level)])[|before|] == Sampled(level);
    if w.log == before && r.log != w.log { assert r.log[|before|].HeldBack?; }
  }

  lemma {:induction false} RunNoted(w: Watch, l: Limits, es: seq<Event>)
    requires Possible(w, l, es) && LastLogged(w.log) == w.lastLevel
    ensures var n := Ran(w, l, es); LastLogged(n.log) == n.lastLevel
    decreases |es|
  {
    hide Do, LastLogged;
    if es != [] {
      StepNoted(w, l, es[0]);
      RunNoted(Do(w, l, es[0]), l, es[1..]);
    }
  }

  /** In every run a sample logs its level exactly when the log last gave another, or as the Nth since. */
  lemma LevelLoggedIff(l: Limits, start: real, es: seq<Event>, e: Event)
    requires Possible(Fresh(start), l, es) && Enabled(Ran(Fresh(start), l, es), e)
    requires Samples(Ran(Fresh(start), l, es), e)
    ensures var w := Ran(Fresh(start), l, es);
            var level := LevelFor(e.t, e.reading.value.bytes);
            w.log + [Sampled(level)] <= Do(w, l, e).log
            <==> LastLogged(w.log) != Some(level) || w.sinceReport + 1 >= l.reportEvery
  {
    hide Do, Possible, Ran;
    RunNoted(Fresh(start), l, es);
    StepNoted(Ran(Fresh(start), l, es), l, e);
  }
}
