/** The watchdog's rate limit and spacing over every run, though it decides at one time and records at another. */
module WatchdogRuns {
  import opened Options
  import opened WebContentPolicy
  import opened WatchdogMachine

  predicate Ascending(ts: seq<real>) { forall i, j :: 0 <= i <= j < |ts| ==> ts[i] <= ts[j] }

  // ------------------------------------------------------------------ the pruned list against the history

  /** Of ascending times the recent ones are the last ones. */
  lemma {:induction false} RecentIsTail(ts: seq<real>, now: real)
    requires Ascending(ts)
    ensures Recent(ts, now) == ts[|ts| - |Recent(ts, now)|..]
    ensures forall i :: 0 <= i < |ts| ==> (now - ts[i] < HOUR <==> i >= |ts| - |Recent(ts, now)|)
  {
    if ts != [] {
      RecentIsTail(ts[1..], now);
      var k := |ts| - |Recent(ts, now)|;
      if now - ts[0] < HOUR {
        assert forall i :: 0 <= i < |ts[1..]| ==> ts[0] <= ts[1..][i];
        assert |ts| > 1 ==> now - ts[1..][0] < HOUR;
      } else {
        assert ts[k..] == ts[1..][k - 1..];
        assert forall i :: 0 < i < |ts| ==> ts[i] == ts[1..][i - 1];
      }
    }
  }

  /** The list the watchdog keeps is the history without entries an hour older than its last one. */
  predicate Pruned(times: seq<real>, history: seq<real>) {
    && |times| <= |history| && times == history[|history| - |times|..]
    && forall i :: 0 <= i < |history| - |times| ==> history[|history| - 1] - history[i] >= HOUR
  }

  /** It counts the same as the full history from then on. */
  lemma PrunedCountsTheSame(times: seq<real>, history: seq<real>, now: real)
    requires Ascending(history) && Pruned(times, history) && (history == [] || history[|history| - 1] <= now)
    ensures Recent(times, now) == Recent(history, now)
  {
    var head := history[..|history| - |times|];
    assert history == head + times;
    RecentAppend(head, times, now);
    NoneRecent(head, now);
  }

  lemma {:induction false} NoneRecent(ts: seq<real>, now: real)
    requires forall i :: 0 <= i < |ts| ==> now - ts[i] >= HOUR
    ensures Recent(ts, now) == []
  {
    if ts != [] { NoneRecent(ts[1..], now); }
  }

  lemma StillAscending(ts: seq<real>, now: real)
    requires Ascending(ts) && (ts == [] || ts[|ts| - 1] <= now)
    ensures Ascending(ts + [now])
  {
    forall i | 0 <= i < |ts| ensures ts[i] <= now {
      assert ts[i] <= ts[|ts| - 1];
    }
  }

  lemma TailIsPruned(history: seq<real>, cut: nat, now: real)
    requires cut <= |history| && forall i :: 0 <= i < cut ==> now - history[i] >= HOUR
    ensures Pruned(history[cut..] + [now], history + [now])
  {
    assert (history + [now])[cut..] == history[cut..] + [now];
  }

  lemma StillPruned(times: seq<real>, history: seq<real>, now: real)
    requires Ascending(history) && Pruned(times, history) && (history == [] || history[|history| - 1] <= now)
    ensures Ascending(history + [now]) && Pruned(Recent(times, now) + [now], history + [now])
  {
    PrunedCountsTheSame(times, history, now);
    RecentIsTail(history, now);
    StillAscending(history, now);
    hide Ascending, Recent, Pruned;
    TailIsPruned(history, |history| - |Recent(history, now)|, now);
  }

  lemma FewerLater(ts: seq<real>, now: real, later: real)
    requires now <= later
    ensures |Recent(ts, later)| <= |Recent(ts, now)|
  {
    if ts != [] { FewerLater(ts[1..], now, later); }
  }

  // ------------------------------------------------------------------ what every step keeps

  predicate Asked(qs: seq<Question>, view: nat) { exists k :: 0 <= k < |qs| && qs[k].view == view }

  /** At most one question a web view, and none of a later one. */
  predicate OneEach(qs: seq<Question>, view: nat) {
    && (forall k :: 0 <= k < |qs| ==> qs[k].view <= view)
    && (forall j, k :: 0 <= j < k < |qs| ==> qs[j].view != qs[k].view)
  }

  /** An answer is due from the web view the watchdog has. */
  predicate Awaiting(w: Watch) { Asked(w.questions, w.view) }

  predicate History(w: Watch) {
    && Ascending(w.recycled) && Pruned(w.times, w.recycled)
    && w.startedAt <= w.clock && (w.recycled != [] ==> w.recycled[|w.recycled| - 1] <= w.clock)
  }

  predicate Questions(w: Watch) {
    && OneEach(w.questions, w.view)
    && (Awaiting(w) ==> w.inFlight && w.lastSuppression.None?)
  }

  /** The last recycle is before the process now timed, except while its own swap is on its way. */
  predicate Timed(w: Watch, l: Limits) {
    && (w.recycled != [] && (!w.inFlight || Awaiting(w)) ==> w.recycled[|w.recycled| - 1] <= w.startedAt)
    && (w.recycled != [] && Awaiting(w) ==> w.recycled[|w.recycled| - 1] + l.minProcessAge <= w.clock)
    && (Awaiting(w) ==> |Recent(w.times, w.clock)| < l.maxPerHour)
  }

  /** No hour holds more recycles than the limit, and two are a process's least age apart. */
  predicate Limited(ts: seq<real>, l: Limits) {
    && (forall i, j :: 0 <= i <= j < |ts| && ts[j] - ts[i] < HOUR ==> j - i < l.maxPerHour)
    && (forall i :: 0 < i < |ts| ==> ts[i] - ts[i - 1] >= l.minProcessAge)
  }

  predicate Inv(w: Watch, l: Limits) {
    History(w) && Questions(w) && Timed(w, l) && Limited(w.recycled, l)
  }

  lemma NextRecycleLimited(ts: seq<real>, now: real, l: Limits)
    requires Ascending(ts) && Limited(ts, l) && |Recent(ts, now)| < l.maxPerHour
    requires ts != [] ==> ts[|ts| - 1] + l.minProcessAge <= now
    ensures Limited(ts + [now], l)
  {
    RecentIsTail(ts, now);
    var r := ts + [now];
    forall i, j | 0 <= i <= j < |r| && r[j] - r[i] < HOUR ensures j - i < l.maxPerHour {
      if j == |ts| && i < |ts| { assert now - ts[i] < HOUR; }
    }
  }

  lemma AskOnce(qs: seq<Question>, view: nat, reason: Reason)
    requires OneEach(qs, view) && !Asked(qs, view)
    ensures OneEach(qs + [Question(view, reason)], view)
  {
    assert forall k :: 0 <= k < |qs| ==> qs[k].view != view;
  }

  lemma TickKeeps(w: Watch, l: Limits, e: Event)
    requires Inv(w, l) && w.clock == e.now && e.Tick?
    ensures Inv(Ticked(w, l, e), l)
  {
    hide Limited, Pruned, Ascending, LevelFor, Wanted, Recent, IdleNeeded, ReportLevel, ReportSuppression,
         OneEach, Asked;
    if e.ready && !w.inFlight && e.reading.Some? {
      var w1 := NotePid(w, e.now, e.reading.value.pid);
      var w2 := ReportLevel(w1, LevelFor(e.t, e.reading.value.bytes), l.reportEvery);
      var verdict := VerdictFor(e.t, l, SampleOf(w2, e), w2.times, e.now);
      var n := Ticked(w, l, e);
      if verdict.Recycle? {
        AskOnce(w.questions, w.view, verdict.reason);
        assert e.now - n.startedAt >= l.minProcessAge;
      }
    }
  }

  /** Answering the one question of a web view leaves none for it; another's changes nothing for it. */
  lemma OneAnswered(qs: seq<Question>, view: nat, k: nat)
    requires OneEach(qs, view) && k < |qs|
    ensures var rest := qs[..k] + qs[k + 1..];
            OneEach(rest, view) && (Asked(rest, view) <==> Asked(qs, view) && qs[k].view != view)
  {
    var rest := qs[..k] + qs[k + 1..];
    assert forall i :: 0 <= i < k ==> rest[i] == qs[i];
    assert forall i :: k <= i < |rest| ==> rest[i] == qs[i + 1];
    assert forall i :: k < i < |qs| ==> qs[i] == rest[i - 1];
    if Asked(qs, view) && qs[k].view != view {
      var i :| 0 <= i < |qs| && qs[i].view == view;
      assert rest[if i < k then i else i - 1].view == view;
    }
  }

  lemma AnswerKeeps(w: Watch, l: Limits, now: real, k: nat, unsaved: bool)
    requires Inv(w, l) && w.clock == now && k < |w.questions|
    ensures Inv(Answered(w, now, k, unsaved), l)
  {
    hide Limited, Recent, Pruned, Ascending, ReportSuppression, Asked, OneEach;
    OneAnswered(w.questions, w.view, k);
    if w.questions[k].view == w.view && !unsaved {
      assert Asked(w.questions, w.view) by { AskedAt(w.questions, w.view, k); }
      RecordKeeps(w, l, now);
    } else if w.questions[k].view == w.view {
      AskedAt(w.questions, w.view, k);
    }
  }

  lemma AskedAt(qs: seq<Question>, view: nat, k: nat)
    requires k < |qs| && qs[k].view == view
    ensures Asked(qs, view)
  {
  }

  lemma RecordKeeps(w: Watch, l: Limits, now: real)
    requires History(w) && Timed(w, l) && Limited(w.recycled, l) && Awaiting(w) && w.clock == now
    ensures Ascending(w.recycled + [now]) && Limited(w.recycled + [now], l)
    ensures Pruned(Recent(w.times, now) + [now], w.recycled + [now])
  {
    hide Limited, Recent, Pruned, Ascending, Asked;
    StillPruned(w.times, w.recycled, now);
    PrunedCountsTheSame(w.times, w.recycled, now);
    NextRecycleLimited(w.recycled, now, l);
  }

  lemma NotAskedYet(qs: seq<Question>, view: nat)
    requires OneEach(qs, view)
    ensures OneEach(qs, view + 1) && !Asked(qs, view + 1)
  {
  }

  lemma StepKeeps(w: Watch, l: Limits, e: Event)
    requires Inv(w, l) && Enabled(w, e)
    ensures Inv(Do(w, l, e), l)
  {
    hide Limited, Recent, Pruned, Ascending, Ticked, Answered, OneEach, Asked;
    var v := w.(clock := e.now);
    FewerLater(w.times, w.clock, e.now);
    assert Inv(v, l);
    if e.Tick? {
      TickKeeps(v, l, e);
    } else if e.Answer? {
      AnswerKeeps(v, l, e.now, e.k, e.unsaved);
    } else if e.Attach? {
      NotAskedYet(w.questions, w.view);
    }
  }

  // ------------------------------------------------------------------ runs

  /** Any events the app can meet, in order of time. */
  predicate Possible(w: Watch, l: Limits, es: seq<Event>)
    decreases |es|
  {
    es == [] || (Enabled(w, es[0]) && Possible(Do(w, l, es[0]), l, es[1..]))
  }

  function Ran(w: Watch, l: Limits, es: seq<Event>): Watch
    requires Possible(w, l, es)
    decreases |es|
  {
    if es == [] then w else Ran(Do(w, l, es[0]), l, es[1..])
  }

  lemma {:induction false} RunKeeps(w: Watch, l: Limits, es: seq<Event>)
    requires Inv(w, l) && Possible(w, l, es)
    ensures Inv(Ran(w, l, es), l)
    decreases |es|
  {
    hide Inv, Do;
    if es != [] {
      StepKeeps(w, l, es[0]);
      RunKeeps(Do(w, l, es[0]), l, es[1..]);
    }
  }

  /** The recycles logged from `from` on, for an hour. */
  function HourFrom(ts: seq<real>, from: real): set<int> {
    set i | 0 <= i < |ts| && from <= ts[i] < from + HOUR
  }

  function Range(lo: int, n: nat): (r: set<int>)
    ensures forall i :: i in r <==> lo <= i < lo + n
  {
    if n == 0 then {} else Range(lo, n - 1) + {lo + n - 1}
  }

  lemma {:induction false} FewInRange(s: set<int>, lo: int, n: nat)
    requires s <= Range(lo, n)
    ensures |s| <= n
  {
    if n > 0 {
      var last := lo + n - 1;
      FewInRange(s - {last}, lo, n - 1);
      if last !in s { assert s - {last} == s; }
    }
  }

  /** Where the times from `from` on begin. */
  function Begins(ts: seq<real>, from: real): (k: nat)
    ensures k <= |ts| && (k < |ts| ==> ts[k] >= from) && forall i :: 0 <= i < k ==> ts[i] < from
  {
    if ts == [] || ts[0] >= from then 0 else 1 + Begins(ts[1..], from)
  }

  lemma HourHolds(ts: seq<real>, l: Limits, from: real)
    requires Ascending(ts) && Limited(ts, l)
    ensures |HourFrom(ts, from)| <= if l.maxPerHour > 0 then l.maxPerHour else 0
  {
    var s, lo := HourFrom(ts, from), Begins(ts, from);
    var n := if l.maxPerHour > 0 then l.maxPerHour else 0;
    forall i | i in s ensures lo <= i < lo + n { assert ts[i] - ts[lo] < HOUR; }
    FewInRange(s, lo, n);
  }

  /** In every run no hour, wherever it starts, holds more automatic recycles than the policy allows, and no
      two are closer than a page process's least age. */
  lemma EveryRunIsLimited(l: Limits, start: real, es: seq<Event>, from: real)
    requires Possible(Fresh(start), l, es)
    ensures var w := Ran(Fresh(start), l, es);
            && |HourFrom(w.recycled, from)| <= (if l.maxPerHour > 0 then l.maxPerHour else 0)
            && forall i :: 0 < i < |w.recycled| ==> w.recycled[i] - w.recycled[i - 1] >= l.minProcessAge
  {
    hide Possible, Ran, Asked;
    FreshInv(start, l);
    RunKeeps(Fresh(start), l, es);
    HourHolds(Ran(Fresh(start), l, es).recycled, l, from);
  }

  lemma NoneAsked()
    ensures !Asked([], 0)
  {
  }

  /** In every state a run reaches, the pruned list answers the rate limit as the whole history would. */
  lemma EveryDecisionCountsTheHistory(l: Limits, start: real, es: seq<Event>, now: real)
    requires Possible(Fresh(start), l, es) && Ran(Fresh(start), l, es).clock <= now
    ensures var w := Ran(Fresh(start), l, es); Recent(w.times, now) == Recent(w.recycled, now)
  {
    hide Possible, Ran, Asked, Recent;
    FreshInv(start, l);
    RunKeeps(Fresh(start), l, es);
    var w := Ran(Fresh(start), l, es);
    PrunedCountsTheSame(w.times, w.recycled, now);
  }

  // ------------------------------------------------------------------ what is reported

  /** An answer of unsaved work is logged every time: the recycle it holds back cleared what was last logged.
      A gate that stays shut is logged once. */
  lemma UnsavedIsAlwaysLogged(w: Watch, l: Limits, now: real, k: nat)
    requires Inv(w, l) && k < |w.questions| && w.questions[k].view == w.view
    ensures Answered(w, now, k, true).log == w.log + [HeldBack(w.questions[k].reason, UnsavedWork)]
  {
    hide History, Timed, Limited;
    AskedAt(w.questions, w.view, k);
  }

  lemma SameGateIsLoggedOnce(w: Watch, v: Verdict)
    requires v.Suppressed?
    ensures var w1 := ReportSuppression(w, v);
            ReportSuppression(w1, v) == w1
            && (w1.log != w.log <==> w.lastSuppression != Some((v.reason, v.why)))
  {
  }

  /** n further samples at the level last seen. */
  function Quiet(w: Watch, level: Level, every: nat, n: nat): Watch {
    if n == 0 then w else ReportLevel(Quiet(w, level, every, n - 1), level, every)
  }

  /** After a report, the next of quiet samples is the Nth. */
  lemma {:induction false} QuietSamples(w: Watch, level: Level, every: nat, n: nat)
    requires n <= every && every > 0 && w.lastLevel == Some(level) && w.sinceReport == 0
    ensures Quiet(w, level, every, n) ==
            if n < every then w.(sinceReport := n) else w.(log := w.log + [Sampled(level)])
  {
    if n > 0 { QuietSamples(w, level, every, n - 1); }
  }

  // ------------------------------------------------------------------ a recycle that replaces nothing

  /** A recycle was recorded and its web view is still attached. */
  predicate Swapping(w: Watch) { Questions(w) && w.inFlight && !Awaiting(w) }

  lemma {:induction false} SwappingWaits(w: Watch, l: Limits, es: seq<Event>)
    requires Swapping(w) && Possible(w, l, es) && forall i :: 0 <= i < |es| ==> !es[i].Attach?
    ensures var n := Ran(w, l, es); n.inFlight && n.recycled == w.recycled && n.log == w.log
    decreases |es|
  {
    hide Asked, OneEach;
    if es != [] {
      var e := es[0];
      if e.Answer? { OneAnswered(w.questions, w.view, e.k); NotThisView(w, e.k); }
      assert forall i :: 0 <= i < |es[1..]| ==> es[1..][i] == es[i + 1];
      SwappingWaits(Do(w, l, e), l, es[1..]);
    }
  }

  lemma NotThisView(w: Watch, k: nat)
    requires k < |w.questions| && !Awaiting(w)
    ensures w.questions[k].view != w.view
  {
  }

  lemma RecordedIsSwapping(w: Watch, l: Limits, now: real, k: nat)
    requires Inv(w, l) && k < |w.questions| && w.questions[k].view == w.view
    ensures Swapping(Answered(w, now, k, false))
  {
    hide History, Timed, Limited, Asked, OneEach, Recent;
    AskedAt(w.questions, w.view, k);
    OneAnswered(w.questions, w.view, k);
  }

  /** In every run, once an answer lets a recycle be recorded, nothing more is sampled, logged or recycled until
      the watchdog is attached again, whatever else arrives: where the delegate replaces no web view, as when
      it has no port, the watchdog is silent from then on. */
  lemma WaitsForItsAttach(l: Limits, start: real, before: seq<Event>, now: real, k: nat, later: seq<Event>)
    requires Possible(Fresh(start), l, before)
    requires var w := Ran(Fresh(start), l, before);
             && Enabled(w, Answer(now, k, false)) && w.questions[k].view == w.view
             && Possible(Do(w, l, Answer(now, k, false)), l, later)
    requires forall i :: 0 <= i < |later| ==> !later[i].Attach?
    ensures var w := Ran(Fresh(start), l, before);
            var n := Ran(Do(w, l, Answer(now, k, false)), l, later);
            && n.inFlight && n.recycled == w.recycled + [now]
            && n.log == w.log + [Recycled(w.questions[k].reason)]
  {
    hide Possible, Ran, Asked, Limited, Recent, Pruned, Ascending, OneEach;
    FreshInv(start, l);
    RunKeeps(Fresh(start), l, before);
    var w := Ran(Fresh(start), l, before);
    var v := w.(clock := now);
    FewerLater(w.times, w.clock, now);
    RecordedIsSwapping(v, l, now, k);
    SwappingWaits(Answered(v, now, k, false), l, later);
  }

  lemma FreshInv(start: real, l: Limits)
    ensures Inv(Fresh(start), l)
  {
    hide Asked;
    NoneAsked();
  }
}
