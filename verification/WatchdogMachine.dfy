/** desktop/WebContentWatchdog.swift as a state machine over its timer, its web views and their answers. */
module WatchdogMachine {
  import opened Options
  import opened WebContentPolicy

  /** Asked of a web view: may it be replaced, for this reason? */
  datatype Question = Question(view: nat, reason: Reason)

  datatype Line = Sampled(level: Level) | HeldBack(reason: Reason, why: Why) | Recycled(reason: Reason)

  /** The watchdog's fields; `view` numbers the web views it was attached to. `questions` are the unsaved-work
      answers still to come, `recycled` when each recycle was logged, and `log` all it logged. */
  datatype Watch = Watch(times: seq<real>, lastLevel: Option<Level>, sinceReport: nat,
                         lastSuppression: Option<(Reason, Why)>, view: nat, startedAt: real, lastPid: nat,
                         inFlight: bool, questions: seq<Question>, recycled: seq<real>, log: seq<Line>, clock: real)

  datatype Reading = Reading(pid: nat, bytes: nat)

  datatype Event =
    | Attach(now: real)
    | ProcessGone(now: real)
    | Tick(now: real, ready: bool, reading: Option<Reading>, idle: real, visible: bool, stale: bool, t: Thresholds)
    | Answer(now: real, k: nat, unsaved: bool)

  function Fresh(now: real): Watch {
    Watch([], None, 0, None, 0, now, 0, false, [], [], [], now)
  }

  predicate Enabled(w: Watch, e: Event) {
    && w.clock <= e.now
    && (e.Answer? ==> e.k < |w.questions|)
    && (e.Tick? && e.reading.Some? ==> e.reading.value.pid > 0)
  }

  // ------------------------------------------------------------------ what is reported

  function ReportLevel(w: Watch, level: Level, every: nat): (r: Watch)
    ensures r == w.(lastLevel := r.lastLevel, sinceReport := r.sinceReport, log := r.log)
  {
    if w.lastLevel != Some(level) || w.sinceReport + 1 >= every
    then w.(sinceReport := 0, lastLevel := Some(level), log := w.log + [Sampled(level)])
    else w.(sinceReport := w.sinceReport + 1)
  }

  function ReportSuppression(w: Watch, v: Verdict): (r: Watch)
    ensures r == w.(lastSuppression := r.lastSuppression, log := r.log)
    ensures v.Recycle? ==> r.lastSuppression == None
  {
    if !v.Suppressed? then w.(lastSuppression := None)
    else if w.lastSuppression == Some((v.reason, v.why)) then w
    else w.(lastSuppression := Some((v.reason, v.why)), log := w.log + [HeldBack(v.reason, v.why)])
  }

  // ------------------------------------------------------------------ the events

  function Attached(w: Watch, now: real): Watch {
    w.(view := w.view + 1, startedAt := now, lastPid := 0, inFlight := false)
  }

  /** A pid not seen before is a process nobody timed. */
  function NotePid(w: Watch, now: real, pid: nat): Watch {
    if pid == w.lastPid then w else w.(startedAt := if w.lastPid != 0 then now else w.startedAt, lastPid := pid)
  }

  function SampleOf(w: Watch, e: Event): Sample
    requires e.Tick? && e.reading.Some?
  {
    Sample(e.reading.value.bytes, e.now - w.startedAt, e.idle, e.visible, e.stale)
  }

  function Ticked(w: Watch, l: Limits, e: Event): Watch
    requires e.Tick?
  {
    if !e.ready || w.inFlight || e.reading.None? then w
    else
      var w1 := NotePid(w, e.now, e.reading.value.pid);
      var w2 := ReportLevel(w1, LevelFor(e.t, e.reading.value.bytes), l.reportEvery);
      var verdict := VerdictFor(e.t, l, SampleOf(w2, e), w2.times, e.now);
      var w3 := ReportSuppression(w2, verdict);
      if verdict.Recycle? then w3.(inFlight := true, questions := w3.questions + [Question(w3.view, verdict.reason)])
      else w3
  }

  /** The answer of a web view that is no longer the watchdog's is dropped. */
  function Answered(w: Watch, now: real, k: nat, unsaved: bool): Watch
    requires k < |w.questions|
  {
    var q := w.questions[k];
    var w1 := w.(questions := w.questions[..k] + w.questions[k + 1..]);
    if q.view != w.view then w1
    else if unsaved then ReportSuppression(w1.(inFlight := false), Suppressed(q.reason, UnsavedWork))
    else w1.(times := Recent(w1.times, now) + [now], recycled := w1.recycled + [now],
                 log := w1.log + [Recycled(q.reason)])
  }

  function Do(w: Watch, l: Limits, e: Event): Watch
    requires Enabled(w, e)
  {
    var v := w.(clock := e.now);
    match e
    case Attach(now) => Attached(v, now)
    case ProcessGone(now) => v.(startedAt := now, lastPid := 0)
    case Tick(_, _, _, _, _, _, _) => Ticked(v, l, e)
    case Answer(now, k, unsaved) => Answered(v, now, k, unsaved)
  }

  // ------------------------------------------------------------------ the object

  class WebContentWatchdog {
    const limits: Limits
    var times: seq<real>
    var lastLevel: Option<Level>
    var sinceReport: nat
    var lastSuppression: Option<(Reason, Why)>
    var view: nat
    var startedAt: real
    var lastPid: nat
    var inFlight: bool
    var questions: seq<Question>
    var recycled: seq<real>
    var log: seq<Line>
    var clock: real

    function View(): Watch
      reads this
    {
      Watch(times, lastLevel, sinceReport, lastSuppression, view, startedAt, lastPid, inFlight, questions, recycled,
            log, clock)
    }

    constructor (limits: Limits, now: real)
      ensures View() == Fresh(now) && this.limits == limits
    {
      this.limits := limits;
      times, lastLevel, sinceReport, lastSuppression := [], None, 0, None;
      view, startedAt, lastPid, inFlight := 0, now, 0, false;
      questions, recycled, log, clock := [], [], [], now;
    }

    method OnAttach(now: real)
      requires clock <= now
      modifies this
      ensures View() == Do(old(View()), limits, Attach(now))
    {
      clock := now;
      view, startedAt, lastPid, inFlight := view + 1, now, 0, false;
    }

    method PageProcessDidTerminate(now: real)
      requires clock <= now
      modifies this
      ensures View() == Do(old(View()), limits, ProcessGone(now))
    {
      clock, startedAt, lastPid := now, now, 0;
    }

    method ShouldReport(level: Level) returns (report: bool)
      modifies this
      ensures View() == ReportLevel(old(View()), level, limits.reportEvery)
    {
      sinceReport := sinceReport + 1;
      var changed := lastLevel != Some(level);
      lastLevel := Some(level);
      report := changed || sinceReport >= limits.reportEvery;
      if report {
        sinceReport := 0;
        log := log + [Sampled(level)];
      }
    }

    method ShouldReportSuppression(v: Verdict)
      modifies this
      ensures View() == ReportSuppression(old(View()), v)
    {
      if !v.Suppressed? {
        lastSuppression := None;
        return;
      }
      if lastSuppression == Some((v.reason, v.why)) { return; }
      lastSuppression := Some((v.reason, v.why));
      log := log + [HeldBack(v.reason, v.why)];
    }

    method NoticePid(now: real, pid: nat)
      modifies this
      ensures View() == NotePid(old(View()), now, pid)
    {
      if pid != lastPid {
        if lastPid != 0 { startedAt := now; }
        lastPid := pid;
      }
    }

    method OnTick(e: Event)
      requires e.Tick? && Enabled(View(), e)
      modifies this
      ensures View() == Do(old(View()), limits, e)
    {
      hide VerdictFor, LevelFor, ReportLevel, ReportSuppression, NotePid;
      clock := e.now;
      if !e.ready || inFlight || e.reading.None? { return; }
      var reading := e.reading.value;
      NoticePid(e.now, reading.pid);
      var reported := ShouldReport(LevelFor(e.t, reading.bytes));
      var sample := Sample(reading.bytes, e.now - startedAt, e.idle, e.visible, e.stale);
      var verdict := VerdictFor(e.t, limits, sample, times, e.now);
      ShouldReportSuppression(verdict);
      if verdict.Recycle? {
        inFlight := true;
        questions := questions + [Question(view, verdict.reason)];
      }
    }

    method OnAnswer(now: real, k: nat, unsaved: bool)
      requires clock <= now && k < |questions|
      modifies this
      ensures View() == Do(old(View()), limits, Answer(now, k, unsaved))
    {
      hide ReportSuppression;
      clock := now;
      var q := questions[k];
      questions := questions[..k] + questions[k + 1..];
      if q.view != view { return; }
      if unsaved {
        inFlight := false;
        ShouldReportSuppression(Suppressed(q.reason, UnsavedWork));
        return;
      }
      times := Recent(times, now) + [now];
      recycled := recycled + [now];
      log := log + [Recycled(q.reason)];
    }
  }
}
