/** desktop/WebContentPolicy.swift: when the page process is replaced. */
module WebContentPolicy {
  import opened Options

  datatype Level = Normal | High | Critical

  datatype Reason = Footprint | FootprintForced | StaleBundle

  datatype Why = ProcessTooYoung | UserActive | RateLimited | UnsavedWork

  datatype Verdict = Hold | Recycle(reason: Reason) | Suppressed(reason: Reason, why: Why)

  datatype Sample = Sample(footprint: nat, processAge: real, userIdle: real, visible: bool, stale: bool)

  const MEGABYTE := 1_048_576
  const UINT64 := 0x1_0000_0000_0000_0000
  const HOUR := 3600.0

  /** The thresholds `defaults write` tunes. */
  datatype Thresholds = Thresholds(warn: nat, recycle: nat, force: nat)

  /** The rest of the policy, which nothing changes while the app runs. */
  datatype Limits = Limits(idleForRecycle: real, pauseForForce: real, idleForStale: real, minProcessAge: real,
                           maxPerHour: int, reportEvery: nat)

  const SHIPPED := Thresholds(1_500 * MEGABYTE, 2_200 * MEGABYTE, 3_500 * MEGABYTE)

  /** UInt64 multiplication traps where it overflows. */
  function Megabytes(n: int): Option<nat>
    requires n >= 0
  {
    if n * MEGABYTE < UINT64 then Some(n * MEGABYTE) else None
  }

  /** The thresholds for two integers read from the defaults (0 when unset); None where the app traps. */
  function FromDefaults(warn: int, recycle: int): Option<Thresholds> {
    var w := if warn >= 256 then Megabytes(warn) else Some(SHIPPED.warn);
    var r := if recycle >= 512 then Megabytes(recycle) else Some(SHIPPED.recycle);
    if w.None? || r.None? then None
    else
      Some(Thresholds(if r.value < w.value then r.value else w.value, r.value,
                      if SHIPPED.force < r.value then r.value else SHIPPED.force))
  }

  function LevelFor(t: Thresholds, bytes: nat): Level {
    if bytes >= t.recycle then Critical else if bytes >= t.warn then High else Normal
  }

  function Recent(times: seq<real>, now: real): (r: seq<real>)
    ensures |r| <= |times|
  {
    if times == [] then [] else (if now - times[0] < HOUR then [times[0]] else []) + Recent(times[1..], now)
  }

  function Wanted(t: Thresholds, s: Sample): Option<Reason> {
    if s.footprint >= t.force then Some(FootprintForced)
    else if s.footprint >= t.recycle then Some(Footprint)
    else if s.stale then Some(StaleBundle)
    else None
  }

  function IdleNeeded(l: Limits, reason: Reason): real {
    match reason
    case FootprintForced => l.pauseForForce
    case Footprint => l.idleForRecycle
    case StaleBundle => l.idleForStale
  }

  function VerdictFor(t: Thresholds, l: Limits, s: Sample, times: seq<real>, now: real): Verdict {
    var wanted := Wanted(t, s);
    if wanted.None? then Hold
    else if s.processAge < l.minProcessAge then Suppressed(wanted.value, ProcessTooYoung)
    else if s.visible && s.userIdle < IdleNeeded(l, wanted.value) then Suppressed(wanted.value, UserActive)
    else if |Recent(times, now)| >= l.maxPerHour then Suppressed(wanted.value, RateLimited)
    else Recycle(wanted.value)
  }

  /** Whatever the defaults hold, the thresholds are in order, unless a value of 2^44 MB or more traps; a value
      too small to make sense leaves the shipped one, and of two that are out of order the recycle point stays. */
  lemma DefaultsInOrder(warn: int, recycle: int)
    ensures FromDefaults(warn, recycle).None? <==> warn >= 0x1000_0000_0000 || recycle >= 0x1000_0000_0000
    ensures FromDefaults(warn, recycle).Some? ==>
              var t := FromDefaults(warn, recycle).value;
              && 0 < t.warn <= t.recycle <= t.force
              && t.recycle == (if recycle < 512 then 2_200 else recycle) * MEGABYTE
              && (t.warn == t.recycle || t.warn == (if warn < 256 then 1_500 else warn) * MEGABYTE)
              && (t.force == t.recycle || t.force == 3_500 * MEGABYTE)
  {
  }

  /** With thresholds in order, a sample is critical exactly when its size alone asks for a recycle, and normal
      exactly below the warning. */
  lemma CriticalIff(t: Thresholds, l: Limits, s: Sample, times: seq<real>, now: real)
    requires t.warn <= t.recycle <= t.force
    ensures LevelFor(t, s.footprint) == Critical <==> VerdictFor(t, l, s.(stale := false), times, now) != Hold
    ensures LevelFor(t, s.footprint) == Normal <==> s.footprint < t.warn
  {
  }

  /** A page that would be replaced for its size still would be when it is larger. */
  lemma LargerIsReplacedToo(t: Thresholds, l: Limits, s: Sample, more: nat, times: seq<real>, now: real)
    requires t.recycle <= t.force && l.pauseForForce <= l.idleForRecycle && t.recycle <= s.footprint <= more
    requires VerdictFor(t, l, s, times, now).Recycle?
    ensures VerdictFor(t, l, s.(footprint := more), times, now).Recycle?
  {
  }

  // ------------------------------------------------------------------ what the verdict means

  /** The page's size, or else the server's newer bundle, asks for this recycle. */
  predicate AsksFor(t: Thresholds, s: Sample, reason: Reason) {
    match reason
    case FootprintForced => t.force <= s.footprint
    case Footprint => t.recycle <= s.footprint < t.force
    case StaleBundle => s.stale && s.footprint < t.recycle && s.footprint < t.force
  }

  /** Nobody is looking: the window is hidden, or the user has paused for as long as this reason asks. */
  predicate NobodyLooks(l: Limits, s: Sample, reason: Reason) {
    || !s.visible
    || (reason == FootprintForced && l.pauseForForce <= s.userIdle)
    || (reason == Footprint && l.idleForRecycle <= s.userIdle)
    || (reason == StaleBundle && l.idleForStale <= s.userIdle)
  }

  function InLastHour(times: seq<real>, now: real): set<int> {
    set i | 0 <= i < |times| && now - times[i] < 3600.0
  }

  lemma {:induction false} RecentAppend(a: seq<real>, b: seq<real>, now: real)
    ensures Recent(a + b, now) == Recent(a, now) + Recent(b, now)
  {
    if a == [] {
      assert a + b == b;
    } else {
      assert (a + b)[1..] == a[1..] + b;
      RecentAppend(a[1..], b, now);
    }
  }

  lemma {:induction false} RecentCounts(times: seq<real>, now: real)
    ensures |Recent(times, now)| == |InLastHour(times, now)|
  {
    if times != [] {
      var n := |times| - 1;
      RecentCounts(times[..n], now);
      RecentAppend(times[..n], [times[n]], now);
      assert times == times[..n] + [times[n]];
      assert Recent([times[n]], now) == if now - times[n] < HOUR then [times[n]] else [];
      assert InLastHour(times, now) == InLastHour(times[..n], now) + if now - times[n] < HOUR then {n} else {};
    }
  }

  /** When the page is replaced: something asks for it, the process has had its least age, nobody is looking, and
      the last hour held fewer recycles than the limit. Each gate holds it back only where those before it do
      not, and nothing else does. */
  lemma VerdictIff(t: Thresholds, l: Limits, s: Sample, times: seq<real>, now: real, reason: Reason)
    ensures var v, aged, few := VerdictFor(t, l, s, times, now), l.minProcessAge <= s.processAge,
                                |InLastHour(times, now)| < l.maxPerHour;
            && (v == Hold <==> forall r :: !AsksFor(t, s, r))
            && (v == Recycle(reason) <==> AsksFor(t, s, reason) && aged && NobodyLooks(l, s, reason) && few)
            && (v == Suppressed(reason, ProcessTooYoung) <==> AsksFor(t, s, reason) && !aged)
            && (v == Suppressed(reason, UserActive) <==> AsksFor(t, s, reason) && aged && !NobodyLooks(l, s, reason))
            && (v == Suppressed(reason, RateLimited) <==>
                  AsksFor(t, s, reason) && aged && NobodyLooks(l, s, reason) && !few)
            && v != Suppressed(reason, UnsavedWork)
  {
    RecentCounts(times, now);
    assert Wanted(t, s).Some? ==> AsksFor(t, s, Wanted(t, s).value);
  }
}
