/** The update state and its reducers (desktop/AppUpdateMachine.swift:12-218). */
module UpdateMachine {
  import opened Options

  datatype Status = Disabled | Idle | Checking | UpToDate | Available | Downloading | Downloaded | Error
  datatype ErrorContext = CheckError | DownloadError | InstallError

  datatype UpdateState = UpdateState(
    enabled: bool, status: Status, currentVersion: string,
    availableVersion: Option<string>, downloadedVersion: Option<string>, downloadPercent: Option<real>,
    checkedAt: Option<string>, message: Option<string>, errorContext: Option<ErrorContext>, canRetry: bool,
    disabledReason: Option<string>)

  function Initial(currentVersion: string): UpdateState {
    UpdateState(false, Disabled, currentVersion, None, None, None, None, None, None, false, None)
  }

  function Base(s: UpdateState, disabledReason: Option<string>): UpdateState {
    Initial(s.currentVersion).(enabled := disabledReason.None?,
                               status := if disabledReason.None? then Idle else Disabled,
                               disabledReason := disabledReason)
  }

  function OnCheckStart(s: UpdateState, checkedAt: string): UpdateState {
    s.(status := Checking, checkedAt := Some(checkedAt), message := None,
       downloadPercent := if s.downloadedVersion.Some? then Some(100.0) else None,
       errorContext := None, canRetry := false)
  }

  function OnCheckFailure(s: UpdateState, message: string, checkedAt: string): UpdateState {
    if s.downloadedVersion.Some? then
      s.(status := Downloaded, message := None, checkedAt := Some(checkedAt), downloadPercent := Some(100.0),
         errorContext := None, canRetry := true)
    else
      s.(status := Error, message := Some(message), checkedAt := Some(checkedAt), downloadPercent := None,
         errorContext := Some(CheckError), canRetry := true)
  }

  function OnUpdateAvailable(s: UpdateState, version: string, checkedAt: string): UpdateState {
    var isDownloaded := s.downloadedVersion == Some(version);
    s.(status := if isDownloaded then Downloaded else Available, availableVersion := Some(version),
       downloadedVersion := if isDownloaded then Some(version) else None,
       downloadPercent := if isDownloaded then Some(100.0) else None,
       checkedAt := Some(checkedAt), message := None, errorContext := None, canRetry := isDownloaded)
  }

  function OnNoUpdate(s: UpdateState, checkedAt: string): UpdateState {
    if s.downloadedVersion.Some? then
      s.(status := Downloaded, availableVersion := s.downloadedVersion, downloadPercent := Some(100.0),
         checkedAt := Some(checkedAt), message := None, errorContext := None, canRetry := true)
    else
      s.(status := UpToDate, availableVersion := None, downloadedVersion := None, downloadPercent := None,
         checkedAt := Some(checkedAt), message := None, errorContext := None, canRetry := false)
  }

  function OnDownloadStart(s: UpdateState): UpdateState {
    s.(status := Downloading, downloadPercent := Some(0.0), message := None, errorContext := None, canRetry := false)
  }

  function OnDownloadFailure(s: UpdateState, message: string): UpdateState {
    s.(status := if s.availableVersion.Some? then Available else Error, message := Some(message),
       downloadPercent := None, errorContext := Some(DownloadError), canRetry := s.availableVersion.Some?)
  }

  function OnDownloadProgress(s: UpdateState, percent: real): UpdateState {
    s.(status := Downloading, downloadPercent := Some(percent), message := None, errorContext := None,
       canRetry := false)
  }

  function OnDownloadComplete(s: UpdateState, version: string): UpdateState {
    s.(status := Downloaded, availableVersion := Some(version), downloadedVersion := Some(version),
       downloadPercent := Some(100.0), message := None, errorContext := None, canRetry := true)
  }

  function OnInstallFailure(s: UpdateState, message: string): UpdateState {
    s.(status := Downloaded, message := Some(message), errorContext := Some(InstallError), canRetry := true)
  }

  /** Int(percent / 10), of a percentage that is not negative. */
  function Bucket(percent: real): int { (percent / 10.0).Floor }

  predicate ShouldBroadcastProgress(s: UpdateState, nextPercent: real) {
    s.status != Downloading || s.downloadPercent.None?
    || Bucket(s.downloadPercent.value) != Bucket(nextPercent) || nextPercent >= 100.0
  }

  predicate IsInstallable(s: UpdateState) {
    s.downloadedVersion.Some?
    && (s.status == Downloaded
        || (s.status == Error && (s.errorContext.None? || s.errorContext == Some(InstallError))))
  }

  // ------------------------------------------------------------------ what is shown

  /** The fields agree with each other: a percentage exactly when something is downloading or downloaded,
      a message exactly with the action it is about, a retry exactly where one can be offered. */
  predicate Consistent(s: UpdateState) {
    && (s.enabled <==> s.status != Disabled)
    && (s.enabled <==> s.disabledReason.None?)
    && (s.downloadedVersion.Some? ==>
          s.downloadedVersion == s.availableVersion && (s.status == Downloaded || s.status == Checking)
          && s.downloadPercent == Some(100.0))
    && (s.status == Downloaded ==> s.downloadedVersion.Some?)
    && (s.status == Available || s.status == Downloading ==> s.availableVersion.Some?)
    && (s.status == UpToDate || s.status == Idle || s.status == Disabled ==> s.availableVersion.None?)
    && (s.downloadPercent.Some? <==> s.status == Downloading || s.downloadedVersion.Some?)
    && (s.downloadPercent.Some? ==> 0.0 <= s.downloadPercent.value <= 100.0)
    && (s.message.Some? <==> s.errorContext.Some?)
    && (s.status == Error <==> s.errorContext == Some(CheckError))
    && (s.errorContext == Some(DownloadError) ==> s.status == Available)
    && (s.errorContext == Some(InstallError) ==> s.status == Downloaded)
    && (s.canRetry <==> s.status == Downloaded || s.status == Error || s.errorContext == Some(DownloadError))
  }

  /** Nothing but a downloaded, unbroken update can be installed. */
  lemma InstallableIff(s: UpdateState)
    requires Consistent(s)
    ensures IsInstallable(s) <==> s.status == Downloaded
  {
  }

  /** A finished download outlives a check that fails, finds nothing or finds it again, all three to the
      same state; another version offered is the one thing that drops it. */
  lemma DownloadOutlivesChecks(s: UpdateState, began: string, ended: string, message: string, offered: string)
    requires Consistent(s) && s.downloadedVersion.Some?
    ensures var c := OnCheckStart(s, began);
            && OnCheckFailure(c, message, ended) == OnNoUpdate(c, ended)
            && OnNoUpdate(c, ended) == OnUpdateAvailable(c, s.downloadedVersion.value, ended)
            && OnNoUpdate(c, ended) == OnDownloadComplete(c, s.downloadedVersion.value).(checkedAt := Some(ended))
            && (IsInstallable(OnUpdateAvailable(c, offered, ended)) <==> Some(offered) == s.downloadedVersion)
  {
  }

  /** A failed download leaves what was offered, ready to be tried again. */
  lemma FailedDownloadIsOfferedAgain(s: UpdateState, percent: real, message: string)
    requires Consistent(s) && s.status == Available
    ensures var f := OnDownloadFailure(OnBytes(OnDownloadStart(s), percent).0, message);
            && Consistent(f) && f.status == Available && f.canRetry
            && OnDownloadStart(f) == OnDownloadStart(s)
  {
  }

  // ------------------------------------------------------------------ download progress

  /** What one didWriteData does to the state, and whether it is pushed to the page. */
  function OnBytes(s: UpdateState, percent: real): (UpdateState, bool) {
    if ShouldBroadcastProgress(s, percent) then (OnDownloadProgress(s, percent), true)
    else (s.(downloadPercent := Some(percent)), false)
  }

  /** min(100, written / expected * 100). */
  function Percent(written: nat, expected: nat): real
    requires expected > 0
  {
    var p := (written as real) / (expected as real) * 100.0;
    if p > 100.0 then 100.0 else p
  }

  lemma PercentGrows(w1: nat, w2: nat, expected: nat)
    requires expected > 0 && w1 <= w2
    ensures 0.0 <= Percent(w1, expected) <= Percent(w2, expected) <= 100.0
  {
    var e := expected as real;
    assert (w1 as real) / e <= (w2 as real) / e;
    assert 0.0 <= (w1 as real) / e;
  }

  /** The percentage is the share of the image that is here, and 100 exactly once all of it is; a server that sends
      more than it announced does not raise it. */
  lemma PercentIs(written: nat, expected: nat)
    requires expected > 0
    ensures Percent(written, expected) == 100.0 <==> written >= expected
    ensures written < expected ==>
              Percent(written, expected) * expected as real == 100.0 * written as real
  {
    var w, e := written as real, expected as real;
    assert w / e * e == w;
    if written < expected {
      assert w / e < 1.0;
    } else {
      assert w / e >= 1.0;
    }
  }

  predicate Crosses(a: real, b: real, k: int) { a < 10.0 * k as real <= b || b < 10.0 * k as real <= a }

  lemma BelowIff(a: real, k: int)
    ensures Bucket(a) < k <==> a < 10.0 * k as real
  {
    var tenth := a / 10.0;
    assert a == 10.0 * tenth;
    if tenth.Floor < k {
      assert tenth.Floor as real + 1.0 <= k as real;
    } else {
      assert k as real <= tenth.Floor as real;
    }
  }

  lemma StepIff(a: real, b: real)
    ensures Bucket(a) != Bucket(b) <==> exists k :: Crosses(a, b, k)
  {
    var m := if Bucket(a) < Bucket(b) then Bucket(b) else Bucket(a);
    BelowIff(a, m);
    BelowIff(b, m);
    if Bucket(a) != Bucket(b) {
      assert Crosses(a, b, m);
    } else if k :| Crosses(a, b, k) {
      BelowIff(a, k);
      BelowIff(b, k);
    }
  }

  /** Bytes are pushed exactly when they cross a multiple of ten percent, either way, or end the download; the
      percentage is kept in any case. */
  lemma PushesIff(s: UpdateState, percent: real)
    requires s.status == Downloading && s.downloadPercent.Some?
    ensures var (n, pushed) := OnBytes(s, percent);
            && n.status == Downloading && n.downloadPercent == Some(percent)
            && (pushed <==> percent >= 100.0 || exists k :: Crosses(s.downloadPercent.value, percent, k))
  {
    hide Bucket, Crosses;
    StepIff(s.downloadPercent.value, percent);
  }

  /** The percentages of `written` pushed to the page below 100%, from state s on. */
  function Pushed(s: UpdateState, written: seq<nat>, expected: nat): seq<real>
    requires expected > 0
    decreases |written|
  {
    if written == [] then []
    else
      var p := Percent(written[0], expected);
      var (n, pushed) := OnBytes(s, p);
      (if pushed && p < 100.0 then [p] else []) + Pushed(n, written[1..], expected)
  }

  function AfterBytes(s: UpdateState, written: seq<nat>, expected: nat): UpdateState
    requires expected > 0
    decreases |written|
  {
    if written == [] then s else AfterBytes(OnBytes(s, Percent(written[0], expected)).0, written[1..], expected)
  }

  predicate NonDecreasing(written: seq<nat>) {
    forall i, j :: 0 <= i < j < |written| ==> written[i] <= written[j]
  }

  /** The last percentage the page was given: `shown` at first, then each push. */
  function LastPushed(s: UpdateState, shown: real, written: seq<nat>, expected: nat): real
    requires expected > 0
    decreases |written|
  {
    if written == [] then shown
    else
      var p := Percent(written[0], expected);
      var (n, pushed) := OnBytes(s, p);
      LastPushed(n, if pushed then p else shown, written[1..], expected)
  }

  lemma {:induction false} PushedBuckets(s: UpdateState, shown: real, written: seq<nat>, expected: nat)
    requires expected > 0 && NonDecreasing(written)
    requires s.status == Downloading && s.downloadPercent.Some? && 0.0 <= s.downloadPercent.value <= 100.0
    requires written != [] ==> s.downloadPercent.value <= Percent(written[0], expected)
    requires Bucket(shown) == Bucket(s.downloadPercent.value)
    ensures var n := AfterBytes(s, written, expected);
            && n.status == Downloading && n.downloadPercent.Some? && n.downloadPercent.value <= 100.0
            && Bucket(LastPushed(s, shown, written, expected)) == Bucket(n.downloadPercent.value)
            && |Pushed(s, written, expected)|
                 <= 9 - Bucket(s.downloadPercent.value) + (if s.downloadPercent.value < 100.0 then 0 else 1)
    decreases |written|
  {
    if written != [] {
      var p := Percent(written[0], expected);
      PercentGrows(written[0], written[0], expected);
      BucketGrows(s.downloadPercent.value, p);
      if |written| > 1 { PercentGrows(written[0], written[1], expected); }
      PushedBuckets(OnBytes(s, p).0, if OnBytes(s, p).1 then p else shown, written[1..], expected);
    } else {
      BucketGrows(0.0, s.downloadPercent.value);
    }
  }

  lemma BucketGrows(a: real, b: real)
    requires 0.0 <= a <= b <= 100.0
    ensures 0 <= Bucket(a) <= Bucket(b) <= 10
    ensures b < 100.0 ==> Bucket(b) <= 9
    ensures b == 100.0 ==> Bucket(b) == 10
  {
    assert a / 10.0 <= b / 10.0;
  }

  /** A later step than `from`, below 100%. */
  predicate StepAfter(from: int, percent: real) { percent < 100.0 && from < Bucket(percent) }

  /** Each push is a percentage of the download in a later step, and they come in turn. */
  ghost predicate OnlySteps(pushes: seq<real>, from: int, written: seq<nat>, expected: nat)
    requires expected > 0
  {
    && (forall p <- pushes :: StepAfter(from, p) && exists w <- written :: p == Percent(w, expected))
    && (forall i, j :: 0 <= i < j < |pushes| ==> Bucket(pushes[i]) < Bucket(pushes[j]))
  }

  /** Each later step that the download comes into is pushed. */
  ghost predicate EveryStep(pushes: seq<real>, from: int, written: seq<nat>, expected: nat)
    requires expected > 0
  {
    forall w <- written :: StepAfter(from, Percent(w, expected)) ==>
      exists p <- pushes :: Bucket(p) == Bucket(Percent(w, expected))
  }

  /** Below 100% each ten-percent step that the bytes come into is pushed once, in turn, with a percentage the
      download had in it, and nothing else is; the page shows the last push, and 100% once it is reached. */
  lemma {:induction false} EachStepIsPushedOnce(s: UpdateState, shown: real, written: seq<nat>, expected: nat)
    requires expected > 0 && NonDecreasing(written)
    requires s.status == Downloading && s.downloadPercent.Some? && 0.0 <= s.downloadPercent.value <= 100.0
    requires written != [] ==> s.downloadPercent.value <= Percent(written[0], expected)
    ensures OnlySteps(Pushed(s, written, expected), Bucket(s.downloadPercent.value), written, expected)
    ensures EveryStep(Pushed(s, written, expected), Bucket(s.downloadPercent.value), written, expected)
    ensures LastPushed(s, shown, written, expected)
            == (if written != [] && Percent(written[|written| - 1], expected) == 100.0 then 100.0
                else if Pushed(s, written, expected) == [] then shown
                else Pushed(s, written, expected)[|Pushed(s, written, expected)| - 1])
    decreases |written|
  {
    hide Percent, Bucket, OnlySteps, EveryStep;
    if written == [] {
      NoSteps(Bucket(s.downloadPercent.value), expected);
    } else {
      var p, was, rest := Percent(written[0], expected), s.downloadPercent.value, written[1..];
      var (n, pushed) := OnBytes(s, p);
      FirstIsLowest(was, written, expected);
      EachStepIsPushedOnce(n, if pushed then p else shown, rest, expected);
      OnlyStepsGrow(Pushed(n, rest, expected), Bucket(was), written, expected, pushed && p < 100.0);
      EveryStepGrows(Pushed(n, rest, expected), Bucket(was), written, expected, pushed && p < 100.0);
    }
  }

  lemma NoSteps(from: int, expected: nat)
    requires expected > 0
    ensures OnlySteps([], from, [], expected) && EveryStep([], from, [], expected)
  {
  }

  lemma FirstIsLowest(was: real, written: seq<nat>, expected: nat)
    requires expected > 0 && NonDecreasing(written) && written != []
    requires 0.0 <= was <= Percent(written[0], expected)
    ensures var p := Percent(written[0], expected);
            && p <= Percent(written[|written| - 1], expected) <= 100.0 && Bucket(was) <= Bucket(p)
            && (|written| > 1 ==> p <= Percent(written[1], expected))
            && (forall w <- written[1..] :: p <= Percent(w, expected) && Bucket(p) <= Bucket(Percent(w, expected)))
  {
    hide Percent, Bucket;
    PercentGrows(written[0], written[|written| - 1], expected);
    BucketGrows(was, Percent(written[0], expected));
    if |written| > 1 { PercentGrows(written[0], written[1], expected); }
    StepsFrom(Percent(written[0], expected), written[1..], expected);
  }

  lemma OnlyStepsGrow(pushes: seq<real>, from: int, written: seq<nat>, expected: nat, pushed: bool)
    requires expected > 0 && written != []
    requires var p := Percent(written[0], expected);
             && from <= Bucket(p) && (pushed <==> p < 100.0 && Bucket(p) != from)
             && OnlySteps(pushes, Bucket(p), written[1..], expected)
    ensures OnlySteps((if pushed then [Percent(written[0], expected)] else []) + pushes, from, written, expected)
  {
    hide Percent, Bucket;
    var first := Percent(written[0], expected);
    var all := (if pushed then [first] else []) + pushes;
    forall p | p in all ensures StepAfter(from, p) && exists w <- written :: p == Percent(w, expected) {
      if pushed && p == first {
        assert written[0] in written;
      } else {
        assert p in pushes;
        var w :| w in written[1..] && p == Percent(w, expected);
        assert w in written;
      }
    }
    forall i, j | 0 <= i < j < |all| ensures Bucket(all[i]) < Bucket(all[j]) {
      if pushed {
        assert all[j] == pushes[j - 1] && pushes[j - 1] in pushes;
        assert i > 0 ==> all[i] == pushes[i - 1];
      }
    }
  }

  lemma EveryStepGrows(pushes: seq<real>, from: int, written: seq<nat>, expected: nat, pushed: bool)
    requires expected > 0 && written != []
    requires var p := Percent(written[0], expected);
             && from <= Bucket(p) && (pushed <==> p < 100.0 && Bucket(p) != from)
             && EveryStep(pushes, Bucket(p), written[1..], expected)
             && (forall w <- written[1..] :: p <= Percent(w, expected) && Bucket(p) <= Bucket(Percent(w, expected)))
    ensures EveryStep((if pushed then [Percent(written[0], expected)] else []) + pushes, from, written, expected)
  {
    hide Percent, Bucket;
    var all := (if pushed then [Percent(written[0], expected)] else []) + pushes;
    forall w | w in written && StepAfter(from, Percent(w, expected))
      ensures exists p <- all :: Bucket(p) == Bucket(Percent(w, expected))
    {
      if Bucket(Percent(w, expected)) == Bucket(Percent(written[0], expected)) {
        assert w == written[0] || w in written[1..];
        assert Percent(written[0], expected) in all;
      } else {
        assert w in written[1..];
        var p :| p in pushes && Bucket(p) == Bucket(Percent(w, expected));
        assert p in all;
      }
    }
  }

  /** No percentage is in an earlier step than the first. */
  lemma StepsFrom(p: real, written: seq<nat>, expected: nat)
    requires expected > 0 && NonDecreasing(written) && 0.0 <= p <= 100.0
    requires written != [] ==> p <= Percent(written[0], expected)
    ensures forall w <- written :: p <= Percent(w, expected) && Bucket(p) <= Bucket(Percent(w, expected))
  {
    hide Percent, Bucket;
    forall w | w in written ensures p <= Percent(w, expected) && Bucket(p) <= Bucket(Percent(w, expected)) {
      PercentGrows(written[0], w, expected);
      BucketGrows(p, Percent(w, expected));
    }
  }

  /** One download, however its bytes arrive: at most 9 pushes below 100%, and what the page last saw is
      always in the 10% step the download is in. */
  lemma DownloadPushesAtMostNine(s: UpdateState, written: seq<nat>, expected: nat)
    requires expected > 0 && NonDecreasing(written)
    ensures var start := OnDownloadStart(s);
            && |Pushed(start, written, expected)| <= 9
            && AfterBytes(start, written, expected).downloadPercent.Some?
            && Bucket(LastPushed(start, 0.0, written, expected))
               == Bucket(AfterBytes(start, written, expected).downloadPercent.value)
  {
    if written != [] { PercentGrows(0, written[0], expected); }
    PushedBuckets(OnDownloadStart(s), 0.0, written, expected);
  }
}
