/** What the updater of desktop/AppUpdater.swift shows and starts, and what it rests on: every check, download and
    install by what the servers, the disk and the new app's checks have answered. */
module UpdaterAnswers {
  import opened Options
  import opened UpdateMachine
  import opened UpdaterMachine
  import opened UpdaterRuns
  import Version

  // ------------------------------------------------------------------ what a check shows

  /** The release page redirects to a version newer than this app. */
  predicate NamesNewer(current: string, probe: Probe, version: string) {
    && probe.Answered? && 300 <= probe.status < 400 && probe.location == Tag(version)
    && Version.Compare(version, "0.0.0").Some? && Version.Compare(version, "0.0.0").value >= 0
    && Version.Compare(version, current).Some? && Version.Compare(version, current).value > 0
  }

  predicate NoRedirect(probe: Probe) {
    probe.Answered? && (probe.status < 300 || probe.status > 399 || probe.location == NoHeader)
  }

  /** A server said that there is nothing to update to: no release page yet, a redirect that names no newer
      version, or a newer one whose image for this Mac is not up. */
  ghost predicate SaysNothingNewer(current: string, probe: Probe, asset: Asset) {
    || (NoRedirect(probe) && (probe.status == 200 || probe.status == 404))
    || (probe.Answered? && !NoRedirect(probe) && forall v :: !NamesNewer(current, probe, v))
    || (asset == Code(404) && exists v :: NamesNewer(current, probe, v))
  }

  /** No server said anything: the probe failed or answered oddly, or, for a newer version, the asset's did. */
  ghost predicate SaysNothing(current: string, probe: Probe, asset: Asset) {
    || probe.ProbeFailed?
    || (NoRedirect(probe) && probe.status != 200 && probe.status != 404)
    || ((asset.AssetFailed? || (asset.code != 200 && asset.code != 404)) && exists v :: NamesNewer(current, probe, v))
  }

  /** A release is offered exactly when it is newer and its image is up; a check finds nothing exactly when a
      server says so, and fails exactly when none says anything. */
  lemma LatestIff(current: string, probe: Probe, asset: Asset)
    ensures var r := ResolveLatest(current, probe, asset);
            && (forall v :: r == Offer(v) <==> NamesNewer(current, probe, v) && asset == Code(200))
            && (r == NoUpdate <==> SaysNothingNewer(current, probe, asset))
            && (r.Failure? <==> SaysNothing(current, probe, asset))
            && (probe.ProbeFailed? ==> r == Failure(probe.message))
            && (r.Failure? && !probe.ProbeFailed? && asset.AssetFailed? && !NoRedirect(probe) ==>
                  r == Failure(asset.message))
  {
    hide Version.Compare;
    if probe.Answered? && probe.location.Tag? {
      var v := probe.location.version;
      assert NamesNewer(current, probe, v) <==> 300 <= probe.status < 400 && Offerable(v, current);
    }
  }

  /** A check ends with its reservation free and its time shown. With nothing downloaded it shows "up to date"
      exactly when a server said so, an error to retry exactly when none answered, and an offer exactly for a newer
      release; a finished download stays up unless another version is offered. */
  lemma CheckShowsIff(u: Updater, probe: Probe, asset: Asset, now: string)
    requires Inv(u) && u.checking
    ensures var current := u.state.currentVersion;
            var b := Step(u, CheckDone(probe, asset, now));
            && b.active.None? && !b.checking && b.state.checkedAt == Some(now)
            && (b.state.status == UpToDate <==>
                  u.state.downloadedVersion.None? && SaysNothingNewer(current, probe, asset))
            && (b.state.status == Error <==> u.state.downloadedVersion.None? && SaysNothing(current, probe, asset))
            && (b.state.status == Error ==>
                  b.state.message.Some? && b.state.errorContext == Some(CheckError) && b.state.canRetry
                  && (probe.ProbeFailed? ==> b.state.message == Some(probe.message)))
            && (forall v :: b.state.status == Available && b.state.availableVersion == Some(v) <==>
                  NamesNewer(current, probe, v) && asset == Code(200) && u.state.downloadedVersion != Some(v))
            && (b.state.status == Downloaded ==>
                  b.state.downloadedVersion == u.state.downloadedVersion == b.state.availableVersion)
            && (b.state.status in {UpToDate, Error, Available, Downloaded})
  {
    hide SaysNothingNewer, SaysNothing, NamesNewer, ResolveLatest, CacheSound, Offerable, Verified, TasksFit,
         InstallFits, Handed, NoRedirect;
    LatestIff(u.state.currentVersion, probe, asset);
  }

  /** What the page shows of the last check. */
  predicate ShowsSame(a: UpdateState, b: UpdateState) {
    a.status == b.status && a.checkedAt == b.checkedAt && a.message == b.message
  }

  /** The i-th event ended a check that found nothing newer, or got no answer, at the time shown. */
  ghost predicate CheckedAt(s: UpdateState, current: string, events: seq<Event>, i: int) {
    && 0 <= i < |events| && events[i].CheckDone? && s.checkedAt == Some(events[i].now)
    && (s.status == UpToDate ==> SaysNothingNewer(current, events[i].probe, events[i].asset))
    && (s.status == Error ==> SaysNothing(current, events[i].probe, events[i].asset)
                              && (events[i].probe.ProbeFailed? ==> s.message == Some(events[i].probe.message)))
  }

  /** The state is as it was, or shows neither "up to date" nor an error. */
  predicate StillShows(b: Updater, u: Updater) {
    ShowsSame(b.state, u.state) || (b.state.status != UpToDate && b.state.status != Error)
  }

  lemma DownloadStillShows(u: Updater, hasUrl: bool)
    ensures StillShows(StartDownload(u, hasUrl), u)
  {
    hide VerifiedStage;
  }

  lemma InstallStillShows(u: Updater, now: string)
    ensures StillShows(StartInstall(u, now), u)
  {
    hide VerifiedStage, IsInstallable;
  }

  lemma AskingStillShows(u: Updater, now: string, hasUrl: bool)
    ensures StillShows(StartCheck(u, now), u) && StillShows(StartDownload(u, hasUrl), u)
    ensures StillShows(StartInstall(u, now), u)
  {
    hide StartDownload, StartInstall;
    DownloadStillShows(u, hasUrl);
    InstallStillShows(u, now);
  }

  lemma FailureStillShows(u: Updater, message: string)
    requires EndingFits(u, u.pendingFailure)
    ensures StillShows(FailDownload(u, message), u)
  {
  }

  lemma DeliveryStillShows(u: Updater, percent: real, ok: bool, message: string)
    requires EndingFits(u, u.pendingFailure)
    ensures StillShows(BytesArrive(u, percent), u) && StillShows(FileArrives(u, ok), u)
    ensures StillShows(FailDownload(u, message), u)
  {
    hide ShouldBroadcastProgress, FailDownload;
    FailureStillShows(u, message);
    FailureStillShows(u, "The download answered an error.");
  }

  lemma WorkStillShows(u: Updater, copy: Option<AppCopy>, placed: bool, moved: bool, scriptOk: bool)
    requires u.preparing.Some? ==> EndingFits(u, u.preparing)
    requires u.installing.Some? ==> u.state.status == Downloaded
    ensures u.preparing.Some? ==> StillShows(PrepareEnds(u, copy), u)
    ensures u.installing.Some? ==> StillShows(InstallEnds(u, placed, moved, scriptOk), u)
  {
    hide Prepared, Verified;
  }

  /** Nothing but the end of a check shows "up to date" or an error. */
  lemma OnlyChecksShow(u: Updater, e: Event)
    requires Inv(u) && Possible(u, e) && !e.CheckDone?
    ensures StillShows(Step(u, e), u)
  {
    hide CacheSound, Offerable, Consistent, TasksFit, Handed, StartCheck, StartDownload, StartInstall, BytesArrive,
         FileArrives, FailDownload, PrepareEnds, InstallEnds;
    match e
    case CheckAsked(now) => AskingStillShows(u, now, true);
    case DownloadAsked(hasUrl) => AskingStillShows(u, "", hasUrl);
    case InstallAsked(now) => AskingStillShows(u, now, true);
    case Bytes(_, percent) => DeliveryStillShows(u, percent, true, "");
    case File(task, ok) => DeliveryStillShows(u.(tasks := u.tasks[task := Delivered]), 0.0, ok, "");
    case Completed(task, error) =>
      DeliveryStillShows(u.(tasks := u.tasks[task := Over]), 0.0, true, if error.Some? then error.value else "");
    case PrepareDone(copy) => WorkStillShows(u, copy, true, true, true);
    case InstallDone(placed, moved, scriptOk) => WorkStillShows(u, None, placed, moved, scriptOk);
  }

  lemma {:induction false} RunShows(u: Updater, events: seq<Event>)
    requires Inv(u) && After(u, events, true).Some?
    ensures var s := After(u, events, true).value.state;
            s.status == UpToDate || s.status == Error ==>
              ShowsSame(s, u.state) || exists i :: CheckedAt(s, u.state.currentVersion, events, i)
    decreases |events|
  {
    hide Inv, Possible, InOrder, Step, SaysNothing, SaysNothingNewer;
    if events != [] {
      var e, b, s := events[0], Step(u, events[0]), After(u, events, true).value.state;
      StepInv(u, e);
      RunShows(b, events[1..]);
      if s.status == UpToDate || s.status == Error {
        if i :| CheckedAt(s, b.state.currentVersion, events[1..], i) {
          assert CheckedAt(s, u.state.currentVersion, events, i + 1);
        } else if e.CheckDone? {
          ChecksOnly(u, e);
          CheckShowsIff(u, e.probe, e.asset, e.now);
          assert CheckedAt(s, u.state.currentVersion, events, 0);
        } else {
          OnlyChecksShow(u, e);
        }
      }
    }
  }

  lemma ChecksOnly(u: Updater, e: Event)
    requires Possible(u, e) && e.CheckDone?
    ensures u.checking
  {
  }

  /** In every reachable state "up to date" is what a server said, and an error what a check met, at the time shown. */
  lemma UpToDateWasSaid(version: string, cache: Cache, reason: Option<string>, events: seq<Event>)
    requires CacheSound(cache, version)
    requires After(Configure(Fresh(version, cache), reason), events, true).Some?
    ensures var s := After(Configure(Fresh(version, cache), reason), events, true).value.state;
            s.status == UpToDate || s.status == Error ==> exists i :: CheckedAt(s, version, events, i)
  {
    hide After, CheckedAt;
    ConfiguredInv(version, cache, reason);
    RunShows(Configure(Fresh(version, cache), reason), events);
  }

  // ------------------------------------------------------------------ what a download shows

  /** The user's download is accepted. */
  predicate Accepts(u: Updater, e: Event) {
    e.DownloadAsked? && u.configured && u.state.status == Available && u.active.None?
  }

  /** The stage of a version holds a marked copy. */
  predicate Staged(cache: Cache, version: string) {
    version in cache && cache[version].marker && cache[version].app.Some?
  }

  /** A copy of this app's own developer, bundle and wanted version was taken out of the download. */
  predicate Passes(copy: Option<AppCopy>, version: string) {
    copy.Some? && copy.value.sameBundle && copy.value.signedBySame && copy.value.version == version
  }

  /** The offered version is ready: it was staged before, or its copy passes. */
  predicate Ready(u: Updater, e: Event)
    requires Inv(u) && Possible(u, e)
  {
    || (Accepts(u, e) && Staged(u.cache, u.state.availableVersion.value))
    || (e.PrepareDone? && Passes(e.copy, u.preparing.value.version))
  }

  /** The download failed: nowhere to load from, no file, no connection, or a copy that does not pass. */
  predicate Breaks(u: Updater, e: Event)
    requires Inv(u) && Possible(u, e)
  {
    || (Accepts(u, e) && !Staged(u.cache, u.state.availableVersion.value) && !e.hasUrl)
    || (e.File? && !e.ok) || (e.Completed? && e.error.Some?)
    || (e.PrepareDone? && !Passes(e.copy, u.preparing.value.version))
  }

  /** The state shown once the download of `version` is done. */
  predicate ShowsDone(b: Updater, version: string) {
    && b.state.status == Downloaded
    && b.state.downloadedVersion == Some(version) && b.state.availableVersion == Some(version)
    && b.state.message.None? && b.state.canRetry && b.state.downloadPercent == Some(100.0)
    && b.active.None? && Staged(b.cache, version)
  }

  /** The state shown once it has failed: the version is offered again, with what went wrong. */
  predicate ShowsFailure(b: Updater, version: string) {
    && b.state.status == Available && b.state.availableVersion == Some(version) && b.state.downloadedVersion.None?
    && b.state.message.Some? && b.state.errorContext == Some(DownloadError) && b.state.canRetry
    && b.state.downloadPercent.None? && b.active.None?
  }

  predicate ShowsRunning(b: Updater, version: string) {
    b.state.status == Downloading && b.state.availableVersion == Some(version) && b.active == Some(Download)
  }

  lemma AskShows(u: Updater, e: Event)
    requires Inv(u) && Accepts(u, e)
    ensures var v, b := u.state.availableVersion.value, Step(u, e);
            && (Ready(u, e) ==> ShowsDone(b, v) && b.tasks == u.tasks)
            && (Breaks(u, e) ==> ShowsFailure(b, v) && b.tasks == u.tasks)
            && (!Ready(u, e) && !Breaks(u, e) ==>
                  ShowsRunning(b, v) && b.state.downloadPercent == Some(0.0) && b.tasks == u.tasks + [Running])
  {
    hide CacheSound, Offerable, TasksFit, InstallFits, Handed;
  }

  lemma FileShows(u: Updater, e: Event)
    requires Inv(u) && Possible(u, e) && InOrder(u, e) && (e.File? || e.Completed?) && u.active == Some(Download)
    ensures var v, b := u.state.availableVersion.value, Step(u, e);
            && (Breaks(u, e) ==> ShowsFailure(b, v) && (e.Completed? ==> b.state.message == e.error))
            && (!Breaks(u, e) ==> ShowsRunning(b, v))
            && (e.File? && e.ok ==> b.preparing.Some? && b.preparing.value.version == v)
  {
    hide CacheSound, Offerable, Handed, Staged;
  }

  lemma CopyShows(u: Updater, e: Event)
    requires Inv(u) && Possible(u, e) && e.PrepareDone?
    ensures u.active == Some(Download)
    ensures var v, b := u.state.availableVersion.value, Step(u, e);
            && (Ready(u, e) ==> ShowsDone(b, v) && b.cache == u.cache[v := Stage(e.copy, true)])
            && (Breaks(u, e) ==> ShowsFailure(b, v) && v in b.cache && b.cache[v].app.None?)
  {
    hide CacheSound, Offerable, Handed, TasksFit, InstallFits;
  }

  /** A download the user asks for ends "downloaded" exactly when the version was staged before or the copy taken
      out of it passes, and then its stage holds it; it ends offered again, with what went wrong, exactly when a
      step of it failed; until then it is shown running. */
  lemma DownloadShowsIff(u: Updater, e: Event)
    requires Inv(u) && Possible(u, e) && InOrder(u, e) && (Accepts(u, e) || u.active == Some(Download))
    ensures u.state.availableVersion.Some?
    ensures var v, b := u.state.availableVersion.value, Step(u, e);
            && (Ready(u, e) <==> ShowsDone(b, v))
            && (Breaks(u, e) <==> ShowsFailure(b, v))
            && (!Ready(u, e) && !Breaks(u, e) <==> ShowsRunning(b, v))
  {
    hide Inv, Step, Ready, Breaks, Staged, ShowsDone, ShowsFailure, ShowsRunning;
    Exclusive(u, e);
    if Accepts(u, e) {
      AskShows(u, e);
    } else if e.File? || e.Completed? {
      FileShows(u, e);
    } else if e.PrepareDone? {
      CopyShows(u, e);
    } else {
      OthersWait(u, e);
    }
  }

  lemma Exclusive(u: Updater, e: Event)
    requires Inv(u) && Possible(u, e) && (Accepts(u, e) || u.active == Some(Download))
    ensures u.state.availableVersion.Some? && !(Ready(u, e) && Breaks(u, e))
    ensures forall b, v :: !(ShowsDone(b, v) && ShowsFailure(b, v)) && !(ShowsDone(b, v) && ShowsRunning(b, v))
                           && !(ShowsFailure(b, v) && ShowsRunning(b, v))
    ensures e.PrepareDone? ==> Ready(u, e) || Breaks(u, e)
    ensures (e.File? || e.Completed?) && !Accepts(u, e) ==> !Ready(u, e)
  {
    hide CacheSound, Offerable, Handed, InstallFits, TasksFit, Passes, Staged;
  }

  lemma OthersWait(u: Updater, e: Event)
    requires Inv(u) && Possible(u, e) && InOrder(u, e) && u.active == Some(Download)
    requires !e.File? && !e.Completed? && !e.PrepareDone?
    ensures !Ready(u, e) && !Breaks(u, e) && ShowsRunning(Step(u, e), u.state.availableVersion.value)
    ensures e.Bytes? ==> Step(u, e).state.downloadPercent == Some(e.percent)
  {
    hide CacheSound, Offerable, Handed, InstallFits, TasksFit, ShouldBroadcastProgress, IsInstallable, Verified;
  }

  // ------------------------------------------------------------------ what an install does

  /** A running check shows when it began and none of what went wrong before; what is downloaded stays ready. */
  predicate ShowsChecking(s: UpdateState, was: UpdateState, now: string) {
    && s.status == Checking && s.checkedAt == Some(now) && s.message.None? && s.errorContext.None? && !s.canRetry
    && s.availableVersion == was.availableVersion && s.downloadedVersion == was.downloadedVersion
  }

  /** A check, a download or an install is refused while another action has the reservation, by a copy whose updates
      are off, and by an app that quits; otherwise a check always starts, a download what is offered, and an install
      what is downloaded, where it is still there. */
  lemma StartsIff(u: Updater, now: string, hasUrl: bool)
    requires Inv(u)
    ensures var free := u.configured && u.active.None?;
            var c, d, i := Step(u, CheckAsked(now)), Step(u, DownloadAsked(hasUrl)), Step(u, InstallAsked(now));
            && (c.checking && !u.checking <==> free)
            && (c.checking && !u.checking ==> c.active == Some(Check) && ShowsChecking(c.state, u.state, now))
            && (!free ==> c == u && d == u && i == u)
            && (d != u <==> free && u.state.status == Available)
            && (i.installing.Some? && u.installing.None? <==>
                  free && u.state.status == Downloaded && Staged(u.cache, u.state.downloadedVersion.value))
            && (i.installing.Some? && u.installing.None? ==>
                  i.active == Some(Install) && i.installing == u.state.downloadedVersion && i.state == u.state)
            && (i != u && i.installing.None? <==>
                  free && u.state.status == Downloaded && !Staged(u.cache, u.state.downloadedVersion.value))
            && (i != u && i.installing.None? ==> ShowsFailure(i, u.state.downloadedVersion.value))
  {
    hide CacheSound, Offerable, Handed, TasksFit;
    CheckStartsIff(u, now);
  }

  lemma CheckStartsIff(u: Updater, now: string)
    requires Inv(u)
    ensures var c := Step(u, CheckAsked(now));
            if u.configured && u.active.None?
            then c.checking && !u.checking && c.active == Some(Check) && ShowsChecking(c.state, u.state, now)
            else c == u
  {
    hide CacheSound, Offerable, Handed, TasksFit;
  }

  /** The staged copy was handed over; it is out of the stage where it was moved. */
  predicate HandsOver(u: Updater, b: Updater, v: string, moved: bool) {
    && Staged(u.cache, v) && v in b.cache && b.active == Some(Install)
    && b.swaps == [u.cache[v].app.value] && b.cache[v] == Stage(if moved then None else u.cache[v].app, true)
  }

  /** Nothing was; the download stays, to be tried again, with what went wrong. */
  predicate KeepsDownload(u: Updater, b: Updater, v: string) {
    && b.swaps == [] && b.active.None? && b.cache == u.cache && Staged(b.cache, v)
    && b.state.status == Downloaded && b.state.downloadedVersion == Some(v)
    && b.state.message.Some? && b.state.errorContext == Some(InstallError) && b.state.canRetry
  }

  /** The copy that is handed over is the one staged, and only where it was put beside the app and the script
      started. */
  lemma InstallEndsIff(u: Updater, placed: bool, moved: bool, scriptOk: bool)
    requires Inv(u) && u.installing.Some?
    ensures var v, b := u.installing.value, Step(u, InstallDone(placed, moved, scriptOk));
            && b.installing.None?
            && (b.quitting <==> placed && scriptOk)
            && if b.quitting then HandsOver(u, b, v, moved) else KeepsDownload(u, b, v)
  {
    hide CacheSound, Offerable, Handed, TasksFit, Verified;
  }

  // ------------------------------------------------------------------ what is downloaded is there

  /** Until the app quits for it, a downloaded version is in its stage. */
  predicate Kept(u: Updater) {
    u.state.downloadedVersion.Some? && !u.quitting ==> Staged(u.cache, u.state.downloadedVersion.value)
  }

  lemma StepKept(u: Updater, e: Event)
    requires Inv(u) && Kept(u) && Possible(u, e) && InOrder(u, e)
    ensures Kept(Step(u, e))
  {
    if Accepts(u, e) || u.active == Some(Download) {
      hide Step, Ready, Breaks, Staged;
      DownloadShowsIff(u, e);
      hide Inv;
    } else if e.InstallDone? {
      InstallEndsIff(u, e.placed, e.moved, e.scriptOk);
      hide Step, Inv, Staged;
    } else {
      hide CacheSound, Offerable, Handed, TasksFit, Staged, VerifiedStage;
    }
  }

  lemma {:induction false} RunKept(u: Updater, events: seq<Event>)
    requires Inv(u) && Kept(u) && After(u, events, true).Some?
    ensures Kept(After(u, events, true).value)
    decreases |events|
  {
    hide Inv, Kept, Possible, InOrder, Step;
    if events != [] {
      StepInv(u, events[0]);
      StepKept(u, events[0]);
      RunKept(Step(u, events[0]), events[1..]);
    }
  }

  /** In every reachable state of an app that has not quit, what is shown as downloaded is staged, so an install
      finds it unless something else emptied the cache. */
  lemma DownloadedIsStaged(version: string, cache: Cache, reason: Option<string>, events: seq<Event>)
    requires CacheSound(cache, version)
    requires After(Configure(Fresh(version, cache), reason), events, true).Some?
    ensures Kept(After(Configure(Fresh(version, cache), reason), events, true).value)
  {
    hide After, CacheSound;
    ConfiguredInv(version, cache, reason);
    RunKept(Configure(Fresh(version, cache), reason), events);
  }
}
