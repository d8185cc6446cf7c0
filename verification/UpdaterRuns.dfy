/** What holds of the updater in every run. */
module UpdaterRuns {
  import opened Options
  import opened UpdateMachine
  import opened UpdaterMachine
  import Version

  // ------------------------------------------------------------------ each download ends once

  predicate InOrderOfAcceptance(completions: seq<nat>) {
    forall i :: 0 <= i < |completions| ==> completions[i] == i
  }

  /** A reservation is held by exactly one pending answer, and an accepted download's ending is in
      exactly one place until it has run. */
  predicate Reserved(u: Updater) {
    && (u.checking <==> u.active == Some(Check))
    && (u.installing.Some? || u.quitting <==> u.active == Some(Install))
    && !(u.installing.Some? && u.quitting)
    && InOrderOfAcceptance(u.completions)
    && u.downloadDone == u.pendingFailure
    && (u.active != Some(Download) ==>
          u.downloadDone.None? && u.preparing.None? && |u.completions| == u.accepted)
    && (u.active == Some(Download) ==>
          && (u.downloadDone.Some? <==> u.preparing.None?)
          && |u.completions| + 1 == u.accepted
          && (u.downloadDone.Some? ==> u.downloadDone.value.id == |u.completions|)
          && (u.preparing.Some? ==> u.preparing.value.id == |u.completions|))
  }

  lemma ChecksReserved(u: Updater, now: string, latest: Latest)
    requires Reserved(u)
    ensures Reserved(StartCheck(u, now))
    ensures u.checking ==> Reserved(CheckAnswers(u, latest, now))
  {
  }

  lemma DownloadReserved(u: Updater, hasUrl: bool)
    requires Reserved(u)
    ensures Reserved(StartDownload(u, hasUrl))
  {
    hide VerifiedStage;
  }

  lemma InstallReserved(u: Updater, now: string)
    requires Reserved(u)
    ensures Reserved(StartInstall(u, now))
  {
    hide VerifiedStage, IsInstallable;
  }

  lemma OwnActionsReserved(u: Updater, now: string, latest: Latest, hasUrl: bool)
    requires Reserved(u)
    ensures Reserved(StartCheck(u, now)) && Reserved(StartDownload(u, hasUrl)) && Reserved(StartInstall(u, now))
    ensures u.checking ==> Reserved(CheckAnswers(u, latest, now))
  {
    hide *;
    ChecksReserved(u, now, latest);
    DownloadReserved(u, hasUrl);
    InstallReserved(u, now);
  }

  lemma DeliveriesReserved(u: Updater, percent: real, ok: bool, message: string)
    requires Reserved(u)
    ensures Reserved(BytesArrive(u, percent)) && Reserved(FileArrives(u, ok)) && Reserved(FailDownload(u, message))
  {
    hide OnBytes;
  }

  lemma WorkReserved(u: Updater, copy: Option<AppCopy>, placed: bool, moved: bool, scriptOk: bool)
    requires Reserved(u)
    ensures u.preparing.Some? ==> Reserved(PrepareEnds(u, copy))
    ensures u.installing.Some? ==> Reserved(InstallEnds(u, placed, moved, scriptOk))
  {
    hide Prepared, Verified;
  }

  /** Whatever order URLSession delivers in, and whatever task an event is of. */
  lemma StepReserved(u: Updater, e: Event)
    requires Reserved(u) && Possible(u, e)
    ensures Reserved(Step(u, e))
  {
    hide StartCheck, CheckAnswers, StartDownload, BytesArrive, FileArrives, FailDownload, PrepareEnds,
         StartInstall, InstallEnds;
    match e
    case CheckAsked(now) => OwnActionsReserved(u, now, NoUpdate, true);
    case CheckDone(probe, asset, now) =>
      OwnActionsReserved(u, now, ResolveLatest(u.state.currentVersion, probe, asset), true);
    case DownloadAsked(hasUrl) => OwnActionsReserved(u, "", NoUpdate, hasUrl);
    case InstallAsked(now) => OwnActionsReserved(u, now, NoUpdate, true);
    case Bytes(_, percent) => DeliveriesReserved(u, percent, true, "");
    case File(task, ok) => DeliveriesReserved(u.(tasks := u.tasks[task := Delivered]), 0.0, ok, "");
    case Completed(task, error) =>
      DeliveriesReserved(u.(tasks := u.tasks[task := Over]), 0.0, true, if error.Some? then error.value else "");
    case PrepareDone(copy) => WorkReserved(u, copy, true, true, true);
    case InstallDone(placed, moved, scriptOk) => WorkReserved(u, None, placed, moved, scriptOk);
  }

  /** The state after `events`; None when one of them could not arrive. */
  function After(u: Updater, events: seq<Event>, inOrder: bool): Option<Updater>
    decreases |events|
  {
    if events == [] then Some(u)
    else if !Possible(u, events[0]) || (inOrder && !InOrder(u, events[0])) then None
    else After(Step(u, events[0]), events[1..], inOrder)
  }

  lemma {:induction false} RunReserved(u: Updater, events: seq<Event>, inOrder: bool)
    requires Reserved(u) && After(u, events, inOrder).Some?
    ensures Reserved(After(u, events, inOrder).value)
    decreases |events|
  {
    hide Step, Possible, InOrder;
    if events != [] {
      StepReserved(u, events[0]);
      RunReserved(Step(u, events[0]), events[1..], inOrder);
    }
  }

  /** Every accepted download calls its completion exactly once, in the order they were accepted: all
      but the one the reservation is held for have, and once it is free, all have. The one it is held for
      has its ending in exactly one place, with the task or with the preparation. */
  lemma EveryDownloadCompletesOnce(version: string, cache: Cache, reason: Option<string>, events: seq<Event>)
    requires After(Configure(Fresh(version, cache), reason), events, false).Some?
    ensures var u := After(Configure(Fresh(version, cache), reason), events, false).value;
            && u.completions == seq(|u.completions|, i => i)
            && |u.completions| == u.accepted - (if u.active == Some(Download) then 1 else 0)
            && (u.active == Some(Download) <==> u.downloadDone.Some? || u.preparing.Some?)
            && !(u.downloadDone.Some? && u.preparing.Some?)
  {
    RunReserved(Configure(Fresh(version, cache), reason), events, false);
  }

  // ------------------------------------------------------------------ the controller's invariant

  /** A version the feed can offer a copy that runs `current`. */
  predicate Offerable(version: string, current: string) {
    IsVersion(version) && Version.IsNewer(version, current)
  }

  /** A marked copy of a version that can be offered is a verified one. */
  predicate CacheSound(cache: Cache, current: string) {
    forall v :: v in cache && cache[v].marker && cache[v].app.Some? && Offerable(v, current) ==>
      Verified(cache[v].app.value, v)
  }

  predicate EndingFits(u: Updater, ending: Option<Ending>) {
    ending.Some? ==> u.state.availableVersion == Some(ending.value.version)
  }

  predicate Handed(app: AppCopy, current: string) {
    Verified(app, app.version) && Version.IsNewer(app.version, current)
  }

  predicate TasksFit(u: Updater) {
    && (forall t :: 0 <= t < |u.tasks| && u.tasks[t] == Running ==> u.downloadDone.Some? && t == |u.tasks| - 1)
    && (u.downloadDone.Some? ==> |u.tasks| > 0 && u.tasks[|u.tasks| - 1] == Running)
  }

  predicate InstallFits(u: Updater) {
    && (u.active == Some(Install) ==> u.state.status == Downloaded)
    && (u.installing.Some? ==>
          u.installing == u.state.downloadedVersion && VerifiedStage(u.cache, u.installing.value).Some?)
    && |u.swaps| == (if u.quitting then 1 else 0)
    && (u.quitting ==> u.state.downloadedVersion == Some(u.swaps[0].version))
  }

  predicate Inv(u: Updater) {
    && Reserved(u) && Consistent(u.state) && CacheSound(u.cache, u.state.currentVersion)
    && TasksFit(u) && InstallFits(u)
    && (u.state.status == Checking <==> u.active == Some(Check))
    && (u.state.status == Downloading <==> u.active == Some(Download))
    && (u.configured <==> u.state.enabled)
    && (u.active.Some? ==> u.configured)
    && (!u.configured ==> u.tasks == [])
    && (u.state.availableVersion.Some? ==> Offerable(u.state.availableVersion.value, u.state.currentVersion))
    && EndingFits(u, u.downloadDone) && EndingFits(u, u.preparing)
    && (forall i :: 0 <= i < |u.swaps| ==> Handed(u.swaps[i], u.state.currentVersion))
  }

  lemma ConfiguredInv(version: string, cache: Cache, reason: Option<string>)
    requires CacheSound(cache, version)
    ensures Inv(Configure(Fresh(version, cache), reason))
  {
  }

  lemma CheckInv(u: Updater, now: string, probe: Probe, asset: Asset)
    requires Inv(u)
    ensures Inv(StartCheck(u, now))
    ensures u.checking ==> Inv(CheckAnswers(u, ResolveLatest(u.state.currentVersion, probe, asset), now))
  {
    hide CacheSound, Version.IsNewer, IsVersion, Verified;
  }

  lemma DownloadInv(u: Updater, hasUrl: bool)
    requires Inv(u)
    ensures Inv(StartDownload(u, hasUrl))
  {
    hide CacheSound, Offerable, Verified, VerifiedStage;
  }

  lemma BytesInv(u: Updater, task: nat, percent: real)
    requires Inv(u) && task < |u.tasks| && u.tasks[task] == Running && 0.0 <= percent <= 100.0
    ensures Inv(BytesArrive(u, percent))
  {
    hide CacheSound, Offerable, Verified, VerifiedStage, Bucket;
  }

  lemma FileInv(u: Updater, task: nat, ok: bool)
    requires Inv(u) && task < |u.tasks| && u.tasks[task] == Running
    ensures Inv(FileArrives(u.(tasks := u.tasks[task := Delivered]), ok))
  {
    hide CacheSound, Offerable, Verified, VerifiedStage;
  }

  lemma CompletedInv(u: Updater, task: nat, error: Option<string>)
    requires Inv(u) && task < |u.tasks| && u.tasks[task] == if error.Some? then Running else Delivered
    ensures var b := u.(tasks := u.tasks[task := Over]);
            Inv(if error.Some? then FailDownload(b, error.value) else b)
  {
    hide CacheSound, Offerable, Verified, VerifiedStage;
  }

  lemma PrepareInv(u: Updater, copy: Option<AppCopy>)
    requires Inv(u) && u.preparing.Some?
    ensures Inv(PrepareEnds(u, copy))
  {
    hide Offerable, Verified;
  }

  lemma InstallInv(u: Updater, now: string)
    requires Inv(u)
    ensures Inv(StartInstall(u, now))
  {
    hide CacheSound, Offerable, Verified, StageOf;
  }

  lemma InstallEndsInv(u: Updater, placed: bool, moved: bool, scriptOk: bool)
    requires Inv(u) && u.installing.Some?
    ensures Inv(InstallEnds(u, placed, moved, scriptOk))
  {
    hide Version.IsNewer, IsVersion;
  }

  lemma StepInv(u: Updater, e: Event)
    requires Inv(u) && Possible(u, e) && InOrder(u, e)
    ensures Inv(Step(u, e))
  {
    hide Inv, StartCheck, CheckAnswers, StartDownload, BytesArrive, FileArrives, FailDownload, PrepareEnds,
         StartInstall, InstallEnds;
    match e
    case CheckAsked(now) => CheckInv(u, now, ProbeFailed(""), Code(0));
    case CheckDone(probe, asset, now) => CheckInv(u, now, probe, asset);
    case DownloadAsked(hasUrl) => DownloadInv(u, hasUrl);
    case Bytes(task, percent) => BytesInv(u, task, percent);
    case File(task, ok) => FileInv(u, task, ok);
    case Completed(task, error) => CompletedInv(u, task, error);
    case PrepareDone(copy) => PrepareInv(u, copy);
    case InstallAsked(now) => InstallInv(u, now);
    case InstallDone(placed, moved, scriptOk) => InstallEndsInv(u, placed, moved, scriptOk);
  }

  lemma {:induction false} RunInv(u: Updater, events: seq<Event>)
    requires Inv(u) && After(u, events, true).Some?
    ensures Inv(After(u, events, true).value)
    ensures After(u, events, true).value.state.currentVersion == u.state.currentVersion
    decreases |events|
  {
    hide Inv, Possible, InOrder, Step;
    if events != [] {
      StepInv(u, events[0]);
      RunInv(Step(u, events[0]), events[1..]);
    }
  }

  /** In every reachable state: the status says which action is reserved, a downloaded version is the one
      offered and complete, only it can be installed, nothing offered is not newer, and a reserved download
      has a running task or its preparation pending, so its reservation is still to be freed. */
  lemma ReachableStates(version: string, cache: Cache, reason: Option<string>, events: seq<Event>)
    requires CacheSound(cache, version)
    requires After(Configure(Fresh(version, cache), reason), events, true).Some?
    ensures var u := After(Configure(Fresh(version, cache), reason), events, true).value;
            && (u.state.status == Checking <==> u.active == Some(Check))
            && (u.state.status == Downloading <==> u.active == Some(Download))
            && Consistent(u.state)
            && (IsInstallable(u.state) <==> u.state.status == Downloaded)
            && (u.state.availableVersion.Some? ==> Version.IsNewer(u.state.availableVersion.value, version))
            && (u.active == Some(Download) ==>
                  u.preparing.Some? || (u.tasks != [] && u.tasks[|u.tasks| - 1] == Running && u.downloadDone.Some?))
            && (forall app <- u.swaps :: app.sameBundle && app.signedBySame && Version.IsNewer(app.version, version))
            && |u.swaps| <= 1
            && (u.swaps != [] ==> u.state.downloadedVersion == Some(u.swaps[0].version))
  {
    hide After, Consistent, Version.IsNewer;
    ConfiguredInv(version, cache, reason);
    RunInv(Configure(Fresh(version, cache), reason), events);
    InstallableIff(After(Configure(Fresh(version, cache), reason), events, true).value.state);
  }

  /** A copy whose updates are off stays as it is, whatever it is asked. */
  lemma {:induction false} DisabledNeverMoves(version: string, cache: Cache, why: string, events: seq<Event>)
    requires After(Configure(Fresh(version, cache), Some(why)), events, true).Some?
    ensures After(Configure(Fresh(version, cache), Some(why)), events, true).value
         == Configure(Fresh(version, cache), Some(why))
    decreases |events|
  {
    if events != [] {
      var u := Configure(Fresh(version, cache), Some(why));
      assert Step(u, events[0]) == u;
      DisabledNeverMoves(version, cache, why, events[1..]);
    }
  }

  // ------------------------------------------------------------------ what the claims rest on

  /** A byte count delivered outside its download puts "downloading" up with nothing reserved: the
      status can be trusted exactly because URLSession delivers none. */
  lemma StrayBytesBreakStatusIff(u: Updater, percent: real)
    requires Inv(u)
    ensures var b := BytesArrive(u, percent);
            (b.state.status == Downloading <==> b.active == Some(Download)) <==> u.active == Some(Download)
  {
  }

  /** A process that dies inside prepare, after the copy and before the check, leaves the cache sound
      exactly when the stage had no marker of an earlier copy, or the new copy is good anyway, or its version
      is offered no more: the marker is not removed before an unpack. */
  lemma CrashInPrepareSoundIff(cache: Cache, current: string, version: string, copy: Option<AppCopy>)
    requires CacheSound(cache, current)
    ensures CacheSound(Unpack(cache, version, copy), current)
            <==> || version !in cache || !cache[version].marker || copy.None? || Verified(copy.value, version)
                 || !Offerable(version, current)
  {
    hide Verified, Offerable;
    var crashed := Unpack(cache, version, copy);
    assert version in crashed;
  }

  /** Such a marker is left behind by every install that moved its stage. */
  lemma MovedStageKeepsItsMarker(u: Updater)
    requires Inv(u) && u.installing.Some?
    ensures var b := InstallEnds(u, true, true, true);
            b.swaps == [StageOf(u.cache, u.installing.value).app.value]
            && StageOf(b.cache, u.installing.value) == Stage(None, true)
  {
  }

  // ------------------------------------------------------------------ the run that updates

  /** A check that offers a newer version, its download, and its install. */
  function GoodRun(version: string, copy: AppCopy): seq<Event> {
    [CheckAsked("")] + ([CheckDone(Answered(302, Tag(version)), Code(200), "")] + ([DownloadAsked(true)]
    + ([File(0, true)] + ([Completed(0, None)] + ([PrepareDone(Some(copy))] + ([InstallAsked("")]
    + ([InstallDone(true, true, true)] + [])))))))
  }

  lemma Next(u: Updater, e: Event, rest: seq<Event>)
    requires Possible(u, e) && InOrder(u, e)
    ensures After(u, [e] + rest, true) == After(Step(u, e), rest, true)
  {
    assert ([e] + rest)[1..] == rest;
  }

  /** Nothing pending, nothing handed over yet. */
  predicate Quiet(u: Updater) { u.configured && !u.quitting && u.active.None? && u.swaps == [] }

  predicate Offered(u: Updater, version: string) {
    && Quiet(u) && u.state.status == Available && u.state.availableVersion == Some(version)
    && u.tasks == [] && u.accepted == 0 && u.completions == []
  }

  predicate Ready(u: Updater, version: string, copy: AppCopy) {
    && Quiet(u) && u.state.status == Downloaded && u.state.downloadedVersion == Some(version)
    && VerifiedStage(u.cache, version) == Some(copy) && u.completions == [0]
  }

  lemma GoodCheck(current: string, cache: Cache, version: string, rest: seq<Event>) returns (u: Updater)
    requires Offerable(version, current)
    ensures Offered(u, version) && u.cache == cache
    ensures After(Configure(Fresh(current, cache), None),
                  [CheckAsked("")] + ([CheckDone(Answered(302, Tag(version)), Code(200), "")] + rest), true)
         == After(u, rest, true)
  {
    hide After, Version.IsNewer, IsVersion;
    var e0, e1 := CheckAsked(""), CheckDone(Answered(302, Tag(version)), Code(200), "");
    var u0 := Configure(Fresh(current, cache), None);
    Next(u0, e0, [e1] + rest);
    Next(Step(u0, e0), e1, rest);
    u := Step(Step(u0, e0), e1);
  }

  lemma GoodDownload(u: Updater, version: string, copy: AppCopy, rest: seq<Event>) returns (d: Updater)
    requires Offered(u, version) && VerifiedStage(u.cache, version).None? && Verified(copy, version)
    ensures Ready(d, version, copy)
    ensures After(u, [DownloadAsked(true)] + ([File(0, true)] + ([Completed(0, None)] + ([PrepareDone(Some(copy))]
                  + rest))), true) == After(d, rest, true)
  {
    hide After;
    var e3, e4, e5 := File(0, true), Completed(0, None), PrepareDone(Some(copy));
    Next(u, DownloadAsked(true), [e3] + ([e4] + ([e5] + rest)));
    var u3 := Step(u, DownloadAsked(true));
    assert u3.tasks == [Running] && u3.downloadDone == Some(Ending(0, version));
    Next(u3, e3, [e4] + ([e5] + rest));
    var u4 := Step(u3, e3);
    assert u4.tasks == [Delivered] && u4.preparing == Some(Ending(0, version));
    Next(u4, e4, [e5] + rest);
    Next(Step(u4, e4), e5, rest);
    d := Step(Step(u4, e4), e5);
  }

  /** Where no download of it is marked yet, it ends with that version, and no other, handed over, and the
      app quitting. */
  lemma GoodRunUpdates(current: string, cache: Cache, version: string, copy: AppCopy)
    requires Offerable(version, current) && VerifiedStage(cache, version).None? && Verified(copy, version)
    ensures var end := After(Configure(Fresh(current, cache), None), GoodRun(version, copy), true);
            && end.Some? && end.value.swaps == [copy] && end.value.quitting && end.value.completions == [0]
  {
    hide After, Offerable, Offered;
    var e6, e7 := InstallAsked(""), InstallDone(true, true, true);
    var tail: seq<Event> := [e6] + ([e7] + []);
    var u := GoodCheck(current, cache, version, [DownloadAsked(true)] + ([File(0, true)] + ([Completed(0, None)]
                       + ([PrepareDone(Some(copy))] + tail))));
    var d := GoodDownload(u, version, copy, tail);
    Next(d, e6, [e7] + []);
    Next(Step(d, e6), e7, []);
    NoMore(Step(Step(d, e6), e7));
  }

  lemma NoMore(u: Updater)
    ensures After(u, [], true) == Some(u)
  {
  }

  // ------------------------------------------------------------------ which caches are safe to start from

  /** Only a verified copy of a version that is newer was handed over. */
  predicate HandsOverGood(u: Updater) {
    u.quitting ==>
      && |u.swaps| == 1 && u.state.downloadedVersion.Some?
      && Verified(u.swaps[0], u.state.downloadedVersion.value)
      && Version.IsNewer(u.state.downloadedVersion.value, u.state.currentVersion)
  }

  /** The stage's marker is enough for download to reuse a copy and install to hand it over. */
  function ReuseRun(version: string): seq<Event> {
    [CheckAsked("")] + ([CheckDone(Answered(302, Tag(version)), Code(200), "")] + ([DownloadAsked(true)]
    + ([InstallAsked("")] + ([InstallDone(true, true, true)] + []))))
  }

  lemma MarkedCopyIsHandedOver(current: string, version: string, cache: Cache)
    requires Offerable(version, current) && VerifiedStage(cache, version).Some?
    ensures var end := After(Configure(Fresh(current, cache), None), ReuseRun(version), true);
            && end.Some? && end.value.quitting && end.value.state.downloadedVersion == Some(version)
            && end.value.swaps == [VerifiedStage(cache, version).value]
  {
    hide After, Offerable, VerifiedStage;
    var e2, e3, e4 := DownloadAsked(true), InstallAsked(""), InstallDone(true, true, true);
    var r4: seq<Event> := [e4] + [];
    var u2 := GoodCheck(current, cache, version, [e2] + ([e3] + r4));
    Next(u2, e2, [e3] + r4);
    var u3 := Step(u2, e2);
    assert u3.state.downloadedVersion == Some(version) && u3.cache == cache && u3.active.None?;
    Next(u3, e3, r4);
    var u4 := Step(u3, e3);
    assert u4.installing == Some(version);
    Next(u4, e4, []);
    MarkedStage(cache, version);
    NoMore(Step(u4, e4));
  }

  lemma MarkedStage(cache: Cache, version: string)
    requires VerifiedStage(cache, version).Some?
    ensures StageOf(cache, version).app == VerifiedStage(cache, version) && version in cache
  {
  }

  /** A launch that finds `cache` on disk can hand over nothing but good copies, whatever happens in it, exactly
      when the cache is sound for the version that runs. */
  lemma SafeToStartFromIff(current: string, cache: Cache)
    ensures (forall events :: After(Configure(Fresh(current, cache), None), events, true).Some? ==>
               HandsOverGood(After(Configure(Fresh(current, cache), None), events, true).value))
        <==> CacheSound(cache, current)
  {
    hide After, Verified, Offerable, Step;
    var u0 := Configure(Fresh(current, cache), None);
    if CacheSound(cache, current) {
      ConfiguredInv(current, cache, None);
      forall events | After(u0, events, true).Some? ensures HandsOverGood(After(u0, events, true).value) {
        RunInv(u0, events);
        InvHandsOverGood(After(u0, events, true).value);
      }
    } else {
      var v :| v in cache && cache[v].marker && cache[v].app.Some? && Offerable(v, current)
               && !Verified(cache[v].app.value, v);
      MarkedCopyIsHandedOver(current, v, cache);
      assert !HandsOverGood(After(u0, ReuseRun(v), true).value);
    }
  }

  lemma InvHandsOverGood(u: Updater)
    requires Inv(u)
    ensures HandsOverGood(u)
  {
  }

  /** So a crash inside prepare lets the next launch hand over a copy nobody verified exactly when the stage
      still had its marker and the copy is bad and of a version that is still offered. */
  lemma CrashThenHandsOverIff(cache: Cache, current: string, version: string, copy: Option<AppCopy>)
    requires CacheSound(cache, current)
    ensures var crashed := Unpack(cache, version, copy);
            (exists events ::
               && After(Configure(Fresh(current, crashed), None), events, true).Some?
               && !HandsOverGood(After(Configure(Fresh(current, crashed), None), events, true).value))
            <==> && version in cache && cache[version].marker && copy.Some? && !Verified(copy.value, version)
                 && Offerable(version, current)
  {
    hide After, Verified, Offerable, HandsOverGood, CacheSound, Unpack;
    CrashInPrepareSoundIff(cache, current, version, copy);
    SafeToStartFromIff(current, Unpack(cache, version, copy));
  }
}
