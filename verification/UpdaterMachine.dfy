/** The updater of desktop/AppUpdater.swift: the reducers under one reservation, with the answers,
    URLSession events and background work it waits for arriving in any order. */
module UpdaterMachine {
  import opened Options
  import opened UpdateMachine
  import Version

  datatype Action = Check | Download | Install

  /** An app copied out of a download, and what verify finds in it. */
  datatype AppCopy = AppCopy(version: string, sameBundle: bool, signedBySame: bool)

  /** verify(app:version:...) passes. */
  predicate Verified(app: AppCopy, version: string) {
    app.sameBundle && app.version == version && app.signedBySame
  }

  /** cacheRoot/<version>: its Walnut.app and its `verified` marker. */
  datatype Stage = Stage(app: Option<AppCopy>, marker: bool)
  type Cache = map<string, Stage>

  function StageOf(cache: Cache, version: string): Stage {
    if version in cache then cache[version] else Stage(None, false)
  }

  function VerifiedStage(cache: Cache, version: string): Option<AppCopy> {
    if StageOf(cache, version).marker then StageOf(cache, version).app else None
  }

  /** finishWith, the closure one accepted download ends through; `id` counts accepted downloads. */
  datatype Ending = Ending(id: nat, version: string)

  /** Where a URLSession download task is in its life. */
  datatype Phase = Running | Delivered | Over

  datatype Updater = Updater(
    state: UpdateState,
    active: Option<Action>,
    configured: bool,
    quitting: bool,
    checking: bool,                   // resolveLatest has yet to answer
    downloadDone: Option<Ending>,
    pendingFailure: Option<Ending>,
    preparing: Option<Ending>,        // prepare runs on the work queue
    installing: Option<string>,       // install's move runs on the work queue
    tasks: seq<Phase>,
    cache: Cache,
    accepted: nat,                    // downloads accepted
    completions: seq<nat>,            // done(true, _) calls, by download
    swaps: seq<AppCopy>)              // copies handed to apply-update.sh

  function Fresh(currentVersion: string, cache: Cache): Updater {
    Updater(Initial(currentVersion), None, false, false, false, None, None, None, None, [], cache, 0, [], [])
  }

  function Configure(u: Updater, disabledReason: Option<string>): Updater {
    u.(state := Base(u.state, disabledReason), configured := disabledReason.None?)
  }

  /** The app that runs and whether it updates at all. */
  predicate SameApp(u: Updater, b: Updater) {
    b.configured == u.configured && b.state.currentVersion == u.state.currentVersion
  }

  // ------------------------------------------------------------------ the reservation

  function Finish(u: Updater, action: Action): Updater {
    if u.active == Some(action) then u.(active := None) else u
  }

  // ------------------------------------------------------------------ check

  function StartCheck(u: Updater, now: string): (b: Updater)
    ensures SameApp(u, b)
  {
    if !u.configured || u.quitting || u.state.status == Downloading || u.active.Some? then u
    else u.(active := Some(Check), state := OnCheckStart(u.state, now), checking := true)
  }

  /** What the two HEAD requests answered. */
  datatype Probe = ProbeFailed(message: string) | Answered(status: int, location: Location)
  datatype Location = NoHeader | NotATag | Tag(version: string)
  datatype Asset = AssetFailed(message: string) | Code(code: int)
  datatype Latest = Failure(message: string) | NoUpdate | Offer(version: string)

  predicate IsVersion(v: string) {
    Version.Compare(v, "0.0.0").Some? && Version.Compare(v, "0.0.0").value >= 0
  }

  /** The newest release /latest redirects to, when it is newer than this app and its DMG is up. */
  function ResolveLatest(current: string, probe: Probe, asset: Asset): Latest {
    match probe
    case ProbeFailed(message) => Failure(message)
    case Answered(status, location) =>
      if !(300 <= status < 400) || location.NoHeader? then
        (if status == 200 || status == 404 then NoUpdate else Failure("The update server answered."))
      else if location.NotATag? || !IsVersion(location.version)
              || !Version.IsNewer(location.version, current) then NoUpdate
      else match asset
        case AssetFailed(message) => Failure(message)
        case Code(code) => if code == 200 then Offer(location.version) else if code == 404 then NoUpdate
                           else Failure("The update server answered.")
  }

  function CheckAnswers(u: Updater, latest: Latest, now: string): (b: Updater)
    ensures SameApp(u, b)
  {
    var s := match latest
      case Failure(message) => OnCheckFailure(u.state, message, now)
      case NoUpdate => OnNoUpdate(u.state, now)
      case Offer(version) => OnUpdateAvailable(u.state, version, now);
    Finish(u.(state := s, checking := false), Check)
  }

  // ------------------------------------------------------------------ download

  function FinishWith(u: Updater, ending: Ending, failure: Option<string>): (b: Updater)
    ensures SameApp(u, b)
  {
    var s := if failure.Some? then OnDownloadFailure(u.state, failure.value)
             else OnDownloadComplete(u.state, ending.version);
    Finish(u.(state := s), Download).(completions := u.completions + [ending.id])
  }

  function StartDownload(u: Updater, hasUrl: bool): (b: Updater)
    ensures SameApp(u, b)
  {
    if !u.configured || u.state.status != Available || u.state.availableVersion.None? || u.active.Some? then u
    else
      var ending := Ending(u.accepted, u.state.availableVersion.value);
      var started := u.(active := Some(Download), state := OnDownloadStart(u.state), accepted := u.accepted + 1);
      if VerifiedStage(u.cache, ending.version).Some? then FinishWith(started, ending, None)
      else if !hasUrl then FinishWith(started, ending, Some("No download for this Mac."))
      else started.(downloadDone := Some(ending), pendingFailure := Some(ending), tasks := u.tasks + [Running])
  }

  function BytesArrive(u: Updater, percent: real): (b: Updater)
    ensures SameApp(u, b)
  {
    u.(state := OnBytes(u.state, percent).0)
  }

  function FailDownload(u: Updater, message: string): (b: Updater)
    ensures SameApp(u, b)
  {
    var cleared := u.(downloadDone := None, pendingFailure := None);
    if u.pendingFailure.Some? then FinishWith(cleared, u.pendingFailure.value, Some(message)) else cleared
  }

  /** didFinishDownloadingTo: `ok` is a 200 whose file could be kept. */
  function FileArrives(u: Updater, ok: bool): (b: Updater)
    ensures SameApp(u, b)
  {
    if !ok then FailDownload(u, "The download answered an error.")
    else if u.downloadDone.None? then u
    else u.(downloadDone := None, pendingFailure := None, preparing := u.downloadDone)
  }

  // ------------------------------------------------------------------ prepare

  function Unpack(cache: Cache, version: string, copy: Option<AppCopy>): Cache {
    cache[version := StageOf(cache, version).(app := copy)]
  }

  /** The work prepare does off the main thread, when nothing cuts it short. */
  function Prepared(cache: Cache, version: string, copy: Option<AppCopy>): Cache {
    if copy.Some? && Verified(copy.value, version)
    then Unpack(cache, version, copy)[version := Stage(copy, true)]
    else Unpack(cache, version, None)
  }

  function PrepareEnds(u: Updater, copy: Option<AppCopy>): (b: Updater)
    requires u.preparing.Some?
    ensures SameApp(u, b)
  {
    var ending := u.preparing.value;
    var done := u.(preparing := None, cache := Prepared(u.cache, ending.version, copy));
    FinishWith(done, ending,
               if copy.Some? && Verified(copy.value, ending.version) then None else Some("The new app was refused."))
  }

  // ------------------------------------------------------------------ install

  function StartInstall(u: Updater, now: string): (b: Updater)
    ensures SameApp(u, b)
  {
    if u.quitting || !u.configured || !IsInstallable(u.state) || u.active.Some? then u
    else
      var version := u.state.downloadedVersion.value;
      if VerifiedStage(u.cache, version).None? then
        var n := OnUpdateAvailable(u.state.(downloadedVersion := None), version, now);
        u.(state := n.(message := Some("The downloaded update is gone; download it again."),
                       errorContext := Some(DownloadError), canRetry := true))
      else u.(active := Some(Install), installing := Some(version))
  }

  /** The copy is put beside the app (`moved` or copied) and the script starts, or one of the two fails. */
  function InstallEnds(u: Updater, placed: bool, moved: bool, scriptOk: bool): (b: Updater)
    requires u.installing.Some?
    ensures SameApp(u, b)
  {
    var version := u.installing.value;
    var done := u.(installing := None);
    if !placed then Finish(done.(state := OnInstallFailure(u.state, "Walnut cannot replace itself.")), Install)
    else if !scriptOk then Finish(done.(state := OnInstallFailure(u.state, "Could not start the update.")), Install)
    else
      var stage := StageOf(u.cache, version);
      done.(quitting := true, cache := if moved then u.cache[version := stage.(app := None)] else u.cache,
         swaps := u.swaps + (if stage.app.Some? then [stage.app.value] else []))
  }

  // ------------------------------------------------------------------ the events

  datatype Event =
    | CheckAsked(now: string)
    | CheckDone(probe: Probe, asset: Asset, now: string)
    | DownloadAsked(hasUrl: bool)
    | Bytes(task: nat, percent: real)
    | File(task: nat, ok: bool)
    | Completed(task: nat, error: Option<string>)
    | PrepareDone(copy: Option<AppCopy>)
    | InstallAsked(now: string)
    | InstallDone(placed: bool, moved: bool, scriptOk: bool)

  predicate Possible(u: Updater, e: Event) {
    match e
    case CheckDone(_, _, _) => u.checking
    case Bytes(task, percent) => task < |u.tasks| && 0.0 <= percent <= 100.0
    case File(task, _) => task < |u.tasks|
    case Completed(task, _) => task < |u.tasks|
    case PrepareDone(_) => u.preparing.Some?
    case InstallDone(_, _, _) => u.installing.Some?
    case _ => true
  }

  /** URLSession's own order for one download task: bytes, then the file and a completion without error,
      or a completion with one. */
  predicate InOrder(u: Updater, e: Event)
    requires Possible(u, e)
  {
    match e
    case Bytes(task, _) => u.tasks[task] == Running
    case File(task, _) => u.tasks[task] == Running
    case Completed(task, error) => u.tasks[task] == if error.Some? then Running else Delivered
    case _ => true
  }

  function Step(u: Updater, e: Event): (b: Updater)
    requires Possible(u, e)
    ensures SameApp(u, b)
  {
    match e
    case CheckAsked(now) => StartCheck(u, now)
    case CheckDone(probe, asset, now) => CheckAnswers(u, ResolveLatest(u.state.currentVersion, probe, asset), now)
    case DownloadAsked(hasUrl) => StartDownload(u, hasUrl)
    case Bytes(task, percent) => BytesArrive(u, percent)
    case File(task, ok) => FileArrives(u.(tasks := u.tasks[task := Delivered]), ok)
    case Completed(task, error) =>
      var over := u.(tasks := u.tasks[task := Over]);
      if error.Some? then FailDownload(over, error.value) else over
    case PrepareDone(copy) => PrepareEnds(u, copy)
    case InstallAsked(now) => StartInstall(u, now)
    case InstallDone(placed, moved, scriptOk) => InstallEnds(u, placed, moved, scriptOk)
  }
}
