/** The AppUpdater object of desktop/AppUpdater.swift: its fields, and its methods and callbacks as they
    update them, each against the machine of UpdaterMachine. */
module AppUpdater {
  import opened Options
  import opened UpdateMachine
  import opened UpdaterMachine
  import UpdaterRuns

  class AppUpdater {
    var state: UpdateState
    var active: Option<Action>
    var configured: bool
    var quitting: bool
    var checking: bool
    var downloadDone: Option<Ending>
    var pendingFailure: Option<Ending>
    var preparing: Option<Ending>
    var installing: Option<string>
    var tasks: seq<Phase>
    var cache: Cache
    var accepted: nat
    var completions: seq<nat>
    var swaps: seq<AppCopy>

    function View(): Updater
      reads this
    {
      Updater(state, active, configured, quitting, checking, downloadDone, pendingFailure, preparing, installing,
              tasks, cache, accepted, completions, swaps)
    }

    /** Status and reservation agree, nothing but a verified newer copy can be handed over, and each accepted
        download ends once. */
    ghost predicate Valid()
      reads this
    {
      UpdaterRuns.Inv(View())
    }

    constructor (currentVersion: string, onDisk: Cache)
      ensures View() == Fresh(currentVersion, onDisk)
    {
      state, active, configured, quitting, checking := Initial(currentVersion), None, false, false, false;
      downloadDone, pendingFailure, preparing, installing := None, None, None, None;
      tasks, cache, accepted, completions, swaps := [], onDisk, 0, [], [];
    }

    method Configure(disabledReason: Option<string>)
      modifies this
      ensures View() == UpdaterMachine.Configure(old(View()), disabledReason)
      ensures (old(View()) == Fresh(old(state.currentVersion), old(cache))
               && UpdaterRuns.CacheSound(old(cache), old(state.currentVersion))) ==> Valid()
    {
      hide UpdaterRuns.Inv, UpdaterRuns.CacheSound;
      if UpdaterRuns.CacheSound(cache, state.currentVersion) {
        UpdaterRuns.ConfiguredInv(state.currentVersion, cache, disabledReason);
      }
      state := Base(state, disabledReason);
      configured := disabledReason.None?;
    }

    // -------------------------------------------------------------- the reservation

    method TryStart(action: Action) returns (started: bool)
      modifies this`active
      ensures started <==> old(active).None?
      ensures active == if started then Some(action) else old(active)
    {
      if active.Some? { return false; }
      active := Some(action);
      return true;
    }

    method Finish(action: Action)
      modifies this`active
      ensures View() == UpdaterMachine.Finish(old(View()), action)
    {
      if active == Some(action) { active := None; }
    }

    // -------------------------------------------------------------- check

    method Check(now: string) returns (ran: bool)
      modifies this
      ensures View() == StartCheck(old(View()), now)
      ensures ran <==> old(configured && !quitting && state.status != Downloading && active.None?)
    {
      if !configured || quitting || state.status == Downloading { return false; }
      ran := TryStart(Action.Check);
      if !ran { return; }
      state := OnCheckStart(state, now);
      checking := true;
    }

    method LatestResolved(latest: Latest, now: string)
      requires checking
      modifies this
      ensures View() == CheckAnswers(old(View()), latest, now)
    {
      match latest {
        case Failure(message) => state := OnCheckFailure(state, message, now);
        case NoUpdate => state := OnNoUpdate(state, now);
        case Offer(version) => state := OnUpdateAvailable(state, version, now);
      }
      checking := false;
      Finish(Action.Check);
    }

    // -------------------------------------------------------------- download

    method FinishWith(ending: Ending, failure: Option<string>)
      modifies this
      ensures View() == UpdaterMachine.FinishWith(old(View()), ending, failure)
    {
      if failure.Some? {
        state := OnDownloadFailure(state, failure.value);
      } else {
        state := OnDownloadComplete(state, ending.version);
      }
      Finish(Action.Download);
      completions := completions + [ending.id];
    }

    method Download(hasUrl: bool)
      modifies this
      ensures View() == StartDownload(old(View()), hasUrl)
    {
      hide VerifiedStage, UpdaterMachine.FinishWith, OnDownloadStart;
      if !configured || state.status != Available || state.availableVersion.None? { return; }
      var version := state.availableVersion.value;
      var started := TryStart(Action.Download);
      if !started { return; }
      state := OnDownloadStart(state);
      var ending := Ending(accepted, version);
      accepted := accepted + 1;
      if VerifiedStage(cache, version).Some? {
        FinishWith(ending, None);
        return;
      }
      if !hasUrl {
        FinishWith(ending, Some("No download for this Mac."));
        return;
      }
      StartTask(ending);
    }

    method StartTask(ending: Ending)
      modifies this`downloadDone, this`pendingFailure, this`tasks
      ensures downloadDone == pendingFailure == Some(ending) && tasks == old(tasks) + [Running]
    {
      downloadDone := Some(ending);
      pendingFailure := Some(ending);
      tasks := tasks + [Running];
    }

    method DidWriteData(percent: real) returns (pushed: bool)
      modifies this`state
      ensures View() == BytesArrive(old(View()), percent)
      ensures pushed == OnBytes(old(state), percent).1
    {
      pushed := ShouldBroadcastProgress(state, percent);
      if pushed {
        state := OnDownloadProgress(state, percent);
      } else {
        state := state.(downloadPercent := Some(percent));
      }
    }

    method FailDownload(message: string)
      modifies this
      ensures View() == UpdaterMachine.FailDownload(old(View()), message)
    {
      hide UpdaterMachine.FinishWith;
      downloadDone := None;
      var fail := pendingFailure;
      pendingFailure := None;
      if fail.Some? { FinishWith(fail.value, Some(message)); }
    }

    method DidFinishDownloading(ok: bool)
      modifies this
      ensures View() == FileArrives(old(View()), ok)
    {
      hide UpdaterMachine.FailDownload;
      if !ok {
        FailDownload("The download answered an error.");
        return;
      }
      var done := downloadDone;
      downloadDone := None;
      if done.Some? { Prepare(done.value); }
    }

    /** prepare's part on the main thread; the rest runs on the work queue until Prepared. */
    method Prepare(ending: Ending)
      modifies this`pendingFailure, this`preparing
      ensures pendingFailure.None? && preparing == Some(ending)
    {
      pendingFailure := None;
      preparing := Some(ending);
    }

    method Prepared(copy: Option<AppCopy>)
      requires preparing.Some?
      modifies this
      ensures View() == PrepareEnds(old(View()), copy)
    {
      hide UpdaterMachine.FinishWith, Verified;
      var ending := preparing.value;
      preparing := None;
      var good := copy.Some? && Verified(copy.value, ending.version);
      cache := Unpack(cache, ending.version, copy);
      if good {
        cache := cache[ending.version := Stage(copy, true)];
      } else {
        cache := Unpack(cache, ending.version, None);
        assert cache == Unpack(old(cache), ending.version, None);
      }
      FinishWith(ending, if good then None else Some("The new app was refused."));
    }

    // -------------------------------------------------------------- install

    method Install(now: string)
      modifies this
      ensures View() == StartInstall(old(View()), now)
    {
      hide VerifiedStage, OnUpdateAvailable;
      if quitting || !configured || !IsInstallable(state) || state.downloadedVersion.None? { return; }
      var version := state.downloadedVersion.value;
      var started := TryStart(Action.Install);
      if !started { return; }
      if VerifiedStage(cache, version).None? {
        var n := OnUpdateAvailable(state.(downloadedVersion := None), version, now);
        Finish(Action.Install);
        state := n.(message := Some("The downloaded update is gone; download it again."),
                    errorContext := Some(DownloadError), canRetry := true);
        return;
      }
      installing := Some(version);
    }

    method InstallPrepared(placed: bool, moved: bool, scriptOk: bool)
      requires installing.Some?
      modifies this
      ensures View() == InstallEnds(old(View()), placed, moved, scriptOk)
    {
      var version := installing.value;
      installing := None;
      if !placed {
        state := OnInstallFailure(state, "Walnut cannot replace itself.");
        Finish(Action.Install);
        return;
      }
      if !scriptOk {
        state := OnInstallFailure(state, "Could not start the update.");
        Finish(Action.Install);
        return;
      }
      var stage := StageOf(cache, version);
      if stage.app.Some? { swaps := swaps + [stage.app.value]; }
      if moved { cache := cache[version := stage.(app := None)]; }
      quitting := true;
    }

    /** Whatever arrives in URLSession's order, the object takes the machine's step and stays valid. */
    method Deliver(e: Event)
      requires Valid() && Possible(View(), e) && InOrder(View(), e)
      modifies this
      ensures Valid() && View() == Step(old(View()), e)
    {
      hide Step, UpdaterRuns.Inv;
      UpdaterRuns.StepInv(View(), e);
      Handle(e);
    }

    method Handle(e: Event)
      requires Possible(View(), e)
      modifies this
      ensures View() == Step(old(View()), e)
    {
      hide StartCheck, CheckAnswers, StartDownload, BytesArrive, FileArrives, UpdaterMachine.FailDownload, PrepareEnds,
           StartInstall, InstallEnds, ResolveLatest;
      match e
      case CheckAsked(now) => var _ := Check(now);
      case CheckDone(probe, asset, now) => LatestResolved(ResolveLatest(state.currentVersion, probe, asset), now);
      case DownloadAsked(hasUrl) => Download(hasUrl);
      case Bytes(_, percent) => var _ := DidWriteData(percent);
      case File(task, ok) =>
        tasks := tasks[task := Delivered];
        DidFinishDownloading(ok);
      case Completed(task, error) =>
        tasks := tasks[task := Over];
        if error.Some? { FailDownload(error.value); }
      case PrepareDone(copy) => Prepared(copy);
      case InstallAsked(now) => Install(now);
      case InstallDone(placed, moved, scriptOk) => InstallPrepared(placed, moved, scriptOk);
    }
  }
}
