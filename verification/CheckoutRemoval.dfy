/** desktop/AppBuiltCheckout.swift removeIfServed and its callers: the old app's checkout is renamed aside
    and deleted, by an app that may stop between any two file operations. */
module CheckoutRemoval {
  import opened Options
  import opened CheckoutStatus
  import opened CheckoutReport

  /** What lies at a path; Partial is a tree whose deletion stopped half way. */
  datatype Tree = Absent | Whole(c: Checkout) | Partial(c: Checkout)

  /** A checkout as its check sees it: what the clone's own files say against it, and git's status. */
  datatype Checkout = Checkout(cloneComplaint: Option<string>, status: string)

  datatype Files = Files(source: Tree, staging: Tree)

  // ------------------------------------------------------------------ paths

  function Location(home: string): string {
    (if home != "" && home[|home| - 1] == '/' then home[..|home| - 1] else home) + "/source"
  }

  predicate IsOldAppLocation(home: string, dir: string) { home != "" && home != "/" && dir == Location(home) }

  /** Nothing under a removed directory, nor the directory, is the runtime's own install. */
  predicate MayRemove(dir: string, home: string, runtimeDir: Option<string>, served: bool, verdict: Verdict) {
    && served && verdict == AppBuilt && IsOldAppLocation(home, dir)
    && runtimeDir.Some? && runtimeDir.value != dir && !(dir + "/" <= runtimeDir.value)
  }

  predicate MovesToRuntime(runnable: bool, verdict: Verdict) { verdict.NotAppBuilt? ==> !runnable }

  predicate QueuesRemoval(verdict: Verdict) { !verdict.NotAppBuilt? }

  // ------------------------------------------------------------------ the check

  /** The files first, and git's status only when they pass and git answers. */
  function Judge(c: Checkout, git: bool): Verdict {
    if c.cloneComplaint.Some? then NotAppBuilt(c.cloneComplaint.value)
    else if !git then Undetermined("git status failed")
    else if OldBuildsOwn(Entries(c.status)) then AppBuilt
    else NotAppBuilt("status")
  }

  /** Provably the old app's own clone and build. */
  predicate Provable(c: Checkout) { c.cloneComplaint.None? && OldBuildsOwn(Entries(c.status)) }

  // ------------------------------------------------------------------ one removal

  /** How much of a file operation took effect, and whether the app ended in it. */
  datatype Effect = Nothing | Half | All
  datatype Op = Op(effect: Effect, crash: bool)

  datatype Removal = Removed | Kept | NotYet

  /** A launch whose own runtime served: its places, whether git answers, and its file operations. */
  datatype Launch = Launch(dir: string, home: string, runtimeDir: Option<string>, git: bool,
                           clean: Op, rename: Op, delete: Op)

  function Delete(t: Tree, e: Effect): Tree {
    match e
    case Nothing => t
    case Half => if t.Absent? then Absent else Partial(t.c)
    case All => Absent
  }

  /** The files a removal leaves, and its outcome; None when the app ended on the way. */
  datatype After = After(files: Files, outcome: Option<Removal>)

  function Removing(f: Files, l: Launch): After {
    if !IsOldAppLocation(l.home, l.dir) then After(f, Some(Kept))
    else
      var g := if f.staging.Absent? then f else f.(staging := Delete(f.staging, l.clean.effect));
      if !f.staging.Absent? && l.clean.crash then After(g, None)
      else RemoveSource(g, l)
  }

  function RemoveSource(g: Files, l: Launch): After {
    if g.source.Absent? then After(g, Some(Removed))
    else
      var verdict := Judge(g.source.c, l.git);
      if verdict.NotAppBuilt? then After(g, Some(Kept))
      else if !MayRemove(l.dir, l.home, l.runtimeDir, true, verdict) then After(g, Some(NotYet))
      else if l.rename.effect != All || !g.staging.Absent? then After(g, if l.rename.crash then None else Some(NotYet))
      else if l.rename.crash then After(Files(Absent, g.source), None)
      else
        After(Files(Absent, Delete(g.source, l.delete.effect)),
              if l.delete.crash then None else if l.delete.effect == All then Some(Removed) else Some(NotYet))
  }

  // ------------------------------------------------------------------ what one removal can do

  /** The staging copy is out of the way before the rename. */
  predicate Cleared(f: Files, l: Launch) {
    f.staging.Absent? || (l.clean.effect == All && !l.clean.crash)
  }

  predicate RuntimeElsewhere(l: Launch) {
    l.runtimeDir.Some? && l.runtimeDir.value != l.dir && !(l.dir + "/" <= l.runtimeDir.value)
  }

  /** A removal takes the tree from `source` exactly when it is there, provable, at the old app's place, with
      git answering, the runtime elsewhere, the staging place clear and the rename done; it then lies in
      staging, whole or part deleted, or nowhere. Otherwise `source` is as it was. */
  lemma SourceGoesIff(f: Files, l: Launch)
    ensures var g := Removing(f, l).files;
            && (g.source != f.source
                <==> !f.source.Absent? && Provable(f.source.c) && l.git && IsOldAppLocation(l.home, l.dir)
                     && RuntimeElsewhere(l) && Cleared(f, l) && l.rename.effect == All)
            && (g.source != f.source ==> g.source == Absent && (g.staging.Absent? || g.staging.c == f.source.c))
            && (g.source == f.source ==> g.staging.Absent? || (!f.staging.Absent? && g.staging.c == f.staging.c))
  {
    hide IsOldAppLocation, OldBuildsOwn, Entries;
  }

  /** The removal gets to the tree: this is its place, and it did not end over an old staging copy. */
  predicate Reaches(f: Files, l: Launch) {
    IsOldAppLocation(l.home, l.dir) && (f.staging.Absent? || !l.clean.crash)
  }

  /** It means to take the tree. */
  predicate Tries(f: Files, l: Launch) {
    Reaches(f, l) && !f.source.Absent? && Provable(f.source.c) && l.git && RuntimeElsewhere(l)
  }

  /** It has taken it, and goes on. */
  predicate Moves(f: Files, l: Launch) {
    Tries(f, l) && Cleared(f, l) && l.rename.effect == All && !l.rename.crash
  }

  /** The four ways a removal ends. It says Removed exactly where nothing was at `source`, or all of it was moved and
      deleted; Kept exactly for another place or a tree that is provably not the old app's; nothing exactly where the
      app ended in one of its file operations; and otherwise that it is not done yet. */
  lemma OutcomeIff(f: Files, l: Launch)
    ensures var a := Removing(f, l);
            && (a.outcome == Some(Removed)
                <==> || (Reaches(f, l) && f.source.Absent?)
                     || (Moves(f, l) && l.delete.effect == All && !l.delete.crash))
            && (a.outcome == Some(Kept)
                <==> || !IsOldAppLocation(l.home, l.dir)
                     || (Reaches(f, l) && !f.source.Absent?
                         && (f.source.c.cloneComplaint.Some? || (l.git && !Provable(f.source.c)))))
            && (a.outcome.None?
                <==> || (IsOldAppLocation(l.home, l.dir) && !f.staging.Absent? && l.clean.crash)
                     || (Tries(f, l) && l.rename.crash) || (Moves(f, l) && l.delete.crash))
            && (a.outcome == Some(Removed) ==> a.files.source == Absent)
  {
    hide IsOldAppLocation, OldBuildsOwn, Entries;
  }

  /** Removed can be said with a staging copy still there: exactly when the tree was gone before this launch
      and the copy's deletion fails again. Nothing tries a third time, since the removal is then settled. */
  lemma LeftoverIff(f: Files, l: Launch)
    requires IsOldAppLocation(l.home, l.dir)
    ensures var a := Removing(f, l);
            a.outcome == Some(Removed) && !a.files.staging.Absent?
            <==> f.source.Absent? && !f.staging.Absent? && l.clean.effect != All && !l.clean.crash
  {
    hide IsOldAppLocation, OldBuildsOwn, Entries;
  }

  /** The old app's place is `source` in the data home, however the home's path ends. */
  lemma OldPlaceIff(home: string, dir: string)
    requires home != "" && home[|home| - 1] != '/'
    ensures IsOldAppLocation(home, dir) <==> dir == home + "/source"
    ensures IsOldAppLocation(home + "/", dir) <==> dir == home + "/source"
    ensures !IsOldAppLocation("", dir) && !IsOldAppLocation("/", dir)
  {
    var h := home + "/";
    assert h[|h| - 1] == '/' && h[..|h| - 1] == home;
  }

  /** In git's own words: no removal takes a tree with a commit of the user's, off main, tracking another branch, or
      with any change but the old build's. */
  lemma OwnWorkIsNeverTaken(f: Files, l: Launch, r: Report)
    requires !f.source.Absent? && f.source.c.status == Printed(r) && PlainFields(r.changes)
    requires forall text <- HeaderTexts(r) + ChangeTexts(r.changes) :: '\0' !in text
    ensures Removing(f, l).files.source != f.source ==>
              && r.ab.Some? && r.ab.value.0 == 0 && r.head == "main" && r.upstream == Some("origin/main")
              && forall c <- r.changes :: OldBuildsChange(c)
  {
    hide Removing, Printed, OldBuildsOwn, Entries, HeaderTexts, ChangeTexts, PlainFields;
    SourceGoesIff(f, l);
    PrintedStatusIff(r);
  }

  predicate Faultless(l: Launch) {
    l.clean == l.rename == l.delete == Op(All, false) && l.git && RuntimeElsewhere(l) && IsOldAppLocation(l.home, l.dir)
  }

  /** Whatever a first launch did to a provable checkout, and wherever the app ended in it, a next one without
      a fault leaves nothing at either place. */
  lemma NextLaunchFinishes(f: Files, l: Launch, again: Launch)
    requires !f.source.Absent? && Provable(f.source.c) && Faultless(again)
    ensures Removing(Removing(f, l).files, again) == After(Files(Absent, Absent), Some(Removed))
  {
    hide IsOldAppLocation, OldBuildsOwn, Entries;
    SourceGoesIff(f, l);
  }

  // ------------------------------------------------------------------ runs of launches and edits

  /** The files and whether the setup keeps a removal pending. */
  datatype State = State(files: Files, pending: bool)

  datatype Event =
    | UserPuts(tree: Tree)                     // anything at `source`, or nothing
    | Adopt(git: bool, runnable: bool)         // a saved setup on the old app's place
    | Served(launch: Launch, saved: bool)      // this launch's own runtime served
    | ResetSetup

  predicate Possible(e: Event) { e.UserPuts? ==> !e.tree.Partial? }

  function Step(s: State, e: Event): State {
    match e
    case UserPuts(tree) => s.(files := s.files.(source := tree))
    case Adopt(git, runnable) =>
      var verdict := if s.files.source.Absent? then NotAppBuilt("no .git directory") else Judge(s.files.source.c, git);
      s.(pending := MovesToRuntime(runnable, verdict) && QueuesRemoval(verdict))
    case Served(l, saved) =>
      if !s.pending then s
      else
        var a := Removing(s.files, l);
        State(a.files, !(saved && (a.outcome == Some(Removed) || a.outcome == Some(Kept))))
    case ResetSetup => s.(pending := false)
  }

  function Ran(s: State, es: seq<Event>): State {
    if es == [] then s else Step(Ran(s, es[..|es| - 1]), es[|es| - 1])
  }

  /** The tree at `source` is whole or absent, and what lies in staging was the old app's own. */
  predicate Safe(s: State) {
    !s.files.source.Partial? && (s.files.staging.Absent? || Provable(s.files.staging.c))
  }

  lemma StepSafe(s: State, e: Event)
    requires Safe(s) && Possible(e)
    ensures Safe(Step(s, e))
  {
    hide OldBuildsOwn, Entries, Provable, Removing;
    if e.Served? { SourceGoesIff(s.files, e.launch); }
  }

  /** Every run of launches cut short anywhere, with any edits between them. */
  lemma {:induction false} RunSafe(s: State, es: seq<Event>)
    requires Safe(s) && forall i :: 0 <= i < |es| ==> Possible(es[i])
    ensures Safe(Ran(s, es))
  {
    hide Safe, Step;
    if es != [] {
      RunSafe(s, es[..|es| - 1]);
      StepSafe(Ran(s, es[..|es| - 1]), es[|es| - 1]);
    }
  }

  /** A checkout with anything of the user's in it stays until the user changes it. */
  lemma {:induction false} UserWorkStays(s: State, es: seq<Event>)
    requires s.files.source.Whole? && !Provable(s.files.source.c)
    requires forall i :: 0 <= i < |es| ==> !es[i].UserPuts?
    ensures Ran(s, es).files.source == s.files.source
  {
    hide Provable, Removing;
    if es != [] {
      var before, e := Ran(s, es[..|es| - 1]), es[|es| - 1];
      UserWorkStays(s, es[..|es| - 1]);
      if e.Served? { SourceGoesIff(before.files, e.launch); }
    }
  }

  /** A launch forgets a pending removal only when nothing is at `source`, the tree there is provably not the
      old app's, or the place is not this setup's; no removal is pending for a tree known to be the user's. */
  lemma ForgetsOnlyWhenSettled(s: State, e: Event)
    requires s.pending && !Step(s, e).pending && e.Served?
    ensures var n := Step(s, e);
            || n.files.source == Absent || !IsOldAppLocation(e.launch.home, e.launch.dir)
            || (n.files.source == s.files.source && Judge(s.files.source.c, e.launch.git).NotAppBuilt?)
  {
    hide IsOldAppLocation, OldBuildsOwn, Entries, Removing;
    OutcomeIff(s.files, e.launch);
    SourceGoesIff(s.files, e.launch);
  }

  /** Nothing but the user and a launch with a removal pending touches either place, and such a launch does what its
      removal does; a removal is pending from a setup that queued one until a saved launch settles it or the setup is
      reset. */
  lemma StepIff(s: State, e: Event)
    ensures var n := Step(s, e);
            && n.files == (if e.UserPuts? then Files(e.tree, s.files.staging)
                           else if e.Served? && s.pending then Removing(s.files, e.launch).files else s.files)
            && (s.pending && !n.pending ==>
                  || e.ResetSetup? || e.Adopt?
                  || (e.Served? && e.saved && Removing(s.files, e.launch).outcome in {Some(Removed), Some(Kept)}))
            && (!s.pending && n.pending ==> e.Adopt?)
            && (e.ResetSetup? ==> !n.pending)
            && (s.pending && e.Served? && e.saved && Removing(s.files, e.launch).outcome in {Some(Removed), Some(Kept)}
                ==> !n.pending)
  {
    hide Removing, Judge;
  }

  /** A run of launches at the setup's own place, however each is cut short. */
  predicate OwnLaunches(es: seq<Event>) {
    forall i :: 0 <= i < |es| ==> es[i].Served? && IsOldAppLocation(es[i].launch.home, es[i].launch.dir)
  }

  /** A provable checkout that is pending stays whole and pending until it is gone from `source`: it is never forgotten
      before; and as long as it is pending one saved launch without a fault leaves nothing at either place. */
  lemma {:induction false} PendingUntilGone(s: State, es: seq<Event>, again: Launch)
    requires s.pending && s.files.source.Whole? && Provable(s.files.source.c)
    requires OwnLaunches(es) && Faultless(again)
    ensures var n := Ran(s, es);
            && (n.files.source == Absent || (n.pending && n.files.source == s.files.source))
            && (n.pending ==> Ran(s, es + [Served(again, true)]) == State(Files(Absent, Absent), false))
  {
    hide Removing, IsOldAppLocation, Provable, Faultless;
    if es != [] {
      var init, e := es[..|es| - 1], es[|es| - 1];
      PendingUntilGone(s, init, again);
      var before := Ran(s, init);
      SourceGoesIff(before.files, e.launch);
      OutcomeIff(before.files, e.launch);
      ProvableIsNoComplaint(before.files.source);
    }
    var n := Ran(s, es);
    assert (es + [Served(again, true)])[..|es|] == es;
    if n.pending {
      if n.files.source == Absent { FinishesEmpty(n.files, again); } else { FinishesWhole(n.files, again); }
    }
  }

  lemma ProvableIsNoComplaint(t: Tree)
    ensures !t.Absent? && Provable(t.c) ==> t.c.cloneComplaint.None?
  {
  }

  lemma FinishesEmpty(f: Files, again: Launch)
    requires f.source == Absent && Faultless(again)
    ensures Removing(f, again) == After(Files(Absent, Absent), Some(Removed))
  {
    hide IsOldAppLocation;
  }

  lemma FinishesWhole(f: Files, again: Launch)
    requires !f.source.Absent? && Provable(f.source.c) && Faultless(again)
    ensures Removing(f, again) == After(Files(Absent, Absent), Some(Removed))
  {
    hide IsOldAppLocation, OldBuildsOwn, Entries;
  }

  lemma AdoptQueuesIff(s: State, git: bool, runnable: bool)
    ensures Step(s, Adopt(git, runnable)).pending
        <==> !s.files.source.Absent? && !Judge(s.files.source.c, git).NotAppBuilt?
    ensures s.files.source.Whole? && Provable(s.files.source.c) ==> Step(s, Adopt(git, runnable)).pending
  {
    hide OldBuildsOwn, Entries;
  }

  // ------------------------------------------------------------------ the file system, step by step

  class Disk {
    var source: Tree
    var staging: Tree

    function View(): Files
      reads this
    {
      Files(source, staging)
    }

    constructor (f: Files)
      ensures View() == f
    {
      source, staging := f.source, f.staging;
    }

    method RemoveStaging(op: Op) returns (ok: bool)
      requires !staging.Absent?
      modifies this`staging
      ensures staging == Delete(old(staging), op.effect) && (ok <==> op.effect == All)
    {
      match op.effect {
        case Nothing => ok := false;
        case Half => staging, ok := Partial(staging.c), false;
        case All => staging, ok := Absent, true;
      }
    }

    /** A rename is whole or not at all, and refuses a taken name. */
    method MoveAside(op: Op) returns (ok: bool)
      requires !source.Absent?
      modifies this
      ensures ok <==> op.effect == All && old(staging).Absent?
      ensures View() == if ok then Files(Absent, old(source)) else old(View())
    {
      ok := op.effect == All && staging.Absent?;
      if ok { source, staging := Absent, source; }
    }

    method RemoveIfServed(l: Launch) returns (outcome: Option<Removal>)
      modifies this
      ensures After(View(), outcome) == Removing(old(View()), l)
    {
      if !IsOldAppLocation(l.home, l.dir) { return Some(Kept); }
      var ok: bool;
      if !staging.Absent? {
        ok := RemoveStaging(l.clean);
        if l.clean.crash { return None; }
      }
      if source.Absent? { return Some(Removed); }
      var verdict := Judge(source.c, l.git);
      if verdict.NotAppBuilt? { return Some(Kept); }
      if !MayRemove(l.dir, l.home, l.runtimeDir, true, verdict) { return Some(NotYet); }
      ok := MoveAside(l.rename);
      if l.rename.crash { return None; }
      if !ok { return Some(NotYet); }
      ok := RemoveStaging(l.delete);
      if l.delete.crash { return None; }
      return Some(if ok then Removed else NotYet);
    }
  }
}
