/** What a repair run leaves, why a dry run predicts it, and why a second one writes nothing. */
module RepairLinksProofs {
  import opened Options
  import opened RepairLinks

  // ------------------------------------------------------------------ the task a session is re-pointed at

  /** Row i is the first that holds the id. */
  predicate FirstHolder(rows: seq<TaskRow>, source: string, rid: string, i: int) {
    0 <= i < |rows| && Holds(rows[i], source, rid) && forall j :: 0 <= j < i ==> !Holds(rows[j], source, rid)
  }

  predicate HeldByNone(rows: seq<TaskRow>, source: string, rid: string) {
    forall j :: 0 <= j < |rows| ==> !Holds(rows[j], source, rid)
  }

  lemma {:induction false} FoundIsFirst(rows: seq<TaskRow>, source: string, rid: string)
    ensures match FindByRemoteId(rows, source, rid)
            case Some(id) => exists i :: FirstHolder(rows, source, rid, i) && rows[i].id == id
            case None => HeldByNone(rows, source, rid)
  {
    if rows != [] {
      if Holds(rows[0], source, rid) {
        assert FirstHolder(rows, source, rid, 0);
      } else {
        FoundIsFirst(rows[1..], source, rid);
        if FindByRemoteId(rows, source, rid).Some? {
          var i :| FirstHolder(rows[1..], source, rid, i) && rows[1..][i].id == FindByRemoteId(rows, source, rid).value;
          assert FirstHolder(rows, source, rid, i + 1);
        }
      }
    }
  }

  /** `task` is the first row holding rids[k], and no row holds an earlier one. */
  ghost predicate ChosenBy(rows: seq<TaskRow>, task: string, source: string, rids: seq<string>, k: int) {
    && 0 <= k < |rids| && (forall j :: 0 <= j < k ==> HeldByNone(rows, source, rids[j]))
    && exists i :: FirstHolder(rows, source, rids[k], i) && rows[i].id == task
  }

  lemma {:induction false} FoundAnyIsFirst(rows: seq<TaskRow>, source: string, rids: seq<string>)
    ensures match FindAny(rows, source, rids)
            case Some(id) => exists k :: ChosenBy(rows, id, source, rids, k)
            case None => forall j :: 0 <= j < |rids| ==> HeldByNone(rows, source, rids[j])
  {
    hide FirstHolder, HeldByNone;
    if rids != [] {
      FoundIsFirst(rows, source, rids[0]);
      if FindByRemoteId(rows, source, rids[0]).Some? {
        assert ChosenBy(rows, FindAny(rows, source, rids).value, source, rids, 0);
      } else {
        FoundAnyIsFirst(rows, source, rids[1..]);
        if FindAny(rows, source, rids).Some? {
          var k :| ChosenBy(rows, FindAny(rows, source, rids).value, source, rids[1..], k);
          assert ChosenBy(rows, FindAny(rows, source, rids).value, source, rids, k + 1);
        }
      }
    }
  }

  /** The dead task's remote ids, in the order they are tried: id, issue_key, key, where they are texts. A local
      task, or one that names no source, has none. */
  lemma RemoteIdsInOrder(source: string, ext: Option<map<string, Node>>)
    ensures forall rid :: rid in RemoteIdsOf(source, ext) <==>
              && source != "" && source != "local" && ext.Some? && source in ext.value && rid != ""
              && (ext.value[source].id == Some(rid) || ext.value[source].issueKey == Some(rid)
                  || ext.value[source].key == Some(rid))
    ensures source != "" && source != "local" && ext.Some? && source in ext.value ==>
              var n := ext.value[source];
              IsText(n.id) && IsText(n.issueKey) && IsText(n.key) ==>
                RemoteIdsOf(source, ext) == [n.id.value, n.issueKey.value, n.key.value]
  {
    if source != "" && source != "local" && ext.Some? && source in ext.value {
      var n := ext.value[source];
      var last := [n.key];
      var rest := [n.issueKey] + last;
      var all := [n.id] + rest;
      assert all[1..] == rest && rest[1..] == last && last[1..] == [] && all == [n.id, n.issueKey, n.key];
      assert Texts(last) == if IsText(n.key) then [n.key.value] else [];
      assert Texts(rest) == (if IsText(n.issueKey) then [n.issueKey.value] else []) + Texts(last);
    }
  }

  /** The query finds a current task by exactly the remote ids it is known by under the source it is asked for. */
  lemma HoldsIff(r: TaskRow, source: string, rid: string)
    requires rid != "" && SqlName(source) != "" && SqlName(source) != "local"
    ensures Holds(r, source, rid) <==> r.source == SqlName(source) && rid in RemoteIdsOf(r.source, r.ext)
  {
    RemoteIdsInOrder(r.source, r.ext);
  }

  predicate IsText(v: Option<string>) { v.Some? && v.value != "" }

  /** A session resolves exactly when some current task holds one of the dead task's remote ids under
      its source, and then to the first holder of the first id that is held. */
  lemma ResolvesIff(rows: seq<TaskRow>, backups: seq<Backup>, task: string)
    ensures var was := BackupTask(backups, task);
            match Resolve(rows, backups, task)
            case Current(id) =>
              was.Some? && exists k ::
                ChosenBy(rows, id, was.value.source, RemoteIdsOf(was.value.source, was.value.ext), k)
            case Unresolved(reason) =>
              && (reason == NotInBackup <==> was.None?)
              && (was.Some? ==>
                    var rids := RemoteIdsOf(was.value.source, was.value.ext);
                    && (reason == NoRemoteId <==> rids == [])
                    && forall j :: 0 <= j < |rids| ==> HeldByNone(rows, was.value.source, rids[j]))
  {
    var was := BackupTask(backups, task);
    if was.Some? {
      FoundAnyIsFirst(rows, was.value.source, RemoteIdsOf(was.value.source, was.value.ext));
    }
  }

  /** The newest backup with the row answers for it. */
  lemma {:induction false} NewestBackupWins(backups: seq<Backup>, task: string)
    ensures match BackupTask(backups, task)
            case Some(row) => exists i :: 0 <= i < |backups| && task in backups[i] && row == backups[i][task]
                                          && forall j :: 0 <= j < i ==> task !in backups[j]
            case None => forall j :: 0 <= j < |backups| ==> task !in backups[j]
  {
    if backups != [] && task !in backups[0] {
      NewestBackupWins(backups[1..], task);
      if BackupTask(backups, task).Some? {
        var i :| 0 <= i < |backups[1..]| && task in backups[1..][i]
                 && BackupTask(backups, task).value == backups[1..][i][task]
                 && forall j :: 0 <= j < i ==> task !in backups[1..][j];
        assert task in backups[i + 1];
        assert forall j :: 0 < j < i + 1 ==> backups[j] == backups[1..][j - 1];
      }
    }
  }

  /** The query looks under the dead task's own source exactly when that has no double quote. */
  lemma {:induction false} SqlNameIff(source: string)
    ensures SqlName(source) == source <==> '"' !in source
    ensures |SqlName(source)| <= |source|
  {
    if source != "" {
      SqlNameIff(source[1..]);
      assert source == [source[0]] + source[1..];
    }
  }

  // ------------------------------------------------------------------ lists only grow

  /** Each list keeps what it had, in place, and gained only sessions of `added`. */
  ghost predicate Grown(a: Lists, b: Lists, added: set<string>) {
    && a.Keys == b.Keys
    && forall task :: task in a ==> Ids(a[task]) <= Ids(b[task]) && GainedOnly(Ids(a[task]), Ids(b[task]), added)
  }

  ghost predicate GainedOnly(a: seq<string>, b: seq<string>, added: set<string>) {
    forall s :: s in b ==> s in a || s in added
  }

  lemma AddSessionGrows(lists: Lists, task: string, sid: string)
    ensures Grown(lists, AddSession(lists, task, sid), {sid})
    ensures task in lists ==> sid in Ids(AddSession(lists, task, sid)[task])
  {
  }

  lemma GrownTransitive(a: Lists, b: Lists, c: Lists, x: set<string>, y: set<string>)
    requires Grown(a, b, x) && Grown(b, c, y)
    ensures Grown(a, c, x + y)
  {
    forall task | task in a ensures Ids(a[task]) <= Ids(c[task]) && GainedOnly(Ids(a[task]), Ids(c[task]), x + y) {
      assert task in b.Keys && task in c.Keys;
    }
  }

  function Elements(s: seq<string>): set<string> { set x | x in s }

  // ------------------------------------------------------------------ the repair pass

  predicate Distinct(s: seq<string>) { forall i, j :: 0 <= i < j < |s| ==> s[i] != s[j] }

  lemma {:induction false} DanglingDistinct(t: Tables, sids: seq<string>)
    requires (forall s <- sids :: s in t.link) && Distinct(sids)
    ensures Distinct(Dangling(t, sids))
    ensures forall s <- sids :: s in Dangling(t, sids) <==> Dangles(t, s)
  {
    if sids != [] {
      DanglingDistinct(t, sids[1..]);
      assert sids[0] !in sids[1..];
      assert forall s <- sids :: s == sids[0] || s in sids[1..];
    }
  }

  /** Where session `sid` points after the pass has met it. */
  function Target(t: Tables, backups: seq<Backup>, sid: string): string
    requires sid in t.link
  {
    match Resolve(t.rows, backups, t.link[sid])
    case Current(task) => task
    case Unresolved(_) => t.link[sid]
  }

  lemma ResolvesToATask(t: Tables, backups: seq<Backup>, sid: string, lists: Lists)
    requires sid in t.link && forall r <- t.rows :: r.id in lists
    ensures Resolve(t.rows, backups, t.link[sid]).Current? ==> Target(t, backups, sid) in lists
  {
    ResolvesIff(t.rows, backups, t.link[sid]);
    if Resolve(t.rows, backups, t.link[sid]).Current? {
      var was := BackupTask(backups, t.link[sid]).value;
      var rids := RemoteIdsOf(was.source, was.ext);
      var k :| ChosenBy(t.rows, Target(t, backups, sid), was.source, rids, k);
      var i :| FirstHolder(t.rows, was.source, rids[k], i) && t.rows[i].id == Target(t, backups, sid);
      assert t.rows[i] in t.rows;
    }
  }

  lemma {:induction false} LivePass(t: Tables, backups: seq<Backup>, w: Work, sids: seq<string>)
    requires (forall s <- sids :: s in t.link) && Distinct(sids) && w.link.Keys == t.link.Keys
    requires (forall r <- t.rows :: r.id in w.lists) && (forall s <- sids :: w.link[s] == t.link[s])
    ensures var n := RepairPass(t, backups, true, w, sids);
            && n.link.Keys == t.link.Keys
            && (forall s :: s in t.link ==> n.link[s] == if s in sids then Target(t, backups, s) else w.link[s])
            && Grown(w.lists, n.lists, Elements(sids))
            && (forall s <- sids :: Resolve(t.rows, backups, t.link[s]).Current? ==> s in IdsOf(n.lists, n.link[s]))
            && n.backlinked == w.backlinked
    decreases |sids|
  {
    hide Resolve;
    if sids == [] {
    } else {
      var sid := sids[0];
      ResolvesToATask(t, backups, sid, w.lists);
      var m := RepairOne(t, backups, true, w, sid);
      if Resolve(t.rows, backups, t.link[sid]).Current? {
        AddSessionGrows(w.lists, Target(t, backups, sid), sid);
        assert Target(t, backups, sid) in w.lists;
      }
      assert Grown(w.lists, m.lists, {sid});
      assert m.link.Keys == t.link.Keys by { assert sid in t.link.Keys; }
      LivePass(t, backups, m, sids[1..]);
      var n := RepairPass(t, backups, true, w, sids);
      GrownTransitive(w.lists, m.lists, n.lists, {sid}, Elements(sids[1..]));
      assert {sid} + Elements(sids[1..]) == Elements(sids);
      assert sid !in sids[1..];
      assert forall s <- sids :: s == sid || s in sids[1..];
      if Resolve(t.rows, backups, t.link[sid]).Current? {
        assert Ids(m.lists[n.link[sid]]) <= Ids(n.lists[n.link[sid]]);
      }
    }
  }

  lemma {:induction false} DryPass(t: Tables, backups: seq<Backup>, w: Work, v: Work, sids: seq<string>)
    requires (forall s <- sids :: s in t.link) && w.repaired == v.repaired && w.unresolved == v.unresolved
    ensures var n, d := RepairPass(t, backups, true, w, sids), RepairPass(t, backups, false, v, sids);
            && n.repaired == d.repaired && n.unresolved == d.unresolved
            && d.link == v.link && d.lists == v.lists && d.backlinked == v.backlinked
    decreases |sids|
  {
    if sids != [] {
      DryPass(t, backups, RepairOne(t, backups, true, w, sids[0]), RepairOne(t, backups, false, v, sids[0]), sids[1..]);
    }
  }

  // ------------------------------------------------------------------ the sweep

  lemma {:induction false} LiveSweep(w: Work, sids: seq<string>)
    requires forall s <- sids :: s in w.link
    ensures var n := Sweep(true, w, sids);
            && n.link == w.link && n.repaired == w.repaired && n.unresolved == w.unresolved
            && Grown(w.lists, n.lists, Elements(sids))
            && (forall s <- sids :: w.link[s] != "" && w.link[s] in w.lists ==> s in IdsOf(n.lists, w.link[s]))
    decreases |sids|
  {
    if sids != [] {
      var sid := sids[0];
      var m := SweepOne(true, w, sid);
      AddSessionGrows(w.lists, w.link[sid], sid);
      assert Grown(w.lists, m.lists, {sid});
      LiveSweep(m, sids[1..]);
      var n := Sweep(true, w, sids);
      GrownTransitive(w.lists, m.lists, n.lists, {sid}, Elements(sids[1..]));
      assert {sid} + Elements(sids[1..]) == Elements(sids);
      assert forall s <- sids :: s == sid || s in sids[1..];
      if w.link[sid] != "" && w.link[sid] in w.lists {
        assert Ids(m.lists[w.link[sid]]) <= Ids(n.lists[w.link[sid]]);
      }
    }
  }

  /** The list answers for session s as it did before the run. */
  ghost predicate Agrees(t: Tables, lists: Lists, s: string) {
    forall task :: task in t.lists && task in lists ==> (s in Ids(lists[task]) <==> s in Ids(t.lists[task]))
  }

  /** A session not swept yet: re-pointed and listed by the first pass, or as it was. */
  ghost predicate Unswept(t: Tables, w: Work, s: string)
    requires s in t.link && s in w.link
  {
    && (w.link[s] == t.link[s] || (Dangles(t, s) && s in IdsOf(w.lists, w.link[s])))
    && (!Dangles(t, s) ==> Agrees(t, w.lists, s))
  }

  lemma SweepOneCounts(t: Tables, w: Work, v: Work, s: string)
    requires Keyed(t) && s in t.link && w.link.Keys == t.link.Keys && v.link == t.link && v.lists == t.lists
    requires w.lists.Keys == t.lists.Keys && s in w.link && Unswept(t, w, s)
    ensures SweepOne(true, w, s).backlinked - w.backlinked == SweepOne(false, v, s).backlinked - v.backlinked
    ensures SweepOne(true, w, s).lists.Keys == t.lists.Keys
  {
    assert t.link[s] in t.lists.Keys <==> t.link[s] in w.lists.Keys;
    if w.link[s] != t.link[s] { assert w.link[s] in w.lists; }
  }

  lemma StaysUnswept(t: Tables, w: Work, sid: string, s: string)
    requires s in t.link && s in w.link && sid in w.link && s != sid && Unswept(t, w, s)
    ensures Unswept(t, SweepOne(true, w, sid), s)
  {
    AddSessionGrows(w.lists, w.link[sid], sid);
    var m := SweepOne(true, w, sid);
    assert Grown(w.lists, m.lists, {sid});
    forall task | task in t.lists && task in m.lists
      ensures s in Ids(m.lists[task]) <==> (task in w.lists && s in Ids(w.lists[task]))
    {
      assert task in w.lists.Keys;
      assert Ids(w.lists[task]) <= Ids(m.lists[task]) && GainedOnly(Ids(w.lists[task]), Ids(m.lists[task]), {sid});
    }
  }

  /** The sweeps count the same rows: a session the live run re-pointed is already listed, and every
      other one is listed after the additions for other sessions exactly when it was before them. */
  lemma {:induction false} DrySweep(t: Tables, w: Work, v: Work, sids: seq<string>)
    requires Keyed(t) && Distinct(sids) && (forall s <- sids :: s in t.link) && w.link.Keys == t.link.Keys
    requires v.link == t.link && v.lists == t.lists && w.lists.Keys == t.lists.Keys && w.backlinked == v.backlinked
    requires forall s <- sids :: s in w.link && Unswept(t, w, s)
    ensures var n, d := Sweep(true, w, sids), Sweep(false, v, sids);
            && n.backlinked == d.backlinked && d.link == t.link && d.lists == t.lists
            && d.repaired == v.repaired && d.unresolved == v.unresolved
    decreases |sids|
  {
    hide Unswept, AddSession;
    if sids != [] {
      var sid := sids[0];
      var m := SweepOne(true, w, sid);
      assert sid !in sids[1..];
      SweepOneCounts(t, w, v, sid);
      forall s | s in sids[1..] ensures s in m.link && Unswept(t, m, s) {
        assert s in sids && s != sid;
        StaysUnswept(t, w, sid, s);
      }
      DrySweep(t, m, SweepOne(false, v, sid), sids[1..]);
    }
  }

  // ------------------------------------------------------------------ the whole run

  lemma KeyedDistinct(t: Tables)
    requires Keyed(t)
    ensures Distinct(t.sids) && forall s :: s in t.link <==> s in t.sids
  {
    assert forall s :: s in t.link <==> s in t.link.Keys;
  }

  lemma PassFacts(t: Tables, backups: seq<Backup>)
    requires Keyed(t)
    ensures (forall s <- t.sids :: s in t.link) && (forall s <- Dangling(t, t.sids) :: s in t.link)
    ensures var n := RepairPass(t, backups, true, Start(t), Dangling(t, t.sids));
            && n.link.Keys == t.link.Keys && n.backlinked == 0
            && (forall s :: s in t.link ==> n.link[s] == if Dangles(t, s) then Target(t, backups, s) else t.link[s])
            && Grown(t.lists, n.lists, Elements(Dangling(t, t.sids)))
            && (forall s :: s in t.link && n.link[s] != t.link[s] ==> Dangles(t, s) && s in IdsOf(n.lists, n.link[s]))
  {
    hide Resolve;
    KeyedDistinct(t);
    var ds := Dangling(t, t.sids);
    DanglingDistinct(t, t.sids);
    LivePass(t, backups, Start(t), ds);
  }

  lemma {:induction false} SweepKeepsRepairs(live: bool, w: Work, sids: seq<string>)
    requires forall s <- sids :: s in w.link
    ensures Sweep(live, w, sids).repaired == w.repaired && Sweep(live, w, sids).unresolved == w.unresolved
    decreases |sids|
  {
    if sids != [] { SweepKeepsRepairs(live, SweepOne(live, w, sids[0]), sids[1..]); }
  }

  /** For every pair of tables and every backups, a dry run's three results are the live run's. */
  lemma DryRunPredictsLive(t: Tables, backups: seq<Backup>)
    requires Keyed(t)
    ensures var l, d := Run(t, backups, true), Run(t, backups, false);
            && d.repaired == l.repaired && d.backlinked == l.backlinked && d.unresolved == l.unresolved
            && Applied(t, d) == t
  {
    hide Resolve, RepairPass, Sweep, Unswept, Target, Dangling;
    PassFacts(t, backups);
    var ds := Dangling(t, t.sids);
    if ds != [] {
      KeyedDistinct(t);
      var n := RepairPass(t, backups, true, Start(t), ds);
      DryPass(t, backups, Start(t), Start(t), ds);
      DanglingDistinct(t, t.sids);
      forall s | s in t.sids ensures s in n.link && Unswept(t, n, s) {
        PassUnswept(t, n, ds, s);
      }
      DrySweep(t, n, RepairPass(t, backups, false, Start(t), ds), t.sids);
      SweepKeepsRepairs(true, n, t.sids);
    }
  }

  lemma PassUnswept(t: Tables, n: Work, ds: seq<string>, s: string)
    requires s in t.link && n.link.Keys == t.link.Keys && Grown(t.lists, n.lists, Elements(ds))
    requires n.link[s] != t.link[s] ==> Dangles(t, s) && s in IdsOf(n.lists, n.link[s])
    requires forall d <- ds :: d in t.link && Dangles(t, d)
    ensures s in n.link && Unswept(t, n, s)
  {
    assert s in n.link.Keys;
    if !Dangles(t, s) {
      assert s !in Elements(ds);
      forall task | task in t.lists && task in n.lists
        ensures s in Ids(n.lists[task]) <==> s in Ids(t.lists[task])
      {
        assert Ids(t.lists[task]) <= Ids(n.lists[task])
            && GainedOnly(Ids(t.lists[task]), Ids(n.lists[task]), Elements(ds));
      }
    }
  }

  /** Every session with an existing task is in that task's list. */
  ghost predicate AllListed(t: Tables) {
    forall s :: s in t.link && t.link[s] in t.lists ==> s in Ids(t.lists[t.link[s]])
  }

  lemma LiveRunMoves(t: Tables, backups: seq<Backup>)
    requires Keyed(t)
    ensures forall s <- t.sids :: s in t.link
    ensures var n := Applied(t, Run(t, backups, true));
            && Keyed(n) && n.rows == t.rows && n.link.Keys == t.link.Keys && n.lists.Keys == t.lists.Keys
            && (forall s :: s in t.link && s in n.link ==>
                  n.link[s] == if Dangles(t, s) then Target(t, backups, s) else t.link[s])
            && (forall task :: task in t.lists && task in n.lists ==> Ids(t.lists[task]) <= Ids(n.lists[task]))
            && (AllListed(n) <==> Dangling(t, t.sids) != [] || AllListed(t))
  {
    hide Resolve, RepairPass, Sweep, Target, Grown, AllListed, Dangling;
    PassFacts(t, backups);
    KeyedDistinct(t);
    DanglingDistinct(t, t.sids);
    if Dangling(t, t.sids) != [] {
      SweptRun(t, backups);
    } else {
      assert forall s :: s in t.link ==> s !in Dangling(t, t.sids);
    }
  }

  /** After a live run: only dangling sessions moved, each to a current task of its dead task's source
      holding one of its remote ids, and each that has such a task did; the lists kept every entry they
      had; and every session with an existing task is listed, exactly when something dangled or nothing
      was missing before (the script returns before its sweep otherwise). */
  lemma LiveRunRepairs(t: Tables, backups: seq<Backup>)
    requires Keyed(t)
    ensures forall s <- t.sids :: s in t.link
    ensures var n := Applied(t, Run(t, backups, true));
            && Keyed(n) && n.rows == t.rows && n.link.Keys == t.link.Keys && n.lists.Keys == t.lists.Keys
            && (forall s :: s in t.link && s in n.link ==>
                  n.link[s] == if s in DanglingSet(t) then Target(t, backups, s) else t.link[s])
            && (forall task :: task in t.lists && task in n.lists ==> Ids(t.lists[task]) <= Ids(n.lists[task]))
            && (AllListed(n) <==> DanglingSet(t) != {} || AllListed(t))
  {
    hide Resolve, Run, Target, AllListed, Dangling;
    LiveRunMoves(t, backups);
    DanglingSetIs(t);
    if Dangling(t, t.sids) != [] { assert Dangling(t, t.sids)[0] in Elements(Dangling(t, t.sids)); }
  }

  /** What a live run moves: a session that dangled and whose dead task some backup has, to an existing
      task that holds the first of its remote ids any task holds; a session it does not move either did
      not dangle or could not be resolved. */
  lemma MovedToAHolder(t: Tables, backups: seq<Backup>, sid: string)
    requires Keyed(t) && sid in t.link
    ensures var n := Applied(t, Run(t, backups, true));
            && sid in n.link
            && (n.link[sid] != t.link[sid] <==>
                  t.link[sid] != "" && t.link[sid] !in t.lists && Resolve(t.rows, backups, t.link[sid]).Current?)
            && (n.link[sid] != t.link[sid] ==>
                  && n.link[sid] in n.lists
                  && var was := BackupTask(backups, t.link[sid]);
                     && was.Some?
                     && exists k :: ChosenBy(t.rows, n.link[sid], was.value.source,
                                             RemoteIdsOf(was.value.source, was.value.ext), k))
  {
    hide Run, BackupTask, ChosenBy, RemoteIdsOf;
    LiveRunMoves(t, backups);
    ResolvesToATask(t, backups, sid, t.lists);
    ResolvesIff(t.rows, backups, t.link[sid]);
    assert sid in t.link.Keys;
  }

  lemma SweptRun(t: Tables, backups: seq<Backup>)
    requires Keyed(t) && (forall s <- t.sids :: s in t.link) && Dangling(t, t.sids) != []
    ensures var m, n := RepairPass(t, backups, true, Start(t), Dangling(t, t.sids)), Applied(t, Run(t, backups, true));
            && Keyed(n) && n.rows == t.rows && n.link == m.link
            && n.link.Keys == t.link.Keys && n.lists.Keys == t.lists.Keys
            && (forall task :: task in t.lists && task in n.lists ==> Ids(t.lists[task]) <= Ids(n.lists[task]))
            && AllListed(n)
  {
    hide Resolve, RepairPass, Sweep, Target, Dangling;
    PassFacts(t, backups);
    KeyedDistinct(t);
    var ds := Dangling(t, t.sids);
    var m := RepairPass(t, backups, true, Start(t), ds);
    var n := Sweep(true, m, t.sids);
    assert forall s <- t.sids :: s in m.link.Keys;
    LiveSweep(m, t.sids);
    GrownTransitive(t.lists, m.lists, n.lists, Elements(ds), Elements(t.sids));
    StillKeyed(t, n);
    forall s | s in n.link && n.link[s] in n.lists ensures s in Ids(n.lists[n.link[s]]) {
      assert s in t.link.Keys && n.link[s] in m.lists.Keys && n.link[s] in t.lists.Keys;
    }
  }

  lemma StillKeyed(t: Tables, n: Work)
    requires Keyed(t) && n.link.Keys == t.link.Keys && n.lists.Keys == t.lists.Keys
    ensures Keyed(Applied(t, n))
  {
    assert "" !in n.lists by { assert "" !in t.lists.Keys; }
    assert forall r <- t.rows :: r.id in n.lists by { assert forall r <- t.rows :: r.id in t.lists.Keys; }
  }

  // ------------------------------------------------------------------ a second run

  lemma {:induction false} IdleSweep(w: Work, sids: seq<string>)
    requires forall s <- sids :: s in w.link && (w.link[s] in w.lists ==> s in Ids(w.lists[w.link[s]]))
    ensures Sweep(true, w, sids) == w
    decreases |sids|
  {
    if sids != [] {
      assert sids[0] in sids;
      IdleSweep(w, sids[1..]);
    }
  }

  lemma {:induction false} IdlePass(t: Tables, backups: seq<Backup>, w: Work, sids: seq<string>)
    requires forall s <- sids :: s in t.link && Resolve(t.rows, backups, t.link[s]).Unresolved?
    ensures var n := RepairPass(t, backups, true, w, sids);
            n.link == w.link && n.lists == w.lists && n.repaired == w.repaired && n.backlinked == w.backlinked
    decreases |sids|
  {
    if sids != [] {
      assert sids[0] in sids;
      IdlePass(t, backups, RepairOne(t, backups, true, w, sids[0]), sids[1..]);
    }
  }

  /** A second live run with the same backups repairs nothing, links nothing and changes nothing. */
  lemma SecondRunWritesNothing(t: Tables, backups: seq<Backup>)
    requires Keyed(t)
    ensures var n := Applied(t, Run(t, backups, true));
            && Keyed(n)
            && var again := Run(n, backups, true);
               again.repaired == 0 && again.backlinked == 0 && Applied(n, again) == n
  {
    hide Resolve, RepairPass, Sweep;
    LiveRunMoves(t, backups);
    PassFacts(t, backups);
    KeyedDistinct(t);
    var n := Applied(t, Run(t, backups, true));
    KeyedDistinct(n);
    DanglingDistinct(t, t.sids);
    DanglingDistinct(n, n.sids);
    var ds := Dangling(n, n.sids);
    if ds != [] {
      forall s | s in ds ensures s in n.link && Resolve(n.rows, backups, n.link[s]).Unresolved? {
        StillDangling(t, n, backups, s);
      }
      var s := ds[0];
      StillDangling(t, n, backups, s);
      assert s in Dangling(t, t.sids);
      IdlePass(n, backups, Start(n), ds);
      IdleSweep(RepairPass(n, backups, true, Start(n), ds), n.sids);
    }
  }

  /** A session that dangles after the run dangled before it and has no current task. */
  lemma StillDangling(t: Tables, n: Tables, backups: seq<Backup>, s: string)
    requires Keyed(t) && Keyed(n) && s in t.link && s in n.link && Dangles(n, s) && n.rows == t.rows
    requires n.link[s] == if Dangles(t, s) then Target(t, backups, s) else t.link[s]
    requires forall task :: task in t.lists ==> task in n.lists
    ensures Dangles(t, s) && n.link[s] == t.link[s] && Resolve(n.rows, backups, n.link[s]).Unresolved?
  {
    ResolvesToATask(t, backups, s, t.lists);
  }

  // ------------------------------------------------------------------ no session is listed twice

  /** A list holds no session more often than it did, and a new one once. */
  ghost predicate AddedOnce(a: seq<string>, b: seq<string>) {
    forall s :: multiset(b)[s] <= if s in a then multiset(a)[s] else 1
  }

  ghost predicate AllOnce(a: Lists, b: Lists) {
    forall task :: task in a && task in b ==> AddedOnce(Ids(a[task]), Ids(b[task]))
  }

  lemma AddSessionOnce(lists: Lists, task: string, sid: string)
    ensures AllOnce(lists, AddSession(lists, task, sid))
  {
  }

  lemma OnceTransitive(a: Lists, b: Lists, c: Lists, x: set<string>)
    requires AllOnce(a, b) && AllOnce(b, c) && Grown(a, b, x) && b.Keys == c.Keys
    ensures AllOnce(a, c)
  {
    forall task | task in a && task in c ensures AddedOnce(Ids(a[task]), Ids(c[task])) {
      assert task in b.Keys;
      var p, q, r := Ids(a[task]), Ids(b[task]), Ids(c[task]);
      assert p <= q && AddedOnce(p, q) && AddedOnce(q, r);
      forall s ensures multiset(r)[s] <= if s in p then multiset(p)[s] else 1 {
        if s in p { InLonger(p, q, s); }
      }
    }
  }

  lemma InLonger(p: seq<string>, q: seq<string>, s: string)
    requires p <= q && s in p
    ensures s in q
  {
  }

  lemma OneStepOnce(t: Tables, backups: seq<Backup>, w: Work, sid: string)
    requires sid in t.link
    ensures var m := RepairOne(t, backups, true, w, sid); AllOnce(w.lists, m.lists) && Grown(w.lists, m.lists, {sid})
    ensures sid in w.link ==>
              var m := SweepOne(true, w, sid); AllOnce(w.lists, m.lists) && Grown(w.lists, m.lists, {sid})
  {
    hide Resolve, AddSession, AllOnce, Grown;
    forall task ensures AllOnce(w.lists, AddSession(w.lists, task, sid))
                        && Grown(w.lists, AddSession(w.lists, task, sid), {sid})
    {
      AddSessionOnce(w.lists, task, sid);
      AddSessionGrows(w.lists, task, sid);
    }
    SameOnce(w.lists, sid);
  }

  lemma SameOnce(lists: Lists, sid: string)
    ensures AllOnce(lists, lists) && Grown(lists, lists, {sid})
  {
  }

  lemma {:induction false} PassOnce(t: Tables, backups: seq<Backup>, w: Work, sids: seq<string>)
    requires forall s <- sids :: s in t.link
    ensures var n := RepairPass(t, backups, true, w, sids); AllOnce(w.lists, n.lists) && n.lists.Keys == w.lists.Keys
    decreases |sids|
  {
    hide RepairOne, AllOnce;
    if sids == [] {
      SameOnce(w.lists, "");
    } else {
      var m := RepairOne(t, backups, true, w, sids[0]);
      OneStepOnce(t, backups, w, sids[0]);
      PassOnce(t, backups, m, sids[1..]);
      OnceTransitive(w.lists, m.lists, RepairPass(t, backups, true, w, sids).lists, {sids[0]});
    }
  }

  lemma {:induction false} SweepOnce(t: Tables, w: Work, sids: seq<string>)
    requires forall s <- sids :: s in t.link && s in w.link
    ensures var n := Sweep(true, w, sids); AllOnce(w.lists, n.lists) && n.lists.Keys == w.lists.Keys
    decreases |sids|
  {
    hide AllOnce, AddSession;
    if sids == [] {
      SameOnce(w.lists, "");
    } else {
      var m := SweepOne(true, w, sids[0]);
      OneStepOnce(t, [], w, sids[0]);
      SweepOnce(t, m, sids[1..]);
      OnceTransitive(w.lists, m.lists, Sweep(true, w, sids).lists, {sids[0]});
    }
  }

  /** A live run lists no session twice in a task that did not already. */
  lemma ListedOnce(t: Tables, backups: seq<Backup>)
    requires Keyed(t)
    ensures AllOnce(t.lists, Run(t, backups, true).lists)
  {
    hide RepairPass, Sweep, AllOnce, Resolve;
    KeyedDistinct(t);
    PassFacts(t, backups);
    var ds := Dangling(t, t.sids);
    if ds == [] {
      SameOnce(t.lists, "");
    } else {
      var n := RepairPass(t, backups, true, Start(t), ds);
      assert forall s <- t.sids :: s in n.link.Keys;
      PassOnce(t, backups, Start(t), ds);
      SweepOnce(t, n, t.sids);
      OnceTransitive(t.lists, n.lists, Sweep(true, n, t.sids).lists, Elements(ds));
    }
  }

  /** What the lists gained are sessions under the very task they are linked to. */
  ghost predicate GainedOwn(a: Lists, b: Lists, link: Links) {
    forall task, s :: task in a && task in b && s in Ids(b[task]) && s !in Ids(a[task]) ==> s in link && link[s] == task
  }

  lemma {:induction false} PassGainsOwn(t: Tables, backups: seq<Backup>, w: Work, sids: seq<string>)
    requires (forall s <- sids :: s in t.link) && Distinct(sids) && w.link.Keys == t.link.Keys
    requires (forall r <- t.rows :: r.id in w.lists) && (forall s <- sids :: w.link[s] == t.link[s])
    ensures var n := RepairPass(t, backups, true, w, sids);
            GainedOwn(w.lists, n.lists, n.link) && n.lists.Keys == w.lists.Keys
    decreases |sids|
  {
    hide Resolve;
    if sids != [] {
      var sid := sids[0];
      var m, n := RepairOne(t, backups, true, w, sid), RepairPass(t, backups, true, w, sids);
      assert m.link.Keys == t.link.Keys by { assert sid in t.link.Keys; }
      assert sid !in sids[1..] && m.lists.Keys == w.lists.Keys;
      ResolvesToATask(t, backups, sid, w.lists);
      PassGainsOwn(t, backups, m, sids[1..]);
      LivePass(t, backups, m, sids[1..]);
      assert n.link[sid] == m.link[sid] by { assert sid in t.link.Keys; }
      OwnThrough(w.lists, m.lists, n.lists, n.link);
    }
  }

  lemma OwnThrough(a: Lists, b: Lists, c: Lists, link: Links)
    requires a.Keys == b.Keys == c.Keys && GainedOwn(b, c, link) && GainedOwn(a, b, link)
    ensures GainedOwn(a, c, link)
  {
    assert forall task :: task in a.Keys <==> task in b.Keys;
  }

  lemma {:induction false} SweepGainsOwn(w: Work, sids: seq<string>)
    requires forall s <- sids :: s in w.link
    ensures var n := Sweep(true, w, sids);
            GainedOwn(w.lists, n.lists, w.link) && n.lists.Keys == w.lists.Keys && n.link == w.link
    decreases |sids|
  {
    if sids != [] {
      var m := SweepOne(true, w, sids[0]);
      assert m.lists.Keys == w.lists.Keys && GainedOwn(w.lists, m.lists, w.link);
      SweepGainsOwn(m, sids[1..]);
      OwnThrough(w.lists, m.lists, Sweep(true, w, sids).lists, w.link);
    }
  }

  /** Every entry a live run adds to a list is a session under the very task it is linked to then. */
  lemma ListsGainOwn(t: Tables, backups: seq<Backup>)
    requires Keyed(t)
    ensures var w := Run(t, backups, true); GainedOwn(t.lists, w.lists, w.link)
  {
    hide RepairPass, Sweep, GainedOwn, Resolve;
    KeyedDistinct(t);
    PassFacts(t, backups);
    DanglingDistinct(t, t.sids);
    var ds := Dangling(t, t.sids);
    if ds == [] {
      NoGain(t.lists, t.link);
    } else {
      var n := RepairPass(t, backups, true, Start(t), ds);
      assert forall s <- t.sids :: s in n.link.Keys;
      PassGainsOwn(t, backups, Start(t), ds);
      SweepGainsOwn(n, t.sids);
      OwnThrough(t.lists, n.lists, Sweep(true, n, t.sids).lists, n.link);
    }
  }

  lemma NoGain(lists: Lists, link: Links)
    ensures GainedOwn(lists, lists, link)
  {
  }

  // ------------------------------------------------------------------ what a run reports

  predicate Precedes(sids: seq<string>, a: string, b: string) {
    exists i, j :: 0 <= i < j < |sids| && sids[i] == a && sids[j] == b
  }

  lemma PrecedesLater(sids: seq<string>, a: string, b: string)
    requires sids != []
    ensures Precedes(sids[1..], a, b) ==> Precedes(sids, a, b)
    ensures b in sids[1..] ==> Precedes(sids, sids[0], b)
  {
    if Precedes(sids[1..], a, b) {
      var i, j :| 0 <= i < j < |sids[1..]| && sids[1..][i] == a && sids[1..][j] == b;
      assert sids[i + 1] == a && sids[j + 1] == b;
    }
  }

  /** These sessions, each once, in the order of the list. */
  predicate InOrder(sids: seq<string>, ss: seq<string>) {
    forall i, j :: 0 <= i < j < |ss| ==> Precedes(sids, ss[i], ss[j])
  }

  lemma StillInOrder(sids: seq<string>, ss: seq<string>)
    requires sids != [] && InOrder(sids[1..], ss) && forall s <- ss :: s in sids[1..]
    ensures InOrder(sids, ss) && InOrder(sids, [sids[0]] + ss)
  {
    hide Precedes;
    var more := [sids[0]] + ss;
    forall i, j | 0 <= i < j < |ss| ensures Precedes(sids, ss[i], ss[j]) { PrecedesLater(sids, ss[i], ss[j]); }
    forall i, j | 0 <= i < j < |more| ensures Precedes(sids, more[i], more[j]) {
      assert more[j] == ss[j - 1] && more[j] in ss;
      PrecedesLater(sids, more[i], more[j]);
    }
  }

  lemma NoneInOrder()
    ensures InOrder([], [])
  {
  }

  /** The dangling sessions are taken in the order of the select. */
  lemma {:induction false} DanglingInOrder(t: Tables, sids: seq<string>)
    requires forall s <- sids :: s in t.link
    ensures InOrder(sids, Dangling(t, sids))
  {
    hide Dangles, InOrder;
    if sids == [] {
      NoneInOrder();
    } else {
      DanglingInOrder(t, sids[1..]);
      StillInOrder(sids, Dangling(t, sids[1..]));
      assert Dangling(t, sids) == Dangling(t, sids[1..]) || Dangling(t, sids) == [sids[0]] + Dangling(t, sids[1..]);
    }
  }

  /** What a run has to say of a session it could not resolve. */
  predicate Reports(t: Tables, backups: seq<Backup>, f: Failure) {
    && f.sid in t.link && f.task == t.link[f.sid]
    && Resolve(t.rows, backups, f.task) == Unresolved(f.reason)
  }

  /** The sessions of `sids` that resolve. */
  function Resolvable(t: Tables, backups: seq<Backup>, sids: seq<string>): set<string>
    requires forall s <- sids :: s in t.link
  {
    set s | s in sids && Resolve(t.rows, backups, t.link[s]).Current?
  }

  function Sids(us: seq<Failure>): (ss: seq<string>)
    ensures |ss| == |us| && forall i :: 0 <= i < |us| ==> ss[i] == us[i].sid
  {
    seq(|us|, i requires 0 <= i < |us| => us[i].sid)
  }

  /** The failures `us` are what these sessions have to say, all of it, in order. */
  ghost predicate Reported(t: Tables, backups: seq<Backup>, sids: seq<string>, us: seq<Failure>) {
    && (forall f :: f in us <==> Reports(t, backups, f) && f.sid in sids)
    && InOrder(sids, Sids(us))
  }

  /** What one session adds to the report. */
  function Said(t: Tables, backups: seq<Backup>, sid: string): seq<Failure>
    requires sid in t.link
  {
    match Resolve(t.rows, backups, t.link[sid])
    case Current(_) => []
    case Unresolved(reason) => [Failure(sid, t.link[sid], reason)]
  }

  lemma SaysMore(t: Tables, backups: seq<Backup>, live: bool, w: Work, sid: string)
    requires sid in t.link
    ensures RepairOne(t, backups, live, w, sid).unresolved == w.unresolved + Said(t, backups, sid)
  {
    hide Resolve;
  }

  lemma ReportedNext(t: Tables, backups: seq<Backup>, sids: seq<string>, later: seq<Failure>)
    requires sids != [] && sids[0] in t.link && Reported(t, backups, sids[1..], later)
    ensures Reported(t, backups, sids, Said(t, backups, sids[0]) + later)
  {
    hide Resolve, Precedes, InOrder;
    var sid := sids[0];
    assert forall s :: s in sids <==> s == sid || s in sids[1..];
    forall s | s in Sids(later) ensures s in sids[1..] {
      var i :| 0 <= i < |later| && later[i].sid == s;
      assert later[i] in later;
    }
    StillInOrder(sids, Sids(later));
    if Resolve(t.rows, backups, t.link[sid]).Unresolved? {
      var f := Failure(sid, t.link[sid], Resolve(t.rows, backups, t.link[sid]).reason);
      assert Sids([f] + later) == [sid] + Sids(later);
      assert forall g :: g in [f] + later <==> g == f || g in later;
    } else {
      assert Said(t, backups, sid) + later == later;
    }
  }

  lemma {:induction false} PassReports(t: Tables, backups: seq<Backup>, live: bool, w: Work, sids: seq<string>)
    requires forall s <- sids :: s in t.link
    ensures exists us :: RepairPass(t, backups, live, w, sids).unresolved == w.unresolved + us
                         && Reported(t, backups, sids, us)
    decreases |sids|
  {
    hide Resolve, Reported, RepairOne, Said;
    if sids == [] {
      NoneReported(t, backups);
      assert w.unresolved + [] == w.unresolved;
    } else {
      var m := RepairOne(t, backups, live, w, sids[0]);
      PassReports(t, backups, live, m, sids[1..]);
      SaysMore(t, backups, live, w, sids[0]);
      var later :| RepairPass(t, backups, live, m, sids[1..]).unresolved == m.unresolved + later
                   && Reported(t, backups, sids[1..], later);
      ReportedNext(t, backups, sids, later);
      var said := Said(t, backups, sids[0]);
      assert w.unresolved + said + later == w.unresolved + (said + later);
    }
  }

  lemma NoneReported(t: Tables, backups: seq<Backup>)
    ensures Reported(t, backups, [], [])
  {
  }

  lemma {:induction false} PassCounts(t: Tables, backups: seq<Backup>, live: bool, w: Work, sids: seq<string>)
    requires (forall s <- sids :: s in t.link) && Distinct(sids)
    ensures var n := RepairPass(t, backups, live, w, sids);
            && n.repaired == w.repaired + |Resolvable(t, backups, sids)|
            && n.repaired + |n.unresolved| == w.repaired + |w.unresolved| + |sids|
    decreases |sids|
  {
    hide Resolve;
    if sids != [] {
      PassCounts(t, backups, live, RepairOne(t, backups, live, w, sids[0]), sids[1..]);
      assert sids[0] !in sids[1..] && forall s :: s in sids <==> s == sids[0] || s in sids[1..];
      var some := Resolvable(t, backups, sids[1..]);
      assert Resolvable(t, backups, sids)
          == if Resolve(t.rows, backups, t.link[sids[0]]).Current? then some + {sids[0]} else some;
    }
  }

  /** The sessions that have a task whose list misses them. */
  function Missing(link: Links, lists: Lists, sids: seq<string>): set<string>
    requires forall s <- sids :: s in link
  {
    set s | s in sids && link[s] != "" && link[s] in lists && s !in Ids(lists[link[s]])
  }

  lemma {:induction false} DrySweepCounts(w: Work, sids: seq<string>)
    requires (forall s <- sids :: s in w.link) && Distinct(sids)
    ensures Sweep(false, w, sids).backlinked == w.backlinked + |Missing(w.link, w.lists, sids)|
    decreases |sids|
  {
    if sids != [] {
      DrySweepCounts(SweepOne(false, w, sids[0]), sids[1..]);
      assert sids[0] !in sids[1..] && forall s :: s in sids <==> s == sids[0] || s in sids[1..];
      var some := Missing(w.link, w.lists, sids[1..]);
      assert Missing(w.link, w.lists, sids) == some + {sids[0]} || Missing(w.link, w.lists, sids) == some;
    }
  }

  /** The dangling sessions of the table. */
  function DanglingSet(t: Tables): set<string> { set s | s in t.link && t.link[s] != "" && t.link[s] !in t.lists }

  /** What the sweep leaves of the first pass. */
  lemma RunOfPass(t: Tables, backups: seq<Backup>, live: bool)
    requires Keyed(t)
    ensures forall s <- t.sids :: s in t.link
    ensures var n := RepairPass(t, backups, live, Start(t), Dangling(t, t.sids));
            Run(t, backups, live).unresolved == n.unresolved && Run(t, backups, live).repaired == n.repaired
  {
    hide Resolve, RepairOne, SweepOne, Dangles;
    KeyedDistinct(t);
    var ds := Dangling(t, t.sids);
    if ds != [] {
      var n := RepairPass(t, backups, live, Start(t), ds);
      RepairKeepsKeys(t, backups, live, Start(t), ds);
      assert forall s <- t.sids :: s in n.link.Keys;
      SweepKeepsRepairs(live, n, t.sids);
    }
  }

  /** A run, dry or live, reports exactly the dangling sessions that do not resolve, each once, in the order of
      the select, with its dead task and why. */
  lemma UnresolvedIff(t: Tables, backups: seq<Backup>, live: bool)
    requires Keyed(t)
    ensures var us := Run(t, backups, live).unresolved;
            && (forall f :: f in us <==> Reports(t, backups, f) && f.sid in DanglingSet(t))
            && InOrder(t.sids, Sids(us))
  {
    hide Resolve, Precedes, InOrder, RepairPass, Run, Dangling, Dangles, DanglingSet;
    KeyedDistinct(t);
    RunOfPass(t, backups, live);
    DanglingSetIs(t);
    var ds := Dangling(t, t.sids);
    PassReports(t, backups, live, Start(t), ds);
    var us :| RepairPass(t, backups, live, Start(t), ds).unresolved == Start(t).unresolved + us
              && Reported(t, backups, ds, us);
    assert us == Run(t, backups, live).unresolved;
    DanglingInOrder(t, t.sids);
    OrderThrough(t.sids, ds, Sids(us));
  }

  /** It repairs the others; and where anything dangled it counts as linked back exactly the sessions that have
      a task whose list missed them. */
  lemma CountsIff(t: Tables, backups: seq<Backup>, live: bool)
    requires Keyed(t)
    ensures forall s <- t.sids :: s in t.link
    ensures var w := Run(t, backups, live);
            && w.repaired == |set s | s in DanglingSet(t) && Resolve(t.rows, backups, t.link[s]).Current?|
            && w.repaired + |w.unresolved| == |DanglingSet(t)|
            && w.backlinked == if DanglingSet(t) == {} then 0 else |Missing(t.link, t.lists, t.sids)|
  {
    hide Resolve, RepairPass, Sweep, Dangles, Missing, DanglingSet, Run;
    KeyedDistinct(t);
    RunOfPass(t, backups, live);
    DanglingDistinct(t, t.sids);
    var ds := Dangling(t, t.sids);
    DistinctSize(ds);
    DanglingSetIs(t);
    PassCounts(t, backups, live, Start(t), ds);
    assert Resolvable(t, backups, ds) == set s | s in DanglingSet(t) && Resolve(t.rows, backups, t.link[s]).Current?;
    if ds != [] {
      assert ds[0] in DanglingSet(t);
      DryBacklinks(t, backups);
      DryRunPredictsLive(t, backups);
    } else {
      NothingDangles(t, backups, live);
    }
  }

  lemma NothingDangles(t: Tables, backups: seq<Backup>, live: bool)
    requires Keyed(t) && (forall s <- t.sids :: s in t.link) && Dangling(t, t.sids) == []
    ensures Run(t, backups, live) == Start(t)
  {
  }

  lemma DanglingSetIs(t: Tables)
    requires Keyed(t) && forall s <- t.sids :: s in t.link
    ensures DanglingSet(t) == Elements(Dangling(t, t.sids))
  {
    KeyedDistinct(t);
    DanglingDistinct(t, t.sids);
  }

  /** In the order of a list that is in the order of another. */
  lemma OrderThrough(sids: seq<string>, ds: seq<string>, ss: seq<string>)
    requires InOrder(sids, ds) && InOrder(ds, ss)
    ensures InOrder(sids, ss)
  {
    forall i, j | 0 <= i < j < |ss| ensures Precedes(sids, ss[i], ss[j]) {
      var a, b :| 0 <= a < b < |ds| && ds[a] == ss[i] && ds[b] == ss[j];
      assert Precedes(sids, ds[a], ds[b]);
    }
  }

  lemma {:induction false} DistinctSize(ss: seq<string>)
    requires Distinct(ss)
    ensures |Elements(ss)| == |ss|
  {
    if ss != [] {
      DistinctSize(ss[1..]);
      assert Elements(ss) == Elements(ss[1..]) + {ss[0]} && ss[0] !in ss[1..];
    }
  }

  lemma DryBacklinks(t: Tables, backups: seq<Backup>)
    requires Keyed(t) && (forall s <- t.sids :: s in t.link) && Dangling(t, t.sids) != []
    ensures Run(t, backups, false).backlinked == |Missing(t.link, t.lists, t.sids)|
  {
    hide Resolve, RepairPass, Sweep;
    KeyedDistinct(t);
    DryPass(t, backups, Start(t), Start(t), Dangling(t, t.sids));
    DrySweepCounts(RepairPass(t, backups, false, Start(t), Dangling(t, t.sids)), t.sids);
  }
}
