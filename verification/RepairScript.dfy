/** The script's own loops over its two databases, each against the specification in RepairLinks. */
module RepairScript {
  import opened Options
  import opened RepairLinks

  class Databases {
    const before: Tables                 // as opened
    const backups: seq<Backup>           // newest first
    var link: Links                      // sessions.task_id
    var lists: Lists                     // tasks.session_ids
    var repaired: nat
    var backlinked: nat
    var unresolved: seq<Failure>

    function View(): Work
      reads this
    {
      Work(link, lists, repaired, backlinked, unresolved)
    }

    constructor (t: Tables, bs: seq<Backup>)
      ensures before == t && backups == bs && View() == Start(t)
    {
      before, backups := t, bs;
      link, lists, repaired, backlinked, unresolved := t.link, t.lists, 0, 0, [];
    }

    method GetBackupTask(task: string) returns (row: Option<TaskRow>)
      ensures row == BackupTask(backups, task)
    {
      var i := 0;
      while i < |backups|
        invariant 0 <= i <= |backups|
        invariant BackupTask(backups, task) == BackupTask(backups[i..], task)
      {
        if task in backups[i] { return Some(backups[i][task]); }
        i := i + 1;
      }
      return None;
    }

    method FindToday(source: string, rids: seq<string>) returns (current: Option<string>)
      ensures current == FindAny(before.rows, source, rids)
    {
      current := None;
      var i := 0;
      while i < |rids|
        invariant 0 <= i <= |rids|
        invariant current.None?
        invariant FindAny(before.rows, source, rids) == FindAny(before.rows, source, rids[i..])
      {
        current := FindByRemoteId(before.rows, source, rids[i]);
        if current.Some? { return; }
        i := i + 1;
      }
    }

    method AddSessionToTask(task: string, sid: string)
      modifies this`lists
      ensures lists == AddSession(old(lists), task, sid)
    {
      if task !in lists { return; }
      var ids := Ids(lists[task]);
      if sid in ids { return; }
      ids := ids + [sid];
      lists := lists[task := Parsed(ids)];
    }

    method RepairSession(sid: string, live: bool)
      requires sid in before.link
      modifies this
      ensures View() == RepairOne(before, backups, live, old(View()), sid)
    {
      var task := before.link[sid];
      var was := GetBackupTask(task);
      if was.None? {
        unresolved := unresolved + [Failure(sid, task, NotInBackup)];
        return;
      }
      var rids := RemoteIdsOf(was.value.source, was.value.ext);
      if rids == [] {
        unresolved := unresolved + [Failure(sid, task, NoRemoteId)];
        return;
      }
      var current := FindToday(was.value.source, rids);
      if current.None? {
        unresolved := unresolved + [Failure(sid, task, NotHeldToday)];
        return;
      }
      if live {
        link := link[sid := current.value];
        AddSessionToTask(current.value, sid);
      }
      repaired := repaired + 1;
    }

    method SweepSession(sid: string, live: bool)
      requires sid in link
      modifies this`lists, this`backlinked
      ensures View() == SweepOne(live, old(View()), sid)
    {
      var task := link[sid];
      if task == "" || task !in lists { return; }
      if sid in Ids(lists[task]) { return; }
      if live { AddSessionToTask(task, sid); }
      backlinked := backlinked + 1;
    }

    static lemma DanglingFrom(t: Tables, sids: seq<string>, i: nat, found: seq<string>)
      requires (forall s <- sids :: s in t.link) && i < |sids|
      ensures found + Dangling(t, sids[i..])
           == (if Dangles(t, sids[i]) then found + [sids[i]] else found) + Dangling(t, sids[i + 1..])
    {
      assert sids[i..][1..] == sids[i + 1..];
    }

    static lemma DanglingNone(t: Tables)
      ensures Dangling(t, []) == []
    {
    }

    method FindDangling() returns (dangling: seq<string>)
      requires forall s <- before.sids :: s in before.link
      ensures dangling == Dangling(before, before.sids)
    {
      hide Dangling, Dangles;
      dangling := [];
      var i := 0;
      DanglingNone(before);
      assert before.sids[0..] == before.sids && before.sids[|before.sids|..] == [];
      while i < |before.sids|
        invariant 0 <= i <= |before.sids|
        invariant dangling + Dangling(before, before.sids[i..]) == Dangling(before, before.sids)
      {
        DanglingFrom(before, before.sids, i, dangling);
        if Dangles(before, before.sids[i]) { dangling := dangling + [before.sids[i]]; }
        i := i + 1;
      }
    }

    method RunScript(live: bool)
      requires View() == Start(before) && Keyed(before)
      modifies this
      ensures View() == Run(before, backups, live)
    {
      assert forall s <- before.sids :: s in before.link.Keys;
      var dangling := FindDangling();
      if dangling == [] { return; }
      var i := 0;
      while i < |dangling|
        invariant 0 <= i <= |dangling|
        invariant RepairPass(before, backups, live, View(), dangling[i..])
               == RepairPass(before, backups, live, Start(before), dangling)
      {
        RepairSession(dangling[i], live);
        assert dangling[i..][1..] == dangling[i + 1..];
        i := i + 1;
      }
      RepairKeepsKeys(before, backups, live, Start(before), dangling);
      ghost var passed := View();
      i := 0;
      while i < |before.sids|
        invariant 0 <= i <= |before.sids|
        invariant link == passed.link
        invariant Sweep(live, View(), before.sids[i..]) == Sweep(live, passed, before.sids)
      {
        SweepSession(before.sids[i], live);
        assert before.sids[i..][1..] == before.sids[i + 1..];
        i := i + 1;
      }
    }
  }
}
