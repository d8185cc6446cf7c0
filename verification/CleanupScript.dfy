/** The cleanup script's own loops over the tasks it read and both stores, each against its specification. */
module CleanupScript {
  import opened Options
  import opened DuplicateGroups
  import opened DuplicateSurvivor
  import opened TaskMerge
  import opened TaskMergeProofs
  import opened DuplicateRun

  /** How many groups hold several tasks. */
  function Crowded(g: Groups, keys: seq<string>): nat
    requires forall k <- keys :: k in g.at
  {
    if keys == [] then 0
    else Crowded(g, keys[..|keys| - 1]) + if |g.at[keys[|keys| - 1]]| > 1 then 1 else 0
  }

  /** The listed tasks the run looks at. */
  function Chosen(listed: seq<Task>, onlyTitle: Option<string>): (ms: seq<Task>)
    ensures forall t :: t in ms <==> t in listed && t.source == "ms-todo"
                                     && (onlyTitle.None? || onlyTitle.value == "" || t.title == onlyTitle.value)
  {
    if listed == [] then []
    else
      var init, last := listed[..|listed| - 1], listed[|listed| - 1];
      assert listed == init + [last];
      Chosen(init, onlyTitle) + if Wanted(last, onlyTitle) then [last] else []
  }

  function CrowdedGroups(ms: seq<Task>): nat {
    AllGroupsLay(ms);
    Crowded(AllGroups(ms), AllGroups(ms).keys)
  }

  class Cleanup {
    const locale: Collation
    const fates: Fates
    const order: seq<string>
    var tasks: map<string, Task>
    var rows: map<string, Row>
    var groupsMerged: nat
    var victimsMerged: nat

    function View(): Store
      reads this
    {
      Store(tasks, rows, order)
    }

    constructor (s: Store, locale: Collation, fates: Fates)
      ensures View() == s && this.locale == locale && this.fates == fates
      ensures groupsMerged == victimsMerged == 0
    {
      this.locale, this.fates, order := locale, fates, s.order;
      tasks, rows, groupsMerged, victimsMerged := s.tasks, s.rows, 0, 0;
    }

    static method GroupBy(ms: seq<Task>, pass: Pass) returns (g: Groups)
      ensures g == Grouped(ms, pass)
    {
      g := Groups([], map[]);
      var i := 0;
      while i < |ms|
        invariant 0 <= i <= |ms|
        invariant g == Grouped(ms[..i], pass)
      {
        var key := KeyOf(pass, ms[i]);
        GroupedSnoc(ms[..i], ms[i], pass);
        assert ms[..i] + [ms[i]] == ms[..i + 1];
        if key.Some? { g := Push(g, key.value, ms[i]); }
        i := i + 1;
      }
      assert ms[..|ms|] == ms;
    }

    static lemma GroupedSnoc(ts: seq<Task>, t: Task, pass: Pass)
      ensures Grouped(ts + [t], pass)
           == if KeyOf(pass, t).None? then Grouped(ts, pass) else Push(Grouped(ts, pass), KeyOf(pass, t).value, t)
    {
      hide With, KeysOf, KeyOf;
      var before, after := Grouped(ts, pass), Grouped(ts + [t], pass);
      var key := KeyOf(pass, t);
      KeysSnoc(ts, t, pass);
      forall k | k in after.at
        ensures key != Some(k) ==> k in before.at && after.at[k] == before.at[k]
        ensures key == Some(k) ==> after.at[k] == if k in before.at then before.at[k] + [t] else [t]
      {
        WithSnoc(ts, t, pass, k);
      }
      hide Grouped;
      Pushed(before, after, key, t);
    }

    static lemma Pushed(before: Groups, after: Groups, key: Option<string>, t: Task)
      requires before.at.Keys == (set k | k in before.keys) && after.at.Keys == (set k | k in after.keys)
      requires after.keys == if key.None? || key.value in before.keys then before.keys else before.keys + [key.value]
      requires forall k <- after.at ::
        && (key != Some(k) ==> k in before.at && after.at[k] == before.at[k])
        && (key == Some(k) ==> after.at[k] == if k in before.at then before.at[k] + [t] else [t])
      ensures after == if key.None? then before else Push(before, key.value, t)
    {
      assert forall k :: k in after.at.Keys <==> k in after.keys;
      assert forall k :: k in before.at.Keys <==> k in before.keys;
    }

    static lemma WithSnoc(ts: seq<Task>, t: Task, pass: Pass, key: string)
      ensures With(ts + [t], pass, key) ==
              if KeyOf(pass, t) != Some(key) then With(ts, pass, key)
              else if key in KeysOf(ts, pass) then With(ts, pass, key) + [t] else [t]
    {
      hide With, KeysOf, KeyOf;
      WithAppend(ts, t, pass, key);
      assert With(ts, pass, key) + [] == With(ts, pass, key) && [] + [t] == [t];
      if With(ts, pass, key) != [] { HasKey(ts, pass, key); }
    }

    static lemma KeysSnoc(ts: seq<Task>, t: Task, pass: Pass)
      ensures KeysOf(ts + [t], pass)
           == if KeyOf(pass, t).None? || KeyOf(pass, t).value in KeysOf(ts, pass) then KeysOf(ts, pass)
              else KeysOf(ts, pass) + [KeyOf(pass, t).value]
    {
      assert (ts + [t])[..|ts|] == ts;
    }

    static lemma HasKey(ts: seq<Task>, pass: Pass, key: string)
      requires With(ts, pass, key) != []
      ensures key in KeysOf(ts, pass)
    {
      hide With, KeysOf;
      assert With(ts, pass, key)[0] in With(ts, pass, key);
    }

    /** The members of the remote-id groups among `rids`. */
    static function SeenAmong(ms: seq<Task>, rids: seq<string>): set<string> {
      set t | t in ms && KeyOf(ByRemoteId, t).Some? && KeyOf(ByRemoteId, t).value in rids
              && Duplicated(ms, KeyOf(ByRemoteId, t).value) :: t.id
    }

    static lemma SeenSnoc(ms: seq<Task>, rids: seq<string>, rid: string)
      ensures SeenAmong(ms, rids + [rid])
           == SeenAmong(ms, rids) + if Duplicated(ms, rid) then set m | m in With(ms, ByRemoteId, rid) :: m.id else {}
    {
      hide With, KeyOf, Duplicated;
      assert forall r :: r in rids + [rid] <==> r in rids || r == rid;
    }

    static lemma SeenAll(ms: seq<Task>)
      ensures SeenAmong(ms, KeysOf(ms, ByRemoteId)) == SeenInPass1(ms)
    {
      hide With, KeyOf, Duplicated, KeysOf;
    }

    static method SeenTwice(ms: seq<Task>, byRemoteId: Groups) returns (seen: set<string>)
      requires byRemoteId == Grouped(ms, ByRemoteId)
      ensures seen == SeenInPass1(ms)
    {
      hide With, KeysOf, SeenInPass1;
      seen := {};
      var rids := byRemoteId.keys;
      var i := 0;
      while i < |rids|
        invariant 0 <= i <= |rids|
        invariant seen == SeenAmong(ms, rids[..i])
      {
        var members := byRemoteId.at[rids[i]];
        SeenSnoc(ms, rids[..i], rids[i]);
        assert rids[..i] + [rids[i]] == rids[..i + 1];
        if |members| > 1 { seen := seen + set m | m in members :: m.id; }
        i := i + 1;
      }
      assert rids[..i] == rids;
      SeenAll(ms);
    }

    static method GroupTasks(ms: seq<Task>) returns (g: Groups)
      ensures g == AllGroups(ms)
    {
      hide With, KeysOf;
      var byRemoteId := GroupBy(ms, ByRemoteId);
      var seen := SeenTwice(ms, byRemoteId);
      var titles := GroupBy(ms, ByTitle(seen));
      g := titles;
      var i := 0;
      while i < |byRemoteId.keys|
        invariant 0 <= i <= |byRemoteId.keys|
        invariant g == Overlay(titles, ms, byRemoteId.keys[..i])
      {
        assert byRemoteId.keys[..i + 1] == byRemoteId.keys[..i] + [byRemoteId.keys[i]];
        var rid := byRemoteId.keys[i];
        if |byRemoteId.at[rid]| > 1 { g := Put(g, RemoteKey(rid), byRemoteId.at[rid]); }
        i := i + 1;
      }
      assert byRemoteId.keys[..i] == byRemoteId.keys;
    }

    method Rehome(from: string, to: string)
      modifies this`tasks
      ensures tasks == map id | id in old(tasks) :: Rehomed(old(tasks)[id], from, to)
    {
      var todo := tasks.Keys;
      while todo != {}
        invariant todo <= tasks.Keys == old(tasks).Keys
        invariant forall id <- tasks ::
                    tasks[id] == if id in todo then old(tasks)[id] else Rehomed(old(tasks)[id], from, to)
        decreases |todo|
      {
        var id :| id in todo;
        if tasks[id].parent == Some(from) { tasks := tasks[id := tasks[id].(parent := Some(to))]; }
        todo := todo - {id};
      }
    }

    method MoveRows(ms: seq<Move>)
      modifies this`rows
      ensures rows == MoveAll(old(rows), ms)
    {
      var i := 0;
      while i < |ms|
        invariant 0 <= i <= |ms|
        invariant MoveAll(rows, ms[i..]) == MoveAll(old(rows), ms)
      {
        var m := ms[i];
        assert ms[i..][1..] == ms[i + 1..];
        if m.sid in rows {
          var to := if m.to == "" || Taken(rows, m.to, m.sid) then "" else m.to;
          rows := rows[m.sid := rows[m.sid].(task := to)];
        }
        i := i + 1;
      }
    }

    method MergeTaskInto(survivor: string, victim: string) returns (ok: bool)
      requires Keyed(View())
      modifies this`tasks, this`rows
      ensures View() == Merge(old(View()), survivor, victim, fates(victim))
      ensures ok == Merged(old(View()), survivor, victim, fates(victim))
    {
      hide MergedTasks, MergedTask, MoveAll, Moves, Rehomed;
      if survivor == victim || survivor !in tasks || victim !in tasks || fates(victim).Refuses? { return false; }
      ghost var before := View();
      var t, v := tasks[survivor], tasks[victim];
      var moves := Moves(View(), t, v);
      tasks := tasks[survivor := MergedTask(View(), t, v)];
      Rehome(victim, survivor);
      tasks := map id | id in tasks && id != victim :: tasks[id];
      Together(before, t, v);
      MoveRows(Upto(moves, fates(victim).limit));
      return true;
    }

    static lemma Together(s: Store, t: Task, v: Task)
      requires Keyed(s) && t.id != v.id && t.id in s.tasks
      ensures var edited := s.tasks[t.id := MergedTask(s, t, v)];
              var moved := map id | id in edited :: Rehomed(edited[id], v.id, t.id);
              (map id | id in moved && id != v.id :: moved[id]) == MergedTasks(s, t, v)
    {
      hide MergedTask, Rehomed;
    }

    /** One group: nothing for a single task; otherwise its survivor, then each victim. */
    method MergeGroup(members: seq<Task>, live: bool)
      requires Keyed(View())
      modifies this
      ensures groupsMerged == old(groupsMerged) + if |members| > 1 then 1 else 0
      ensures Keyed(View())
      ensures var ps := PairsOf(locale, members);
              if live
              then && View() == RunPlan(old(View()), ps, fates)
                   && victimsMerged == old(victimsMerged) + Succeeded(old(View()), ps, fates)
              else View() == old(View()) && victimsMerged == old(victimsMerged) + |ps|
    {
      hide Merge, RunPlan, Succeeded, Keyed, Merged, PairsOf, Sorted;
      NoMerges(View(), fates);
      PairsAt(locale, members);
      if |members| <= 1 { return; }
      var sorted := Sorted(locale, members);
      ghost var ps := PairsOf(locale, members);
      var survivor, i := sorted[0], 1;
      while i < |sorted|
        invariant 1 <= i <= |sorted|
        invariant Keyed(View()) && groupsMerged == old(groupsMerged)
        invariant live ==> View() == RunPlan(old(View()), ps[..i - 1], fates)
        invariant live ==> victimsMerged == old(victimsMerged) + Succeeded(old(View()), ps[..i - 1], fates)
        invariant !live ==> View() == old(View()) && victimsMerged == old(victimsMerged) + i - 1
      {
        var victim := sorted[i];
        assert ps[i - 1] == Pair(survivor, victim) && ps[..i] == ps[..i - 1] + [ps[i - 1]];
        if live {
          RunSnoc(old(View()), ps[..i - 1], ps[i - 1], fates);
          MergeStaysKeyed(View(), survivor.id, victim.id, fates(victim.id));
          var ok := MergeTaskInto(survivor.id, victim.id);
          if ok { victimsMerged := victimsMerged + 1; }
        } else {
          victimsMerged := victimsMerged + 1;
        }
        i := i + 1;
      }
      assert ps[..|ps|] == ps;
      groupsMerged := groupsMerged + 1;
    }

    static lemma PairsAt(c: Collation, ms: seq<Task>)
      ensures |ms| <= 1 ==> PairsOf(c, ms) == []
      ensures |ms| > 1 ==> |PairsOf(c, ms)| == |ms| - 1
      ensures forall i :: 1 <= i < |ms| ==> PairsOf(c, ms)[i - 1] == Pair(Sorted(c, ms)[0], Sorted(c, ms)[i])
    {
      hide Sorted;
    }

    static lemma NoMerges(s: Store, fates: Fates)
      ensures RunPlan(s, [], fates) == s && Succeeded(s, [], fates) == 0
    {
    }

    method MergeGroups(g: Groups, live: bool)
      requires Keyed(View()) && groupsMerged == victimsMerged == 0 && forall k <- g.keys :: k in g.at
      modifies this
      ensures groupsMerged == Crowded(g, g.keys)
      ensures var ps := Plan(locale, g, g.keys);
              if live
              then View() == RunPlan(old(View()), ps, fates) && victimsMerged == Succeeded(old(View()), ps, fates)
              else View() == old(View()) && victimsMerged == |ps|
    {
      hide *;
      ghost var plan := [];
      NoMerges(View(), fates);
      NoKeys(locale, g);
      var i := 0;
      while i < |g.keys|
        invariant 0 <= i <= |g.keys|
        invariant plan == Plan(locale, g, g.keys[..i])
        invariant Keyed(View()) && groupsMerged == Crowded(g, g.keys[..i])
        invariant live ==> View() == RunPlan(old(View()), plan, fates)
        invariant live ==> victimsMerged == Succeeded(old(View()), plan, fates)
        invariant !live ==> View() == old(View()) && victimsMerged == |plan|
      {
        var members := g.at[g.keys[i]];
        PlanSnoc(locale, g, g.keys, i);
        RunSplit(old(View()), plan, PairsOf(locale, members), fates);
        MergeGroup(members, live);
        plan := plan + PairsOf(locale, members);
        i := i + 1;
      }
      assert g.keys[..|g.keys|] == g.keys;
    }

    /** The whole script: a live run makes every merge of the plan, a dry run only counts them. */
    method Run(listed: seq<Task>, onlyTitle: Option<string>, live: bool)
      requires Keyed(View()) && groupsMerged == victimsMerged == 0
      modifies this
      ensures var ms := Chosen(listed, onlyTitle);
              && groupsMerged == CrowdedGroups(ms)
              && if live
                 then && View() == RunPlan(old(View()), WholePlan(locale, ms), fates)
                      && victimsMerged == Succeeded(old(View()), WholePlan(locale, ms), fates)
                 else View() == old(View()) && victimsMerged == |WholePlan(locale, ms)|
    {
      hide Chosen, AllGroups, RunPlan, Succeeded, Keyed, Plan, Crowded;
      var ms := Filter(listed, onlyTitle);
      var g := GroupTasks(ms);
      AllGroupsLay(ms);
      MergeGroups(g, live);
    }

    static lemma NoKeys(c: Collation, g: Groups)
      ensures Plan(c, g, []) == [] && Crowded(g, []) == 0
    {
    }

    static lemma PlanSnoc(c: Collation, g: Groups, keys: seq<string>, i: int)
      requires 0 <= i < |keys| && forall k <- keys :: k in g.at
      ensures Plan(c, g, keys[..i + 1]) == Plan(c, g, keys[..i]) + PairsOf(c, g.at[keys[i]])
      ensures Crowded(g, keys[..i + 1]) == Crowded(g, keys[..i]) + if |g.at[keys[i]]| > 1 then 1 else 0
    {
      assert keys[..i + 1][..i] == keys[..i];
    }

    static lemma {:induction false} RunSplit(s: Store, a: seq<Pair>, b: seq<Pair>, fates: Fates)
      ensures RunPlan(s, a + b, fates) == RunPlan(RunPlan(s, a, fates), b, fates)
      ensures Succeeded(s, a + b, fates) == Succeeded(s, a, fates) + Succeeded(RunPlan(s, a, fates), b, fates)
      decreases |a|
    {
      hide Merge, Merged;
      if a == [] {
        assert a + b == b;
      } else {
        assert (a + b)[0] == a[0] && (a + b)[1..] == a[1..] + b;
        RunSplit(Merge(s, a[0].survivor.id, a[0].victim.id, fates(a[0].victim.id)), a[1..], b, fates);
      }
    }

    static method Filter(listed: seq<Task>, onlyTitle: Option<string>) returns (ms: seq<Task>)
      ensures ms == Chosen(listed, onlyTitle)
    {
      ms := [];
      var i := 0;
      while i < |listed|
        invariant 0 <= i <= |listed|
        invariant ms == Chosen(listed[..i], onlyTitle)
      {
        assert listed[..i + 1][..i] == listed[..i];
        if Wanted(listed[i], onlyTitle) { ms := ms + [listed[i]]; }
        i := i + 1;
      }
      assert listed[..i] == listed;
    }
  }

  /** Two tasks hold one remote id, or have one project and title as far as their key tells. */
  predicate Copies(t: Task, u: Task) {
    || (t.remoteId.Some? && t.remoteId.value != "" && t.remoteId == u.remoteId)
    || t.project + "::" + t.title == u.project + "::" + u.title
  }

  lemma {:induction false} ChosenDistinct(listed: seq<Task>, onlyTitle: Option<string>)
    requires DistinctIds(listed)
    ensures DistinctIds(Chosen(listed, onlyTitle))
  {
    hide Wanted;
    if listed != [] {
      var init, last := listed[..|listed| - 1], listed[|listed| - 1];
      ChosenDistinct(init, onlyTitle);
      forall t | t in Chosen(init, onlyTitle) ensures t.id != last.id {
        var k :| 0 <= k < |init| && init[k] == t;
        assert listed[k] == t;
      }
    }
  }

  /** Whatever a run merges is a listed Microsoft To Do task, of the title asked for where one was, into another
      that it is a copy of. */
  lemma OnlyCopiesAreMerged(c: Collation, listed: seq<Task>, onlyTitle: Option<string>, p: Pair)
    requires DistinctIds(listed) && p in WholePlan(c, Chosen(listed, onlyTitle))
    ensures p.survivor in listed && p.victim in listed && p.survivor.id != p.victim.id
    ensures p.survivor.source == "ms-todo" && p.victim.source == "ms-todo"
    ensures onlyTitle.Some? && onlyTitle.value != "" ==>
              p.survivor.title == onlyTitle.value && p.victim.title == onlyTitle.value
    ensures Copies(p.survivor, p.victim)
  {
    hide WholePlan, Chosen, AllGroups, Survivor, Sound, TitleReplaced;
    var ms := Chosen(listed, onlyTitle);
    ChosenDistinct(listed, onlyTitle);
    WholePlanIsSound(c, ms);
    var g := AllGroups(ms);
    var k :| k in g.keys && k in g.at && |g.at[k]| > 1 && p.survivor == Survivor(c, g.at[k])
             && p.victim in g.at[k] && p.victim != p.survivor;
    SurvivorIn(c, g.at[k]);
    ShareAGroupIff(ms, p.survivor, p.victim);
    TwoTasks(ms, p.survivor, p.victim);
  }

  lemma TwoTasks(ms: seq<Task>, t: Task, u: Task)
    requires DistinctIds(ms) && t in ms && u in ms && t != u
    ensures t.id != u.id
  {
  }

  /** A live run over tasks that are all stored, whatever becomes of each merge: no session a task named is
      lost; only victims go, each whose merge was written; no session is left on one unless a merge's row
      writes were cut short; and the dry run's count is reached exactly when no merge refuses. */
  lemma LiveRun(s: Store, c: Collation, ms: seq<Task>, fates: Fates)
    requires Keyed(s) && DistinctIds(ms) && forall t <- ms :: t.id in s.tasks
    ensures var ps, n := WholePlan(c, ms), RunPlan(s, WholePlan(c, ms), fates);
            && Keyed(n)
            && Mentioned(s.tasks) <= Mentioned(n.tasks) <= Mentioned(s.tasks) + s.rows.Keys
            && n.tasks.Keys == s.tasks.Keys - Removed(ps, fates)
            && (forall p <- ps :: p.survivor.id in n.tasks)
            && (Placed(n) <==> Placed(s) && Uncut(s, ps, fates))
            && (Succeeded(s, ps, fates) == |ps| <==> forall i :: 0 <= i < |ps| ==> fates(ps[i].victim.id).Writes?)
  {
    hide WholePlan, RunPlan, Sound, Mentioned, Removed, Placed, Uncut, Succeeded, Keyed, Merges;
    var ps := WholePlan(c, ms);
    WholePlanIsSound(c, ms);
    assert Present(s, ps) by {
      forall i | 0 <= i < |ps| ensures ps[i].survivor.id in s.tasks && ps[i].victim.id in s.tasks {
        assert ps[i] in ps;
      }
    }
    RunConserves(s, ps, fates);
    RunRemoves(s, ps, fates);
    RunPlacesIff(s, ps, fates);
  }
}
