/** What a merge keeps, moves and drops. */
module TaskMergeProofs {
  import opened Options
  import opened DuplicateGroups
  import opened DuplicateSurvivor
  import opened TaskMerge
  import Text

  // ------------------------------------------------------------------ session ids on tasks

  /** Every session a task names, now or as history. */
  function Mentions(t: Task): set<string> { Links(t) + (set x | x in t.legacy && x != "") }

  function Mentioned(tasks: map<string, Task>): set<string> {
    set id, x | id in tasks && x in Mentions(tasks[id]) :: x
  }

  function Members(sids: seq<string>): set<string> { set x | x in sids }

  function First(sids: seq<string>): set<string> { if sids == [] then {} else {sids[0]} }

  lemma SlotMentions(t: Task, x: string)
    ensures x in Mentions(t) <==>
      x != "" && (x in t.ids || x in t.legacy || Some(x) == t.session || Some(x) == t.plan || Some(x) == t.exec)
  {
    assert x in Slots(t) <==> x == Slots(t)[0] || x == Slots(t)[1] || x == Slots(t)[2];
  }

  /** The kept copy names what both named, the victim's own sessions, and its own newest; nothing else. */
  lemma MergedMentions(s: Store, t: Task, v: Task)
    requires Keyed(s)
    ensures Mentions(MergedTask(s, t, v))
         == Mentions(t) + Mentions(v) + Members(OwnedBy(s, v.id)) + First(OwnedBy(s, t.id))
  {
    hide Once, Without, Nonempty, Mentions, Owned, Links;
    var n, keep := MergedTask(s, t, v), Kept(s, t, v);
    KeptIsNamed(s, t, v);
    forall x ensures x in Mentions(n)
                <==> x in Mentions(t) + Mentions(v) + Members(OwnedBy(s, v.id)) + First(OwnedBy(s, t.id))
    {
      SlotMentions(n, x);
      SlotMentions(t, x);
      SlotMentions(v, x);
      if x != "" { InHistory(s, t, v, x); }
    }
  }

  lemma KeptIsNamed(s: Store, t: Task, v: Task)
    requires Keyed(s)
    ensures forall x :: Some(x) == Kept(s, t, v) ==>
              x != "" && (x in Members(OwnedBy(s, v.id)) + First(OwnedBy(s, t.id)) || Some(x) == t.session)
    ensures OwnedBy(s, t.id) != [] ==> Kept(s, t, v) == Some(OwnedBy(s, t.id)[0])
    ensures forall x :: x in OwnedBy(s, v.id) ==> x != "" && (x in Detached(s, t, v) || Some(x) == Kept(s, t, v))
  {
    hide Owned;
    assert forall x :: x in OwnedBy(s, v.id) ==> x in s.rows;
    assert OwnedBy(s, t.id) != [] ==> OwnedBy(s, t.id)[0] in OwnedBy(s, t.id);
  }

  lemma InHistory(s: Store, t: Task, v: Task, x: string)
    requires x != ""
    ensures x in History(s, t, v)
       <==> || x in t.legacy || x in v.legacy || x in Detached(s, t, v)
            || (Some(x) != Kept(s, t, v)
                && (x in t.ids || x in v.ids || Some(x) in [t.session, t.plan, t.exec, v.session, v.plan, v.exec]))
  {
    hide Once, Without, Nonempty, Kept, Detached;
    assert x in Slots(t) <==> x == Slots(t)[0] || x == Slots(t)[1] || x == Slots(t)[2];
    assert x in Slots(v) <==> x == Slots(v)[0] || x == Slots(v)[1] || x == Slots(v)[2];
  }

  // ------------------------------------------------------------------ which session is kept

  predicate NewestFirst(s: Store, sids: seq<string>) {
    && (forall x <- sids :: x in s.rows)
    && forall i, j :: 0 <= i < j < |sids| ==> s.rows[sids[i]].lastActive >= s.rows[sids[j]].lastActive
  }

  lemma {:induction false} RecencyOrders(s: Store, sid: string, sids: seq<string>)
    requires sid in s.rows && NewestFirst(s, sids)
    ensures NewestFirst(s, ByRecency(s, sid, sids))
  {
    if sids != [] && s.rows[sids[0]].lastActive >= s.rows[sid].lastActive {
      var rest := ByRecency(s, sid, sids[1..]);
      RecencyOrders(s, sid, sids[1..]);
      forall x | x in rest ensures s.rows[sids[0]].lastActive >= s.rows[x].lastActive {
        if x != sid {
          var k :| 0 <= k < |sids[1..]| && sids[1..][k] == x;
          assert sids[k + 1] == x;
        }
      }
    }
  }

  lemma {:induction false} OwnedOrders(s: Store, task: string, sids: seq<string>)
    ensures NewestFirst(s, Owned(s, task, sids))
  {
    if sids != [] {
      OwnedOrders(s, task, sids[1..]);
      if Owns(s, task, sids[0]) { RecencyOrders(s, sids[0], Owned(s, task, sids[1..])); }
    }
  }

  /** The newest of a task's own active sessions. */
  predicate Newest(s: Store, task: string, x: string) {
    Owns(s, task, x) && forall y <- s.rows :: Owns(s, task, y) ==> s.rows[y].lastActive <= s.rows[x].lastActive
  }

  lemma FirstIsNewest(s: Store, task: string)
    requires Keyed(s)
    ensures OwnedBy(s, task) == [] <==> forall x :: !Owns(s, task, x)
    ensures OwnedBy(s, task) != [] ==> Newest(s, task, OwnedBy(s, task)[0])
  {
    hide Owned;
    var sids := OwnedBy(s, task);
    OwnedOrders(s, task, s.order);
    assert forall x :: Owns(s, task, x) ==> x in s.rows.Keys;
    forall y | Owns(s, task, y) ensures y in sids { assert y in s.rows.Keys; }
    if sids != [] {
      assert sids[0] in sids;
      forall y | y in s.rows && Owns(s, task, y) ensures s.rows[y].lastActive <= s.rows[sids[0]].lastActive {
        var k :| 0 <= k < |sids| && sids[k] == y;
      }
    }
  }

  /** The survivor's slot names a session that no other task's row has. */
  predicate FreeSlot(s: Store, t: Task) {
    t.session.Some? && t.session.value != "" && (t.session.value in s.rows ==> s.rows[t.session.value].task == t.id)
  }

  /** One session is kept: the survivor's newest, or else its free slot, or else the victim's newest; the task names
      it alone, in every field that names one, and all else is history, once each. Its birth is the earlier of the
      two, and nothing else of it changes. */
  lemma MergedTaskIs(s: Store, t: Task, v: Task)
    requires Keyed(s)
    ensures var n := MergedTask(s, t, v);
            && (if exists x :: Owns(s, t.id, x) then n.session.Some? && Newest(s, t.id, n.session.value)
                else if FreeSlot(s, t) then n.session == t.session
                else if exists x :: Owns(s, v.id, x) then n.session.Some? && Newest(s, v.id, n.session.value)
                else n.session.None?)
            && n.ids == (if n.session.Some? then [n.session.value] else [])
            && (forall slot <- [(n.plan, t.plan), (n.exec, t.exec)] ::
                  slot.0 == if slot.1.None? || slot.1 == Some("") || slot.1 == n.session then slot.1 else None)
            && DistinctSids(n.legacy)
            && n == t.(session := n.session, ids := n.ids, plan := n.plan, exec := n.exec, legacy := n.legacy,
                       created := n.created)
    ensures var n := MergedTask(s, t, v).created;
            && (n == t.created || n == v.created)
            && (forall d <- [t.created, v.created] :: d.Some? && d.value != "" ==>
                  n.Some? && n.value != "" && !Text.TextLess(d.value, n.value))
  {
    hide Once, Without, Nonempty, Owned, Owns;
    FirstIsNewest(s, t.id);
    FirstIsNewest(s, v.id);
    if t.created.Some? { Text.TextLessTotal(t.created.value, t.created.value); }
    if v.created.Some? { Text.TextLessTotal(v.created.value, v.created.value); }
    if t.created.Some? && v.created.Some? { Text.TextLessTotal(t.created.value, v.created.value); }
  }

  predicate Merged(s: Store, survivor: string, victim: string, fate: Fate) {
    Mergeable(s, survivor, victim) && fate.Writes?
  }

  /** A merge, however it goes, loses no session a task names, and adds the two tasks' own sessions. */
  lemma MergeConserves(s: Store, survivor: string, victim: string, fate: Fate)
    requires Keyed(s)
    ensures Mentioned(Merge(s, survivor, victim, fate).tasks)
         == Mentioned(s.tasks) + if !Merged(s, survivor, victim, fate) then {}
                                 else Members(OwnedBy(s, victim)) + First(OwnedBy(s, survivor))
  {
    hide MergedTask, Mentions, Owned, MoveAll, Moves;
    if Merged(s, survivor, victim, fate) {
      var t, v := s.tasks[survivor], s.tasks[victim];
      MergedMentions(s, t, v);
      MergedTaskStaysAt(s, t, v);
      var n, named := MergedTasks(s, t, v), Mentions(MergedTask(s, t, v));
      forall x | x in Mentioned(s.tasks) ensures x in Mentioned(n) {
        var id :| id in s.tasks && x in Mentions(s.tasks[id]);
        var to := if id == victim then survivor else id;
        assert to in n && x in Mentions(n[to]);
      }
      forall x | x in named ensures x in Mentioned(n) {
        assert survivor in n && x in Mentions(n[survivor]);
      }
      forall x | x in Mentioned(n) ensures x in named || x in Mentioned(s.tasks) {
        var id :| id in n && x in Mentions(n[id]);
        if id != survivor { assert id in s.tasks && x in Mentions(s.tasks[id]); }
      }
      forall x | x in Mentions(t) + Mentions(v) ensures x in Mentioned(s.tasks) {
        assert x in Mentions(s.tasks[survivor]) || x in Mentions(s.tasks[victim]);
      }
    }
  }

  lemma MergedTaskStaysAt(s: Store, t: Task, v: Task)
    requires t.id in s.tasks && v.id in s.tasks && t.id != v.id
    ensures var n := MergedTasks(s, t, v);
            && n.Keys == s.tasks.Keys - {v.id}
            && Mentions(n[t.id]) == Mentions(MergedTask(s, t, v))
            && forall id :: id in n && id != t.id ==> Mentions(n[id]) == Mentions(s.tasks[id])
  {
    hide MergedTask;
    var n := MergedTasks(s, t, v);
    RehomedMentions(MergedTask(s, t, v), v.id, t.id);
    forall id | id in n && id != t.id ensures Mentions(n[id]) == Mentions(s.tasks[id]) {
      RehomedMentions(s.tasks[id], v.id, t.id);
    }
  }

  lemma RehomedMentions(t: Task, from: string, to: string)
    ensures Mentions(Rehomed(t, from, to)) == Mentions(t)
  {
    assert Slots(Rehomed(t, from, to)) == Slots(t);
  }

  // ------------------------------------------------------------------ parents

  /** Every parent is a task there is. */
  predicate Rooted(tasks: map<string, Task>) {
    forall id <- tasks :: tasks[id].parent.Some? ==> tasks[id].parent.value in tasks
  }

  /** The victim's children follow; only a kept copy that was the victim's child ends as its own parent. */
  lemma ParentsFollow(s: Store, survivor: string, victim: string, fate: Fate)
    requires Keyed(s) && Mergeable(s, survivor, victim) && fate.Writes?
    ensures var n := Merge(s, survivor, victim, fate).tasks;
            && n.Keys == s.tasks.Keys - {victim} && survivor in n
            && (Rooted(s.tasks) ==> Rooted(n))
            && (forall id :: id in n ==> n[id].parent != Some(victim) && n[id].id == id)
            && (s.tasks[survivor].parent != Some(survivor) ==>
                  (n[survivor].parent == Some(survivor) <==> s.tasks[survivor].parent == Some(victim)))
  {
    hide Kept, History, Earliest, MoveAll, Moves;
  }

  // ------------------------------------------------------------------ the row writes

  predicate DistinctMoves(ms: seq<Move>) { forall i, j :: 0 <= i < j < |ms| ==> ms[i].sid != ms[j].sid }

  function Sids(ms: seq<Move>): set<string> { set i | 0 <= i < |ms| :: ms[i].sid }

  lemma {:induction false} MoveAllFrame(rows: map<string, Row>, ms: seq<Move>)
    ensures var n := MoveAll(rows, ms);
            && n.Keys == rows.Keys
            && (forall x :: x in rows && x !in Sids(ms) ==> n[x] == rows[x])
            && (forall x :: x in rows ==> n[x].active == rows[x].active)
    decreases |ms|
  {
    if ms != [] {
      hide Taken;
      MoveAllFrame(MoveOne(rows, ms[0]), ms[1..]);
      assert forall x :: x in Sids(ms[1..]) ==> x in Sids(ms) by {
        forall i | 0 <= i < |ms[1..]| ensures ms[1..][i].sid in Sids(ms) { assert ms[1..][i] == ms[i + 1]; }
      }
      assert ms[0].sid in Sids(ms);
    }
  }

  /** One write after another: each row ends where its own write left it. */
  lemma MoveAllAt(rows: map<string, Row>, ms: seq<Move>, i: int)
    requires DistinctMoves(ms) && 0 <= i < |ms| && ms[i].sid in rows
    ensures ms[i].sid in MoveAll(rows, ms)
    ensures MoveAll(rows, ms)[ms[i].sid].task
         == if ms[i].to == "" || Taken(MoveAll(rows, ms[..i]), ms[i].to, ms[i].sid) then "" else ms[i].to
  {
    hide Taken, MoveAll;
    var head, m, tail := ms[..i], ms[i], ms[i + 1..];
    assert head + [m] + tail == ms;
    MoveAllSplit(rows, head + [m], tail);
    MoveAllSnoc(rows, head, m);
    MoveAllFrame(rows, head);
    MoveAllFrame(MoveAll(rows, head + [m]), tail);
    assert m.sid !in Sids(tail) by {
      forall j | 0 <= j < |tail| ensures tail[j].sid != m.sid { assert tail[j] == ms[i + 1 + j]; }
    }
  }

  lemma {:induction false} MoveAllSplit(rows: map<string, Row>, a: seq<Move>, b: seq<Move>)
    ensures MoveAll(rows, a + b) == MoveAll(MoveAll(rows, a), b)
    decreases |a|
  {
    hide MoveOne;
    if a == [] {
      assert a + b == b;
    } else {
      assert (a + b)[0] == a[0] && (a + b)[1..] == a[1..] + b;
      MoveAllSplit(MoveOne(rows, a[0]), a[1..], b);
    }
  }

  lemma MoveAllSnoc(rows: map<string, Row>, ms: seq<Move>, m: Move)
    ensures MoveAll(rows, ms + [m]) == MoveOne(MoveAll(rows, ms), m)
  {
    MoveAllSplit(rows, ms, [m]);
    assert [m][1..] == [];
  }

  // ------------------------------------------------------------------ which rows are written

  lemma TwoParts(gone: seq<string>, rest: seq<string>, to: string)
    requires DistinctSids(gone) && DistinctSids(rest) && forall x :: x in rest ==> x !in gone
    ensures var ms := Each(gone, "") + Each(rest, to);
            && DistinctMoves(ms)
            && (forall x :: x in Sids(ms) <==> x in gone || x in rest)
            && (forall m <- ms :: m.to == if m.sid in gone then "" else to)
  {
    var ms := Each(gone, "") + Each(rest, to);
    assert forall i :: 0 <= i < |gone| ==> ms[i] == Move(gone[i], "");
    assert forall i :: 0 <= i < |rest| ==> ms[|gone| + i] == Move(rest[i], to);
    forall x ensures x in Sids(ms) <==> x in gone || x in rest {
      if x in gone { var i :| 0 <= i < |gone| && gone[i] == x; assert ms[i].sid == x; }
      if x in rest { var i :| 0 <= i < |rest| && rest[i] == x; assert ms[|gone| + i].sid == x; }
    }
    forall m | m in ms ensures m.to == if m.sid in gone then "" else to {
      var i :| 0 <= i < |ms| && ms[i] == m;
      if i < |gone| { assert gone[i] in gone; } else { assert rest[i - |gone|] in rest; }
    }
  }

  /** The writes of a merge: each row of the victim once, and no other. */
  lemma MovesAre(s: Store, t: Task, v: Task)
    requires Keyed(s) && v.id != ""
    ensures var ms := Moves(s, t, v);
            && DistinctMoves(ms)
            && (forall x :: x in Sids(ms) <==> x in s.rows && s.rows[x].task == v.id)
            && (forall m <- ms :: m.to == if m.sid in Detached(s, t, v) then "" else t.id)
  {
    hide Owned, Without, Remaining, Follows, Each, Sids, DistinctMoves;
    var gone := Detached(s, t, v);
    var rest := Remaining(s, v.id, gone, s.order);
    TwoParts(gone, rest, t.id);
    forall x ensures x in s.rows <==> x in s.order { assert x in s.rows.Keys <==> x in s.order; }
  }

  function VictimRows(s: Store, victim: string): set<string> { set x | x in s.rows && s.rows[x].task == victim }

  lemma {:induction false} DistinctCount(ms: seq<Move>)
    requires DistinctMoves(ms)
    ensures |Sids(ms)| == |ms|
  {
    if ms != [] {
      var init, last := ms[..|ms| - 1], ms[|ms| - 1];
      DistinctCount(init);
      assert Sids(ms) == Sids(init) + {last.sid};
      assert last.sid !in Sids(init);
    }
  }

  /** A merge leaves a session on the task it removed exactly when its row writes are cut short. */
  lemma StrandsIff(s: Store, survivor: string, victim: string, limit: Option<nat>)
    requires Keyed(s) && Mergeable(s, survivor, victim)
    ensures VictimRows(Merge(s, survivor, victim, Writes(limit)), victim) != {}
        <==> limit.Some? && limit.value < |VictimRows(s, victim)|
    ensures forall x :: x in s.rows && s.rows[x].task != victim ==>
              x in Merge(s, survivor, victim, Writes(limit)).rows
              && Merge(s, survivor, victim, Writes(limit)).rows[x] == s.rows[x]
  {
    hide Owned, Moves, MoveAll, DistinctMoves, MergedTasks, Detached, Taken;
    var t, v := s.tasks[survivor], s.tasks[victim];
    MovesAre(s, t, v);
    var ms := Moves(s, t, v);
    var done := Upto(ms, limit);
    DistinctCount(ms);
    assert VictimRows(s, victim) == Sids(ms);
    DistinctUpto(ms, |done|);
    MoveAllFrame(s.rows, done);
    var n := MoveAll(s.rows, done);
    forall i | 0 <= i < |done| ensures n[done[i].sid].task != victim {
      assert done[i] == ms[i] && ms[i].sid in Sids(ms) && ms[i] in ms;
      MoveAllAt(s.rows, done, i);
    }
    if |done| < |ms| {
      assert ms[|done|].sid in Sids(ms);
      assert ms[|done|].sid in VictimRows(Merge(s, survivor, victim, Writes(limit)), victim);
    }
  }

  lemma DistinctUpto(ms: seq<Move>, k: int)
    requires DistinctMoves(ms) && 0 <= k <= |ms|
    ensures DistinctMoves(ms[..k])
    ensures forall x :: x in Sids(ms[..k]) ==> x in Sids(ms)
    ensures k < |ms| ==> ms[k].sid !in Sids(ms[..k])
  {
    forall i | 0 <= i < k ensures ms[..k][i].sid in Sids(ms) { assert ms[..k][i] == ms[i]; }
  }

  // ------------------------------------------------------------------ where each of the victim's sessions ends

  function ActiveOn(rows: map<string, Row>, task: string): set<string> {
    set x | x in rows && rows[x].active && rows[x].task == task
  }

  function Part(s: Store, t: Task, v: Task, i: int): map<string, Row>
    requires 0 <= i <= |Moves(s, t, v)|
  {
    MoveAll(s.rows, Moves(s, t, v)[..i])
  }

  lemma FollowerFacts(s: Store, t: Task, v: Task)
    requires Keyed(s) && v.id != ""
    ensures Follows(s, t, v).Some? ==>
      OwnedBy(s, t.id) == [] && Owns(s, v.id, Follows(s, t, v).value) && Follows(s, t, v).value !in Detached(s, t, v)
    ensures forall x :: Owns(s, v.id, x) <==> x in Detached(s, t, v) || Some(x) == Follows(s, t, v)
  {
    hide Owned;
    forall x ensures x in s.rows <==> x in s.order { assert x in s.rows.Keys <==> x in s.order; }
    var sids := OwnedBy(s, v.id);
    assert sids != [] ==> sids[0] in sids;
  }

  /** Part way, the survivor's active sessions are its own and the follower, once that has moved. */
  lemma {:induction false} ActivePartWay(s: Store, t: Task, v: Task, i: int)
    requires Keyed(s) && v.id != "" && t.id != "" && t.id != v.id && 0 <= i <= |Moves(s, t, v)|
    ensures ActiveOn(Part(s, t, v, i), t.id)
         == ActiveOn(s.rows, t.id)
            + (if Follows(s, t, v).Some? then {Follows(s, t, v).value} * Sids(Moves(s, t, v)[..i]) else {})
  {
    hide Moves, Owned, Follows, Detached, MoveOne, MoveAll, ActiveOn, Owns, Sids, DistinctMoves;
    var ms := Moves(s, t, v);
    if i == 0 {
      NoMoves(s.rows, ms[..0]);
    } else {
      ActivePartWay(s, t, v, i - 1);
      MoveStep(s, t, v, i - 1);
      FollowerFacts(s, t, v);
      NoneOwned(s, t.id);
      NextActive(s, t, v, Part(s, t, v, i - 1), ms[i - 1], Sids(ms[..i - 1]));
    }
  }

  lemma NoMoves(rows: map<string, Row>, ms: seq<Move>)
    requires ms == []
    ensures MoveAll(rows, ms) == rows && Sids(ms) == {}
  {
  }

  lemma MoveStep(s: Store, t: Task, v: Task, i: int)
    requires Keyed(s) && v.id != "" && 0 <= i < |Moves(s, t, v)|
    ensures var ms := Moves(s, t, v);
            && Part(s, t, v, i + 1) == MoveOne(Part(s, t, v, i), ms[i])
            && ms[i].sid in s.rows && ms[i].sid in Part(s, t, v, i)
            && Part(s, t, v, i)[ms[i].sid] == s.rows[ms[i].sid] && s.rows[ms[i].sid].task == v.id
            && ms[i].to == (if ms[i].sid in Detached(s, t, v) then "" else t.id)
            && Sids(ms[..i + 1]) == Sids(ms[..i]) + {ms[i].sid} && ms[i].sid !in Sids(ms[..i])
  {
    hide Moves, Owned, Follows, Detached, MoveOne, MoveAll, DistinctMoves;
    var ms := Moves(s, t, v);
    MovesAre(s, t, v);
    DistinctUpto(ms, i);
    MoveAllFrame(s.rows, ms[..i]);
    assert ms[..i] + [ms[i]] == ms[..i + 1];
    MoveAllSnoc(s.rows, ms[..i], ms[i]);
    SidsSnoc(ms[..i], ms[i]);
    assert ms[i] in ms && ms[i].sid in Sids(ms);
  }

  lemma SidsSnoc(ms: seq<Move>, m: Move)
    ensures Sids(ms + [m]) == Sids(ms) + {m.sid}
  {
    var r := ms + [m];
    assert r[|ms|] == m;
    forall i | 0 <= i < |ms| ensures ms[i].sid in Sids(r) { assert r[i] == ms[i]; }
  }

  lemma NoneOwned(s: Store, task: string)
    requires Keyed(s) && task != ""
    ensures OwnedBy(s, task) == [] <==> ActiveOn(s.rows, task) == {}
  {
    forall x ensures x in s.rows <==> x in s.order { assert x in s.rows.Keys <==> x in s.order; }
    assert forall x :: x in OwnedBy(s, task) <==> x in ActiveOn(s.rows, task);
    if OwnedBy(s, task) != [] { assert OwnedBy(s, task)[0] in ActiveOn(s.rows, task); }
  }

  lemma NextActive(s: Store, t: Task, v: Task, rows: map<string, Row>, m: Move, moved: set<string>)
    requires m.sid in rows && m.sid in s.rows && rows[m.sid] == s.rows[m.sid] && s.rows[m.sid].task == v.id != t.id
    requires v.id != "" && t.id != "" && m.sid !in moved
    requires m.to == if m.sid in Detached(s, t, v) then "" else t.id
    requires Follows(s, t, v).Some? ==> ActiveOn(s.rows, t.id) == {} && Follows(s, t, v).value !in Detached(s, t, v)
                                        && Owns(s, v.id, Follows(s, t, v).value)
    requires forall x :: Owns(s, v.id, x) <==> x in Detached(s, t, v) || Some(x) == Follows(s, t, v)
    requires ActiveOn(rows, t.id)
          == ActiveOn(s.rows, t.id) + (if Follows(s, t, v).Some? then {Follows(s, t, v).value} * moved else {})
    ensures ActiveOn(MoveOne(rows, m), t.id)
         == ActiveOn(s.rows, t.id)
            + (if Follows(s, t, v).Some? then {Follows(s, t, v).value} * (moved + {m.sid}) else {})
  {
    hide Detached, Follows;
    var n := MoveOne(rows, m);
    assert Owns(s, v.id, m.sid) <==> s.rows[m.sid].active;
    assert Taken(rows, t.id, m.sid) <==> ActiveOn(rows, t.id) != {} by {
      if Taken(rows, t.id, m.sid) {
        var x :| x in rows && x != m.sid && rows[x].active && rows[x].task == t.id;
        assert x in ActiveOn(rows, t.id);
      }
      if ActiveOn(rows, t.id) != {} { var x :| x in ActiveOn(rows, t.id); }
    }
    if Follows(s, t, v) == Some(m.sid) {
      assert ActiveOn(rows, t.id) == {};
      assert n[m.sid].task == t.id;
    }
  }

  /** `a` stands somewhere before a `b`. */
  predicate Precedes(sids: seq<string>, a: string, b: string) {
    sids != [] && if sids[0] == a then b in sids[1..] else Precedes(sids[1..], a, b)
  }

  lemma {:induction false} PrecedesIn(sids: seq<string>, a: string, b: string)
    requires Precedes(sids, a, b)
    ensures b in sids
  {
    if sids[0] != a { PrecedesIn(sids[1..], a, b); }
  }

  lemma {:induction false} PrecedesPrefix(sids: seq<string>, a: string, k: int)
    requires DistinctSids(sids) && 0 <= k < |sids|
    ensures a in sids[..k] <==> Precedes(sids, a, sids[k])
  {
    if k == 0 {
      if Precedes(sids[1..], a, sids[0]) { PrecedesIn(sids[1..], a, sids[0]); }
    } else {
      PrecedesPrefix(sids[1..], a, k - 1);
      assert sids[..k] == [sids[0]] + sids[1..][..k - 1];
    }
  }

  lemma {:induction false} RemainingOrder(s: Store, victim: string, gone: seq<string>, sids: seq<string>,
                                           a: string, b: string)
    requires DistinctSids(sids) && a != b
    requires a in Remaining(s, victim, gone, sids) && b in Remaining(s, victim, gone, sids)
    ensures Precedes(Remaining(s, victim, gone, sids), a, b) <==> Precedes(sids, a, b)
  {
    var rest := Remaining(s, victim, gone, sids[1..]);
    if sids[0] == b {
      if Precedes(rest, a, b) { PrecedesIn(rest, a, b); }
      if Precedes(sids[1..], a, b) { PrecedesIn(sids[1..], a, b); }
    } else if sids[0] != a {
      RemainingOrder(s, victim, gone, sids[1..], a, b);
    }
  }

  lemma FollowerBefore(s: Store, t: Task, v: Task, i: int)
    requires Keyed(s) && v.id != "" && 0 <= i < |Moves(s, t, v)|
    requires Moves(s, t, v)[i].sid !in Detached(s, t, v) && Follows(s, t, v).Some?
    ensures var x, f := Moves(s, t, v)[i].sid, Follows(s, t, v).value;
            f in Sids(Moves(s, t, v)[..i]) <==> f != x && Precedes(s.order, f, x)
  {
    hide Owned, Follows, Without, Remaining, Precedes;
    var gone := Detached(s, t, v);
    var rest := Remaining(s, v.id, gone, s.order);
    var ms, f := Moves(s, t, v), Follows(s, t, v).value;
    FollowerFacts(s, t, v);
    PrefixSids(gone, rest, t.id, i);
    var k := i - |gone|;
    PrecedesPrefix(rest, f, k);
    if f != rest[k] { RemainingOrder(s, v.id, gone, s.order, f, rest[k]); }
  }

  lemma PrefixSids(gone: seq<string>, rest: seq<string>, to: string, i: int)
    requires 0 <= i < |gone| + |rest| && (Each(gone, "") + Each(rest, to))[i].sid !in gone
    ensures i >= |gone| && (Each(gone, "") + Each(rest, to))[i].sid == rest[i - |gone|]
    ensures forall f :: f !in gone ==> (f in Sids((Each(gone, "") + Each(rest, to))[..i]) <==> f in rest[..i - |gone|])
  {
    var ms := Each(gone, "") + Each(rest, to);
    assert forall j :: 0 <= j < |gone| ==> ms[j].sid == gone[j];
    assert i >= |gone|;
    assert forall j :: 0 <= j < i ==> ms[..i][j].sid == if j < |gone| then gone[j] else rest[j - |gone|];
    forall f | f in rest[..i - |gone|] ensures f in Sids(ms[..i]) {
      var j :| 0 <= j < i - |gone| && rest[j] == f;
      assert ms[..i][|gone| + j].sid == f;
    }
  }

  /** Where each session of a removed task ends when every write is made: its follower on the survivor, its
      other active ones nowhere, and an archived one on the survivor unless that already had a session of
      its own or the follower was stored before it. */
  lemma Destination(s: Store, survivor: string, victim: string, x: string)
    requires Keyed(s) && Mergeable(s, survivor, victim) && x in s.rows && s.rows[x].task == victim
    ensures var n, t, v := Merge(s, survivor, victim, Writes(None)).rows, s.tasks[survivor], s.tasks[victim];
            && x in n
            && n[x].task ==
                 if Some(x) == Follows(s, t, v) then survivor
                 else if s.rows[x].active || OwnedBy(s, survivor) != []
                         || (Follows(s, t, v).Some? && Precedes(s.order, Follows(s, t, v).value, x))
                 then "" else survivor
  {
    hide Moves, Owned, Follows, Detached, MoveOne, MoveAll, DistinctMoves, Precedes, MergedTasks;
    var t, v := s.tasks[survivor], s.tasks[victim];
    var ms := Moves(s, t, v);
    MovesAre(s, t, v);
    assert x in Sids(ms);
    var i :| 0 <= i < |ms| && ms[i].sid == x;
    assert ms[i] in ms;
    MoveAllAt(s.rows, ms, i);
    MoveStep(s, t, v, i);
    FollowerFacts(s, t, v);
    NoneOwned(s, survivor);
    ActivePartWay(s, t, v, i);
    TakenIff(Part(s, t, v, i), survivor, x);
    if x !in Detached(s, t, v) && Follows(s, t, v).Some? { FollowerBefore(s, t, v, i); }
  }

  lemma TakenIff(rows: map<string, Row>, task: string, x: string)
    requires x in rows && rows[x].task != task
    ensures Taken(rows, task, x) <==> ActiveOn(rows, task) != {}
  {
    if Taken(rows, task, x) {
      var y :| y in rows && y != x && rows[y].active && rows[y].task == task;
      assert y in ActiveOn(rows, task);
    }
    if ActiveOn(rows, task) != {} { var y :| y in ActiveOn(rows, task); }
  }

  /** An archived session of the removed task is lost (on no task, named by none) exactly when no task named
      it and the survivor's active session comes first. */
  lemma ArchivedSessionLostIff(s: Store, survivor: string, victim: string, x: string)
    requires Keyed(s) && Mergeable(s, survivor, victim)
    requires x in s.rows && s.rows[x].task == victim && !s.rows[x].active
    ensures var n, t, v := Merge(s, survivor, victim, Writes(None)), s.tasks[survivor], s.tasks[victim];
            && x in n.rows
            && (n.rows[x].task == "" && x !in Mentioned(n.tasks)
                <==> && x !in Mentioned(s.tasks)
                     && (OwnedBy(s, survivor) != []
                         || (Follows(s, t, v).Some? && Precedes(s.order, Follows(s, t, v).value, x))))
  {
    hide Owned, Follows, Merge, Mentioned, Precedes;
    Destination(s, survivor, victim, x);
    MergeConserves(s, survivor, victim, Writes(None));
    FollowerFacts(s, s.tasks[survivor], s.tasks[victim]);
    assert OwnedBy(s, survivor) != [] ==> OwnedBy(s, survivor)[0] in OwnedBy(s, survivor);
  }

  // ------------------------------------------------------------------ one active session per task

  predicate OneSessionEach(rows: map<string, Row>) {
    forall x, y :: x in rows && y in rows && x != y && rows[x].active && rows[y].active && rows[x].task == rows[y].task
      ==> rows[x].task == ""
  }

  lemma {:induction false} MovesKeepOneSession(rows: map<string, Row>, ms: seq<Move>)
    requires OneSessionEach(rows)
    ensures OneSessionEach(MoveAll(rows, ms))
    decreases |ms|
  {
    if ms != [] { MovesKeepOneSession(MoveOne(rows, ms[0]), ms[1..]); }
  }

  /** No merge gives a task a second active session, however it goes. */
  lemma MergeKeepsOneSession(s: Store, survivor: string, victim: string, fate: Fate)
    requires OneSessionEach(s.rows)
    ensures OneSessionEach(Merge(s, survivor, victim, fate).rows)
  {
    hide MoveAll, Moves, MergedTasks, OneSessionEach;
    if Merged(s, survivor, victim, fate) {
      MovesKeepOneSession(s.rows, Upto(Moves(s, s.tasks[survivor], s.tasks[victim]), fate.limit));
    }
  }

  lemma MergeStaysKeyed(s: Store, survivor: string, victim: string, fate: Fate)
    requires Keyed(s)
    ensures Keyed(Merge(s, survivor, victim, fate))
  {
    hide MoveAll, Moves, Owned, Kept, History, Earliest;
    if Merged(s, survivor, victim, fate) {
      MoveAllFrame(s.rows, Upto(Moves(s, s.tasks[survivor], s.tasks[victim]), fate.limit));
    }
  }
}
