/** A whole cleanup run: every merge of the plan, in order, whatever becomes of each. */
module DuplicateRun {
  import opened Options
  import opened DuplicateGroups
  import opened DuplicateSurvivor
  import opened TaskMerge
  import opened TaskMergeProofs

  /** What becomes of each victim's merge. */
  type Fates = string -> Fate

  function RunPlan(s: Store, ps: seq<Pair>, fates: Fates): Store
    decreases |ps|
  {
    if ps == [] then s
    else RunPlan(Merge(s, ps[0].survivor.id, ps[0].victim.id, fates(ps[0].victim.id)), ps[1..], fates)
  }

  /** The script's count of merged victims. */
  function Succeeded(s: Store, ps: seq<Pair>, fates: Fates): nat
    decreases |ps|
  {
    if ps == [] then 0
    else
      var survivor, victim := ps[0].survivor.id, ps[0].victim.id;
      (if Merged(s, survivor, victim, fates(victim)) then 1 else 0)
      + Succeeded(Merge(s, survivor, victim, fates(victim)), ps[1..], fates)
  }

  lemma {:induction false} RunSnoc(s: Store, ps: seq<Pair>, p: Pair, fates: Fates)
    ensures RunPlan(s, ps + [p], fates)
         == Merge(RunPlan(s, ps, fates), p.survivor.id, p.victim.id, fates(p.victim.id))
    ensures Succeeded(s, ps + [p], fates)
         == Succeeded(s, ps, fates)
            + if Merged(RunPlan(s, ps, fates), p.survivor.id, p.victim.id, fates(p.victim.id)) then 1 else 0
    decreases |ps|
  {
    hide Merge, Merged;
    if ps == [] {
      assert [] + [p] == [p] && [p][1..] == [];
      assert RunPlan(Merge(s, p.survivor.id, p.victim.id, fates(p.victim.id)), [], fates)
          == Merge(s, p.survivor.id, p.victim.id, fates(p.victim.id));
    } else {
      assert (ps + [p])[0] == ps[0] && (ps + [p])[1..] == ps[1..] + [p];
      RunSnoc(Merge(s, ps[0].survivor.id, ps[0].victim.id, fates(ps[0].victim.id)), ps[1..], p, fates);
    }
  }

  predicate Present(s: Store, ps: seq<Pair>) {
    forall i :: 0 <= i < |ps| ==> ps[i].survivor.id in s.tasks && ps[i].victim.id in s.tasks
  }

  function Removed(ps: seq<Pair>, fates: Fates): set<string> {
    set i | 0 <= i < |ps| && fates(ps[i].victim.id).Writes? :: ps[i].victim.id
  }

  lemma SoundTail(ps: seq<Pair>, fates: Fates)
    requires Sound(ps) && ps != []
    ensures Sound(ps[1..]) && ps[0].survivor.id != ps[0].victim.id
    ensures Removed(ps, fates)
         == Removed(ps[1..], fates) + if fates(ps[0].victim.id).Writes? then {ps[0].victim.id} else {}
    ensures forall i :: 0 <= i < |ps[1..]| ==>
              ps[1..][i].survivor.id != ps[0].victim.id && ps[1..][i].victim.id != ps[0].victim.id
              && ps[0].survivor.id != ps[1..][i].victim.id
  {
    var more := ps[1..];
    assert forall i :: 0 <= i < |more| ==> more[i] == ps[i + 1];
    forall x | x in Removed(ps, fates) ensures x in Removed(more, fates) || x == ps[0].victim.id {
      var i :| 0 <= i < |ps| && fates(ps[i].victim.id).Writes? && ps[i].victim.id == x;
      if i > 0 { assert more[i - 1].victim.id == x; }
    }
    forall x | x in Removed(more, fates) ensures x in Removed(ps, fates) {
      var i :| 0 <= i < |more| && fates(more[i].victim.id).Writes? && more[i].victim.id == x;
      assert ps[i + 1].victim.id == x;
    }
  }

  /** No session a task named is lost, and none appears that neither store held. */
  lemma {:induction false} RunConserves(s: Store, ps: seq<Pair>, fates: Fates)
    requires Keyed(s)
    ensures var n := RunPlan(s, ps, fates);
            && Keyed(n) && n.rows.Keys == s.rows.Keys
            && Mentioned(s.tasks) <= Mentioned(n.tasks) <= Mentioned(s.tasks) + s.rows.Keys
            && (OneSessionEach(s.rows) ==> OneSessionEach(n.rows))
    decreases |ps|
  {
    hide Merge, Mentioned, OneSessionEach, Keyed;
    if ps != [] {
      var survivor, victim := ps[0].survivor.id, ps[0].victim.id;
      var fate := fates(victim);
      MergeConserves(s, survivor, victim, fate);
      MergeStaysKeyed(s, survivor, victim, fate);
      OwnersAreRows(s, survivor);
      OwnersAreRows(s, victim);
      SameRows(s, survivor, victim, fate);
      if OneSessionEach(s.rows) { MergeKeepsOneSession(s, survivor, victim, fate); }
      RunConserves(Merge(s, survivor, victim, fate), ps[1..], fates);
    }
  }

  lemma OwnersAreRows(s: Store, task: string)
    ensures Members(OwnedBy(s, task)) <= s.rows.Keys && First(OwnedBy(s, task)) <= s.rows.Keys
  {
    assert OwnedBy(s, task) != [] ==> OwnedBy(s, task)[0] in OwnedBy(s, task);
  }

  lemma SameRows(s: Store, survivor: string, victim: string, fate: Fate)
    ensures Merge(s, survivor, victim, fate).rows.Keys == s.rows.Keys
  {
    hide MergedTasks, Moves, MoveAll;
    if Merged(s, survivor, victim, fate) {
      MoveAllFrame(s.rows, Upto(Moves(s, s.tasks[survivor], s.tasks[victim]), fate.limit));
    }
  }

  /** A run removes just the victims whose merge was written; every survivor stays, and every parent is
      still a task. No merge of the plan meets a missing task, so the live run's count is the dry run's,
      the number of victims, exactly when none refuses. */
  lemma {:induction false} RunRemoves(s: Store, ps: seq<Pair>, fates: Fates)
    requires Keyed(s) && Sound(ps) && Present(s, ps)
    ensures var n := RunPlan(s, ps, fates);
            && n.tasks.Keys == s.tasks.Keys - Removed(ps, fates)
            && (forall i :: 0 <= i < |ps| ==> ps[i].survivor.id in n.tasks)
            && (Rooted(s.tasks) ==> Rooted(n.tasks))
    ensures Succeeded(s, ps, fates) <= |ps|
    ensures Succeeded(s, ps, fates) == |ps| <==> forall i :: 0 <= i < |ps| ==> fates(ps[i].victim.id).Writes?
    decreases |ps|
  {
    hide Merge, Keyed, Sound, Rooted, Removed;
    if ps != [] {
      var survivor, victim := ps[0].survivor.id, ps[0].victim.id;
      SoundTail(ps, fates);
      MergeRemoves(s, survivor, victim, fates(victim));
      MergeStaysKeyed(s, survivor, victim, fates(victim));
      var n := Merge(s, survivor, victim, fates(victim));
      assert forall i :: 0 <= i < |ps[1..]| ==> ps[1..][i] == ps[i + 1];
      RunRemoves(n, ps[1..], fates);
      SurvivorsStay(ps, fates);
    } else {
      assert Removed(ps, fates) == {} by { NothingRemoved(fates); }
    }
  }

  lemma NothingRemoved(fates: Fates)
    ensures Removed([], fates) == {}
  {
  }

  lemma SurvivorsStay(ps: seq<Pair>, fates: Fates)
    requires Sound(ps)
    ensures forall i :: 0 <= i < |ps| ==> ps[i].survivor.id !in Removed(ps, fates)
  {
  }

  lemma MergeRemoves(s: Store, survivor: string, victim: string, fate: Fate)
    requires Keyed(s) && Mergeable(s, survivor, victim)
    ensures var n := Merge(s, survivor, victim, fate).tasks;
            && n.Keys == s.tasks.Keys - (if fate.Writes? then {victim} else {})
            && (Rooted(s.tasks) ==> Rooted(n))
  {
    hide Merge;
    if fate.Writes? {
      ParentsFollow(s, survivor, victim, fate);
    } else {
      assert Merge(s, survivor, victim, fate) == s by { RefusedChangesNothing(s, survivor, victim); }
    }
  }

  lemma RefusedChangesNothing(s: Store, survivor: string, victim: string)
    ensures Merge(s, survivor, victim, Refuses) == s
  {
  }

  // ------------------------------------------------------------------ no session is left behind

  /** Every session belongs to a task there is, or to none. */
  predicate Placed(s: Store) { forall x <- s.rows :: s.rows[x].task == "" || s.rows[x].task in s.tasks }

  /** The victim's merge stops before its last row write. */
  predicate CutShort(s: Store, victim: string, fate: Fate) {
    fate.Writes? && fate.limit.Some? && fate.limit.value < |VictimRows(s, victim)|
  }

  /** Rows left the victim for the survivor or for no task; the others are as they were. */
  predicate MovedOff(s: Store, n: Store, survivor: string, victim: string) {
    n.rows.Keys == s.rows.Keys
    && forall x :: x in s.rows ==>
         n.rows[x].task == s.rows[x].task
         || (s.rows[x].task == victim && (n.rows[x].task == "" || n.rows[x].task == survivor))
  }

  /** Rows move only off the victim, to the survivor or to no task. */
  lemma RowsMove(s: Store, survivor: string, victim: string, fate: Fate)
    requires Keyed(s) && Mergeable(s, survivor, victim)
    ensures var n := Merge(s, survivor, victim, fate);
            MovedOff(s, n, survivor, victim)
  {
    hide MergedTasks, Moves, MoveAll, DistinctMoves, Detached, Taken, Sids;
    SameRows(s, survivor, victim, fate);
    if fate.Writes? {
      var t, v := s.tasks[survivor], s.tasks[victim];
      var ms := Moves(s, t, v);
      var done := Upto(ms, fate.limit);
      MovesAre(s, t, v);
      DistinctUpto(ms, |done|);
      MoveAllFrame(s.rows, done);
      forall x | x in Sids(done)
        ensures x in s.rows && s.rows[x].task == victim
                && (MoveAll(s.rows, done)[x].task == "" || MoveAll(s.rows, done)[x].task == survivor)
      {
        var i := IndexOf(done, x);
        assert done[i] == ms[i] && ms[i] in ms;
        MoveAllAt(s.rows, done, i);
      }
    }
  }

  lemma IndexOf(ms: seq<Move>, x: string) returns (i: int)
    requires x in Sids(ms)
    ensures 0 <= i < |ms| && ms[i].sid == x
  {
    i :| 0 <= i < |ms| && ms[i].sid == x;
  }

  lemma MergePlacesIff(s: Store, survivor: string, victim: string, fate: Fate)
    requires Keyed(s) && Mergeable(s, survivor, victim)
    ensures Placed(Merge(s, survivor, victim, fate)) <==> Placed(s) && !CutShort(s, victim, fate)
    ensures forall v :: v != survivor && v != victim && v != "" ==>
              VictimRows(Merge(s, survivor, victim, fate), v) == VictimRows(s, v)
  {
    hide Merge, VictimRows, Placed;
    var n := Merge(s, survivor, victim, fate);
    RowsMove(s, survivor, victim, fate);
    MergeRemoves(s, survivor, victim, fate);
    OtherRowsStay(s, n, survivor, victim);
    if fate.Writes? {
      StrandsIff(s, survivor, victim, fate.limit);
      WrittenPlacesIff(s, n, survivor, victim);
    } else {
      RefusedChangesNothing(s, survivor, victim);
    }
  }

  lemma OtherRowsStay(s: Store, n: Store, survivor: string, victim: string)
    requires MovedOff(s, n, survivor, victim)
    ensures forall v :: v != survivor && v != victim && v != "" ==> VictimRows(n, v) == VictimRows(s, v)
  {
    assert forall x :: x in n.rows <==> x in s.rows.Keys;
  }

  lemma WrittenPlacesIff(s: Store, n: Store, survivor: string, victim: string)
    requires MovedOff(s, n, survivor, victim) && survivor != victim && victim != ""
    requires survivor in s.tasks && victim in s.tasks && n.tasks.Keys == s.tasks.Keys - {victim}
    ensures Placed(n) <==> Placed(s) && VictimRows(n, victim) == {}
  {
    assert forall x :: x in n.rows <==> x in s.rows.Keys;
    assert forall id :: id in n.tasks <==> id in s.tasks.Keys && id != victim;
    if VictimRows(n, victim) != {} {
      var x :| x in VictimRows(n, victim);
      assert !Placed(n) by { assert n.rows[x].task !in n.tasks; }
    } else {
      assert forall x :: x in n.rows && n.rows[x].task == victim ==> x in VictimRows(n, victim);
    }
  }

  predicate Uncut(s: Store, ps: seq<Pair>, fates: Fates) {
    forall i :: 0 <= i < |ps| ==> !CutShort(s, ps[i].victim.id, fates(ps[i].victim.id))
  }

  lemma UncutTail(s: Store, n: Store, ps: seq<Pair>, fates: Fates)
    requires ps != [] && forall i :: 0 < i < |ps| ==> VictimRows(n, ps[i].victim.id) == VictimRows(s, ps[i].victim.id)
    ensures Uncut(s, ps, fates) <==> !CutShort(s, ps[0].victim.id, fates(ps[0].victim.id)) && Uncut(n, ps[1..], fates)
  {
    hide VictimRows;
    var more := ps[1..];
    assert forall i :: 0 <= i < |more| ==> more[i] == ps[i + 1];
    assert forall i :: 0 < i < |ps| ==> ps[i] == more[i - 1];
    assert forall i :: 0 < i < |ps| ==>
      (CutShort(s, ps[i].victim.id, fates(ps[i].victim.id)) <==> CutShort(n, ps[i].victim.id, fates(ps[i].victim.id)));
  }

  /** A run leaves a session on a removed task exactly when some victim's row writes are cut short. */
  lemma {:induction false} RunPlacesIff(s: Store, ps: seq<Pair>, fates: Fates)
    requires Keyed(s) && Sound(ps) && Present(s, ps)
    ensures Placed(RunPlan(s, ps, fates)) <==> Placed(s) && Uncut(s, ps, fates)
    decreases |ps|
  {
    hide Merge, Sound, Placed, Removed, VictimRows, Uncut, CutShort;
    if ps == [] {
      UncutNone(s, fates);
    } else {
      var survivor, victim := ps[0].survivor.id, ps[0].victim.id;
      SoundTail(ps, fates);
      MergePlacesIff(s, survivor, victim, fates(victim));
      MergeRemoves(s, survivor, victim, fates(victim));
      MergeStaysKeyed(s, survivor, victim, fates(victim));
      assert forall i :: 0 < i < |ps| ==> ps[i] == ps[1..][i - 1];
      var n := Merge(s, survivor, victim, fates(victim));
      UncutTail(s, n, ps, fates);
      RunPlacesIff(n, ps[1..], fates);
    }
  }

  lemma UncutNone(s: Store, fates: Fates)
    ensures Uncut(s, [], fates)
  {
  }
}
