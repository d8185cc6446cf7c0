/** src/core/task-manager.ts mergeTaskIntoNow: one duplicate is folded into the copy that is kept. */
module TaskMerge {
  import opened Options
  import opened DuplicateGroups
  import opened DuplicateSurvivor
  import Text

  /** A sessions row. `active` is false for one an engine switch archived; task "" is none. */
  datatype Row = Row(task: string, active: bool, lastActive: int)

  /** Both stores. `order` is the sessions table's storage order. */
  datatype Store = Store(tasks: map<string, Task>, rows: map<string, Row>, order: seq<string>)

  predicate DistinctSids(sids: seq<string>) { forall i, j :: 0 <= i < j < |sids| ==> sids[i] != sids[j] }

  /** Both ids are primary keys, and none is empty. */
  predicate Keyed(s: Store) {
    && DistinctSids(s.order) && s.rows.Keys == (set sid | sid in s.order)
    && "" !in s.rows && "" !in s.tasks
    && forall id <- s.tasks :: s.tasks[id].id == id
  }

  // ------------------------------------------------------------------ which session the survivor keeps

  predicate Owns(s: Store, task: string, sid: string) {
    sid in s.rows && s.rows[sid].active && s.rows[sid].task == task != ""
  }

  function ByRecency(s: Store, sid: string, sids: seq<string>): (r: seq<string>)
    requires sid in s.rows && forall x <- sids :: x in s.rows
    ensures |r| == |sids| + 1 && forall x :: x in r <==> x == sid || x in sids
    ensures sid !in sids && DistinctSids(sids) ==> DistinctSids(r)
  {
    if sids != [] && s.rows[sids[0]].lastActive >= s.rows[sid].lastActive then
      var rest := ByRecency(s, sid, sids[1..]);
      assert sid !in sids && DistinctSids(sids) ==> sids[0] !in rest;
      [sids[0]] + rest
    else [sid] + sids
  }

  /** The sessions of a task, most recently active first. */
  function Owned(s: Store, task: string, sids: seq<string>): (r: seq<string>)
    ensures forall x :: x in r <==> x in sids && Owns(s, task, x)
    ensures DistinctSids(sids) ==> DistinctSids(r)
  {
    if sids == [] then []
    else
      var rest := Owned(s, task, sids[1..]);
      if Owns(s, task, sids[0]) then ByRecency(s, sids[0], rest) else rest
  }

  function OwnedBy(s: Store, task: string): seq<string> { Owned(s, task, s.order) }

  /** The survivor's own session: the one it owns, or its slot when no other task's row has it. */
  function OwnSession(s: Store, t: Task): Option<string> {
    var owned := OwnedBy(s, t.id);
    if owned != [] then Some(owned[0])
    else if t.session.Some? && t.session.value != ""
            && !(t.session.value in s.rows && s.rows[t.session.value].task != t.id)
    then t.session
    else None
  }

  /** The victim's session that moves: only when the survivor has none. */
  function Follows(s: Store, t: Task, v: Task): Option<string> {
    var sids := OwnedBy(s, v.id);
    if OwnSession(s, t).None? && sids != [] then Some(sids[0]) else None
  }

  function Kept(s: Store, t: Task, v: Task): Option<string> {
    if OwnSession(s, t).Some? then OwnSession(s, t) else Follows(s, t, v)
  }

  function Without(sids: seq<string>, gone: Option<string>): (r: seq<string>)
    ensures forall x :: x in r <==> x in sids && Some(x) != gone
    ensures DistinctSids(sids) ==> DistinctSids(r)
  {
    if sids == [] then [] else (if Some(sids[0]) == gone then [] else [sids[0]]) + Without(sids[1..], gone)
  }

  /** The victim's sessions that lose their task. */
  function Detached(s: Store, t: Task, v: Task): seq<string> { Without(OwnedBy(s, v.id), Follows(s, t, v)) }

  // ------------------------------------------------------------------ the merged task

  function KeepSlot(slot: Option<string>, keep: Option<string>): Option<string> {
    if slot.Some? && slot.value != "" && slot != keep then None else slot
  }

  /** A Set's order: each element where it first appears. */
  function Once(sids: seq<string>): (r: seq<string>)
    ensures forall x :: x in r <==> x in sids
    ensures DistinctSids(r)
  {
    if sids == [] then []
    else
      var rest := Once(sids[..|sids| - 1]);
      var last := sids[|sids| - 1];
      assert sids == sids[..|sids| - 1] + [last];
      if last in rest then rest else rest + [last]
  }

  function Nonempty(sids: seq<string>): (r: seq<string>)
    ensures forall x :: x in r <==> x in sids && x != ""
  {
    if sids == [] then [] else (if sids[0] == "" then [] else [sids[0]]) + Nonempty(sids[1..])
  }

  function History(s: Store, t: Task, v: Task): seq<string> {
    Once(t.legacy + v.legacy + Detached(s, t, v)
         + Without(Nonempty(Slots(v) + v.ids + Slots(t) + t.ids), Kept(s, t, v)))
  }

  function Earliest(t: Task, v: Task): Option<string> {
    if v.created.Some? && v.created.value != ""
       && (t.created.None? || t.created.value == "" || Text.TextLess(v.created.value, t.created.value))
    then v.created else t.created
  }

  /** `legacy_session_ids` is set only when the history is not empty; it was empty already otherwise. */
  function MergedTask(s: Store, t: Task, v: Task): Task {
    var keep := Kept(s, t, v);
    t.(session := keep, ids := if keep.Some? then [keep.value] else [], plan := KeepSlot(t.plan, keep),
       exec := KeepSlot(t.exec, keep), legacy := History(s, t, v), created := Earliest(t, v))
  }

  function Rehomed(t: Task, from: string, to: string): Task {
    if t.parent == Some(from) then t.(parent := Some(to)) else t
  }

  function MergedTasks(s: Store, t: Task, v: Task): map<string, Task> {
    map id | id in s.tasks && id != v.id ::
      Rehomed(if id == t.id then MergedTask(s, t, v) else s.tasks[id], v.id, t.id)
  }

  // ------------------------------------------------------------------ the session rows, one write at a time

  datatype Move = Move(sid: string, to: string)

  /** Another active session already belongs to the task. */
  predicate Taken(rows: map<string, Row>, task: string, sid: string) {
    exists x :: x in rows && x != sid && rows[x].active && rows[x].task == task
  }

  function MoveOne(rows: map<string, Row>, m: Move): map<string, Row> {
    if m.sid !in rows then rows
    else rows[m.sid := rows[m.sid].(task := if m.to == "" || Taken(rows, m.to, m.sid) then "" else m.to)]
  }

  function MoveAll(rows: map<string, Row>, ms: seq<Move>): map<string, Row>
    decreases |ms|
  {
    if ms == [] then rows else MoveAll(MoveOne(rows, ms[0]), ms[1..])
  }

  /** The rows still on the victim once the detached ones are off it, in storage order. */
  function Remaining(s: Store, victim: string, detached: seq<string>, sids: seq<string>): (r: seq<string>)
    ensures forall x :: x in r <==> x in sids && x in s.rows && s.rows[x].task == victim && x !in detached
    ensures DistinctSids(sids) ==> DistinctSids(r)
  {
    if sids == [] then []
    else
      var rest := Remaining(s, victim, detached, sids[1..]);
      if sids[0] in s.rows && s.rows[sids[0]].task == victim && sids[0] !in detached then [sids[0]] + rest else rest
  }

  function Each(sids: seq<string>, to: string): seq<Move> {
    seq(|sids|, i requires 0 <= i < |sids| => Move(sids[i], to))
  }

  function Moves(s: Store, t: Task, v: Task): seq<Move> {
    Each(Detached(s, t, v), "") + Each(Remaining(s, v.id, Detached(s, t, v), s.order), t.id)
  }

  /** How a merge goes: an error before its task write, or that write and then the row writes, cut short
      after `limit` of them (the error is only logged). */
  datatype Fate = Refuses | Writes(limit: Option<nat>)

  function Upto(ms: seq<Move>, limit: Option<nat>): seq<Move> {
    if limit.Some? && limit.value < |ms| then ms[..limit.value] else ms
  }

  /** A missing task, or one merged into itself, is an error too. */
  predicate Mergeable(s: Store, survivor: string, victim: string) {
    survivor != victim && survivor in s.tasks && victim in s.tasks
  }

  function Merge(s: Store, survivor: string, victim: string, fate: Fate): Store {
    if !Mergeable(s, survivor, victim) || fate.Refuses? then s
    else
      var t, v := s.tasks[survivor], s.tasks[victim];
      Store(MergedTasks(s, t, v), MoveAll(s.rows, Upto(Moves(s, t, v), fate.limit)), s.order)
  }
}
