/** scripts/repair-orphaned-session-links.ts: sessions whose task is gone are re-pointed at the task that
    holds the dead task's remote id today. */
module RepairLinks {
  import opened Options

  /** ext[source]: its string-valued id, issue_key and key. */
  datatype Node = Node(id: Option<string>, issueKey: Option<string>, key: Option<string>)

  /** A tasks row without its session_ids; `source` is "" for NULL, `ext` None where it is NULL. */
  datatype TaskRow = TaskRow(id: string, source: string, ext: Option<map<string, Node>>)

  /** A session_ids column: NULL or empty, text that is not JSON, or a JSON list. */
  datatype Column = Absent | Garbled | Parsed(ids: seq<string>)

  type Lists = map<string, Column>
  type Links = map<string, string>
  type Backup = map<string, TaskRow>

  /** The tasks table in storage order with its session_ids by task, and the sessions table in SELECT
      order with its task_id by session ("" for NULL). */
  datatype Tables = Tables(rows: seq<TaskRow>, lists: Lists, sids: seq<string>, link: Links)

  /** Both ids are primary keys. */
  predicate Keyed(t: Tables) {
    && (forall i, j :: 0 <= i < j < |t.sids| ==> t.sids[i] != t.sids[j])
    && t.link.Keys == (set s | s in t.sids)
    && (forall r <- t.rows :: r.id in t.lists)
    && "" !in t.lists
  }

  function Ids(c: Column): seq<string> {
    if c.Parsed? then c.ids else []
  }

  function IdsOf(lists: Lists, task: string): seq<string> {
    if task in lists then Ids(lists[task]) else []
  }

  // ------------------------------------------------------------------ finding today's task

  function Texts(values: seq<Option<string>>): seq<string> {
    if values == [] then []
    else (if values[0].Some? && values[0].value != "" then [values[0].value] else []) + Texts(values[1..])
  }

  function RemoteIdsOf(source: string, ext: Option<map<string, Node>>): seq<string> {
    if source == "" || ext.None? || source == "local" || source !in ext.value then []
    else var n := ext.value[source]; Texts([n.id, n.issueKey, n.key])
  }

  /** The source as the query names it: its double quotes are dropped. */
  function SqlName(source: string): string {
    if source == "" then "" else (if source[0] == '"' then "" else [source[0]]) + SqlName(source[1..])
  }

  predicate Holds(r: TaskRow, source: string, rid: string) {
    var src := SqlName(source);
    r.source == src && r.ext.Some? && src in r.ext.value
    && (r.ext.value[src].id == Some(rid) || r.ext.value[src].issueKey == Some(rid) || r.ext.value[src].key == Some(rid))
  }

  function FindByRemoteId(rows: seq<TaskRow>, source: string, rid: string): Option<string> {
    if rows == [] then None
    else if Holds(rows[0], source, rid) then Some(rows[0].id)
    else FindByRemoteId(rows[1..], source, rid)
  }

  function FindAny(rows: seq<TaskRow>, source: string, rids: seq<string>): Option<string> {
    if rids == [] then None
    else
      var found := FindByRemoteId(rows, source, rids[0]);
      if found.Some? then found else FindAny(rows, source, rids[1..])
  }

  /** The newest backup that still has the row. */
  function BackupTask(backups: seq<Backup>, task: string): Option<TaskRow> {
    if backups == [] then None
    else if task in backups[0] then Some(backups[0][task])
    else BackupTask(backups[1..], task)
  }

  datatype Reason = NotInBackup | NoRemoteId | NotHeldToday
  datatype Resolution = Current(id: string) | Unresolved(reason: Reason)

  function Resolve(rows: seq<TaskRow>, backups: seq<Backup>, task: string): Resolution {
    var was := BackupTask(backups, task);
    if was.None? then Unresolved(NotInBackup)
    else
      var rids := RemoteIdsOf(was.value.source, was.value.ext);
      if rids == [] then Unresolved(NoRemoteId)
      else
        var current := FindAny(rows, was.value.source, rids);
        if current.Some? then Current(current.value) else Unresolved(NotHeldToday)
  }

  // ------------------------------------------------------------------ the two passes

  datatype Failure = Failure(sid: string, task: string, reason: Reason)

  /** The script part way: both changed columns, and its counters. */
  datatype Work = Work(link: Links, lists: Lists, repaired: nat, backlinked: nat, unresolved: seq<Failure>)

  predicate Dangles(t: Tables, sid: string)
    requires sid in t.link
  {
    t.link[sid] != "" && t.link[sid] !in t.lists
  }

  function Dangling(t: Tables, sids: seq<string>): (ds: seq<string>)
    requires forall s <- sids :: s in t.link
    ensures forall s <- ds :: s in sids && s in t.link && Dangles(t, s)
  {
    if sids == [] then []
    else (if Dangles(t, sids[0]) then [sids[0]] else []) + Dangling(t, sids[1..])
  }

  function AddSession(lists: Lists, task: string, sid: string): Lists {
    if task !in lists || sid in Ids(lists[task]) then lists
    else lists[task := Parsed(Ids(lists[task]) + [sid])]
  }

  /** One dangling session; its dead task id was read before the pass began. */
  function RepairOne(t: Tables, backups: seq<Backup>, live: bool, w: Work, sid: string): Work
    requires sid in t.link
  {
    match Resolve(t.rows, backups, t.link[sid])
    case Unresolved(reason) => w.(unresolved := w.unresolved + [Failure(sid, t.link[sid], reason)])
    case Current(task) =>
      if live then w.(link := w.link[sid := task], lists := AddSession(w.lists, task, sid), repaired := w.repaired + 1)
      else w.(repaired := w.repaired + 1)
  }

  function RepairPass(t: Tables, backups: seq<Backup>, live: bool, w: Work, sids: seq<string>): Work
    requires forall s <- sids :: s in t.link
    decreases |sids|
  {
    if sids == [] then w else RepairPass(t, backups, live, RepairOne(t, backups, live, w, sids[0]), sids[1..])
  }

  /** One row of the back-link sweep. */
  function SweepOne(live: bool, w: Work, sid: string): Work
    requires sid in w.link
  {
    var task := w.link[sid];
    if task == "" || task !in w.lists || sid in Ids(w.lists[task]) then w
    else w.(lists := if live then AddSession(w.lists, task, sid) else w.lists, backlinked := w.backlinked + 1)
  }

  function Sweep(live: bool, w: Work, sids: seq<string>): Work
    requires forall s <- sids :: s in w.link
    decreases |sids|
  {
    if sids == [] then w else Sweep(live, SweepOne(live, w, sids[0]), sids[1..])
  }

  function Start(t: Tables): Work { Work(t.link, t.lists, 0, 0, []) }

  /** The whole script. */
  function Run(t: Tables, backups: seq<Backup>, live: bool): (w: Work)
    requires Keyed(t)
  {
    assert forall s <- t.sids :: s in t.link.Keys;
    var dangling := Dangling(t, t.sids);
    if dangling == [] then Start(t)
    else
      var w := RepairPass(t, backups, live, Start(t), dangling);
      RepairKeepsKeys(t, backups, live, Start(t), dangling);
      Sweep(live, w, t.sids)
  }

  lemma {:induction false} RepairKeepsKeys(t: Tables, backups: seq<Backup>, live: bool, w: Work, sids: seq<string>)
    requires (forall s <- sids :: s in t.link) && w.link.Keys == t.link.Keys
    ensures RepairPass(t, backups, live, w, sids).link.Keys == t.link.Keys
    decreases |sids|
  {
    if sids != [] {
      assert sids[0] in t.link.Keys;
      RepairKeepsKeys(t, backups, live, RepairOne(t, backups, live, w, sids[0]), sids[1..]);
    }
  }

  /** The tables a live run leaves. */
  function Applied(t: Tables, w: Work): Tables { t.(link := w.link, lists := w.lists) }
}
