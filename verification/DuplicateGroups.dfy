/** scripts/cleanup-mstodo-duplicates.ts: which tasks are grouped as copies of one. */
module DuplicateGroups {
  import opened Options

  /** A stored task. `project` is lower-cased ("" for none), `title` lower-cased and trimmed. */
  datatype Task = Task(id: string, source: string, project: string, title: string, remoteId: Option<string>,
                       created: Option<string>, parent: Option<string>, session: Option<string>,
                       plan: Option<string>, exec: Option<string>, ids: seq<string>, legacy: seq<string>)

  predicate DistinctIds(ts: seq<Task>) {
    forall i, j :: 0 <= i < j < |ts| ==> ts[i].id != ts[j].id
  }

  /** The tasks the script looks at; an empty --title is no filter. */
  predicate Wanted(t: Task, onlyTitle: Option<string>) {
    t.source == "ms-todo" && (onlyTitle.None? || onlyTitle.value == "" || t.title == onlyTitle.value)
  }

  // ------------------------------------------------------------------ one grouping pass

  datatype Pass = ByRemoteId | ByTitle(skipped: set<string>)

  function TitleKey(project: string, title: string): string { project + "::" + title }

  function RemoteKey(rid: string): string { "remote-id::" + rid }

  /** The key a pass files a task under; None where it leaves the task out. */
  function KeyOf(pass: Pass, t: Task): Option<string> {
    match pass
    case ByRemoteId => if t.remoteId == Some("") then None else t.remoteId
    case ByTitle(skipped) => if t.id in skipped then None else Some(TitleKey(t.project, t.title))
  }

  /** A Map from key to members; `keys` is its insertion order. */
  datatype Groups = Groups(keys: seq<string>, at: map<string, seq<Task>>)

  function Push(g: Groups, key: string, t: Task): Groups {
    if key in g.at then g.(at := g.at[key := g.at[key] + [t]])
    else Groups(g.keys + [key], g.at[key := [t]])
  }

  function Put(g: Groups, key: string, members: seq<Task>): Groups {
    Groups(if key in g.at then g.keys else g.keys + [key], g.at[key := members])
  }

  /** The tasks a pass files under `key`, in listing order. */
  function With(ts: seq<Task>, pass: Pass, key: string): (ms: seq<Task>)
    ensures forall t :: t in ms <==> t in ts && KeyOf(pass, t) == Some(key)
  {
    if ts == [] then []
    else
      var last := ts[|ts| - 1];
      assert ts == ts[..|ts| - 1] + [last];
      With(ts[..|ts| - 1], pass, key) + if KeyOf(pass, last) == Some(key) then [last] else []
  }

  predicate DistinctKeys(keys: seq<string>) { forall i, j :: 0 <= i < j < |keys| ==> keys[i] != keys[j] }

  /** Each key once, in the order it first appears. */
  function KeysOf(ts: seq<Task>, pass: Pass): (ks: seq<string>)
    ensures DistinctKeys(ks)
    ensures forall k :: k in ks <==> exists t :: t in ts && KeyOf(pass, t) == Some(k)
  {
    if ts == [] then []
    else
      var last := ts[|ts| - 1];
      assert ts == ts[..|ts| - 1] + [last];
      var ks := KeysOf(ts[..|ts| - 1], pass);
      if KeyOf(pass, last).None? || KeyOf(pass, last).value in ks then ks else ks + [KeyOf(pass, last).value]
  }

  function Grouped(ts: seq<Task>, pass: Pass): (g: Groups)
    ensures g.at.Keys == (set k | k in g.keys)
  {
    Groups(KeysOf(ts, pass), map k | k in KeysOf(ts, pass) :: With(ts, pass, k))
  }

  // ------------------------------------------------------------------ both passes together

  /** Several tasks hold this remote id. */
  predicate Duplicated(ms: seq<Task>, rid: string) { |With(ms, ByRemoteId, rid)| > 1 }

  /** The members of the remote-id groups. */
  function SeenInPass1(ms: seq<Task>): set<string> {
    set t | t in ms && KeyOf(ByRemoteId, t).Some? && Duplicated(ms, KeyOf(ByRemoteId, t).value) :: t.id
  }

  function Overlay(g: Groups, ms: seq<Task>, rids: seq<string>): Groups {
    if rids == [] then g
    else
      var init, last := rids[..|rids| - 1], rids[|rids| - 1];
      var done := Overlay(g, ms, init);
      if Duplicated(ms, last) then Put(done, RemoteKey(last), With(ms, ByRemoteId, last)) else done
  }

  function AllGroups(ms: seq<Task>): Groups {
    Overlay(Grouped(ms, ByTitle(SeenInPass1(ms))), ms, KeysOf(ms, ByRemoteId))
  }

  /** `key` is the remote-id key of an id several tasks hold. */
  predicate Replacing(ms: seq<Task>, rids: seq<string>, key: string) {
    key == RemoteKey(RidOf(key)) && RidOf(key) in rids && Duplicated(ms, RidOf(key))
  }

  function RidOf(key: string): (rid: string)
    ensures forall r :: RemoteKey(r) == key ==> r == rid
  {
    if |key| < 11 then "" else
      assert forall r :: RemoteKey(r) == key ==> RemoteKey(r)[11..] == r;
      key[11..]
  }

  predicate Tidy(g: Groups) { DistinctKeys(g.keys) && g.at.Keys == (set k | k in g.keys) }

  /** The remote-id groups lie over the title groups. */
  ghost predicate Laid(g: Groups, titles: Groups, ms: seq<Task>, rids: seq<string>) {
    forall k :: if Replacing(ms, rids, k) then k in g.at && g.at[k] == With(ms, ByRemoteId, RidOf(k))
                else (k in g.at <==> k in titles.at) && (k in g.at ==> g.at[k] == titles.at[k])
  }

  lemma {:induction false} OverlayLays(titles: Groups, ms: seq<Task>, rids: seq<string>)
    requires Tidy(titles)
    ensures Tidy(Overlay(titles, ms, rids)) && Laid(Overlay(titles, ms, rids), titles, ms, rids)
  {
    hide With, Duplicated, RidOf, RemoteKey, Tidy, Put;
    if rids != [] {
      hide Laid;
      var init, last := rids[..|rids| - 1], rids[|rids| - 1];
      var before := Overlay(titles, ms, init);
      OverlayLays(titles, ms, init);
      PutIsTidy(before, RemoteKey(last), With(ms, ByRemoteId, last));
      PutLays(before, titles, ms, init, last);
      assert rids == init + [last];
    }
  }

  lemma PutLays(g: Groups, titles: Groups, ms: seq<Task>, rids: seq<string>, rid: string)
    requires Laid(g, titles, ms, rids)
    ensures Laid(if Duplicated(ms, rid) then Put(g, RemoteKey(rid), With(ms, ByRemoteId, rid)) else g,
                 titles, ms, rids + [rid])
  {
    hide With, Duplicated, RidOf, RemoteKey;
    assert forall r :: r in rids + [rid] <==> r in rids || r == rid;
    assert RidOf(RemoteKey(rid)) == rid;
  }

  lemma PutIsTidy(g: Groups, key: string, members: seq<Task>)
    requires Tidy(g)
    ensures Tidy(Put(g, key, members))
  {
    assert forall k :: k in g.keys <==> k in g.at.Keys;
  }

  /** A task of no remote-id group, whose title group a remote-id group replaced. */
  ghost predicate Overwritten(ms: seq<Task>, t: Task) {
    t.id !in SeenInPass1(ms) && exists rid :: Duplicated(ms, rid) && RemoteKey(rid) == TitleKey(t.project, t.title)
  }

  lemma SeenIff(ms: seq<Task>, t: Task)
    requires DistinctIds(ms) && t in ms
    ensures t.id in SeenInPass1(ms) <==> KeyOf(ByRemoteId, t).Some? && Duplicated(ms, KeyOf(ByRemoteId, t).value)
  {
    assert forall u :: u in ms && u.id == t.id ==> u == t;
  }

  lemma DuplicatedIsKey(ms: seq<Task>, rid: string)
    requires Duplicated(ms, rid)
    ensures rid in KeysOf(ms, ByRemoteId)
  {
    assert With(ms, ByRemoteId, rid)[0] in With(ms, ByRemoteId, rid);
  }

  lemma AllGroupsLay(ms: seq<Task>)
    ensures Tidy(AllGroups(ms))
    ensures Laid(AllGroups(ms), Grouped(ms, ByTitle(SeenInPass1(ms))), ms, KeysOf(ms, ByRemoteId))
  {
    OverlayLays(Grouped(ms, ByTitle(SeenInPass1(ms))), ms, KeysOf(ms, ByRemoteId));
  }

  /** The one key a task can be filed under. */
  function FinalKey(ms: seq<Task>, t: Task): string {
    if t.id in SeenInPass1(ms) && KeyOf(ByRemoteId, t).Some? then RemoteKey(KeyOf(ByRemoteId, t).value)
    else TitleKey(t.project, t.title)
  }

  lemma FiledUnderFinalKey(ms: seq<Task>, t: Task, key: string)
    requires DistinctIds(ms) && t in ms
    ensures key in AllGroups(ms).at && t in AllGroups(ms).at[key] <==> key == FinalKey(ms, t) && !Overwritten(ms, t)
  {
    hide SeenInPass1, Duplicated, AllGroups, With, RidOf, RemoteKey, TitleKey;
    AllGroupsLay(ms);
    SeenIff(ms, t);
    var g, titles := AllGroups(ms), Grouped(ms, ByTitle(SeenInPass1(ms)));
    if Duplicated(ms, RidOf(key)) { DuplicatedIsKey(ms, RidOf(key)); }
    if KeyOf(ByRemoteId, t).Some? {
      assert RidOf(RemoteKey(KeyOf(ByRemoteId, t).value)) == KeyOf(ByRemoteId, t).value;
    }
    if Replacing(ms, KeysOf(ms, ByRemoteId), key) {
      assert key in g.at && t in g.at[key] <==> KeyOf(ByRemoteId, t) == Some(RidOf(key));
    } else {
      assert key in g.at && t in g.at[key] <==> key in titles.at && t in titles.at[key];
      assert key in titles.at && t in titles.at[key] <==> KeyOf(ByTitle(SeenInPass1(ms)), t) == Some(key);
    }
  }

  lemma ShareIff(ms: seq<Task>, t: Task, u: Task)
    requires DistinctIds(ms) && t in ms && u in ms
    ensures var g := AllGroups(ms);
            (exists k :: k in g.at && t in g.at[k] && u in g.at[k])
            <==> if t.id in SeenInPass1(ms) then t.remoteId == u.remoteId
                 else && u.id !in SeenInPass1(ms) && !Overwritten(ms, t)
                      && TitleKey(t.project, t.title) == TitleKey(u.project, u.title)
  {
    hide AllGroups, SeenInPass1, TitleKey, RemoteKey;
    var g := AllGroups(ms);
    forall key
      ensures key in g.at && t in g.at[key] <==> key == FinalKey(ms, t) && !Overwritten(ms, t)
      ensures key in g.at && u in g.at[key] <==> key == FinalKey(ms, u) && !Overwritten(ms, u)
    {
      FiledUnderFinalKey(ms, t, key);
      FiledUnderFinalKey(ms, u, key);
    }
    SeenIff(ms, t);
    SeenIff(ms, u);
    RemoteKeysDiffer();
    var key := FinalKey(ms, t);
    assert (exists k :: k in g.at && t in g.at[k] && u in g.at[k]) <==> key in g.at && t in g.at[key] && u in g.at[key];
  }

  /** Another listed task holds the same remote id. */
  predicate SharesId(ms: seq<Task>, t: Task) {
    t.remoteId.Some? && t.remoteId.value != "" && exists u :: u in ms && u.id != t.id && u.remoteId == t.remoteId
  }

  /** Some remote id that several tasks hold makes the key of this task's title group. */
  predicate TitleReplaced(ms: seq<Task>, t: Task) {
    exists u :: u in ms && SharesId(ms, u) && "remote-id::" + u.remoteId.value == t.project + "::" + t.title
  }

  lemma DuplicatedIff(ms: seq<Task>, rid: string)
    requires DistinctIds(ms)
    ensures Duplicated(ms, rid) <==> exists u :: u in ms && SharesId(ms, u) && u.remoteId == Some(rid)
  {
    WithDistinct(ms, ByRemoteId, rid);
    var w := With(ms, ByRemoteId, rid);
    hide With;
    if |w| > 1 {
      assert w[0] in w && w[1] in w && w[0].id != w[1].id;
      assert SharesId(ms, w[0]);
    }
    if u :| u in ms && SharesId(ms, u) && u.remoteId == Some(rid) {
      var v :| v in ms && v.id != u.id && v.remoteId == u.remoteId;
      assert u in w && v in w;
      var i :| 0 <= i < |w| && w[i] == u;
      var j :| 0 <= j < |w| && w[j] == v;
    }
  }

  lemma SeenShares(ms: seq<Task>, t: Task)
    requires DistinctIds(ms) && t in ms
    ensures t.id in SeenInPass1(ms) <==> SharesId(ms, t)
  {
    hide SeenInPass1, Duplicated;
    SeenIff(ms, t);
    if t.remoteId.Some? {
      DuplicatedIff(ms, t.remoteId.value);
      if t.remoteId.value != "" && Duplicated(ms, t.remoteId.value) {
        var u :| u in ms && SharesId(ms, u) && u.remoteId == t.remoteId;
        if u.id == t.id { assert u == t; }
      }
    }
  }

  lemma ReplacedIff(ms: seq<Task>, t: Task)
    requires DistinctIds(ms) && t in ms
    ensures Overwritten(ms, t) <==> !SharesId(ms, t) && TitleReplaced(ms, t)
  {
    hide SeenInPass1, Duplicated, SharesId;
    SeenShares(ms, t);
    forall rid ensures Duplicated(ms, rid) <==> exists w :: w in ms && SharesId(ms, w) && w.remoteId == Some(rid) {
      DuplicatedIff(ms, rid);
    }
    SharersHaveIds(ms);
    if TitleReplaced(ms, t) {
      var w :| w in ms && SharesId(ms, w) && "remote-id::" + w.remoteId.value == t.project + "::" + t.title;
      assert Duplicated(ms, w.remoteId.value) && RemoteKey(w.remoteId.value) == TitleKey(t.project, t.title);
    }
  }

  /** No task is in two groups, and a task is in one unless, with no remote id that another holds too, its title
      group was replaced. */
  lemma EachTaskInOneGroup(ms: seq<Task>, t: Task)
    requires DistinctIds(ms) && t in ms
    ensures var g := AllGroups(ms);
            && (forall j, k :: j in g.at && k in g.at && t in g.at[j] && t in g.at[k] ==> j == k)
            && ((exists k :: k in g.at && t in g.at[k]) <==> SharesId(ms, t) || !TitleReplaced(ms, t))
  {
    hide AllGroups, Overwritten, FinalKey, SharesId, TitleReplaced;
    ReplacedIff(ms, t);
    forall key ensures key in AllGroups(ms).at && t in AllGroups(ms).at[key]
                  <==> key == FinalKey(ms, t) && !Overwritten(ms, t)
    {
      FiledUnderFinalKey(ms, t, key);
    }
    var key := FinalKey(ms, t);
    assert key in AllGroups(ms).at && t in AllGroups(ms).at[key] <==> !Overwritten(ms, t);
  }

  /** Two tasks land in one group: as holders of one remote id that several hold, or, neither sharing its own, under
      one project and title whose key no shared remote id makes. */
  lemma ShareAGroupIff(ms: seq<Task>, t: Task, u: Task)
    requires DistinctIds(ms) && t in ms && u in ms
    ensures var g := AllGroups(ms);
            (exists k :: k in g.at && t in g.at[k] && u in g.at[k])
            <==> if SharesId(ms, t) then t.remoteId == u.remoteId
                 else && !SharesId(ms, u) && !TitleReplaced(ms, t)
                      && t.project + "::" + t.title == u.project + "::" + u.title
  {
    hide AllGroups, SeenInPass1, Overwritten, SharesId, TitleReplaced;
    ShareIff(ms, t, u);
    SeenShares(ms, t);
    SeenShares(ms, u);
    ReplacedIff(ms, t);
  }

  lemma SharersHaveIds(ms: seq<Task>)
    ensures forall w :: SharesId(ms, w) ==> w.remoteId.Some?
  {
  }

  lemma RemoteKeysDiffer()
    ensures forall r, s :: RemoteKey(r) == RemoteKey(s) ==> r == s
  {
    forall r, s | RemoteKey(r) == RemoteKey(s) ensures r == s {
      assert RidOf(RemoteKey(s)) == s;
    }
  }

  // ------------------------------------------------------------------ what the keys confuse

  /** Two (project, title) pairs with one key: equal pairs, or the longer project ends inside the other's
      separator or takes in the other's project and part of its title. */
  lemma SameTitleKeyIff(p: string, t: string, q: string, u: string)
    requires |p| <= |q|
    ensures TitleKey(p, t) == TitleKey(q, u)
        <==> || (p == q && t == u)
             || (q == p + ":" && t == ":" + u)
             || (|q| >= |p| + 2 && q == p + "::" + q[|p| + 2..] && t == q[|p| + 2..] + "::" + u)
  {
    var a, b := TitleKey(p, t), TitleKey(q, u);
    if a == b { SameTitleKeyMeans(p, t, q, u); }
    if q == p + ":" && t == ":" + u {
      assert a == p + "::" + ":" + u && b == p + ":" + "::" + u;
    }
    if |q| >= |p| + 2 && q == p + "::" + q[|p| + 2..] && t == q[|p| + 2..] + "::" + u {
      assert a == p + "::" + q[|p| + 2..] + "::" + u;
    }
  }

  lemma SameTitleKeyMeans(p: string, t: string, q: string, u: string)
    requires |p| <= |q| && TitleKey(p, t) == TitleKey(q, u)
    ensures |q| == |p| ==> p == q && t == u
    ensures |q| == |p| + 1 ==> q == p + ":" && t == ":" + u
    ensures |q| >= |p| + 2 ==> q == p + "::" + q[|p| + 2..] && t == q[|p| + 2..] + "::" + u
  {
    var a, b := TitleKey(p, t), TitleKey(q, u);
    assert forall i :: 0 <= i < |p| ==> a[i] == p[i];
    assert forall i :: 0 <= i < |q| ==> b[i] == q[i];
    assert a[|p|] == ':' && a[|p| + 1] == ':' && b[|q|] == ':' && b[|q| + 1] == ':';
    assert a[|p| + 2..] == t && b[|q| + 2..] == u;
  }

  lemma LongerProjectHasAColon(p: string, t: string, q: string, u: string)
    requires TitleKey(p, t) == TitleKey(q, u) && |p| < |q|
    ensures ':' in q
  {
    assert TitleKey(p, t)[|p|] == ':' && TitleKey(q, u)[|p|] == q[|p|];
  }

  /** So projects without a colon are never confused. */
  lemma ColonFreeProjectsDiffer(p: string, t: string, q: string, u: string)
    requires ':' !in p && ':' !in q
    ensures TitleKey(p, t) == TitleKey(q, u) <==> p == q && t == u
  {
    if TitleKey(p, t) == TitleKey(q, u) {
      if |p| < |q| {
        LongerProjectHasAColon(p, t, q, u);
      } else if |q| < |p| {
        LongerProjectHasAColon(q, u, p, t);
      } else {
        SameTitleKeyIff(p, t, q, u);
      }
    }
  }

  /** Two tasks of different projects and titles that the second pass merges. */
  lemma TitleKeysCollide()
    ensures TitleKey("a", "b::c") == TitleKey("a::b", "c")
  {
    assert TitleKey("a", "b::c") == "a::b::c";
  }

  /** Only a task of a project whose name begins with "remote-id" loses its group. */
  lemma OnlyRemoteIdProjectsLoseTheirGroup(ms: seq<Task>, t: Task)
    ensures Overwritten(ms, t) ==> |t.project| >= 9 && t.project[..9] == "remote-id"
  {
    if Overwritten(ms, t) {
      var rid :| Duplicated(ms, rid) && RemoteKey(rid) == TitleKey(t.project, t.title);
      var key, mark := RemoteKey(rid), "remote-id";
      assert forall i :: 0 <= i < 9 ==> key[i] == mark[i];
      assert forall i :: 0 <= i < |t.project| ==> key[i] == t.project[i];
      assert forall i :: 0 <= i < 9 ==> key[i] != ':';
      assert key[|t.project|] == ':';
    }
  }

  /** And one does: two tasks holding remote id "x" replace the group of a task "x" in project "remote-id",
      so its copy beside it is never merged. */
  lemma AGroupIsLost(a: Task, b: Task, c: Task, d: Task)
    requires DistinctIds([a, b, c, d]) && a.remoteId == b.remoteId == Some("x")
    requires c.remoteId.None? && d.remoteId.None?
    requires c.project == d.project == "remote-id" && c.title == d.title == "x"
    ensures Overwritten([a, b, c, d], c) && Overwritten([a, b, c, d], d)
  {
    hide With, SeenInPass1;
    var ms := [a, b, c, d];
    TwoHolders(a, b, c, d);
    assert RemoteKey("x") == TitleKey("remote-id", "x") by {
      assert RemoteKey("x") == "remote-id::x" && TitleKey("remote-id", "x") == "remote-id::x";
    }
    hide RemoteKey, TitleKey;
    assert ms[2] == c && ms[3] == d;
    SeenIff(ms, c);
    SeenIff(ms, d);
  }

  lemma TwoHolders(a: Task, b: Task, c: Task, d: Task)
    requires a.remoteId == b.remoteId == Some("x") && c.remoteId.None? && d.remoteId.None?
    ensures Duplicated([a, b, c, d], "x")
  {
    hide With;
    WithAppend([], a, ByRemoteId, "x");
    WithAppend([] + [a], b, ByRemoteId, "x");
    WithAppend([] + [a] + [b], c, ByRemoteId, "x");
    WithAppend([] + [a] + [b] + [c], d, ByRemoteId, "x");
    assert [] + [a] + [b] + [c] + [d] == [a, b, c, d];
  }

  lemma WithAppend(ts: seq<Task>, t: Task, pass: Pass, key: string)
    ensures With([], pass, key) == []
    ensures With(ts + [t], pass, key) == With(ts, pass, key) + if KeyOf(pass, t) == Some(key) then [t] else []
  {
    assert (ts + [t])[..|ts|] == ts && (ts + [t])[|ts|] == t;
    assert |ts + [t]| == |ts| + 1;
  }

  lemma {:induction false} WithDistinct(ts: seq<Task>, pass: Pass, key: string)
    requires DistinctIds(ts)
    ensures DistinctIds(With(ts, pass, key))
  {
    if ts != [] {
      var init, last := ts[..|ts| - 1], ts[|ts| - 1];
      WithDistinct(init, pass, key);
      assert forall t :: t in With(init, pass, key) ==> t.id != last.id;
    }
  }
}
