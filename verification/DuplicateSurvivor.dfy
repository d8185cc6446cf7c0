/** scripts/cleanup-mstodo-duplicates.ts: which copy of a group is kept, and the merges that follow. */
module DuplicateSurvivor {
  import opened Options
  import opened DuplicateGroups

  /** localeCompare, as the rank it compares; two texts it finds equal share a rank. */
  type Collation = string -> real

  function OrEmpty(s: Option<string>): string { if s.Some? then s.value else "" }

  function Slots(t: Task): seq<string> { [OrEmpty(t.session), OrEmpty(t.plan), OrEmpty(t.exec)] }

  /** The sessions a task links to; the script counts them. */
  function Links(t: Task): set<string> { set s | s in t.ids + Slots(t) && s != "" }

  function Born(t: Task): string { if t.created.Some? then t.created.value else "9999" }

  /** Most session links, then oldest, then lowest id. */
  predicate Before(c: Collation, a: Task, b: Task) {
    |Links(a)| > |Links(b)|
    || (|Links(a)| == |Links(b)| && (c(Born(a)) < c(Born(b)) || (c(Born(a)) == c(Born(b)) && c(a.id) < c(b.id))))
  }

  /** Array.sort is stable: what is not before `t` stays ahead of it. */
  function Insert(c: Collation, t: Task, s: seq<Task>): (r: seq<Task>)
    ensures |r| == |s| + 1
  {
    if s != [] && Before(c, t, s[|s| - 1]) then Insert(c, t, s[..|s| - 1]) + [s[|s| - 1]] else s + [t]
  }

  function Sorted(c: Collation, ts: seq<Task>): (r: seq<Task>)
    ensures |r| == |ts|
  {
    if ts == [] then [] else Insert(c, ts[|ts| - 1], Sorted(c, ts[..|ts| - 1]))
  }

  function Survivor(c: Collation, ts: seq<Task>): Task
    requires ts != []
  {
    Sorted(c, ts)[0]
  }

  predicate Ordered(c: Collation, s: seq<Task>) {
    forall i, j :: 0 <= i < j < |s| ==> !Before(c, s[j], s[i])
  }

  lemma BeforeIsStrictWeak(c: Collation, x: Task, y: Task, z: Task)
    ensures !Before(c, x, x) && (Before(c, x, y) ==> !Before(c, y, x))
    ensures Before(c, x, y) && Before(c, y, z) ==> Before(c, x, z)
    ensures !Before(c, x, y) && !Before(c, y, z) ==> !Before(c, x, z)
  {
    hide Links, Born;
  }

  lemma {:induction false} InsertPermutes(c: Collation, t: Task, s: seq<Task>)
    ensures multiset(Insert(c, t, s)) == multiset(s) + multiset{t}
    ensures forall x :: x in Insert(c, t, s) <==> x == t || x in s
  {
    hide Before;
    if s != [] && Before(c, t, s[|s| - 1]) {
      InsertPermutes(c, t, s[..|s| - 1]);
      assert s == s[..|s| - 1] + [s[|s| - 1]];
    }
  }

  lemma {:induction false} InsertOrders(c: Collation, t: Task, s: seq<Task>)
    requires Ordered(c, s)
    ensures Ordered(c, Insert(c, t, s))
  {
    hide Before;
    if s != [] && Before(c, t, s[|s| - 1]) {
      var init, last := s[..|s| - 1], s[|s| - 1];
      InsertOrders(c, t, init);
      InsertPermutes(c, t, init);
      BeforeIsStrictWeak(c, t, last, last);
      var r := Insert(c, t, init);
      forall i | 0 <= i < |r| ensures !Before(c, last, r[i]) {
        assert r[i] in r;
      }
    } else {
      forall i | 0 <= i < |s| ensures !Before(c, t, s[i]) {
        BeforeIsStrictWeak(c, t, s[|s| - 1], s[i]);
      }
    }
  }

  lemma {:induction false} SortedOrders(c: Collation, ts: seq<Task>)
    ensures Ordered(c, Sorted(c, ts)) && multiset(Sorted(c, ts)) == multiset(ts)
    ensures forall t :: t in Sorted(c, ts) <==> t in ts
  {
    hide Before, Ordered, Insert;
    if ts == [] {
      OrderedNone(c);
    } else {
      var init, last := ts[..|ts| - 1], ts[|ts| - 1];
      SortedOrders(c, init);
      InsertOrders(c, last, Sorted(c, init));
      InsertPermutes(c, last, Sorted(c, init));
      assert ts == init + [last];
    }
  }

  lemma OrderedNone(c: Collation)
    ensures Ordered(c, [])
  {
  }

  /** ts[i] is the first of those nothing is before. */
  predicate FirstBest(c: Collation, ts: seq<Task>, i: int) {
    && 0 <= i < |ts|
    && (forall j :: 0 <= j < |ts| ==> !Before(c, ts[j], ts[i]))
    && (forall j :: 0 <= j < i ==> Before(c, ts[i], ts[j]))
  }

  lemma {:induction false} FirstBestSurvives(c: Collation, ts: seq<Task>)
    requires ts != []
    ensures exists i :: FirstBest(c, ts, i) && ts[i] == Survivor(c, ts)
  {
    hide Before, Insert, Ordered;
    var init, last := ts[..|ts| - 1], ts[|ts| - 1];
    if init == [] {
      OrderedNone(c);
      InsertHead(c, last, []);
      BeforeIsStrictWeak(c, last, last, last);
      assert FirstBest(c, ts, 0);
    } else {
      FirstBestSurvives(c, init);
      var i :| FirstBest(c, init, i) && init[i] == Survivor(c, init);
      SortedOrders(c, init);
      InsertHead(c, last, Sorted(c, init));
      NextBest(c, init, last, i);
      assert init + [last] == ts;
    }
  }

  lemma NextBest(c: Collation, init: seq<Task>, last: Task, i: int)
    requires FirstBest(c, init, i)
    ensures FirstBest(c, init + [last], if Before(c, last, init[i]) then |init| else i)
  {
    hide Before;
    BeforeIsStrictWeak(c, last, last, last);
    if Before(c, last, init[i]) {
      forall j | 0 <= j < |init| ensures Before(c, last, init[j]) && !Before(c, init[j], last) {
        BeforeIsStrictWeak(c, last, init[j], init[i]);
      }
    }
  }

  lemma {:induction false} InsertHead(c: Collation, t: Task, s: seq<Task>)
    requires Ordered(c, s)
    ensures Insert(c, t, s)[0] == if s == [] || Before(c, t, s[0]) then t else s[0]
  {
    hide Before;
    if s != [] {
      if Before(c, t, s[|s| - 1]) {
        InsertHead(c, t, s[..|s| - 1]);
      } else {
        BeforeIsStrictWeak(c, t, s[|s| - 1], s[0]);
      }
    }
  }

  /** When a copy was created; one that does not say counts as of the year 9999. */
  predicate CreatedAs(t: Task, text: string) {
    if t.created.Some? then text == t.created.value else text == "9999"
  }

  /** `u` is no better than `t`: it has fewer links, or as many and is younger, or as old and its id ranks no lower. */
  predicate NoBetter(c: Collation, t: Task, u: Task, born: string, bornU: string) {
    var m, n := |Links(t)|, |Links(u)|;
    n < m || (n == m && (c(born) < c(bornU) || (c(born) == c(bornU) && c(t.id) <= c(u.id))))
  }

  /** The survivor: no copy has more links, or as many and is older, or is as old with a lower id; and of those no
      copy is better than, it is the first listed. */
  lemma SurvivorIsFirstBest(c: Collation, ts: seq<Task>)
    requires ts != []
    ensures var t := Survivor(c, ts);
            && (forall u, d, e :: u in ts && CreatedAs(t, d) && CreatedAs(u, e) ==> NoBetter(c, t, u, d, e))
            && exists i :: 0 <= i < |ts| && ts[i] == t
                           && forall j, d, e :: 0 <= j < i && CreatedAs(ts[j], d) && CreatedAs(t, e) ==>
                                !NoBetter(c, ts[j], t, d, e)
  {
    hide Links, Sorted;
    FirstBestSurvives(c, ts);
    var t := Survivor(c, ts);
    var i :| FirstBest(c, ts, i) && ts[i] == t;
    forall u, d, e | u in ts && CreatedAs(t, d) && CreatedAs(u, e) ensures NoBetter(c, t, u, d, e) {
      var j :| 0 <= j < |ts| && ts[j] == u;
      assert !Before(c, ts[j], ts[i]) && d == Born(t) && e == Born(u);
    }
    forall j, d, e | 0 <= j < i && CreatedAs(ts[j], d) && CreatedAs(t, e) ensures !NoBetter(c, ts[j], t, d, e) {
      assert Before(c, ts[i], ts[j]) && d == Born(ts[j]) && e == Born(t);
    }
  }

  /** `t` has more links than any other copy, or as many and is older, or as old and of a lower id. */
  predicate Outright(c: Collation, ts: seq<Task>, t: Task) {
    t in ts && forall u <- ts :: u != t ==> Before(c, t, u)
  }

  ghost predicate OrderIgnored(c: Collation, ts: seq<Task>)
    requires ts != []
  {
    forall p: seq<Task> :: p != [] && multiset(p) == multiset(ts) ==> Survivor(c, p) == Survivor(c, ts)
  }

  /** The kept copy does not depend on the listing order exactly when one copy beats every other outright, and
      then it is that copy; copies that tie on links, age and id rank are decided by which is listed first. */
  lemma SurvivorIgnoresOrderIff(c: Collation, ts: seq<Task>)
    requires ts != [] && DistinctIds(ts)
    ensures OrderIgnored(c, ts) <==> exists t :: Outright(c, ts, t)
    ensures forall t :: Outright(c, ts, t) ==> Survivor(c, ts) == t
  {
    hide Before, Survivor;
    var s := Survivor(c, ts);
    forall t | Outright(c, ts, t) ensures s == t { OutrightSurvives(c, ts, t); }
    if t :| Outright(c, ts, t) {
      forall p: seq<Task> | p != [] && multiset(p) == multiset(ts) ensures Survivor(c, p) == s {
        SameSurvivor(c, ts, p);
      }
    } else {
      FirstBestSurvives(c, ts);
      assert !Outright(c, ts, s);
      var j :| 0 <= j < |ts| && ts[j] != s && !Before(c, s, ts[j]);
      MovedToFront(ts, j);
      TieListedFirst(c, ts, Front(ts, j));
    }
  }

  lemma OutrightSurvives(c: Collation, ts: seq<Task>, t: Task)
    requires Outright(c, ts, t)
    ensures Survivor(c, ts) == t
  {
    hide Before, Survivor;
    FirstBestSurvives(c, ts);
    var i :| FirstBest(c, ts, i) && ts[i] == Survivor(c, ts);
    var j :| 0 <= j < |ts| && ts[j] == t;
    assert !Before(c, ts[j], ts[i]);
  }

  /** So the listing order never matters where the collation ranks the copies' ids apart. */
  lemma RankedIdsIgnoreOrder(c: Collation, ts: seq<Task>)
    requires ts != [] && DistinctIds(ts)
    requires forall t, u :: t in ts && u in ts && t != u ==> c(t.id) != c(u.id)
    ensures OrderIgnored(c, ts)
  {
    hide Links, Born, OrderIgnored, Survivor;
    FirstBestSurvives(c, ts);
    var i :| FirstBest(c, ts, i) && ts[i] == Survivor(c, ts);
    forall u | u in ts && u != ts[i] ensures Before(c, ts[i], u) {
      var j :| 0 <= j < |ts| && ts[j] == u;
      assert !Before(c, ts[j], ts[i]);
    }
    assert Outright(c, ts, ts[i]);
    SurvivorIgnoresOrderIff(c, ts);
  }

  function Front(ts: seq<Task>, j: int): seq<Task>
    requires 0 <= j < |ts|
  {
    [ts[j]] + (ts[..j] + ts[j + 1..])
  }

  lemma MovedToFront(ts: seq<Task>, j: int)
    requires 0 <= j < |ts|
    ensures multiset(Front(ts, j)) == multiset(ts)
  {
    assert ts == ts[..j] + [ts[j]] + ts[j + 1..];
  }

  lemma SameSurvivor(c: Collation, ts: seq<Task>, p: seq<Task>)
    requires ts != [] && p != [] && multiset(p) == multiset(ts)
    requires forall t <- ts :: t != Survivor(c, ts) ==> Before(c, Survivor(c, ts), t)
    ensures Survivor(c, p) == Survivor(c, ts)
  {
    hide Before, Survivor;
    FirstBestSurvives(c, ts);
    FirstBestSurvives(c, p);
    var i :| FirstBest(c, ts, i) && ts[i] == Survivor(c, ts);
    var k :| FirstBest(c, p, k) && p[k] == Survivor(c, p);
    assert p[k] in multiset(ts) && ts[i] in multiset(p);
    var m :| 0 <= m < |p| && p[m] == ts[i];
    assert !Before(c, p[m], p[k]);
  }

  /** A copy that ties with the survivor survives when it is listed first. */
  lemma TieListedFirst(c: Collation, ts: seq<Task>, p: seq<Task>)
    requires ts != [] && p != [] && multiset(p) == multiset(ts) && !Before(c, Survivor(c, ts), p[0])
    ensures Survivor(c, p) == p[0]
  {
    hide Before, Survivor;
    FirstBestSurvives(c, ts);
    FirstBestSurvives(c, p);
    var i :| FirstBest(c, ts, i) && ts[i] == Survivor(c, ts);
    var k :| FirstBest(c, p, k) && p[k] == Survivor(c, p);
    assert p[k] in multiset(ts);
    var m :| 0 <= m < |ts| && ts[m] == p[k];
    assert !Before(c, ts[m], ts[i]);
    BeforeIsStrictWeak(c, ts[m], ts[i], p[0]);
  }

  // ------------------------------------------------------------------ the merges

  datatype Pair = Pair(survivor: Task, victim: Task)

  /** One group's merges, in the order they are made. */
  function PairsOf(c: Collation, members: seq<Task>): seq<Pair> {
    if |members| <= 1 then []
    else seq(|members| - 1, i requires 0 <= i < |members| - 1 => Pair(Sorted(c, members)[0], Sorted(c, members)[i + 1]))
  }

  function Plan(c: Collation, g: Groups, keys: seq<string>): seq<Pair>
    requires forall k <- keys :: k in g.at
  {
    if keys == [] then [] else Plan(c, g, keys[..|keys| - 1]) + PairsOf(c, g.at[keys[|keys| - 1]])
  }

  /** Some group of several keeps `p.survivor` and merges `p.victim` into it. */
  ghost predicate Merges(c: Collation, g: Groups, keys: seq<string>, p: Pair) {
    exists k :: k in keys && k in g.at && |g.at[k]| > 1 && p.survivor == Survivor(c, g.at[k])
                && p.victim in g.at[k] && p.victim != p.survivor
  }

  /** Every task filed once: the groups share no task, nor does one hold a task twice. */
  ghost predicate Disjoint(g: Groups, keys: seq<string>) {
    && DistinctKeys(keys) && (forall k <- keys :: k in g.at && DistinctIds(g.at[k]))
    && forall j, k, t, u :: j in keys && k in keys && t in g.at[j] && u in g.at[k] && t.id == u.id ==> j == k
  }

  /** No task is merged twice, and none that is kept is merged. */
  ghost predicate Sound(ps: seq<Pair>) {
    && (forall i, j :: 0 <= i < j < |ps| ==> ps[i].victim.id != ps[j].victim.id)
    && (forall i, j :: 0 <= i < |ps| && 0 <= j < |ps| ==> ps[i].survivor.id != ps[j].victim.id)
  }

  lemma SortedDistinct(c: Collation, ts: seq<Task>)
    requires DistinctIds(ts)
    ensures DistinctIds(Sorted(c, ts)) && forall t :: t in Sorted(c, ts) <==> t in ts
  {
    hide Sorted, DistinctIds;
    SortedOrders(c, ts);
    StillDistinct(ts, Sorted(c, ts));
  }

  lemma StillDistinct(ts: seq<Task>, s: seq<Task>)
    requires DistinctIds(ts) && multiset(s) == multiset(ts)
    ensures DistinctIds(s)
  {
    forall i, j | 0 <= i < j < |s| ensures s[i].id != s[j].id {
      assert s[i] in multiset(ts) && s[j] in multiset(ts);
      OnceIn(ts, s[i]);
      if s[i] == s[j] { Twice(s, i, j); }
    }
  }

  lemma Twice(s: seq<Task>, i: int, j: int)
    requires 0 <= i < j < |s| && s[i] == s[j]
    ensures multiset(s)[s[i]] >= 2
  {
    assert s == s[..j] + s[j..];
    assert s[i] in s[..j] && s[j] in s[j..];
  }

  lemma {:induction false} OnceIn(ts: seq<Task>, t: Task)
    requires DistinctIds(ts)
    ensures multiset(ts)[t] <= 1
  {
    if ts != [] {
      OnceIn(ts[..|ts| - 1], t);
      assert ts == ts[..|ts| - 1] + [ts[|ts| - 1]];
      if t == ts[|ts| - 1] { assert t !in ts[..|ts| - 1]; }
    }
  }

  lemma PairsOfGroup(c: Collation, ms: seq<Task>)
    requires DistinctIds(ms)
    ensures Sound(PairsOf(c, ms))
    ensures forall p: Pair :: p in PairsOf(c, ms)
              <==> |ms| > 1 && p.survivor == Survivor(c, ms) && p.victim in ms && p.victim != p.survivor
  {
    hide Sorted;
    SortedDistinct(c, ms);
    var s, ps := Sorted(c, ms), PairsOf(c, ms);
    if |ms| > 1 {
      forall p: Pair | p.survivor == s[0] && p.victim in ms && p.victim != s[0] ensures p in ps {
        var i :| 0 <= i < |s| && s[i] == p.victim;
        assert ps[i - 1] == p;
      }
      forall p: Pair | p in ps ensures p.survivor == s[0] && p.victim in ms && p.victim != s[0] {
        var i :| 0 <= i < |ps| && ps[i] == p;
        assert p.victim == s[i + 1];
      }
    }
  }

  /** The plan merges each superfluous copy of each group once, into its group's survivor. */
  lemma {:induction false} PlanIsSound(c: Collation, g: Groups, keys: seq<string>)
    requires Disjoint(g, keys)
    ensures Sound(Plan(c, g, keys))
    ensures forall p: Pair :: p in Plan(c, g, keys) <==> Merges(c, g, keys, p)
  {
    hide PairsOf, Survivor;
    if keys != [] {
      var init, last := keys[..|keys| - 1], keys[|keys| - 1];
      assert keys == init + [last];
      DisjointInit(g, keys);
      PlanIsSound(c, g, init);
      PairsOfGroup(c, g.at[last]);
      var done, more := Plan(c, g, init), PairsOf(c, g.at[last]);
      hide Sound, Merges;
      forall p: Pair ensures p in done + more <==> Merges(c, g, keys, p) {
        MergesLater(c, g, init, last, p);
      }
      forall p: Pair, q: Pair | p in done && q in more
        ensures p.victim.id != q.victim.id && p.survivor.id != q.victim.id && q.survivor.id != p.victim.id
      {
        MergesLater(c, g, init, last, q);
        Apart(c, g, init, last, p, q);
      }
      SoundTogether(done, more);
    } else {
      assert forall p: Pair :: !Merges(c, g, [], p);
    }
  }

  lemma DisjointInit(g: Groups, keys: seq<string>)
    requires Disjoint(g, keys) && keys != []
    ensures Disjoint(g, keys[..|keys| - 1])
  {
  }

  lemma MergesLater(c: Collation, g: Groups, init: seq<string>, last: string, p: Pair)
    requires last in g.at
    ensures Merges(c, g, init + [last], p) <==> Merges(c, g, init, p) || Merges(c, g, [last], p)
    ensures Merges(c, g, [last], p) <==>
      |g.at[last]| > 1 && p.survivor == Survivor(c, g.at[last]) && p.victim in g.at[last] && p.victim != p.survivor
  {
    hide Survivor;
    assert forall k :: k in init + [last] <==> k in init || k in [last];
    assert last in [last];
  }

  lemma SoundTogether(ps: seq<Pair>, qs: seq<Pair>)
    requires Sound(ps) && Sound(qs)
    requires forall p: Pair, q: Pair :: p in ps && q in qs ==>
               p.victim.id != q.victim.id && p.survivor.id != q.victim.id && q.survivor.id != p.victim.id
    ensures Sound(ps + qs)
  {
    var r := ps + qs;
    forall i, j | 0 <= i < |r| && 0 <= j < |r|
      ensures (i < j ==> r[i].victim.id != r[j].victim.id) && r[i].survivor.id != r[j].victim.id
    {
      assert if i < |ps| then r[i] in ps else r[i] in qs;
      assert if j < |ps| then r[j] in ps else r[j] in qs;
    }
  }

  lemma Apart(c: Collation, g: Groups, init: seq<string>, last: string, p: Pair, q: Pair)
    requires Disjoint(g, init + [last]) && Merges(c, g, init, p) && Merges(c, g, [last], q)
    ensures p.victim.id != q.victim.id && p.survivor.id != q.victim.id && q.survivor.id != p.victim.id
  {
    hide Survivor, DistinctIds;
    var j :| j in init && j in g.at && |g.at[j]| > 1 && p.survivor == Survivor(c, g.at[j]) && p.victim in g.at[j];
    assert j in init + [last] && last in init + [last];
    assert j != last by {
      var i :| 0 <= i < |init| && init[i] == j;
      assert (init + [last])[i] == j && (init + [last])[|init|] == last;
    }
    SurvivorIn(c, g.at[j]);
    SurvivorIn(c, g.at[last]);
  }

  lemma SurvivorIn(c: Collation, ms: seq<Task>)
    requires ms != []
    ensures Survivor(c, ms) in ms
  {
    SortedOrders(c, ms);
    assert Sorted(c, ms)[0] in Sorted(c, ms);
  }

  // ------------------------------------------------------------------ the whole plan

  function WholePlan(c: Collation, ms: seq<Task>): seq<Pair> {
    AllGroupsLay(ms);
    Plan(c, AllGroups(ms), AllGroups(ms).keys)
  }

  lemma GroupMembers(ms: seq<Task>, key: string)
    requires DistinctIds(ms) && key in AllGroups(ms).at
    ensures DistinctIds(AllGroups(ms).at[key]) && forall t <- AllGroups(ms).at[key] :: t in ms
  {
    hide With, KeysOf, SeenInPass1, AllGroups, Replacing;
    AllGroupsLay(ms);
    var pass := ByTitle(SeenInPass1(ms));
    WithDistinct(ms, ByRemoteId, RidOf(key));
    WithDistinct(ms, pass, key);
  }

  lemma GroupsDisjoint(ms: seq<Task>)
    requires DistinctIds(ms)
    ensures Disjoint(AllGroups(ms), AllGroups(ms).keys)
  {
    hide AllGroups;
    AllGroupsLay(ms);
    var g := AllGroups(ms);
    forall k | k in g.keys ensures k in g.at && DistinctIds(g.at[k]) && forall t <- g.at[k] :: t in ms {
      assert k in g.at.Keys;
      GroupMembers(ms, k);
    }
    forall j, k, t: Task, u: Task | j in g.keys && k in g.keys && t in g.at[j] && u in g.at[k] && t.id == u.id
      ensures j == k
    {
      assert t == u;
      EachTaskInOneGroup(ms, t);
    }
  }

  /** The merges of a run: every copy but its group's survivor, each once; no survivor is merged away. */
  lemma WholePlanIsSound(c: Collation, ms: seq<Task>)
    requires DistinctIds(ms)
    ensures Sound(WholePlan(c, ms))
    ensures forall p: Pair :: p in WholePlan(c, ms) <==> Merges(c, AllGroups(ms), AllGroups(ms).keys, p)
    ensures forall p: Pair :: p in WholePlan(c, ms) ==> p.survivor in ms && p.victim in ms
  {
    hide AllGroups, Survivor, Sound, Plan, Disjoint;
    AllGroupsLay(ms);
    GroupsDisjoint(ms);
    var g := AllGroups(ms);
    PlanIsSound(c, g, g.keys);
    forall p: Pair | Merges(c, g, g.keys, p) ensures p.survivor in ms && p.victim in ms {
      var k :| k in g.keys && k in g.at && |g.at[k]| > 1 && p.survivor == Survivor(c, g.at[k]) && p.victim in g.at[k];
      GroupMembers(ms, k);
      SurvivorIn(c, g.at[k]);
    }
  }
}
