/** desktop/AppBuiltCheckout.swift checkClone: what a checkout's own git files must say of the old app's clone. */
module CheckoutClone {
  import opened Options
  import opened Text

  predicate Blank(c: char) { c == ' ' || c == '\t' }

  function Trim(s: string): string {
    if s != "" && Blank(s[0]) then Trim(s[1..])
    else if s != "" && Blank(s[|s| - 1]) then Trim(s[..|s| - 1])
    else s
  }

  function Lowered(s: string): string {
    if s == "" then "" else [if 'A' <= s[0] <= 'Z' then s[0] - 'A' + 'a' else s[0]] + Lowered(s[1..])
  }

  // ------------------------------------------------------------------ .git/config

  /** A config line: a section (with the remote it names), a remote's url, or anything else. */
  datatype Line = Section(remote: Option<string>) | Url(value: string) | Neither

  function ReadSection(inner: string): Line {
    if "remote \"" <= inner && inner[|inner| - 1] == '"' && |inner| > 9 then Section(Some(inner[8..|inner| - 1]))
    else Section(None)
  }

  function ReadLine(raw: string): Line {
    var line := Trim(raw);
    if line != "" && line[0] == '[' then ReadSection(line[1..][..FirstOf(line[1..], ']')])
    else
      var eq := FirstOf(line, '=');
      if eq < |line| && Lowered(Trim(line[..eq])) == "url" then Url(Trim(line[eq + 1..])) else Neither
  }

  function ReadLines(raw: seq<string>): (ls: seq<Line>)
    ensures |ls| == |raw| && forall i :: 0 <= i < |ls| ==> ls[i] == ReadLine(raw[i])
  {
    seq(|raw|, i requires 0 <= i < |raw| => ReadLine(raw[i]))
  }

  /** The remote a line after these belongs to. */
  function Current(ls: seq<Line>): Option<string> {
    if ls == [] then None
    else if ls[|ls| - 1].Section? then ls[|ls| - 1].remote else Current(ls[..|ls| - 1])
  }

  /** The urls of one remote, in order. */
  function UrlsOf(ls: seq<Line>, name: string): seq<string> {
    if ls == [] then []
    else
      var init, last := ls[..|ls| - 1], ls[|ls| - 1];
      UrlsOf(init, name) + if last.Url? && Current(init) == Some(name) then [last.value] else []
  }

  predicate Names(ls: seq<Line>, name: string) { exists i :: 0 <= i < |ls| && ls[i] == Section(Some(name)) }

  /** The remotes and the current one, after these lines. */
  ghost predicate Collected(out: map<string, seq<string>>, current: Option<string>, ls: seq<Line>) {
    && current == Current(ls) && (current.Some? ==> current.value in out)
    && (forall name :: name in out <==> Names(ls, name))
    && (forall name :: UrlsOf(ls, name) == if name in out then out[name] else [])
  }

  function WithLine(out: map<string, seq<string>>, current: Option<string>, line: Line): map<string, seq<string>>
    requires current.Some? ==> current.value in out
  {
    match line
    case Section(remote) => if remote.Some? && remote.value !in out then out[remote.value := []] else out
    case Url(value) => if current.Some? then out[current.value := out[current.value] + [value]] else out
    case Neither => out
  }

  lemma CollectedNext(out: map<string, seq<string>>, current: Option<string>, ls: seq<Line>, i: int)
    requires 0 <= i < |ls| && Collected(out, current, ls[..i])
    ensures Collected(WithLine(out, current, ls[i]), if ls[i].Section? then ls[i].remote else current, ls[..i + 1])
  {
    hide Current, Names, UrlsOf;
    NextLine(ls, i);
  }

  /** Each remote with its urls. */
  method Remotes(config: seq<string>) returns (out: map<string, seq<string>>)
    ensures forall name :: name in out <==> Names(ReadLines(config), name)
    ensures forall name <- out :: out[name] == UrlsOf(ReadLines(config), name)
  {
    ghost var ls := ReadLines(config);
    hide ReadLines, ReadLine, Current, Names, UrlsOf;
    out := map[];
    var current: Option<string> := None;
    NoLines();
    var i := 0;
    while i < |config|
      invariant 0 <= i <= |config|
      invariant Collected(out, current, ls[..i])
    {
      CollectedNext(out, current, ls, i);
      var line := ReadLine(config[i]);
      match line {
        case Section(remote) =>
          current := remote;
          if remote.Some? && remote.value !in out { out := out[remote.value := []]; }
        case Url(value) =>
          if current.Some? { out := out[current.value := out[current.value] + [value]]; }
        case Neither =>
      }
      i := i + 1;
    }
    assert ls[..i] == ls;
  }

  lemma NoLines()
    ensures Collected(map[], None, [])
  {
  }

  lemma NextLine(ls: seq<Line>, i: int)
    requires 0 <= i < |ls|
    ensures Current(ls[..i + 1]) == if ls[i].Section? then ls[i].remote else Current(ls[..i])
    ensures forall name :: Names(ls[..i + 1], name) <==> Names(ls[..i], name) || ls[i] == Section(Some(name))
    ensures forall name :: UrlsOf(ls[..i + 1], name) ==
              if ls[i].Url? && Current(ls[..i]) == Some(name) then UrlsOf(ls[..i], name) + [ls[i].value]
              else UrlsOf(ls[..i], name)
  {
    assert ls[..i + 1][..i] == ls[..i];
    forall name ensures Names(ls[..i + 1], name) <==> Names(ls[..i], name) || ls[i] == Section(Some(name)) {
      if Names(ls[..i], name) {
        var j :| 0 <= j < i && ls[..i][j] == Section(Some(name));
        assert ls[..i + 1][j] == Section(Some(name));
      }
      if ls[i] == Section(Some(name)) { assert ls[..i + 1][i] == Section(Some(name)); }
    }
    assert forall name :: UrlsOf(ls[..i], name) + [] == UrlsOf(ls[..i], name);
  }

  // ------------------------------------------------------------------ the clone

  const REPO_URL := "https://github.com/EvanZhang008/open-walnut.git"

  /** One remote section name, and under it this one url; as often written as it likes. */
  ghost predicate OnlyTheAppsRemote(ls: seq<Line>) {
    Names(ls, "origin") && UrlsOf(ls, "origin") == [REPO_URL] && forall name :: Names(ls, name) ==> name == "origin"
  }

  /** The clone, then pulls and nothing else. */
  predicate OnlyPulls(messages: seq<string>) {
    && messages != [] && messages[0] == "clone: from " + REPO_URL
    && forall i :: 0 < i < |messages| ==> "pull --ff-only: " <= messages[i]
  }

  /** A reflog line's message: what follows its tab. */
  function Message(line: string): string {
    var k := FirstOf(line, '\t');
    if k == |line| then "" else line[k + 1..]
  }

  function Messages(reflog: seq<string>): seq<string> {
    seq(|reflog|, i requires 0 <= i < |reflog| => Message(reflog[i]))
  }

  /** Passes exactly for a shallow clone of the app's repository with no other remote, whose reflog, where git
      kept one (`blank` when it holds white space only), has the clone and the old app's pulls and no more. */
  method CheckClone(isGitDirectory: bool, isShallow: bool, config: Option<seq<string>>,
                    reflog: Option<seq<string>>, blank: bool) returns (complaint: Option<string>)
    ensures complaint.None?
        <==> && isGitDirectory && isShallow && config.Some? && OnlyTheAppsRemote(ReadLines(config.value))
             && (reflog.Some? && !blank ==> OnlyPulls(Messages(reflog.value)))
  {
    hide ReadLines, UrlsOf, Names;
    if !isGitDirectory { return Some("no .git directory"); }
    if !isShallow { return Some("not a shallow clone"); }
    if config.None? { return Some("no .git/config"); }
    var found := Remotes(config.value);
    ghost var ls := ReadLines(config.value);
    assert found == map["origin" := [REPO_URL]] <==> OnlyTheAppsRemote(ls) by {
      if OnlyTheAppsRemote(ls) {
        assert found.Keys == {"origin"};
        assert found == map["origin" := [REPO_URL]];
      }
      assert found == map["origin" := [REPO_URL]] ==> "origin" in found;
    }
    if found != map["origin" := [REPO_URL]] { return Some("remotes are not the app's clone"); }
    if reflog.Some? && !blank {
      var messages := Messages(reflog.value);
      if messages == [] || messages[0] != "clone: from " + REPO_URL { return Some("not cloned from " + REPO_URL); }
      var i := 1;
      while i < |messages|
        invariant 1 <= i <= |messages|
        invariant forall j :: 0 < j < i ==> "pull --ff-only: " <= messages[j]
      {
        if !("pull --ff-only: " <= messages[i]) { return Some("git history has other work: " + messages[i]); }
        i := i + 1;
      }
    }
    return None;
  }
}
