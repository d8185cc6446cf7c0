/** desktop/AppBuiltCheckout.swift checkStatus: what `git status --porcelain=v2 --branch -z` must say of a
    checkout the old app built. */
module CheckoutStatus {
  import opened Options
  import opened Text

  datatype Verdict = AppBuilt | NotAppBuilt(why: string) | Undetermined(why: string)

  const BRANCH := "main"
  const BUILD_MARK := "src/providers/daemon-standalone.ts"
  const NPM_LOCKFILES := {"package-lock.json", "web/package-lock.json"}

  // ------------------------------------------------------------------ reading one entry

  /** What an entry tells: a branch header, a changed or untracked path, or something the old build never did. */
  datatype Entry =
    | Head(name: string)
    | Upstream(name: string)
    | Ahead(count: Option<int>)
    | Header
    | Changed(xy: string, path: string)
    | Untracked(path: string)
    | Unreadable
    | Other(text: string)

  /** split(separator:maxSplits:omittingEmptySubsequences: false). */
  function Fields(s: string, sep: char, maxSplits: nat): (fs: seq<string>)
    ensures fs != []
  {
    var k := FirstOf(s, sep);
    if maxSplits == 0 || k == |s| then [s] else [s[..k]] + Fields(s[k + 1..], sep, maxSplits - 1)
  }

  function ReadAhead(text: string): Entry {
    var ab := SplitAll(text, ' ');
    if |ab| == 2 && "+" <= ab[0] then Ahead(ParseInt(ab[0][1..])) else Header
  }

  function ReadChange(text: string): Entry {
    var parts := Fields(text, ' ', 8);
    if |parts| == 9 then Changed(parts[1], parts[8]) else Unreadable
  }

  function Read(text: string): Entry {
    if "# branch.head " <= text then Head(text[14..])
    else if "# branch.upstream " <= text then Upstream(text[18..])
    else if "# branch.ab " <= text then ReadAhead(text[12..])
    else if "# " <= text then Header
    else if "1 " <= text then ReadChange(text)
    else if "? " <= text then Untracked(text[2..])
    else Other(text)
  }

  function ReadAll(texts: seq<string>): (es: seq<Entry>)
    ensures |es| == |texts| && forall i :: 0 <= i < |es| ==> es[i] == Read(texts[i])
  {
    seq(|texts|, i requires 0 <= i < |texts| => Read(texts[i]))
  }

  // ------------------------------------------------------------------ what is accepted

  predicate IsMark(e: Entry) { e == Changed(".D", BUILD_MARK) }

  predicate IsLockfile(path: string) { path in NPM_LOCKFILES }

  /** The old build made this entry, or git prints it of any branch. */
  predicate Allowed(e: Entry) {
    match e
    case Head(_) | Upstream(_) | Ahead(_) | Header => true
    case Changed(xy, path) => IsMark(e) || (xy == ".M" && IsLockfile(path))
    case Untracked(path) => IsLockfile(path)
    case Unreadable | Other(_) => false
  }

  function Complaint(e: Entry): string {
    match e
    case Changed(_, path) => "changed: " + path
    case Untracked(path) => "untracked: " + path
    case Other(text) => "status: " + if |text| > 40 then text[..40] else text
    case _ => "unreadable status line"
  }

  function LastHead(es: seq<Entry>): Option<string> {
    if es == [] then None
    else if es[|es| - 1].Head? then Some(es[|es| - 1].name) else LastHead(es[..|es| - 1])
  }

  function LastUpstream(es: seq<Entry>): Option<string> {
    if es == [] then None
    else if es[|es| - 1].Upstream? then Some(es[|es| - 1].name) else LastUpstream(es[..|es| - 1])
  }

  /** The last readable ahead count; None when there is none or it is no number. */
  function LastAhead(es: seq<Entry>): Option<int> {
    if es == [] then None
    else if es[|es| - 1].Ahead? then es[|es| - 1].count else LastAhead(es[..|es| - 1])
  }

  /** On main, tracking origin/main, no commit of its own. */
  predicate OnItsBranch(head: Option<string>, upstream: Option<string>, ahead: Option<int>) {
    head == Some(BRANCH) && upstream == Some("origin/" + BRANCH) && ahead == Some(0)
  }

  /** On its branch, and no change but the old build's: its mark deleted, and npm's lockfiles. */
  predicate OldBuildsOwn(es: seq<Entry>) {
    && OnItsBranch(LastHead(es), LastUpstream(es), LastAhead(es))
    && (exists i :: 0 <= i < |es| && IsMark(es[i]))
    && (forall i :: 0 <= i < |es| ==> Allowed(es[i]))
  }

  /** es[i] is the first entry the old build did not make. */
  predicate FirstForeign(es: seq<Entry>, i: int) {
    0 <= i < |es| && !Allowed(es[i]) && forall j :: 0 <= j < i ==> Allowed(es[j])
  }

  function Entries(status: string): seq<Entry> { ReadAll(SplitAll(status, '\0')) }

  // ------------------------------------------------------------------ the check

  /** What the loop knows once it has read the first i entries, all allowed. */
  ghost predicate SoFar(es: seq<Entry>, i: nat, head: Option<string>, upstream: Option<string>, ahead: Option<int>,
                        sawMark: bool)
  {
    && i <= |es| && head == LastHead(es[..i]) && upstream == LastUpstream(es[..i]) && ahead == LastAhead(es[..i])
    && (sawMark <==> exists j :: 0 <= j < i && IsMark(es[j]))
    && (forall j :: 0 <= j < i ==> Allowed(es[j]))
  }

  lemma NothingYet(es: seq<Entry>)
    ensures SoFar(es, 0, None, None, None, false)
  {
  }

  lemma OneMore(es: seq<Entry>, i: nat, head: Option<string>, upstream: Option<string>, ahead: Option<int>,
                sawMark: bool)
    requires SoFar(es, i, head, upstream, ahead, sawMark) && i < |es| && Allowed(es[i])
    ensures SoFar(es, i + 1, if es[i].Head? then Some(es[i].name) else head,
                  if es[i].Upstream? then Some(es[i].name) else upstream, if es[i].Ahead? then es[i].count else ahead,
                  sawMark || IsMark(es[i]))
  {
    hide Allowed, IsMark;
    assert es[..i + 1][..i] == es[..i];
    assert IsMark(es[i]) ==> exists j :: 0 <= j < i + 1 && IsMark(es[j]);
  }

  lemma ForeignNext(es: seq<Entry>, i: nat, head: Option<string>, upstream: Option<string>, ahead: Option<int>,
                    sawMark: bool)
    requires SoFar(es, i, head, upstream, ahead, sawMark) && i < |es| && !Allowed(es[i])
    ensures !OldBuildsOwn(es) && forall j :: FirstForeign(es, j) ==> j == i
  {
    hide Allowed, IsMark;
  }

  lemma AllRead(es: seq<Entry>, head: Option<string>, upstream: Option<string>, ahead: Option<int>, sawMark: bool)
    requires SoFar(es, |es|, head, upstream, ahead, sawMark)
    ensures OldBuildsOwn(es) <==> OnItsBranch(head, upstream, ahead) && sawMark
    ensures forall j :: !FirstForeign(es, j)
  {
    hide Allowed, IsMark, OnItsBranch;
    assert es[..|es|] == es;
  }

  /** Accepted exactly on the old build's own state; a foreign entry is named, the first of them. */
  method CheckStatus(status: Option<string>) returns (verdict: Verdict)
    ensures verdict.Undetermined? <==> status.None?
    ensures status.Some? ==> (verdict == AppBuilt <==> OldBuildsOwn(Entries(status.value)))
    ensures status.Some? ==> forall i :: FirstForeign(Entries(status.value), i) ==>
              verdict == NotAppBuilt(Complaint(Entries(status.value)[i]))
  {
    if status.None? { return Undetermined("git status did not answer"); }
    var head, upstream: Option<string>, ahead: Option<int>, sawMark := None, None, None, false;
    var texts := SplitAll(status.value, '\0');
    ghost var es := ReadAll(texts);
    hide Read, ReadAll, Complaint, SplitAll, SoFar, FirstForeign, OldBuildsOwn, OnItsBranch, IsMark, IsLockfile;
    NothingYet(es);
    var i := 0;
    while i < |texts|
      invariant 0 <= i <= |texts|
      invariant SoFar(es, i, head, upstream, ahead, sawMark)
    {
      var e := Read(texts[i]);
      if Allowed(e) { OneMore(es, i, head, upstream, ahead, sawMark); }
      else { ForeignNext(es, i, head, upstream, ahead, sawMark); }
      match e {
        case Head(name) => head := Some(name);
        case Upstream(name) => upstream := Some(name);
        case Ahead(count) => ahead := count;
        case Header =>
        case Changed(xy, path) =>
          if IsMark(e) {
            sawMark := true;
          } else if !(xy == ".M" && IsLockfile(path)) {
            return NotAppBuilt(Complaint(e));
          }
        case Untracked(path) => if !IsLockfile(path) { return NotAppBuilt(Complaint(e)); }
        case Unreadable => return NotAppBuilt(Complaint(e));
        case Other(_) => return NotAppBuilt(Complaint(e));
      }
      i := i + 1;
    }
    AllRead(es, head, upstream, ahead, sawMark);
    verdict := Conclude(head, upstream, ahead, sawMark);
  }

  method Conclude(head: Option<string>, upstream: Option<string>, ahead: Option<int>, sawMark: bool)
    returns (verdict: Verdict)
    ensures verdict == AppBuilt <==> OnItsBranch(head, upstream, ahead) && sawMark
    ensures !verdict.Undetermined?
  {
    if head != Some(BRANCH) { return NotAppBuilt("branch is " + if head.Some? then head.value else "detached"); }
    if upstream != Some("origin/" + BRANCH) {
      return NotAppBuilt("upstream is " + if upstream.Some? then upstream.value else "none");
    }
    if ahead != Some(0) { return NotAppBuilt("commits not on its upstream"); }
    if !sawMark { return NotAppBuilt(BUILD_MARK + " is still there"); }
    return AppBuilt;
  }

  // ------------------------------------------------------------------ one entry more, or in another order

  /** One foreign entry anywhere is enough to keep a checkout. */
  lemma ForeignEntryKeepsIt(es: seq<Entry>, i: int, e: Entry)
    requires 0 <= i <= |es| && !Allowed(e)
    ensures !OldBuildsOwn(es[..i] + [e] + es[i..])
  {
    assert (es[..i] + [e] + es[i..])[i] == e;
  }

  predicate IsChange(e: Entry) { e.Changed? || e.Untracked? || e.Unreadable? || e.Other? }

  /** The branch headers, in order. */
  function Headers(es: seq<Entry>): seq<Entry> {
    if es == [] then []
    else Headers(es[..|es| - 1]) + if IsChange(es[|es| - 1]) then [] else [es[|es| - 1]]
  }

  lemma {:induction false} HeadersDecide(es: seq<Entry>)
    ensures LastHead(Headers(es)) == LastHead(es)
    ensures LastUpstream(Headers(es)) == LastUpstream(es) && LastAhead(Headers(es)) == LastAhead(es)
  {
    if es != [] {
      var init := es[..|es| - 1];
      HeadersDecide(init);
      var hs := Headers(es);
      if IsChange(es[|es| - 1]) { assert hs == Headers(init); } else { assert hs[..|hs| - 1] == Headers(init); }
    }
  }

  /** The change entries may come in any order, and between the headers anywhere. */
  lemma OrderOfChangesIgnored(es: seq<Entry>, fs: seq<Entry>)
    requires multiset(es) == multiset(fs) && Headers(es) == Headers(fs)
    ensures OldBuildsOwn(es) <==> OldBuildsOwn(fs)
  {
    if OldBuildsOwn(es) { ReorderedToo(es, fs); }
    if OldBuildsOwn(fs) { ReorderedToo(fs, es); }
  }

  lemma ReorderedToo(es: seq<Entry>, fs: seq<Entry>)
    requires multiset(es) == multiset(fs) && Headers(es) == Headers(fs) && OldBuildsOwn(es)
    ensures OldBuildsOwn(fs)
  {
    HeadersDecide(es);
    HeadersDecide(fs);
    hide LastHead, LastUpstream, LastAhead, Headers, Allowed, IsMark;
    var i :| 0 <= i < |es| && IsMark(es[i]);
    assert es[i] in multiset(fs);
    var j :| 0 <= j < |fs| && fs[j] == es[i];
    forall k | 0 <= k < |fs| ensures Allowed(fs[k]) { assert fs[k] in multiset(es); }
  }

  // ------------------------------------------------------------------ what git prints is read back

  /** `1 <XY> <sub> <mH> <mI> <mW> <hH> <hI> <path>`. */
  function ChangeLine(xy: string, middle: seq<string>, path: string): string {
    "1" + [' '] + Chain([xy] + middle, path)
  }

  function Chain(fields: seq<string>, last: string): string {
    if fields == [] then last else fields[0] + [' '] + Chain(fields[1..], last)
  }

  lemma {:induction false} FieldsOfChain(fields: seq<string>, last: string)
    requires forall i :: 0 <= i < |fields| ==> ' ' !in fields[i]
    ensures Fields(Chain(fields, last), ' ', |fields|) == fields + [last]
  {
    if fields == [] {
      assert Fields(last, ' ', 0) == [last];
    } else {
      hide Fields;
      FieldsNext(fields[0], ' ', Chain(fields[1..], last), |fields|);
      FieldsOfChain(fields[1..], last);
      assert fields == [fields[0]] + fields[1..];
    }
  }

  lemma FieldsNext(head: string, sep: char, rest: string, n: nat)
    requires sep !in head && n > 0
    ensures Fields(head + [sep] + rest, sep, n) == [head] + Fields(rest, sep, n - 1)
  {
    hide FirstOf;
    FirstOfClean(head, sep, rest);
    var s := head + [sep] + rest;
    assert s[..|head|] == head && s[|head| + 1..] == rest;
  }

  /** A changed path is read whole, spaces and all: no path passes for the mark or a lockfile. */
  lemma ChangeLineReadBack(xy: string, middle: seq<string>, path: string)
    requires ' ' !in xy && |middle| == 6 && forall i :: 0 <= i < 6 ==> ' ' !in middle[i]
    ensures Read(ChangeLine(xy, middle, path)) == Changed(xy, path)
  {
    var fields := ["1", xy] + middle;
    assert fields[1..] == [xy] + middle;
    assert Chain(fields, path) == ChangeLine(xy, middle, path);
    FieldsOfChain(fields, path);
    var text := ChangeLine(xy, middle, path);
    assert text[0] == '1' && text[1] == ' ';
    assert ReadChange(text) == Changed(xy, path);
  }

  /** NUL-joined entries are read one by one. */
  lemma EntriesReadBack(texts: seq<string>)
    requires forall i :: 0 <= i < |texts| ==> Clean(texts[i], '\0')
    ensures Entries(Join(texts, '\0')) == ReadAll(texts)
  {
    SplitAllJoin(texts, '\0');
  }
}
