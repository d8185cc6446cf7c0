/** What `git status --porcelain=v2 --branch -z` prints of a checkout, entry by entry, and what
    desktop/AppBuiltCheckout.swift reads back of it. */
module CheckoutReport {
  import opened Options
  import opened Text
  import opened CheckoutStatus

  // ------------------------------------------------------------------ the branch headers git prints

  /** A number as git prints it. */
  function Decimal(n: nat): string {
    (if n < 10 then "" else Decimal(n / 10)) + [(n % 10) as char + '0']
  }

  lemma {:induction false} DecimalReadBack(n: nat)
    ensures AllDigits(Decimal(n)) && Decimal(n) != "" && DigitsValue(Decimal(n)) == n
    ensures ParseInt(Decimal(n)) == if n <= INT_MAX then Some(n) else None
  {
    var s := Decimal(n);
    if n >= 10 { DecimalReadBack(n / 10); }
    assert s[..|s| - 1] == if n < 10 then "" else Decimal(n / 10);
    assert IsDigit(s[|s| - 1]) && (s[|s| - 1] - '0') as nat == n % 10;
    assert IsDigit(s[0]);
  }

  function AheadLine(ahead: nat, behind: nat): string {
    "# branch.ab " + ("+" + Decimal(ahead)) + [' '] + ("-" + Decimal(behind))
  }

  /** The commits read as the checkout's own are those it is ahead, whatever it is behind; more than 64 bits
      hold are no number, which is not accepted either. */
  lemma AheadReadBack(ahead: nat, behind: nat)
    ensures Read(AheadLine(ahead, behind)) == Ahead(if ahead <= INT_MAX then Some(ahead) else None)
  {
    DecimalReadBack(ahead);
    DecimalReadBack(behind);
    hide SplitAll, Decimal, ParseInt;
    var ab := ["+" + Decimal(ahead), "-" + Decimal(behind)];
    forall i | 0 <= i < 2 ensures Clean(ab[i], ' ') { NoSpace(ab[i]); }
    SplitAllJoin(ab, ' ');
    var text := AheadLine(ahead, behind);
    assert Join(ab, ' ') == ab[0] + [' '] + ab[1] by { assert ab[1..] == [ab[1]]; }
    assert text == "# branch.ab " + Join(ab, ' ');
    assert text[12..] == Join(ab, ' ') && ab[0][1..] == Decimal(ahead) && text[9] == 'a';
  }

  lemma NoSpace(s: string)
    requires s != "" && AllDigits(s[1..]) && s[0] != ' '
    ensures Clean(s, ' ')
  {
    assert forall k :: 0 < k < |s| ==> s[k] == s[1..][k - 1];
  }

  lemma NamesReadBack(name: string)
    ensures Read("# branch.head " + name) == Head(name)
    ensures Read("# branch.upstream " + name) == Upstream(name)
    ensures Read("# branch.oid " + name) == Header
  {
    hide ReadChange, ReadAhead;
    var h, u, o := "# branch.head " + name, "# branch.upstream " + name, "# branch.oid " + name;
    assert h[14..] == name && u[18..] == name && u[9] == 'u' && o[9] == 'o';
  }

  lemma OthersReadBack(rest: string)
    ensures Read("? " + rest) == Untracked(rest)
    ensures Read("2 " + rest).Other? && Read("u " + rest).Other?
  {
    hide ReadChange, ReadAhead;
    var q, r, c := "? " + rest, "2 " + rest, "u " + rest;
    assert q[2..] == rest && q[0] == '?' && r[0] == '2' && c[0] == 'u';
  }

  // ------------------------------------------------------------------ a whole status

  /** An entry of git's list: a change of a tracked file, a rename, a conflict, or a new file. */
  datatype Change =
    | Edited(xy: string, middle: seq<string>, path: string)
    | Renamed(rest: string)
    | Conflict(rest: string)
    | New(path: string)

  /** What `git status` has to report of a checkout. */
  datatype Report = Report(oid: string, head: string, upstream: Option<string>, ab: Option<(nat, nat)>,
                           changes: seq<Change>)

  function ChangeText(c: Change): string {
    match c
    case Edited(xy, middle, path) => ChangeLine(xy, middle, path)
    case Renamed(rest) => "2 " + rest
    case Conflict(rest) => "u " + rest
    case New(path) => "? " + path
  }

  function HeaderTexts(r: Report): seq<string> {
    ["# branch.oid " + r.oid, "# branch.head " + r.head]
    + (if r.upstream.Some? then ["# branch.upstream " + r.upstream.value] else [])
    + (if r.ab.Some? then [AheadLine(r.ab.value.0, r.ab.value.1)] else [])
  }

  function ChangeTexts(cs: seq<Change>): (ts: seq<string>)
    ensures |ts| == |cs| && forall i :: 0 <= i < |ts| ==> ts[i] == ChangeText(cs[i])
  {
    seq(|cs|, i requires 0 <= i < |cs| => ChangeText(cs[i]))
  }

  /** Under `-z` every entry ends with a NUL. */
  function Ended(texts: seq<string>): string {
    if texts == [] then "" else texts[0] + ['\0'] + Ended(texts[1..])
  }

  function Printed(r: Report): string { Ended(HeaderTexts(r) + ChangeTexts(r.changes)) }

  /** No field of a change line but the path has a space in it. */
  predicate PlainFields(cs: seq<Change>) {
    forall c <- cs :: c.Edited? ==> ' ' !in c.xy && |c.middle| == 6 && forall f <- c.middle :: ' ' !in f
  }

  /** The old build's mark: the one file it deletes. */
  predicate MarkDeleted(c: Change) {
    c.Edited? && c.xy == ".D" && c.path == "src/providers/daemon-standalone.ts"
  }

  /** What the old build left of a checkout, in git's own terms. */
  predicate OldBuildsChange(c: Change) {
    || MarkDeleted(c)
    || (c.Edited? && c.xy == ".M" && c.path in ["package-lock.json", "web/package-lock.json"])
    || (c.New? && c.path in ["package-lock.json", "web/package-lock.json"])
  }

  lemma SplitNext(head: string, sep: char, rest: string, maxSplits: nat)
    requires Clean(head, sep) && maxSplits > 0
    ensures Split(head + [sep] + rest, sep, maxSplits) == [head] + Split(rest, sep, maxSplits - 1)
  {
    FirstOfClean(head, sep, rest);
    var s := head + [sep] + rest;
    assert s[0] == head[0] && s[..|head|] == head && s[|head| + 1..] == rest;
  }

  lemma {:induction false} EndedLength(texts: seq<string>)
    ensures |texts| <= |Ended(texts)|
  {
    if texts != [] { EndedLength(texts[1..]); }
  }

  lemma {:induction false} SplitEnded(texts: seq<string>, maxSplits: nat)
    requires (forall text <- texts :: Clean(text, '\0')) && |texts| <= maxSplits
    ensures Split(Ended(texts), '\0', maxSplits) == texts
    decreases |texts|
  {
    hide Clean;
    if texts == [] {
      assert Split("", '\0', maxSplits) == [];
    } else {
      hide Split;
      SplitNext(texts[0], '\0', Ended(texts[1..]), maxSplits);
      SplitEnded(texts[1..], maxSplits - 1);
    }
  }

  lemma ChangeTextReads(c: Change)
    requires PlainFields([c])
    ensures IsChange(Read(ChangeText(c)))
    ensures Allowed(Read(ChangeText(c))) <==> OldBuildsChange(c)
    ensures IsMark(Read(ChangeText(c))) <==> MarkDeleted(c)
  {
    hide Read;
    match c
    case Edited(xy, middle, path) =>
      assert c in [c];
      ChangeLineReadBack(xy, middle, path);
    case Renamed(rest) => OthersReadBack(rest);
    case Conflict(rest) => OthersReadBack(rest);
    case New(path) => OthersReadBack(path);
  }

  lemma {:induction false} HeadersThenChanges(hs: seq<Entry>, cs: seq<Entry>)
    requires (forall h <- hs :: !IsChange(h)) && forall c <- cs :: IsChange(c)
    ensures Headers(hs + cs) == hs
    decreases |hs| + |cs|
  {
    var es := hs + cs;
    if cs != [] {
      assert es[..|es| - 1] == hs + cs[..|cs| - 1] && es[|es| - 1] == cs[|cs| - 1];
      HeadersThenChanges(hs, cs[..|cs| - 1]);
    } else if hs != [] {
      assert es == hs && es[|es| - 1] in hs;
      HeadersThenChanges(hs[..|hs| - 1], []);
      assert hs[..|hs| - 1] + [] == hs[..|hs| - 1];
    }
  }

  /** The entries of the headers. */
  function HeaderEntries(r: Report): seq<Entry> {
    [Header, Head(r.head)]
    + (if r.upstream.Some? then [Upstream(r.upstream.value)] else [])
    + (if r.ab.Some? then [Ahead(if r.ab.value.0 <= INT_MAX then Some(r.ab.value.0) else None)] else [])
  }

  lemma HeadersRead(r: Report)
    ensures ReadAll(HeaderTexts(r)) == HeaderEntries(r)
  {
    hide Read, AheadLine;
    NamesReadBack(r.oid);
    NamesReadBack(r.head);
    if r.upstream.Some? { NamesReadBack(r.upstream.value); }
    if r.ab.Some? { AheadReadBack(r.ab.value.0, r.ab.value.1); }
  }

  lemma LastOf(es: seq<Entry>, e: Entry)
    ensures LastHead(es + [e]) == if e.Head? then Some(e.name) else LastHead(es)
    ensures LastUpstream(es + [e]) == if e.Upstream? then Some(e.name) else LastUpstream(es)
    ensures LastAhead(es + [e]) == if e.Ahead? then e.count else LastAhead(es)
  {
    assert (es + [e])[..|es + [e]| - 1] == es;
  }

  lemma HeadersSay(r: Report)
    ensures var hs := HeaderEntries(r);
            && LastHead(hs) == Some(r.head) && LastUpstream(hs) == r.upstream
            && LastAhead(hs) == if r.ab.Some? && r.ab.value.0 <= INT_MAX then Some(r.ab.value.0) else None
  {
    hide LastHead, LastUpstream, LastAhead;
    var none: seq<Entry> := [];
    NoneLast();
    LastOf(none, Header);
    LastOf(none + [Header], Head(r.head));
    var two := none + [Header] + [Head(r.head)];
    assert two == [Header, Head(r.head)];
    if r.upstream.Some? { LastOf(two, Upstream(r.upstream.value)); }
    var three := two + if r.upstream.Some? then [Upstream(r.upstream.value)] else [];
    if r.ab.Some? { LastOf(three, Ahead(if r.ab.value.0 <= INT_MAX then Some(r.ab.value.0) else None)); }
    else { assert HeaderEntries(r) == three; }
    if r.upstream.None? { assert three == two; }
  }

  lemma NoneLast()
    ensures LastHead([]) == None && LastUpstream([]) == None && LastAhead([]) == None
  {
  }

  lemma NotEmpty(r: Report)
    ensures forall text <- HeaderTexts(r) + ChangeTexts(r.changes) :: text != ""
  {
    hide Decimal;
    forall i | 0 <= i < |r.changes| ensures ChangeText(r.changes[i]) != "" {}
  }

  lemma ReadAllOf(a: seq<string>, b: seq<string>)
    ensures ReadAll(a + b) == ReadAll(a) + ReadAll(b)
  {
    hide Read;
  }

  /** The entries are the headers', then the changes'. */
  lemma PrintedEntries(r: Report)
    requires forall text <- HeaderTexts(r) + ChangeTexts(r.changes) :: '\0' !in text
    ensures Entries(Printed(r)) == HeaderEntries(r) + ReadAll(ChangeTexts(r.changes))
  {
    hide Read, ReadAll, HeaderTexts, ChangeText, HeaderEntries, Split, Ended;
    var texts := HeaderTexts(r) + ChangeTexts(r.changes);
    NotEmpty(r);
    EndedLength(texts);
    SplitEnded(texts, |Ended(texts)|);
    ReadAllOf(HeaderTexts(r), ChangeTexts(r.changes));
    HeadersRead(r);
  }

  lemma OneOfPlain(cs: seq<Change>, c: Change)
    requires PlainFields(cs) && c in cs
    ensures PlainFields([c])
  {
  }

  /** What each change's text is read as. */
  predicate ReadsAs(e: Entry, c: Change) {
    && IsChange(e) && (Allowed(e) <==> OldBuildsChange(c)) && (IsMark(e) <==> MarkDeleted(c))
  }

  lemma ChangesRead(cs: seq<Change>)
    requires PlainFields(cs)
    ensures forall i :: 0 <= i < |cs| ==> ReadsAs(ReadAll(ChangeTexts(cs))[i], cs[i])
  {
    hide Read, ChangeText, IsChange, Allowed, IsMark, MarkDeleted, OldBuildsChange, PlainFields;
    forall i | 0 <= i < |cs| ensures ReadsAs(ReadAll(ChangeTexts(cs))[i], cs[i]) {
      OneOfPlain(cs, cs[i]);
      ChangeTextReads(cs[i]);
    }
  }

  lemma HeadersAllowed(r: Report)
    ensures forall h <- HeaderEntries(r) :: !IsChange(h) && Allowed(h) && !IsMark(h)
  {
  }

  lemma AllowedBoth(hs: seq<Entry>, es: seq<Entry>, cs: seq<Change>)
    requires |es| == |cs| && forall i :: 0 <= i < |cs| ==> ReadsAs(es[i], cs[i])
    requires forall h <- hs :: Allowed(h) && !IsMark(h)
    ensures var all := hs + es;
            && ((forall i :: 0 <= i < |all| ==> Allowed(all[i])) <==> forall c <- cs :: OldBuildsChange(c))
            && ((exists i :: 0 <= i < |all| && IsMark(all[i])) <==> exists c :: c in cs && MarkDeleted(c))
  {
    hide IsChange, Allowed, IsMark, MarkDeleted, OldBuildsChange;
    var all := hs + es;
    assert forall i :: 0 <= i < |cs| ==> all[|hs| + i] == es[i];
    assert forall i :: 0 <= i < |hs| ==> all[i] == hs[i] && hs[i] in hs;
    if c :| c in cs && MarkDeleted(c) {
      var i :| 0 <= i < |cs| && cs[i] == c;
      assert IsMark(all[|hs| + i]);
    }
    if i :| 0 <= i < |all| && IsMark(all[i]) {
      assert cs[i - |hs|] in cs && ReadsAs(es[i - |hs|], cs[i - |hs|]);
    }
    if forall i :: 0 <= i < |all| ==> Allowed(all[i]) {
      forall c | c in cs ensures OldBuildsChange(c) {
        var i :| 0 <= i < |cs| && cs[i] == c;
        assert Allowed(all[|hs| + i]);
      }
    }
    if forall c <- cs :: OldBuildsChange(c) {
      forall i | 0 <= i < |all| ensures Allowed(all[i]) {
        if i >= |hs| { assert cs[i - |hs|] in cs && ReadsAs(es[i - |hs|], cs[i - |hs|]); }
      }
    }
  }

  /** A checkout passes for the old build's exactly when it is on main, tracks origin/main with no commit of its
      own, and has no change but that build's: the mark deleted, and npm's lockfiles changed or new. */
  lemma PrintedStatusIff(r: Report)
    requires PlainFields(r.changes)
    requires forall text <- HeaderTexts(r) + ChangeTexts(r.changes) :: '\0' !in text
    ensures OldBuildsOwn(Entries(Printed(r)))
        <==> && r.head == "main" && r.upstream == Some("origin/main") && r.ab.Some? && r.ab.value.0 == 0
             && (exists c :: c in r.changes && MarkDeleted(c))
             && (forall c <- r.changes :: OldBuildsChange(c))
  {
    hide Read, HeaderTexts, ChangeTexts, Headers, Allowed, IsMark, IsChange, HeaderEntries, LastHead, LastUpstream,
         LastAhead, OldBuildsChange, MarkDeleted, PlainFields, Printed, Entries;
    var hs, cs := HeaderEntries(r), ReadAll(ChangeTexts(r.changes));
    assert "origin/" + BRANCH == "origin/main";
    PrintedEntries(r);
    ChangesRead(r.changes);
    HeadersAllowed(r);
    assert |cs| == |r.changes|;
    forall c | c in cs ensures IsChange(c) {
      var i :| 0 <= i < |cs| && cs[i] == c;
      assert ReadsAs(cs[i], r.changes[i]);
    }
    HeadersThenChanges(hs, cs);
    HeadersDecide(hs + cs);
    HeadersSay(r);
    AllowedBoth(hs, cs, r.changes);
  }

  /** The complaint of a change that is not the old build's names what changed. */
  lemma ComplaintNames(c: Change)
    requires PlainFields([c]) && !OldBuildsChange(c)
    ensures var why := Complaint(Read(ChangeText(c)));
            match c
            case Edited(_, _, path) => why == "changed: " + path
            case New(path) => why == "untracked: " + path
            case Renamed(rest) =>
              why == "status: " + if |rest| > 38 then ("2 " + rest)[..40] else "2 " + rest
            case Conflict(rest) =>
              why == "status: " + if |rest| > 38 then ("u " + rest)[..40] else "u " + rest
  {
    hide ReadChange, ReadAhead;
    match c
    case Edited(xy, middle, path) =>
      assert c in [c];
      ChangeLineReadBack(xy, middle, path);
    case New(path) => OthersReadBack(path);
    case Renamed(rest) => OtherText("2 " + rest);
    case Conflict(rest) => OtherText("u " + rest);
  }

  lemma OtherText(text: string)
    requires |text| >= 2 && (text[0] == '2' || text[0] == 'u')
    ensures Read(text) == Entry.Other(text)
  {
    hide ReadChange, ReadAhead;
  }
}
