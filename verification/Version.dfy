/** AppUpdateVersion (desktop/AppUpdateMachine.swift:226-249): the version order, and what it has to do
    with the precedence of SemVer 2.0.0 (sections 9 to 11). */
module Version {
  import opened Options
  import opened Text

  /** `Trap`: the code indexes parts[0] of an empty list and the app stops. */
  datatype Parsed = Trap | Unreadable | Version(core: seq<int>, pre: seq<string>)

  function NoBuild(v: string): string {
    var trimmed := if v != "" && v[0] == 'v' then v[1..] else v;
    var pieces := Split(trimmed, '+', 1);
    if pieces == [] then trimmed else pieces[0]
  }

  function Numbers(texts: seq<string>): Option<seq<int>> {
    if texts == [] then Some([])
    else
      var rest := Numbers(texts[1..]);
      if ParseInt(texts[0]).Some? && rest.Some? then Some([ParseInt(texts[0]).value] + rest.value) else None
  }

  function Parse(v: string): Parsed {
    var parts := Split(NoBuild(v), '-', 1);
    if parts == [] then Trap
    else
      var fields := SplitAll(parts[0], '.');
      var core := Numbers(fields);
      if |fields| != 3 || core.None? then Unreadable
      else Version(core.value, if |parts| > 1 then SplitAll(parts[1], '.') else [])
  }

  function Sign(less: bool): int { if less then -1 else 1 }

  function CompareCore(x: seq<int>, y: seq<int>): int {
    if x == [] || y == [] then 0
    else if x[0] != y[0] then Sign(x[0] < y[0])
    else CompareCore(x[1..], y[1..])
  }

  /** Two identifiers that differ as texts. */
  function CompareId(s: string, t: string): int {
    match (ParseInt(s), ParseInt(t))
    case (Some(l), Some(r)) => Sign(l < r)
    case (Some(_), None) => -1
    case (None, Some(_)) => 1
    case (None, None) => Sign(TextLess(s, t))
  }

  /** The first identifiers that differ, or the lengths. */
  function CompareIds(p: seq<string>, q: seq<string>): int {
    if p == [] || q == [] then (if |p| == |q| then 0 else Sign(|p| < |q|))
    else if p[0] != q[0] then CompareId(p[0], q[0])
    else CompareIds(p[1..], q[1..])
  }

  function ComparePre(p: seq<string>, q: seq<string>): int {
    if p == [] || q == [] then (if (p == []) == (q == []) then 0 else if p == [] then 1 else -1)
    else CompareIds(p, q)
  }

  function CompareParsed(x: Parsed, y: Parsed): int
    requires !x.Trap? && !y.Trap?
  {
    if x.Unreadable? then (if y.Unreadable? then 0 else -1)
    else if y.Unreadable? then 1
    else
      var c := CompareCore(x.core, y.core);
      if c != 0 then c else ComparePre(x.pre, y.pre)
  }

  /** compare(a, b); None when it traps. */
  function Compare(a: string, b: string): Option<int> {
    if Parse(a).Trap? || Parse(b).Trap? then None else Some(CompareParsed(Parse(a), Parse(b)))
  }

  predicate IsNewer(candidate: string, current: string) {
    Compare(candidate, current).Some? && Compare(candidate, current).value > 0
  }

  // ------------------------------------------------------------------ when it traps

  predicate OnlyHyphens(s: string) { forall i :: 0 <= i < |s| ==> s[i] == '-' }

  /** Exactly the texts with nothing, or only hyphens, where the version should be. */
  lemma CompareTrapsIff(a: string, b: string)
    ensures Compare(a, b).None? <==> OnlyHyphens(NoBuild(a)) || OnlyHyphens(NoBuild(b))
  {
    SplitEmptyIff(NoBuild(a), '-', 1);
    SplitEmptyIff(NoBuild(b), '-', 1);
  }

  // ------------------------------------------------------------------ the order

  lemma {:induction false} ParseShape(v: string)
    ensures Parse(v).Version? ==> |Parse(v).core| == 3
  {
    var parts := Split(NoBuild(v), '-', 1);
    if parts != [] {
      NumbersLength(SplitAll(parts[0], '.'));
    }
  }

  lemma {:induction false} NumbersLength(texts: seq<string>)
    ensures Numbers(texts).Some? ==> |Numbers(texts).value| == |texts|
  {
    if texts != [] { NumbersLength(texts[1..]); }
  }

  /** The two identifiers differ as texts and are the same number ("01" and "1"). */
  predicate SameNumber(s: string, t: string) {
    s != t && ParseInt(s).Some? && ParseInt(s) == ParseInt(t)
  }

  /** The first identifiers that differ are the same number. */
  predicate AmbiguousIds(p: seq<string>, q: seq<string>) {
    p != [] && q != [] && (if p[0] != q[0] then SameNumber(p[0], q[0]) else AmbiguousIds(p[1..], q[1..]))
  }

  predicate Ambiguous(x: Parsed, y: Parsed) {
    x.Version? && y.Version? && CompareCore(x.core, y.core) == 0 && AmbiguousIds(x.pre, y.pre)
  }

  lemma {:induction false} CoreAntisymmetric(x: seq<int>, y: seq<int>)
    ensures CompareCore(x, y) == -CompareCore(y, x)
  {
    if x != [] && y != [] { CoreAntisymmetric(x[1..], y[1..]); }
  }

  lemma {:induction false} IdsAntisymmetricIff(p: seq<string>, q: seq<string>)
    ensures CompareIds(p, q) == -CompareIds(q, p) <==> !AmbiguousIds(p, q)
    ensures AmbiguousIds(p, q) ==> CompareIds(p, q) == 1 && CompareIds(q, p) == 1
  {
    if p != [] && q != [] {
      if p[0] == q[0] { IdsAntisymmetricIff(p[1..], q[1..]); } else { TextLessTotal(p[0], q[0]); }
    }
  }

  /** Swapping the arguments flips the sign, except for two versions whose first different prerelease
      identifiers are one number written two ways: there both orders answer "newer". */
  lemma CompareAntisymmetricIff(a: string, b: string)
    requires Compare(a, b).Some?
    ensures Compare(b, a).Some?
    ensures Compare(a, b).value == -Compare(b, a).value <==> !Ambiguous(Parse(a), Parse(b))
    ensures Ambiguous(Parse(a), Parse(b)) ==> IsNewer(a, b) && IsNewer(b, a)
  {
    var x, y := Parse(a), Parse(b);
    if x.Version? && y.Version? {
      CoreAntisymmetric(x.core, y.core);
      IdsAntisymmetricIff(x.pre, y.pre);
    }
  }

  // ------------------------------------------------------------------ reading a version's text

  /** x.y.z[-id.id...][+build]. */
  function VersionText(core: seq<string>, pre: seq<string>, build: Option<string>): string {
    Join(core, '.') + (if pre == [] then "" else "-" + Join(pre, '.')) + (if build.None? then "" else "+" + build.value)
  }

  /** A decimal that fits 64 bits. */
  predicate Number(s: string) { s != "" && AllDigits(s) && DigitsValue(s) <= INT_MAX }

  predicate Identifier(s: string) { s != "" && '.' !in s && '+' !in s }

  predicate WellFormed(core: seq<string>, pre: seq<string>) {
    && |core| == 3 && (forall i :: 0 <= i < 3 ==> Number(core[i]))
    && (forall i :: 0 <= i < |pre| ==> Identifier(pre[i]))
  }

  function Values(core: seq<string>): seq<int>
    requires forall i :: 0 <= i < |core| ==> Number(core[i])
  {
    if core == [] then []
    else
      assert Number(core[0]);
      [DigitsValue(core[0])] + Values(core[1..])
  }

  lemma {:induction false} NumbersOf(core: seq<string>)
    requires forall i :: 0 <= i < |core| ==> Number(core[i])
    ensures Numbers(core) == Some(Values(core))
  {
    if core != [] {
      NumbersOf(core[1..]);
      assert IsDigit(core[0][0]);
    }
  }

  lemma CoreText(core: seq<string>)
    requires |core| == 3 && forall i :: 0 <= i < 3 ==> Number(core[i])
    ensures var c := Join(core, '.');
            c != "" && '+' !in c && '-' !in c && IsDigit(c[0]) && SplitAll(c, '.') == core
  {
    hide DigitsValue;
    forall i | 0 <= i < 3 ensures Clean(core[i], '.') && '+' !in core[i] && '-' !in core[i] {
      assert forall j :: 0 <= j < |core[i]| ==> IsDigit(core[i][j]);
    }
    JoinAvoids(core, '.', '+');
    JoinAvoids(core, '.', '-');
    SplitAllJoin(core, '.');
    assert Join(core, '.')[0] == core[0][0];
  }

  lemma HeadOfText(core: seq<string>, pre: seq<string>, build: Option<string>)
    requires WellFormed(core, pre)
    ensures NoBuild(VersionText(core, pre, build)) == VersionText(core, pre, None)
  {
    hide DigitsValue, Join, Split, SplitAll;
    CoreText(core);
    JoinAvoids(pre, '.', '+');
    var head := VersionText(core, pre, None);
    assert head[0] == Join(core, '.')[0];
    SplitOnce(head, '+', if build.None? then "" else build.value);
    assert build.None? ==> VersionText(core, pre, build) == head;
    assert build.Some? ==> VersionText(core, pre, build) == head + ['+'] + build.value;
  }

  /** One v in front of a text is ignored. */
  lemma TagReads(v: string)
    requires v == "" || v[0] != 'v'
    ensures Parse("v" + v) == Parse(v)
  {
    hide Split, SplitAll, Numbers;
    assert ("v" + v)[1..] == v;
  }

  lemma NoTag(core: seq<string>, pre: seq<string>, build: Option<string>)
    requires WellFormed(core, pre)
    ensures var t := VersionText(core, pre, build); t != "" && t[0] != 'v'
  {
    hide DigitsValue, Join;
    CoreText(core);
    assert Number(core[0]);
    assert IsDigit(core[0][0]);
    assert VersionText(core, pre, build)[0] == Join(core, '.')[0];
  }

  /** A version's text is read back as its numbers and identifiers; the build is ignored. */
  lemma ParseVersionText(core: seq<string>, pre: seq<string>, build: Option<string>)
    requires WellFormed(core, pre)
    ensures Parse(VersionText(core, pre, build)) == Version(Values(core), pre)
  {
    hide DigitsValue, Join, Split, SplitAll, NoBuild, Numbers, Values;
    var c, p := Join(core, '.'), Join(pre, '.');
    HeadOfText(core, pre, build);
    CoreText(core);
    SplitOnce(c, '-', p);
    assert pre == [] ==> VersionText(core, pre, None) == c;
    assert pre != [] ==> VersionText(core, pre, None) == c + ['-'] + p;
    JoinLength(pre, '.');
    SplitAllJoin(pre, '.');
    NumbersOf(core);
  }

  /** A release tag is read as its version. */
  lemma ParseTagText(core: seq<string>, pre: seq<string>, build: Option<string>)
    requires WellFormed(core, pre)
    ensures Parse("v" + VersionText(core, pre, build)) == Version(Values(core), pre)
  {
    hide Parse, VersionText;
    NoTag(core, pre, build);
    TagReads(VersionText(core, pre, build));
    ParseVersionText(core, pre, build);
  }

  lemma LeadingZeroTexts()
    ensures VersionText(["1", "0", "0"], ["01"], None) == "1.0.0-01"
    ensures VersionText(["1", "0", "0"], ["1"], None) == "1.0.0-1"
  {
  }

  /** "1.0.0-01" and "1.0.0-1" each count as newer than the other. */
  lemma LeadingZeroNewerBothWays()
    ensures IsNewer("1.0.0-01", "1.0.0-1") && IsNewer("1.0.0-1", "1.0.0-01")
  {
    hide VersionText, Parse, CompareCore, CompareIds;
    var core := ["1", "0", "0"];
    OneCore(core);
    ParseVersionText(core, ["01"], None);
    ParseVersionText(core, ["1"], None);
    LeadingZeroTexts();
    CoreAntisymmetric(Values(core), Values(core));
    CompareAntisymmetricIff("1.0.0-01", "1.0.0-1");
  }

  lemma OneCore(core: seq<string>)
    requires core == ["1", "0", "0"]
    ensures forall i :: 0 <= i < 3 ==> Number(core[i])
    ensures SameNumber("01", "1")
  {
    assert DigitsValue("01") == 1 && DigitsValue("1") == 1;
  }

  // ------------------------------------------------------------------ a total preorder

  /** ParseInt reads it as a number that is written without a needless zero. */
  predicate Canonical(s: string) {
    ParseInt(s).Some? ==>
      s == "0" || (IsDigit(s[0]) && s[0] != '0') || (s[0] == '-' && |s| > 1 && s[1] != '0')
  }

  lemma CanonicalNumbersDiffer(s: string, t: string)
    requires Canonical(s) && Canonical(t)
    ensures !SameNumber(s, t)
  {
    if ParseInt(s).Some? && ParseInt(s) == ParseInt(t) {
      ZeroOnly(s);
      ZeroOnly(t);
      if s == "0" || t == "0" {
      } else if s[0] == '-' && t[0] == '-' {
        DecimalUnique(s[1..], t[1..]);
        assert s == ['-'] + s[1..] && t == ['-'] + t[1..];
      } else if s[0] != '-' && t[0] != '-' {
        DecimalUnique(s, t);
      } else {
        DecimalPositive(if s[0] == '-' then s[1..] else t[1..]);
      }
    }
  }

  lemma ZeroOnly(s: string)
    requires Canonical(s) && ParseInt(s).Some?
    ensures ParseInt(s) == Some(0) <==> s == "0"
  {
    if s != "0" { DecimalPositive(if s[0] == '-' then s[1..] else s); }
    assert DigitsValue("0") == 0;
  }

  predicate CanonicalIds(p: seq<string>) { forall i :: 0 <= i < |p| ==> Canonical(p[i]) }

  lemma CompareIdTransitive(s: string, t: string, u: string)
    requires s != t && t != u && CompareId(s, t) == -1 && CompareId(t, u) == -1
    ensures s != u && CompareId(s, u) == -1
  {
    if ParseInt(s).None? && ParseInt(t).None? && ParseInt(u).None? {
      TextLessTransitive(s, t, u);
      TextLessTotal(s, u);
    }
  }

  lemma {:induction false} CompareIdsTransitive(p: seq<string>, q: seq<string>, r: seq<string>)
    requires CompareIds(p, q) <= 0 && CompareIds(q, r) <= 0
    ensures CompareIds(p, r) <= 0
    ensures CompareIds(p, r) == 0 ==> CompareIds(p, q) == 0 && CompareIds(q, r) == 0
    decreases |p|
  {
    hide CompareId;
    if p != [] && q != [] && r != [] {
      if p[0] == q[0] && q[0] == r[0] {
        CompareIdsTransitive(p[1..], q[1..], r[1..]);
      } else if p[0] != q[0] && q[0] != r[0] {
        OneSided(p[0], q[0]);
        OneSided(q[0], r[0]);
        CompareIdTransitive(p[0], q[0], r[0]);
      } else {
        OneSided(p[0], r[0]);
      }
    }
  }

  lemma OneSided(s: string, t: string)
    ensures CompareId(s, t) == -1 || CompareId(s, t) == 1
  {
  }

  lemma {:induction false} CompareIdsZeroIff(p: seq<string>, q: seq<string>)
    ensures CompareIds(p, q) == 0 <==> p == q
  {
    if p != [] && q != [] {
      CompareIdsZeroIff(p[1..], q[1..]);
      assert p == [p[0]] + p[1..] && q == [q[0]] + q[1..];
    }
  }

  lemma {:induction false} CompareCoreTransitive(x: seq<int>, y: seq<int>, z: seq<int>)
    requires |x| == |y| == |z| && CompareCore(x, y) <= 0 && CompareCore(y, z) <= 0
    ensures CompareCore(x, z) <= 0
    ensures CompareCore(x, z) == 0 ==> CompareCore(x, y) == 0 && CompareCore(y, z) == 0
  {
    if x != [] && x[0] == y[0] && y[0] == z[0] {
      CompareCoreTransitive(x[1..], y[1..], z[1..]);
    }
  }

  lemma {:induction false} CompareCoreZeroIff(x: seq<int>, y: seq<int>)
    requires |x| == |y|
    ensures CompareCore(x, y) == 0 <==> x == y
  {
    if x != [] {
      CompareCoreZeroIff(x[1..], y[1..]);
      assert x == [x[0]] + x[1..] && y == [y[0]] + y[1..];
    }
  }

  lemma {:induction false} CanonicalIdsAgree(p: seq<string>, q: seq<string>)
    requires CanonicalIds(p) && CanonicalIds(q)
    ensures !AmbiguousIds(p, q)
  {
    if p != [] && q != [] {
      CanonicalNumbersDiffer(p[0], q[0]);
      CanonicalIdsAgree(p[1..], q[1..]);
    }
  }

  /** On every text it does not trap on, compare is transitive and is 0 exactly for one core and one
      prerelease, and a text that reads as no version is below every one that does. Two texts are ordered,
      one way or the other, exactly when they are not ambiguous; then the sign flips when they are swapped. */
  lemma CompareIsPreorder(a: string, b: string, c: string)
    requires Compare(a, b).Some? && Compare(b, c).Some?
    ensures Compare(b, a).Some? && Compare(a, c).Some?
    ensures Compare(a, b).value <= 0 && Compare(b, c).value <= 0 ==> Compare(a, c).value <= 0
    ensures Compare(a, b).value == 0 <==> Parse(a) == Parse(b)
    ensures Parse(a).Unreadable? && !Parse(b).Unreadable? ==> Compare(a, b).value < 0
    ensures Compare(a, b).value <= 0 || Compare(b, a).value <= 0 <==> !Ambiguous(Parse(a), Parse(b))
    ensures Compare(a, b).value == -Compare(b, a).value <==> !Ambiguous(Parse(a), Parse(b))
  {
    hide Parse, CompareParsed, Ambiguous;
    var x, y, z := Parse(a), Parse(b), Parse(c);
    ParseShape(a);
    ParseShape(b);
    ParseShape(c);
    CompareAntisymmetricIff(a, b);
    UnreadableLowest(x, y);
    PairZeroIff(x, y);
    PairsTransitive(x, y, z);
  }

  lemma UnreadableLowest(x: Parsed, y: Parsed)
    requires !x.Trap? && !y.Trap?
    ensures x.Unreadable? && !y.Unreadable? ==> CompareParsed(x, y) < 0
  {
  }

  /** What a parse gives: a core of three numbers. */
  predicate Shaped(x: Parsed) { x.Unreadable? || (x.Version? && |x.core| == 3) }

  lemma PairZeroIff(x: Parsed, y: Parsed)
    requires Shaped(x) && Shaped(y)
    ensures CompareParsed(x, y) == 0 <==> x == y
  {
    if x.Version? && y.Version? {
      CompareCoreZeroIff(x.core, y.core);
      CompareIdsZeroIff(x.pre, y.pre);
    }
  }

  lemma PairsTransitive(x: Parsed, y: Parsed, z: Parsed)
    requires Shaped(x) && Shaped(y) && Shaped(z)
    ensures CompareParsed(x, y) <= 0 && CompareParsed(y, z) <= 0 ==> CompareParsed(x, z) <= 0
  {
    if x.Version? && y.Version? && z.Version? && CompareParsed(x, y) <= 0 && CompareParsed(y, z) <= 0 {
      CompareCoreTransitive(x.core, y.core, z.core);
      if CompareCore(x.core, z.core) == 0 && x.pre != [] && y.pre != [] && z.pre != [] {
        CompareIdsTransitive(x.pre, y.pre, z.pre);
      }
    }
  }

  /** Versions whose numeric identifiers have no needless zeros are never ambiguous. */
  lemma CanonicalNeverAmbiguous(x: Parsed, y: Parsed)
    requires x.Version? && y.Version? ==> CanonicalIds(x.pre) && CanonicalIds(y.pre)
    ensures !Ambiguous(x, y)
  {
    if x.Version? && y.Version? { CanonicalIdsAgree(x.pre, y.pre); }
  }
}
