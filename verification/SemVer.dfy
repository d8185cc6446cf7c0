/** The precedence of SemVer 2.0.0, as its sections 9 to 11 word it, and where `Version.Compare` is it. */
module SemVer {
  import opened Options
  import opened Text
  import opened Version

  predicate Letter(c: char) { 'a' <= c <= 'z' || 'A' <= c <= 'Z' }

  /** Section 9: ASCII alphanumerics and hyphens, and no leading zeros in a numeric one. */
  predicate PreIdentifier(s: string) {
    && s != "" && (forall i :: 0 <= i < |s| ==> IsDigit(s[i]) || Letter(s[i]) || s[i] == '-')
    && (AllDigits(s) ==> s == "0" || s[0] != '0')
  }

  predicate Numeric(s: string) { s != "" && AllDigits(s) }

  /** Section 11.4.1 to 11.4.3. */
  ghost predicate IdPrecedes(s: string, t: string) {
    if Numeric(s) && Numeric(t) then DigitsValue(s) < DigitsValue(t)
    else if Numeric(s) || Numeric(t) then Numeric(s)
    else LexicallyBefore(s, t)
  }

  /** ASCII sort order: a proper prefix, or a smaller character at the first difference. */
  ghost predicate LexicallyBefore(s: string, t: string) {
    exists k :: LexicallyBeforeAt(s, t, k)
  }

  predicate LexicallyBeforeAt(s: string, t: string, k: int) {
    0 <= k <= |s| && k < |t| && (forall j :: 0 <= j < k ==> s[j] == t[j]) && (k == |s| || s[k] < t[k])
  }

  /** Section 11.4 and 11.4.4: the first different identifier decides, or the longer list is higher. */
  predicate PrePrecedesAt(p: seq<string>, q: seq<string>, k: int)
  {
    0 <= k <= |p| && k < |q| && (forall j :: 0 <= j < k ==> p[j] == q[j]) && (k == |p| || p[k] != q[k])
  }

  ghost predicate PrePrecedes(p: seq<string>, q: seq<string>) {
    if p == [] then false                   // section 11.3: the release is above its prereleases
    else if q == [] then true
    else exists k :: PrePrecedesAt(p, q, k) && (k == |p| || IdPrecedes(p[k], q[k]))
  }

  /** Section 11.2. */
  predicate CorePrecedesAt(x: seq<int>, y: seq<int>, k: int) {
    0 <= k < |x| && k < |y| && (forall j :: 0 <= j < k ==> x[j] == y[j]) && x[k] < y[k]
  }

  ghost predicate Precedes(xc: seq<int>, xp: seq<string>, yc: seq<int>, yp: seq<string>) {
    (exists k :: CorePrecedesAt(xc, yc, k)) || (xc == yc && PrePrecedes(xp, yp))
  }

  // ------------------------------------------------------------------ two identifiers

  /** compare reads a hyphen before digits as a minus sign. */
  predicate HyphenNumber(s: string) { s != "" && s[0] == '-' && ParseInt(s).Some? }

  /** A number past 64 bits, which compare reads as a word. */
  predicate Huge(s: string) { Numeric(s) && DigitsValue(s) > INT_MAX }

  predicate Small(s: string) { Numeric(s) && DigitsValue(s) <= INT_MAX }

  predicate Word(s: string) { !Numeric(s) && !HyphenNumber(s) }

  /** ParseInt as the two orders need it: a number, a hyphen-number, or a word. */
  lemma Reading(s: string)
    requires PreIdentifier(s)
    ensures Small(s) ==> ParseInt(s) == Some(DigitsValue(s))
    ensures HyphenNumber(s) ==> !Numeric(s) && AllDigits(s[1..]) && ParseInt(s).value == -(DigitsValue(s[1..]) as int)
    ensures !Small(s) && !HyphenNumber(s) ==> ParseInt(s).None?
  {
    if s[0] == '-' { assert !IsDigit(s[0]); }
  }

  /** Where two different identifiers are ordered as SemVer orders them. A number against a hyphen-number is
      so only for a zero above a hyphen-zero; two hyphen-numbers, two huge numbers, and either against a word,
      are so where their letters fall that way; everything else is. */
  ghost predicate OrderedAsMeant(s: string, t: string) {
    if HyphenNumber(s) && HyphenNumber(t) then
      ParseInt(s).value < ParseInt(t).value <==> LexicallyBefore(s, t)
    else if Numeric(s) && HyphenNumber(t) then false
    else if HyphenNumber(s) && Numeric(t) then ParseInt(s) == Some(0) && t == "0"
    else if Huge(s) && Huge(t) then |s| == |t| || (|s| < |t| <==> LexicallyBefore(s, t))
    else if Word(t) && (HyphenNumber(s) || Huge(s)) then LexicallyBefore(s, t)
    else if Word(s) && (HyphenNumber(t) || Huge(t)) then !LexicallyBefore(s, t)
    else true
  }

  lemma {:induction false} LexicallyBeforeIff(s: string, t: string)
    ensures TextLess(s, t) <==> LexicallyBefore(s, t)
  {
    if s == "" || t == "" || s[0] != t[0] {
      assert LexicallyBeforeAt(s, t, 0) <==> TextLess(s, t);
      forall k | LexicallyBeforeAt(s, t, k) ensures k == 0 { }
    } else {
      LexicallyBeforeIff(s[1..], t[1..]);
      if LexicallyBefore(s, t) {
        var k :| LexicallyBeforeAt(s, t, k);
        assert LexicallyBeforeAt(s[1..], t[1..], k - 1);
      }
      if LexicallyBefore(s[1..], t[1..]) {
        var k :| LexicallyBeforeAt(s[1..], t[1..], k);
        assert LexicallyBeforeAt(s, t, k + 1);
      }
    }
  }

  /** Texts of one length are ordered by their last characters when the rest is the same. */
  lemma {:induction false} TextLessLast(s: string, t: string)
    requires |s| == |t| > 0
    ensures var s0, t0 := s[..|s| - 1], t[..|t| - 1];
            TextLess(s, t) <==> TextLess(s0, t0) || (s0 == t0 && s[|s| - 1] < t[|t| - 1])
  {
    var s0, t0 := s[..|s| - 1], t[..|t| - 1];
    if |s| > 1 {
      TextLessLast(s[1..], t[1..]);
      assert s[1..][..|s| - 2] == s0[1..] && t[1..][..|t| - 2] == t0[1..];
      assert s0 == [s[0]] + s0[1..] && t0 == [t[0]] + t0[1..];
      assert s0 == t0 <==> s[0] == t[0] && s0[1..] == t0[1..];
    } else {
      assert s[1..] == "" && t[1..] == "";
    }
  }

  /** Numbers of one length are ordered as their texts. */
  lemma {:induction false} SameLengthOrder(s: string, t: string)
    requires AllDigits(s) && AllDigits(t) && |s| == |t|
    ensures DigitsValue(s) < DigitsValue(t) <==> TextLess(s, t)
    ensures DigitsValue(s) == DigitsValue(t) <==> s == t
  {
    if s != "" {
      var s0, t0 := s[..|s| - 1], t[..|t| - 1];
      SameLengthOrder(s0, t0);
      TextLessLast(s, t);
      assert s == s0 + [s[|s| - 1]] && t == t0 + [t[|t| - 1]];
    }
  }

  /** A longer number without leading zeros is larger. */
  lemma {:induction false} LongerIsLarger(s: string, t: string)
    requires AllDigits(s) && AllDigits(t) && |s| < |t| && t[0] != '0'
    ensures DigitsValue(s) < DigitsValue(t)
  {
    if s == "" {
      DecimalPositive(t);
    } else {
      LongerIsLarger(s[..|s| - 1], t[..|t| - 1]);
    }
  }

  lemma NumbersAsMeant(s: string, t: string)
    requires PreIdentifier(s) && PreIdentifier(t) && Numeric(s) && Numeric(t) && s != t
    ensures DigitsValue(s) != DigitsValue(t)
    ensures DigitsValue(s) < DigitsValue(t) <==> |s| < |t| || (|s| == |t| && TextLess(s, t))
  {
    if |s| == |t| {
      SameLengthOrder(s, t);
    } else if |s| < |t| {
      LongerIsLarger(s, t);
    } else {
      LongerIsLarger(t, s);
    }
  }

  /** SemVer's order of identifiers is total. */
  lemma IdPrecedesTotal(s: string, t: string)
    requires PreIdentifier(s) && PreIdentifier(t) && s != t
    ensures IdPrecedes(s, t) <==> !IdPrecedes(t, s)
  {
    TextLessTotal(s, t);
    LexicallyBeforeIff(s, t);
    LexicallyBeforeIff(t, s);
    if Numeric(s) && Numeric(t) { NumbersAsMeant(s, t); }
  }

  lemma IdOrderIff(s: string, t: string)
    requires PreIdentifier(s) && PreIdentifier(t) && s != t
    ensures CompareId(s, t) == -1 || CompareId(s, t) == 1
    ensures (CompareId(s, t) == -1 <==> IdPrecedes(s, t)) <==> OrderedAsMeant(s, t)
  {
    hide LexicallyBefore, PreIdentifier, AllDigits;
    Reading(s);
    Reading(t);
    LexicallyBeforeIff(s, t);
    if Numeric(s) && Numeric(t) {
      NumbersAsMeant(s, t);
    } else if HyphenNumber(s) && Small(t) {
      ZeroText(t);
    }
  }

  lemma ZeroText(t: string)
    requires PreIdentifier(t) && Numeric(t)
    ensures DigitsValue(t) == 0 <==> t == "0"
  {
    if t[0] != '0' { DecimalPositive(t); }
    assert DigitsValue("0") == 0;
  }

  // ------------------------------------------------------------------ two versions

  ghost predicate IdsPrecede(p: seq<string>, q: seq<string>) {
    exists k :: PrePrecedesAt(p, q, k) && (k == |p| || IdPrecedes(p[k], q[k]))
  }

  /** The first identifiers that differ, if there are such, are ordered as meant. */
  ghost predicate DecidedAsMeant(p: seq<string>, q: seq<string>) {
    p != [] && q != [] ==> if p[0] != q[0] then OrderedAsMeant(p[0], q[0]) else DecidedAsMeant(p[1..], q[1..])
  }

  lemma IdsPrecedeNext(p: seq<string>, q: seq<string>)
    ensures p != [] && q != [] && p[0] == q[0] ==> (IdsPrecede(p, q) <==> IdsPrecede(p[1..], q[1..]))
    ensures p != [] && q != [] && p[0] != q[0] ==> (IdsPrecede(p, q) <==> IdPrecedes(p[0], q[0]))
    ensures p == [] || q == [] ==> (IdsPrecede(p, q) <==> |p| < |q|)
  {
    hide IdPrecedes;
    if p == [] || q == [] || p[0] != q[0] {
      assert q != [] ==> PrePrecedesAt(p, q, 0);
      forall k | PrePrecedesAt(p, q, k) ensures k == 0 { }
    } else {
      if IdsPrecede(p, q) {
        var k :| PrePrecedesAt(p, q, k) && (k == |p| || IdPrecedes(p[k], q[k]));
        assert PrePrecedesAt(p[1..], q[1..], k - 1);
      }
      if IdsPrecede(p[1..], q[1..]) {
        var k :| PrePrecedesAt(p[1..], q[1..], k) && (k == |p[1..]| || IdPrecedes(p[1..][k], q[1..][k]));
        assert PrePrecedesAt(p, q, k + 1);
      }
    }
  }

  predicate PreIdentifiers(p: seq<string>) { forall i :: 0 <= i < |p| ==> PreIdentifier(p[i]) }

  lemma {:induction false} IdsOrderIff(p: seq<string>, q: seq<string>)
    requires PreIdentifiers(p) && PreIdentifiers(q)
    ensures (CompareIds(p, q) < 0 <==> IdsPrecede(p, q)) <==> DecidedAsMeant(p, q)
    ensures p != q ==> (IdsPrecede(p, q) <==> !IdsPrecede(q, p))
  {
    hide IdPrecedes, CompareId, PreIdentifier, OrderedAsMeant, IdsPrecede;
    IdsPrecedeNext(p, q);
    IdsPrecedeNext(q, p);
    if p != [] && q != [] {
      if p[0] != q[0] {
        IdOrderIff(p[0], q[0]);
        IdPrecedesTotal(p[0], q[0]);
      } else {
        IdsOrderIff(p[1..], q[1..]);
        assert p == [p[0]] + p[1..] && q == [q[0]] + q[1..];
      }
    }
  }

  lemma {:induction false} CorePrecedesIff(x: seq<int>, y: seq<int>)
    requires |x| == |y|
    ensures CompareCore(x, y) < 0 <==> exists k :: CorePrecedesAt(x, y, k)
  {
    if x != [] && x[0] != y[0] {
      assert x[0] < y[0] ==> CorePrecedesAt(x, y, 0);
      forall k | CorePrecedesAt(x, y, k) ensures k == 0 { }
    } else if x != [] {
      CorePrecedesIff(x[1..], y[1..]);
      if k :| CorePrecedesAt(x, y, k) {
        assert CorePrecedesAt(x[1..], y[1..], k - 1);
      }
      if k :| CorePrecedesAt(x[1..], y[1..], k) {
        assert CorePrecedesAt(x, y, k + 1);
      }
    }
  }

  /** Three numbers that fit 64 bits, and any identifiers of section 9. */
  predicate Readable(core: seq<string>, pre: seq<string>) {
    |core| == 3 && (forall i :: 0 <= i < 3 ==> Number(core[i])) && PreIdentifiers(pre)
  }

  lemma ReadableIsWellFormed(core: seq<string>, pre: seq<string>)
    requires Readable(core, pre)
    ensures WellFormed(core, pre)
  {
    forall i | 0 <= i < |pre| ensures Identifier(pre[i]) {
      assert PreIdentifier(pre[i]);
      assert forall j :: 0 <= j < |pre[i]| ==> IsDigit(pre[i][j]) || Letter(pre[i][j]) || pre[i][j] == '-';
    }
  }

  lemma {:induction false} ValuesLength(core: seq<string>)
    requires forall i :: 0 <= i < |core| ==> Number(core[i])
    ensures |Values(core)| == |core|
  {
    if core != [] { ValuesLength(core[1..]); }
  }

  /** Where the prereleases decide, the first different identifiers are ordered as meant. */
  ghost predicate AsMeant(x: Parsed, y: Parsed)
    requires x.Version? && y.Version?
  {
    x.core == y.core && x.pre != [] && y.pre != [] ==> DecidedAsMeant(x.pre, y.pre)
  }

  lemma PrecedenceIff(x: Parsed, y: Parsed)
    requires x.Version? && y.Version? && |x.core| == |y.core| && PreIdentifiers(x.pre) && PreIdentifiers(y.pre)
    ensures (CompareParsed(x, y) < 0 <==> Precedes(x.core, x.pre, y.core, y.pre)) <==> AsMeant(x, y)
    ensures x != y ==> (Precedes(x.core, x.pre, y.core, y.pre) <==> !Precedes(y.core, y.pre, x.core, x.pre))
    ensures x == y ==> !Precedes(x.core, x.pre, y.core, y.pre)
  {
    hide IdPrecedes, CompareIds, DecidedAsMeant, CompareCore, PreIdentifiers;
    CorePrecedesIff(x.core, y.core);
    CorePrecedesIff(y.core, x.core);
    CoreAntisymmetric(x.core, y.core);
    CompareCoreZeroIff(x.core, y.core);
    IdsOrderIff(x.pre, y.pre);
    NotBeforeItself(x.pre);
  }

  lemma NotBeforeItself(p: seq<string>)
    ensures !IdsPrecede(p, p)
  {
  }

  /** On the texts of SemVer versions, whatever their builds, compare is 0 exactly for one precedence; and it
      puts the one below, or the other above, as SemVer does, exactly where the first different identifiers
      of two prereleases of one core are ordered as meant. */
  lemma CompareIsPrecedenceIff(xc: seq<string>, xp: seq<string>, xb: Option<string>,
                               yc: seq<string>, yp: seq<string>, yb: Option<string>)
    requires Readable(xc, xp) && Readable(yc, yp)
    ensures var c, x, y := Compare(VersionText(xc, xp, xb), VersionText(yc, yp, yb)), Values(xc), Values(yc);
            && c.Some?
            && (c.value == 0 <==> x == y && xp == yp)
            && (c.value == 0 <==> !Precedes(x, xp, y, yp) && !Precedes(y, yp, x, xp))
            && ((c.value < 0 <==> Precedes(x, xp, y, yp)) <==> AsMeant(Version(x, xp), Version(y, yp)))
            && ((c.value > 0 <==> Precedes(y, yp, x, xp)) <==> AsMeant(Version(x, xp), Version(y, yp)))
  {
    hide VersionText, Parse, PreIdentifiers, Values, Precedes, AsMeant, CompareParsed;
    ReadableIsWellFormed(xc, xp);
    ReadableIsWellFormed(yc, yp);
    ParseVersionText(xc, xp, xb);
    ParseVersionText(yc, yp, yb);
    var x, y := Version(Values(xc), xp), Version(Values(yc), yp);
    ValuesLength(xc);
    ValuesLength(yc);
    PrecedenceIff(x, y);
    PrecedenceIff(y, x);
    PairZeroIff(x, y);
  }

  /** A number against a hyphen-number never is, in whichever version it stands, but for "0" above "-0". */
  lemma NumberAgainstHyphenNumber(s: string, t: string, p: seq<string>, q: seq<string>)
    requires PreIdentifier(s) && Numeric(s) && PreIdentifier(t) && HyphenNumber(t)
    ensures !DecidedAsMeant([s] + p, [t] + q)
    ensures DecidedAsMeant([t] + q, [s] + p) <==> s == "0" && ParseInt(t) == Some(0)
  {
    Reading(s);
    Reading(t);
    assert s != t;
  }

  /** "1.0.0--1" is above "1.0.0-2" by SemVer, for its identifier is a word, and below it by compare. */
  lemma HyphenNumberMisordered()
    ensures Compare("1.0.0-2", "1.0.0--1") == Some(1)
    ensures Precedes([1, 0, 0], ["2"], [1, 0, 0], ["-1"])
  {
    hide VersionText, Parse, CompareCore;
    var core := ["1", "0", "0"];
    OneCore(core);
    HyphenTexts();
    ParseVersionText(core, ["2"], None);
    ParseVersionText(core, ["-1"], None);
    CompareCoreZeroIff(Values(core), Values(core));
    assert ParseInt("2") == Some(2) && ParseInt("-1") == Some(-1) by { HyphenReadings(); }
    assert !Numeric("-1") by { assert !IsDigit("-1"[0]); }
    assert PrePrecedesAt(["2"], ["-1"], 0);
  }

  lemma HyphenReadings()
    ensures ParseInt("2") == Some(2) && ParseInt("-1") == Some(-1)
  {
    assert "-1"[1..] == "1" && DigitsValue("1") == 1 && DigitsValue("2") == 2;
  }

  lemma HyphenTexts()
    ensures VersionText(["1", "0", "0"], ["2"], None) == "1.0.0-2"
    ensures VersionText(["1", "0", "0"], ["-1"], None) == "1.0.0--1"
  {
  }
}
