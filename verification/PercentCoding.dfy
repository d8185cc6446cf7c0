/** Percent-encoding, section 2.1 of RFC 3986, as encodeURIComponent and desktop/AppLink.swift write it: over
    octets, the UTF-8 of a text. */
module PercentCoding {
  import opened Options
  import opened Base64
  import opened Text

  predicate Alnum(c: char) { 'a' <= c <= 'z' || 'A' <= c <= 'Z' || '0' <= c <= '9' }

  /** What stays as it is. */
  predicate Plain(c: char) { Alnum(c) || c in "-_.!~*'()" }

  function HexDigit(n: nat): (c: char)
    requires n < 16
    ensures '0' <= c <= '9' || 'A' <= c <= 'F'
  {
    if n < 10 then '0' + n as char else 'A' + (n - 10) as char
  }

  function HexValue(c: char): Option<nat> {
    if '0' <= c <= '9' then Some((c - '0') as nat)
    else if 'A' <= c <= 'F' then Some((c - 'A') as nat + 10)
    else if 'a' <= c <= 'f' then Some((c - 'a') as nat + 10)
    else None
  }

  function EncodeOctet(c: char): (e: string)
    requires c as int < 256
    ensures e != ""
  {
    if Plain(c) then [c] else ['%', HexDigit(c as nat / 16), HexDigit(c as nat % 16)]
  }

  function EncodeComponent(s: string): string
    requires Octets(s)
  {
    if s == "" then "" else EncodeOctet(s[0]) + EncodeComponent(s[1..])
  }

  /** decodeURIComponent, but for its check that the octets are UTF-8; None where it throws. */
  function DecodeComponent(e: string): Option<string> {
    if e == "" then Some("")
    else if e[0] != '%' then
      var rest := DecodeComponent(e[1..]);
      if rest.None? then None else Some([e[0]] + rest.value)
    else if |e| < 3 || HexValue(e[1]).None? || HexValue(e[2]).None? then None
    else
      var rest := DecodeComponent(e[3..]);
      if rest.None? then None else Some([(HexValue(e[1]).value * 16 + HexValue(e[2]).value) as char] + rest.value)
  }

  lemma OctetReadBack(c: char, rest: string)
    requires c as int < 256
    ensures DecodeComponent(EncodeOctet(c) + rest)
         == var r := DecodeComponent(rest); if r.None? then None else Some([c] + r.value)
  {
    var e := EncodeOctet(c) + rest;
    if Plain(c) {
      assert e[1..] == rest;
    } else {
      var n := c as nat;
      assert HexValue(HexDigit(n / 16)) == Some(n / 16) && HexValue(HexDigit(n % 16)) == Some(n % 16);
      assert e[3..] == rest;
    }
  }

  /** Every text is read back from its encoding. */
  lemma {:induction false} ReadBack(s: string)
    requires Octets(s)
    ensures DecodeComponent(EncodeComponent(s)) == Some(s)
  {
    if s != "" {
      ReadBack(s[1..]);
      OctetReadBack(s[0], EncodeComponent(s[1..]));
      assert s == [s[0]] + s[1..];
    }
  }

  predicate Unreserved(c: char) { Plain(c) || c == '%' }

  lemma {:induction false} OnlyPlainOrPercent(s: string)
    requires Octets(s)
    ensures forall c :: c in EncodeComponent(s) ==> Unreserved(c)
    ensures forall c :: c in EncodeComponent(s) && c !in s ==> c == '%' || '0' <= c <= '9' || 'A' <= c <= 'F'
  {
    if s != "" { OnlyPlainOrPercent(s[1..]); }
  }

  lemma Injective(s: string, t: string)
    requires Octets(s) && Octets(t)
    ensures EncodeComponent(s) == EncodeComponent(t) <==> s == t
  {
    ReadBack(s);
    ReadBack(t);
  }

  /** Letters, digits and the nine marks that need no escape. */
  predicate NeedsNoEscape(c: char) {
    'a' <= c <= 'z' || 'A' <= c <= 'Z' || '0' <= c <= '9' || c in {'-', '_', '.', '!', '~', '*', '\'', '(', ')'}
  }

  lemma PlainIff(c: char)
    ensures Plain(c) <==> NeedsNoEscape(c)
  {
    var marks := "-_.!~*'()";
    assert marks == ['-', '_', '.', '!', '~', '*', '\'', '(', ')'];
  }

  /** A text is left as it is exactly when none of it needs an escape. */
  lemma {:induction false} StaysIff(s: string)
    requires Octets(s)
    ensures |s| <= |EncodeComponent(s)|
    ensures EncodeComponent(s) == s <==> forall c :: c in s ==> NeedsNoEscape(c)
  {
    hide NeedsNoEscape, Plain;
    if s != "" {
      StaysIff(s[1..]);
      PlainIff(s[0]);
      var rest := EncodeComponent(s[1..]);
      assert s == [s[0]] + s[1..] && s[0] in s;
      if Plain(s[0]) {
        assert EncodeComponent(s)[1..] == rest;
      } else {
        assert |EncodeComponent(s)| == 3 + |rest|;
      }
    }
  }

  // ------------------------------------------------------------------ letter case

  function Lower(c: char): char { if 'A' <= c <= 'Z' then c - 'A' + 'a' else c }

  function LowerAll(s: string): (r: string)
    ensures |r| == |s|
  {
    if s == "" then "" else [Lower(s[0])] + LowerAll(s[1..])
  }

  lemma {:induction false} LowerBoth(a: string, b: string)
    ensures LowerAll(a + b) == LowerAll(a) + LowerAll(b)
  {
    if a == "" {
      assert a + b == b;
    } else {
      assert (a + b)[1..] == a[1..] + b;
      LowerBoth(a[1..], b);
    }
  }

  lemma LowerOctet(c: char)
    requires c as int < 256
    ensures LowerAll(EncodeOctet(c)) == LowerAll(EncodeOctet(Lower(c)))
    ensures forall rest :: DecodeComponent(LowerAll(EncodeOctet(c)) + rest)
              == var r := DecodeComponent(rest); if r.None? then None else Some([Lower(c)] + r.value)
  {
    var e := EncodeOctet(c);
    if Plain(c) {
      assert LowerAll(e) == [Lower(c)] by { assert e[1..] == ""; }
      assert Plain(Lower(c));
      assert LowerAll(EncodeOctet(Lower(c))) == [Lower(Lower(c))] by { assert EncodeOctet(Lower(c))[1..] == ""; }
      forall rest ensures DecodeComponent([Lower(c)] + rest)
              == var r := DecodeComponent(rest); if r.None? then None else Some([Lower(c)] + r.value)
      {
        assert ([Lower(c)] + rest)[1..] == rest;
      }
    } else {
      LowerEscape(c);
    }
  }

  lemma LowerEscape(c: char)
    requires c as int < 256 && !Plain(c)
    ensures Lower(c) == c
    ensures forall rest :: DecodeComponent(LowerAll(EncodeOctet(c)) + rest)
              == var r := DecodeComponent(rest); if r.None? then None else Some([c] + r.value)
  {
    var n := c as nat;
    var h, l := HexDigit(n / 16), HexDigit(n % 16);
    assert HexValue(Lower(h)) == Some(n / 16) && HexValue(Lower(l)) == Some(n % 16);
    var e := EncodeOctet(c);
    var e1, e2 := e[1..], e[2..];
    assert e1[1..] == e2 && e2[1..] == "" && e1[0] == h && e2[0] == l;
    assert LowerAll(e2) == [Lower(l)] && LowerAll(e1) == [Lower(h)] + LowerAll(e2);
    var f := LowerAll(e);
    assert f == ['%', Lower(h), Lower(l)];
    forall rest ensures DecodeComponent(f + rest)
            == var r := DecodeComponent(rest); if r.None? then None else Some([c] + r.value)
    {
      assert (f + rest)[3..] == rest;
    }
  }

  /** An encoding in lower case names the text in lower case. */
  lemma {:induction false} LowerReadBack(s: string)
    requires Octets(s)
    ensures DecodeComponent(LowerAll(EncodeComponent(s))) == Some(LowerAll(s))
  {
    hide EncodeOctet;
    if s != "" {
      LowerReadBack(s[1..]);
      LowerBoth(EncodeOctet(s[0]), EncodeComponent(s[1..]));
      LowerOctet(s[0]);
    }
  }

  /** The encoding's lower case depends on the text's alone. */
  lemma {:induction false} LowerFirst(s: string)
    requires Octets(s)
    ensures Octets(LowerAll(s)) && LowerAll(EncodeComponent(s)) == LowerAll(EncodeComponent(LowerAll(s)))
  {
    if s != "" {
      var rest, low := s[1..], LowerAll(s);
      LowerFirst(rest);
      LowerOctet(s[0]);
      assert low[1..] == LowerAll(rest) && Octets(low);
      hide EncodeOctet, Octets, DecodeComponent;
      LowerBoth(EncodeOctet(s[0]), EncodeComponent(rest));
      LowerBoth(EncodeOctet(low[0]), EncodeComponent(low[1..]));
    }
  }

  // ------------------------------------------------------------------ the link fragment

  const SCHEME := "open-walnut"
  const MAX_LENGTH := 4_096

  /** A link this app was registered to receive. */
  predicate Accepts(url: string) {
    var k := FirstOf(url, ':');
    k < |url| && LowerAll(url[..k]) == SCHEME && |url| <= MAX_LENGTH
  }

  /** The same letter, in either case. */
  predicate SameLetter(c: char, lower: char) {
    c == lower || ('a' <= lower <= 'z' && c == lower - 'a' + 'A')
  }

  lemma {:induction false} LowerIsIff(s: string, low: string)
    requires |s| == |low| && forall i :: 0 <= i < |low| ==> !('A' <= low[i] <= 'Z')
    ensures LowerAll(s) == low <==> forall i :: 0 <= i < |s| ==> SameLetter(s[i], low[i])
  {
    if s != "" {
      LowerIsIff(s[1..], low[1..]);
      assert low == [low[0]] + low[1..];
      assert forall i :: 0 < i < |s| ==> s[i] == s[1..][i - 1] && low[i] == low[1..][i - 1];
    }
  }

  /** A link is the app's exactly when its scheme is open-walnut, in whatever case, and it is not too long. */
  lemma AcceptsIff(scheme: string, rest: string)
    requires ':' !in scheme
    ensures Accepts(scheme + ":" + rest)
        <==> |scheme| == 11 && (forall i :: 0 <= i < 11 ==> SameLetter(scheme[i], "open-walnut"[i]))
             && |scheme| + 1 + |rest| <= 4096
  {
    hide LowerAll, FirstOf;
    FirstOfClean(scheme, ':', rest);
    var url := scheme + ":" + rest;
    assert url[..|scheme|] == scheme;
    if |scheme| == 11 { LowerIsIff(scheme, SCHEME); }
  }

  function Fragment(url: string): Option<string>
    requires Octets(url)
  {
    if Accepts(url) then Some("#open-link=" + EncodeComponent(url)) else None
  }

  /** The console reads the very link back, and nothing in it ends the fragment or starts another field. */
  lemma FragmentReadBack(url: string)
    requires Octets(url)
    ensures Fragment(url).Some? <==> Accepts(url)
    ensures Accepts(url) ==>
      var f := Fragment(url).value;
      && "#open-link=" <= f && DecodeComponent(f[11..]) == Some(url)
      && forall mark :: mark in "#&=?/\"<>" ==> mark !in f[11..]
  {
    hide Accepts, EncodeComponent, DecodeComponent;
    if Accepts(url) {
      var e := EncodeComponent(url);
      ReadBack(url);
      AfterKey(e);
      MarksAreEscaped(url);
    }
  }

  lemma AfterKey(e: string)
    ensures ("#open-link=" + e)[11..] == e
  {
  }

  lemma MarksAreEscaped(s: string)
    requires Octets(s)
    ensures forall mark :: mark in "#&=?/\"<>" ==> mark !in EncodeComponent(s)
  {
    hide EncodeComponent;
    OnlyPlainOrPercent(s);
    assert forall mark :: mark in "#&=?/\"<>" ==> !Unreserved(mark);
  }
}
