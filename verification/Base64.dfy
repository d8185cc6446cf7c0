/** base64EncodedString, section 4 of RFC 4648: over octets, characters below 256. */
module Base64 {
  import opened Options

  predicate Octets(s: string) { forall i :: 0 <= i < |s| ==> s[i] as int < 256 }

  /** Table 1 of section 4. */
  function Letter(n: nat): (c: char)
    requires n < 64
    ensures c != '\n' && c != '='
  {
    if n < 26 then 'A' + n as char
    else if n < 52 then 'a' + (n - 26) as char
    else if n < 62 then '0' + (n - 52) as char
    else if n == 62 then '+' else '/'
  }

  function Sextet(c: char): Option<nat> {
    if 'A' <= c <= 'Z' then Some((c - 'A') as nat)
    else if 'a' <= c <= 'z' then Some((c - 'a') as nat + 26)
    else if '0' <= c <= '9' then Some((c - '0') as nat + 52)
    else if c == '+' then Some(62)
    else if c == '/' then Some(63)
    else None
  }

  lemma LetterReadBack(n: nat)
    requires n < 64
    ensures Sextet(Letter(n)) == Some(n)
  {
  }

  /** The first 24 bits as four letters; a last 8 or 16 bits padded. */
  function Four(s: string): (q: string)
    requires Octets(s) && s != ""
    ensures |q| == 4 && '\n' !in q
  {
    var x := s[0] as nat;
    if |s| == 1 then [Letter(x / 4), Letter(x % 4 * 16), '=', '=']
    else
      var y := s[1] as nat;
      if |s| == 2 then [Letter(x / 4), Letter(x % 4 * 16 + y / 16), Letter(y % 16 * 4), '=']
      else
        var z := s[2] as nat;
        [Letter(x / 4), Letter(x % 4 * 16 + y / 16), Letter(y % 16 * 4 + z / 64), Letter(z % 64)]
  }

  function First3(s: string): string { if |s| > 3 then s[..3] else s }

  function After3(s: string): string { if |s| > 3 then s[3..] else "" }

  function Encode(s: string): (e: string)
    requires Octets(s)
    ensures |e| % 4 == 0 && (e == "" <==> s == "") && '\n' !in e
    decreases |s|
  {
    if s == "" then "" else Four(s) + Encode(After3(s))
  }

  /** What four characters stand for; None where they are no base64. */
  function DecodeFour(a: char, b: char, c: char, d: char): Option<string> {
    var m, n, o, p := Sextet(a), Sextet(b), Sextet(c), Sextet(d);
    if m.None? || n.None? then None
    else
      var x := (m.value * 4 + n.value / 16) % 256;
      if c == '=' && d == '=' then Some([x as char])
      else if o.None? then None
      else
        var y := (n.value % 16 * 16 + o.value / 4) % 256;
        if d == '=' then Some([x as char, y as char])
        else if p.None? then None
        else Some([x as char, y as char, ((o.value % 4 * 64 + p.value) % 256) as char])
  }

  function Decode(e: string): Option<string> {
    if e == "" then Some("")
    else if |e| < 4 then None
    else
      var first, rest := DecodeFour(e[0], e[1], e[2], e[3]), Decode(e[4..]);
      if first.None? || rest.None? then None else Some(first.value + rest.value)
  }

  lemma Split6(x: nat, y: nat, z: nat)
    requires x < 256 && y < 256 && z < 256
    ensures x / 4 < 64 && x % 4 * 16 + y / 16 < 64 && y % 16 * 4 + z / 64 < 64 && z % 64 < 64
    ensures (x / 4) * 4 + (x % 4 * 16 + y / 16) / 16 == x
    ensures (x % 4 * 16 + y / 16) % 16 * 16 + (y % 16 * 4 + z / 64) / 4 == y
    ensures (y % 16 * 4 + z / 64) % 4 * 64 + z % 64 == z
  {
  }

  lemma OneReadBack(s: string)
    requires Octets(s) && |s| == 1
    ensures DecodeFour(Four(s)[0], Four(s)[1], Four(s)[2], Four(s)[3]) == Some(s)
  {
    hide Letter, Sextet;
    var x := s[0] as nat;
    Split6(x, 0, 0);
    LetterReadBack(x / 4);
    LetterReadBack(x % 4 * 16);
    assert s == [x as char];
  }

  lemma TwoReadBack(s: string)
    requires Octets(s) && |s| == 2
    ensures DecodeFour(Four(s)[0], Four(s)[1], Four(s)[2], Four(s)[3]) == Some(s)
  {
    hide Letter;
    var x, y := s[0] as nat, s[1] as nat;
    Split6(x, y, 0);
    LetterReadBack(x / 4);
    LetterReadBack(x % 4 * 16 + y / 16);
    LetterReadBack(y % 16 * 4);
    assert Sextet('=').None?;
    hide Sextet;
    assert s == [x as char, y as char];
  }

  lemma ThreeReadBack(s: string)
    requires Octets(s) && |s| >= 3
    ensures DecodeFour(Four(s)[0], Four(s)[1], Four(s)[2], Four(s)[3]) == Some(s[..3])
  {
    hide Letter, Sextet;
    var x, y, z := s[0] as nat, s[1] as nat, s[2] as nat;
    Split6(x, y, z);
    LetterReadBack(x / 4);
    LetterReadBack(x % 4 * 16 + y / 16);
    LetterReadBack(y % 16 * 4 + z / 64);
    LetterReadBack(z % 64);
    assert s[..3] == [x as char, y as char, z as char];
  }

  /** Every octet string is read back from its encoding. */
  lemma {:induction false} EncodeReadBack(s: string)
    requires Octets(s)
    ensures Decode(Encode(s)) == Some(s)
    decreases |s|
  {
    if s != "" {
      hide Four, DecodeFour;
      if |s| == 1 { OneReadBack(s); } else if |s| == 2 { TwoReadBack(s); } else { ThreeReadBack(s); }
      assert |s| == 3 ==> s[..3] == s;
      var e, rest := Encode(s), After3(s);
      EncodeReadBack(rest);
      assert e[4..] == Encode(rest) && e[..4] == Four(s);
      assert s == First3(s) + rest;
    }
  }

  /** So two octet strings with one encoding are one. */
  lemma EncodeInjective(s: string, t: string)
    requires Octets(s) && Octets(t)
    ensures Encode(s) == Encode(t) <==> s == t
  {
    EncodeReadBack(s);
    EncodeReadBack(t);
  }
}
