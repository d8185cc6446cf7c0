/** The pieces of Swift's standard library the modelled code reads text with. */
module Text {
  import opened Options

  /** The first index of `sep` in `s`, or |s|. */
  function FirstOf(s: string, sep: char): (k: nat)
    ensures k <= |s| && (k < |s| ==> s[k] == sep) && sep !in s[..k]
  {
    if s == "" || s[0] == sep then 0 else 1 + FirstOf(s[1..], sep)
  }

  /** split(separator:maxSplits:): empty pieces are dropped and do not count as splits. */
  function Split(s: string, sep: char, maxSplits: nat): seq<string>
    decreases |s|
  {
    if s == "" then []
    else if maxSplits == 0 then [s]
    else if s[0] == sep then Split(s[1..], sep, maxSplits)
    else
      var k := FirstOf(s, sep);
      if k == |s| then [s] else [s[..k]] + Split(s[k + 1..], sep, maxSplits - 1)
  }

  function SplitAll(s: string, sep: char): seq<string> {
    Split(s, sep, |s|)
  }

  predicate IsDigit(c: char) { '0' <= c <= '9' }

  predicate AllDigits(s: string) { forall i :: 0 <= i < |s| ==> IsDigit(s[i]) }

  function DigitsValue(s: string): nat
    requires AllDigits(s)
  {
    if s == "" then 0 else 10 * DigitsValue(s[..|s| - 1]) + (s[|s| - 1] - '0') as nat
  }

  const INT_MAX := 0x7FFF_FFFF_FFFF_FFFF

  /** Int(text): an optional sign, at least one ASCII digit, and a value that fits 64 bits. */
  function ParseInt(s: string): Option<int> {
    var digits := if s != "" && (s[0] == '+' || s[0] == '-') then s[1..] else s;
    if digits == "" || !AllDigits(digits) then None
    else
      var n: int := DigitsValue(digits);
      if s[0] == '-' then (if n <= INT_MAX + 1 then Some(-n) else None)
      else if n <= INT_MAX then Some(n) else None
  }

  /** Swift orders ASCII strings by their characters' codes. */
  predicate TextLess(s: string, t: string) {
    if s == "" then t != ""
    else if t == "" then false
    else s[0] < t[0] || (s[0] == t[0] && TextLess(s[1..], t[1..]))
  }

  lemma {:induction false} TextLessTotal(s: string, t: string)
    ensures s == t || TextLess(s, t) || TextLess(t, s)
    ensures !(TextLess(s, t) && TextLess(t, s)) && !TextLess(s, s)
  {
    if s != "" && t != "" {
      TextLessTotal(s[1..], t[1..]);
      TextLessTotal(s[1..], s[1..]);
      assert s == [s[0]] + s[1..] && t == [t[0]] + t[1..];
    } else if s != "" {
      TextLessTotal(s[1..], s[1..]);
    }
  }

  lemma {:induction false} TextLessTransitive(s: string, t: string, u: string)
    requires TextLess(s, t) && TextLess(t, u)
    ensures TextLess(s, u)
  {
    if s != "" && s[0] == t[0] && t[0] == u[0] {
      TextLessTransitive(s[1..], t[1..], u[1..]);
    }
  }

  /** Without leading zeros a number has one decimal text. */
  lemma {:induction false} DecimalUnique(s: string, t: string)
    requires AllDigits(s) && AllDigits(t) && (s == "" || s[0] != '0') && (t == "" || t[0] != '0')
    requires DigitsValue(s) == DigitsValue(t)
    ensures s == t
    decreases |s|
  {
    DecimalPositive(s);
    DecimalPositive(t);
    if s != "" && t != "" {
      var s0, t0 := s[..|s| - 1], t[..|t| - 1];
      assert (s[|s| - 1] - '0') as int == (t[|t| - 1] - '0') as int && DigitsValue(s0) == DigitsValue(t0);
      DecimalUnique(s0, t0);
      assert s == s0 + [s[|s| - 1]] && t == t0 + [t[|t| - 1]];
    }
  }

  lemma {:induction false} DecimalPositive(s: string)
    requires AllDigits(s) && s != "" ==> s[0] != '0'
    ensures AllDigits(s) && s != "" ==> DigitsValue(s) > 0
  {
    if AllDigits(s) && |s| > 1 {
      DecimalPositive(s[..|s| - 1]);
    }
  }

  // ------------------------------------------------------------------ splitting what was joined

  /** Pieces joined by single separators. */
  function Join(pieces: seq<string>, sep: char): string {
    if pieces == [] then "" else if |pieces| == 1 then pieces[0] else pieces[0] + [sep] + Join(pieces[1..], sep)
  }

  predicate Clean(piece: string, sep: char) { piece != "" && sep !in piece }

  lemma {:induction false} FirstOfClean(piece: string, sep: char, rest: string)
    requires sep !in piece
    ensures FirstOf(piece + [sep] + rest, sep) == |piece|
    ensures FirstOf(piece, sep) == |piece|
  {
    if piece != "" {
      assert (piece + [sep] + rest)[1..] == piece[1..] + [sep] + rest;
      FirstOfClean(piece[1..], sep, rest);
    }
  }

  lemma {:induction false} SplitJoin(pieces: seq<string>, sep: char, maxSplits: nat)
    requires forall i :: 0 <= i < |pieces| ==> Clean(pieces[i], sep)
    requires |pieces| <= maxSplits + 1
    ensures Split(Join(pieces, sep), sep, maxSplits) == pieces
    decreases |pieces|
  {
    if |pieces| == 1 {
      FirstOfClean(pieces[0], sep, "");
      assert pieces == [pieces[0]];
    } else if |pieces| > 1 {
      var rest := Join(pieces[1..], sep);
      FirstOfClean(pieces[0], sep, rest);
      var s := pieces[0] + [sep] + rest;
      assert s[0] == pieces[0][0] && s[..|pieces[0]|] == pieces[0] && s[|pieces[0]| + 1..] == rest;
      SplitJoin(pieces[1..], sep, maxSplits - 1);
    }
  }

  lemma SplitOnce(head: string, sep: char, rest: string)
    requires Clean(head, sep)
    ensures Split(head + [sep] + rest, sep, 1) == [head] + (if rest == "" then [] else [rest])
    ensures Split(head, sep, 1) == [head]
  {
    var s := head + [sep] + rest;
    FirstOfClean(head, sep, rest);
    assert s[0] == head[0] && s[..|head|] == head && s[|head| + 1..] == rest;
  }

  lemma {:induction false} SplitEmptyIff(s: string, sep: char, maxSplits: nat)
    ensures Split(s, sep, maxSplits) == [] <==> s == "" || (maxSplits > 0 && forall i :: 0 <= i < |s| ==> s[i] == sep)
    decreases |s|
  {
    if s != "" && maxSplits > 0 && s[0] == sep {
      SplitEmptyIff(s[1..], sep, maxSplits);
      assert forall i :: 0 <= i < |s[1..]| ==> s[1..][i] == s[i + 1];
    }
  }

  lemma {:induction false} JoinAvoids(pieces: seq<string>, sep: char, other: char)
    requires other != sep && forall i :: 0 <= i < |pieces| ==> other !in pieces[i]
    ensures other !in Join(pieces, sep)
  {
    if |pieces| > 1 { JoinAvoids(pieces[1..], sep, other); }
  }

  lemma {:induction false} JoinLength(pieces: seq<string>, sep: char)
    requires forall i :: 0 <= i < |pieces| ==> pieces[i] != ""
    ensures |pieces| <= |Join(pieces, sep)|
  {
    if |pieces| > 1 { JoinLength(pieces[1..], sep); }
  }

  lemma SplitAllJoin(pieces: seq<string>, sep: char)
    requires forall i :: 0 <= i < |pieces| ==> Clean(pieces[i], sep)
    ensures SplitAll(Join(pieces, sep), sep) == pieces
  {
    JoinLength(pieces, sep);
    SplitJoin(pieces, sep, |Join(pieces, sep)|);
  }

  // ------------------------------------------------------------------ splitting that keeps empty pieces

  /** split(separator:omittingEmptySubsequences: false), and components(separatedBy:). */
  function Pieces(s: string, sep: char): (ps: seq<string>)
    ensures |ps| > 0
  {
    if s == "" then [""]
    else
      var rest := Pieces(s[1..], sep);
      if s[0] == sep then [""] + rest else [[s[0]] + rest[0]] + rest[1..]
  }

  lemma {:induction false} PiecesOfClean(s: string, sep: char, rest: string)
    requires sep !in s
    ensures Pieces(s + [sep] + rest, sep) == [s] + Pieces(rest, sep)
    ensures Pieces(s, sep) == [s]
  {
    if s == "" {
      assert s + [sep] + rest == [sep] + rest;
    } else {
      assert s[0] in s && s == [s[0]] + s[1..];
      assert (s + [sep] + rest)[1..] == s[1..] + [sep] + rest;
      assert [s[0]] + s[1..] + [sep] + rest == s + [sep] + rest;
      PiecesOfClean(s[1..], sep, rest);
    }
  }

  lemma {:induction false} JoinPieces(s: string, sep: char)
    ensures Join(Pieces(s, sep), sep) == s
  {
    if s != "" {
      JoinPieces(s[1..], sep);
      var rest := Pieces(s[1..], sep);
      assert s == [s[0]] + s[1..];
      assert ([""] + rest)[1..] == rest;
      assert ([[s[0]] + rest[0]] + rest[1..])[1..] == rest[1..];
    }
  }

  lemma {:induction false} PiecesOfJoin(ps: seq<string>, sep: char)
    requires ps != [] && forall i :: 0 <= i < |ps| ==> sep !in ps[i]
    ensures Pieces(Join(ps, sep), sep) == ps
  {
    if |ps| == 1 {
      PiecesOfClean(ps[0], sep, "");
    } else {
      PiecesOfClean(ps[0], sep, Join(ps[1..], sep));
      PiecesOfJoin(ps[1..], sep);
    }
  }

  lemma {:induction false} PieceIsClean(s: string, sep: char, k: nat)
    requires k < |Pieces(s, sep)|
    ensures sep !in Pieces(s, sep)[k]
  {
    if s != "" {
      PieceIsClean(s[1..], sep, if s[0] == sep && k > 0 then k - 1 else if s[0] == sep then 0 else k);
    }
  }

  lemma PiecesNext(s: string, sep: char)
    requires s != ""
    ensures var rest := Pieces(s[1..], sep);
            Pieces(s, sep) == if s[0] == sep then [""] + rest else [[s[0]] + rest[0]] + rest[1..]
    ensures Pieces("", sep) == [""]
  {
  }

  lemma {:induction false} PiecesOfBoth(s: string, sep: char, t: string)
    ensures Pieces(s + [sep] + t, sep) == Pieces(s, sep) + Pieces(t, sep)
  {
    hide Pieces;
    var whole, more := s + [sep] + t, Pieces(t, sep);
    PiecesNext(whole, sep);
    if s == "" {
      assert whole[1..] == t;
    } else {
      PiecesOfBoth(s[1..], sep, t);
      PiecesNext(s, sep);
      assert whole[1..] == s[1..] + [sep] + t && whole[0] == s[0];
      var rest := Pieces(s[1..], sep);
      assert (rest + more)[0] == rest[0] && (rest + more)[1..] == rest[1..] + more;
    }
  }

  /** A joined list reads back as that many pieces only if no piece holds the separator. */
  lemma {:induction false} PiecesCount(ps: seq<string>, sep: char)
    requires ps != []
    ensures |Pieces(Join(ps, sep), sep)| >= |ps|
    ensures |Pieces(Join(ps, sep), sep)| == |ps| ==> forall i :: 0 <= i < |ps| ==> sep !in ps[i]
  {
    OnePieceIff(ps[0], sep);
    if |ps| > 1 {
      PiecesOfBoth(ps[0], sep, Join(ps[1..], sep));
      PiecesCount(ps[1..], sep);
      assert forall i :: 0 < i < |ps| ==> ps[i] == ps[1..][i - 1];
    }
  }

  lemma {:induction false} OnePieceIff(s: string, sep: char)
    ensures |Pieces(s, sep)| == 1 <==> sep !in s
  {
    if s != "" { OnePieceIff(s[1..], sep); }
  }
}
