/** Which approvals share a canonical text: the ways a text can be cut back into its nine fields. */
module ApprovalReadings {
  import opened Options
  import opened Text
  import opened Base64
  import opened ApprovalText

  /** The pieces at which mode, created, expires and host begin. */
  datatype Marks = Marks(mode: int, created: int, expires: int, host: int)

  function PiecesOf(f: Approval): seq<string>
    requires Octet(f)
  {
    Pieces(CanonicalText(f), '\n')
  }

  /** "host=" and the encoding of some octets. */
  predicate HostLine(piece: string) {
    && "host=" <= piece && Decode(piece[5..]).Some?
    && Octets(Decode(piece[5..]).value) && Encode(Decode(piece[5..]).value) == piece[5..]
  }

  predicate InBounds(ps: seq<string>, m: Marks) {
    1 < m.mode < m.created < m.expires < m.host && m.host + 1 < |ps| - 2
  }

  /** A way to cut the text: each marked piece begins with its key, and the task follows the host. */
  predicate Reading(ps: seq<string>, m: Marks) {
    && InBounds(ps, m) && "mode=" <= ps[m.mode] && "created=" <= ps[m.created] && "expires=" <= ps[m.expires]
    && HostLine(ps[m.host]) && "task=" <= ps[m.host + 1]
  }

  function J(ps: seq<string>): string { Join(ps, '\n') }

  /** The nine lines that cut gives. */
  function LinesAt(ps: seq<string>, m: Marks): seq<string>
    requires InBounds(ps, m)
  {
    var n := |ps|;
    [ps[0], J(ps[1..m.mode]), J(ps[m.mode..m.created]), J(ps[m.created..m.expires]), J(ps[m.expires..m.host]),
     ps[m.host], J(ps[m.host + 1..n - 2]), ps[n - 2], ps[n - 1]]
  }

  function Count(line: string): int { |Pieces(line, '\n')| }

  function MarksOf(f: Approval): Marks
    requires Octet(f)
  {
    var ls := LinesOf(f);
    var mode := 1 + Count(ls[1]);
    var created := mode + Count(ls[2]);
    var expires := created + Count(ls[3]);
    Marks(mode, created, expires, expires + Count(ls[4]))
  }

  // ------------------------------------------------------------------ pieces of joined lines

  function Flat(ls: seq<string>): seq<string> {
    if ls == [] then [] else Pieces(ls[0], '\n') + Flat(ls[1..])
  }

  lemma {:induction false} PiecesOfLines(ls: seq<string>)
    requires ls != []
    ensures Pieces(J(ls), '\n') == Flat(ls)
  {
    hide Pieces;
    if |ls| == 1 {
      assert Flat(ls[1..]) == [];
    } else {
      PiecesOfBoth(ls[0], '\n', J(ls[1..]));
      PiecesOfLines(ls[1..]);
    }
  }

  lemma FlatNine(ls: seq<string>)
    requires |ls| == 9
    ensures Flat(ls) == Pieces(ls[0], '\n') + (Pieces(ls[1], '\n') + (Pieces(ls[2], '\n') + (Pieces(ls[3], '\n')
                        + (Pieces(ls[4], '\n') + (Pieces(ls[5], '\n') + (Pieces(ls[6], '\n') + (Pieces(ls[7], '\n')
                        + Pieces(ls[8], '\n'))))))))
  {
    hide Pieces;
    var l1 := ls[1..];
    var l2 := l1[1..];
    var l3 := l2[1..];
    var l4 := l3[1..];
    var l5 := l4[1..];
    var l6 := l5[1..];
    var l7 := l6[1..];
    var l8 := l7[1..];
    assert l8[1..] == [] && l8[0] == ls[8] && l7[0] == ls[7] && l6[0] == ls[6] && l5[0] == ls[5];
    assert l4[0] == ls[4] && l3[0] == ls[3] && l2[0] == ls[2] && l1[0] == ls[1];
    assert Flat(l8) == Pieces(ls[8], '\n');
    assert Flat(l7) == Pieces(ls[7], '\n') + Flat(l8);
    assert Flat(l6) == Pieces(ls[6], '\n') + Flat(l7);
    assert Flat(l5) == Pieces(ls[5], '\n') + Flat(l6);
    assert Flat(l4) == Pieces(ls[4], '\n') + Flat(l5);
    assert Flat(l3) == Pieces(ls[3], '\n') + Flat(l4);
    assert Flat(l2) == Pieces(ls[2], '\n') + Flat(l3);
    assert Flat(l1) == Pieces(ls[1], '\n') + Flat(l2);
  }

  /** A text's pieces and marks, and the nine lists of pieces they cut. */
  predicate CutAs(ps: seq<string>, m: Marks, p: seq<seq<string>>) {
    && |p| == 9 && InBounds(ps, m) && |p[0]| == |p[5]| == |p[7]| == |p[8]| == 1
    && ps[0] == p[0][0] && ps[1..m.mode] == p[1] && ps[m.mode..m.created] == p[2]
    && ps[m.created..m.expires] == p[3] && ps[m.expires..m.host] == p[4] && ps[m.host] == p[5][0]
    && ps[m.host + 1..|ps| - 2] == p[6] && ps[|ps| - 2] == p[7][0] && ps[|ps| - 1] == p[8][0]
  }

  /** Nine lines of which four have one piece, and what their pieces are cut at. */
  lemma CutBack(ps: seq<string>, p: seq<seq<string>>, m: Marks)
    requires |p| == 9 && (forall i :: 0 <= i < 9 ==> p[i] != []) && |p[0]| == |p[5]| == |p[7]| == |p[8]| == 1
    requires ps == p[0] + (p[1] + (p[2] + (p[3] + (p[4] + (p[5] + (p[6] + (p[7] + p[8])))))))
    requires m == Marks(1 + |p[1]|, 1 + |p[1]| + |p[2]|, 1 + |p[1]| + |p[2]| + |p[3]|,
                        1 + |p[1]| + |p[2]| + |p[3]| + |p[4]|)
    ensures CutAs(ps, m, p)
  {
  }

  lemma {:induction false} KeyPiece(key: string, v: string)
    requires '\n' !in key
    ensures key <= Pieces(key + v, '\n')[0]
  {
    if key != "" {
      KeyPiece(key[1..], v);
      PiecesNext(key + v, '\n');
      assert (key + v)[1..] == key[1..] + v && (key + v)[0] == key[0];
    }
  }

  lemma StartsWith(a: string, b: string, c: string)
    requires a <= b <= c
    ensures a <= c
  {
  }

  lemma JoinStarts(ps: seq<string>)
    requires ps != []
    ensures ps[0] <= J(ps)
  {
  }

  // ------------------------------------------------------------------ the reading that was written

  lemma HostLineReads(v: string)
    requires Octets(v)
    ensures HostLine("host=" + Encode(v))
  {
    hide Encode, Decode;
    EncodeReadBack(v);
    assert ("host=" + Encode(v))[5..] == Encode(v);
  }

  function NinePieces(f: Approval): seq<seq<string>>
    requires Octet(f)
  {
    seq(9, i requires 0 <= i < 9 => Pieces(LinesOf(f)[i], '\n'))
  }

  lemma OneLineLines(f: Approval)
    requires Octet(f)
    ensures var ls := LinesOf(f); '\n' !in ls[0] && '\n' !in ls[5] && '\n' !in ls[7] && '\n' !in ls[8]
    ensures var ls := LinesOf(f); "id=" <= ls[1] && "task=" <= ls[6]
  {
    hide Encode;
    CleanIff("host=", Encode(S(f.host)));
    CleanIff("what=", Encode(S(f.what)));
    CleanIff("detail=", Encode(S(f.detail)));
  }

  lemma Cuts(f: Approval)
    requires Octet(f)
    ensures CutAs(PiecesOf(f), MarksOf(f), NinePieces(f))
  {
    hide Pieces, LinesOf, CutAs;
    NineLines(f);
    OneLineLines(f);
    var ls, p := LinesOf(f), NinePieces(f);
    PiecesOfLines(ls);
    FlatNine(ls);
    OnePieceIff(ls[0], '\n');
    OnePieceIff(ls[5], '\n');
    OnePieceIff(ls[7], '\n');
    OnePieceIff(ls[8], '\n');
    assert PiecesOf(f) == Flat(ls) by { assert CanonicalText(f) == J(ls); }
    CutBack(PiecesOf(f), p, MarksOf(f));
  }

  lemma JoinedCuts(ps: seq<string>, m: Marks, p: seq<seq<string>>, ls: seq<string>)
    requires CutAs(ps, m, p) && |ls| == 9 && forall i :: 0 <= i < 9 ==> J(p[i]) == ls[i]
    ensures LinesAt(ps, m) == ls
  {
    OneJoin(p[0]);
    OneJoin(p[5]);
    OneJoin(p[7]);
    OneJoin(p[8]);
    hide Join;
    var at := LinesAt(ps, m);
    assert forall i :: 0 <= i < 9 ==> at[i] == ls[i];
  }

  lemma FirstPieces(ps: seq<string>, m: Marks, p: seq<seq<string>>)
    requires CutAs(ps, m, p)
    ensures |p[1]| > 0 && |p[2]| > 0 && |p[3]| > 0 && |p[4]| > 0 && |p[6]| > 0
    ensures ps[1] == p[1][0] && ps[m.mode] == p[2][0] && ps[m.created] == p[3][0] && ps[m.expires] == p[4][0]
    ensures ps[m.host + 1] == p[6][0]
  {
    assert ps[1] == ps[1..m.mode][0] && ps[m.mode] == ps[m.mode..m.created][0];
    assert ps[m.created] == ps[m.created..m.expires][0] && ps[m.expires] == ps[m.expires..m.host][0];
    assert ps[m.host + 1] == ps[m.host + 1..|ps| - 2][0];
  }

  lemma OneJoin(p: seq<string>)
    ensures |p| == 1 ==> J(p) == p[0]
  {
  }

  /** Cutting a text where its fields were joined gives its lines back. */
  lemma OwnReading(f: Approval)
    requires Octet(f)
    ensures InBounds(PiecesOf(f), MarksOf(f)) && LinesAt(PiecesOf(f), MarksOf(f)) == LinesOf(f)
  {
    Cuts(f);
    assert InBounds(PiecesOf(f), MarksOf(f));
    hide Pieces, LinesOf, Join, PiecesOf, MarksOf, LinesAt, CutAs;
    NineLines(f);
    var ls, p := LinesOf(f), NinePieces(f);
    forall i | 0 <= i < 9 ensures J(p[i]) == ls[i] { JoinPieces(ls[i], '\n'); }
    JoinedCuts(PiecesOf(f), MarksOf(f), p, ls);
  }

  lemma LineKeys(f: Approval)
    requires Octet(f)
    ensures var p := NinePieces(f);
            && "id=" <= p[1][0] && "mode=" <= p[2][0] && "created=" <= p[3][0] && "expires=" <= p[4][0]
            && "task=" <= p[6][0]
    ensures HostLine(LinesOf(f)[5])
  {
    hide Pieces, Encode, HostLine;
    KeyPiece("id=", S(f.id));
    KeyPiece("mode=", S(f.mode));
    KeyPiece("created=", S(f.created));
    KeyPiece("expires=", S(f.expires));
    KeyPiece("task=", S(f.task));
    assert f.host in [f.id, f.mode, f.created, f.expires, f.host, f.task, f.what, f.detail];
    HostLineReads(S(f.host));
  }

  lemma OwnReadingIsOne(f: Approval)
    requires Octet(f)
    ensures Reading(PiecesOf(f), MarksOf(f)) && "id=" <= PiecesOf(f)[1]
  {
    Cuts(f);
    LineKeys(f);
    OneLineLines(f);
    hide Pieces, LinesOf, PiecesOf, MarksOf, HostLine;
    FirstPieces(PiecesOf(f), MarksOf(f), NinePieces(f));
    OnePieceOf(LinesOf(f)[5]);
  }

  lemma OnePieceOf(line: string)
    requires '\n' !in line
    ensures Pieces(line, '\n') == [line]
  {
    PiecesOfClean(line, '\n', "");
  }

  // ------------------------------------------------------------------ every other one

  /** The approval another reading gives; what and detail have one place only. */
  function Reread(f: Approval, m: Marks): Approval
    requires Octet(f) && Reading(PiecesOf(f), m)
  {
    FromLines(f, LinesAt(PiecesOf(f), m))
  }

  function Drop(s: string, k: nat): string { if k <= |s| then s[k..] else "" }

  lemma {:induction false} PiecesOctets(s: string)
    requires Octets(s)
    ensures forall i :: 0 <= i < |Pieces(s, '\n')| ==> Octets(Pieces(s, '\n')[i])
  {
    if s != "" { PiecesOctets(s[1..]); }
  }

  lemma {:induction false} JoinOctets(ps: seq<string>)
    requires forall i :: 0 <= i < |ps| ==> Octets(ps[i])
    ensures Octets(J(ps))
  {
    if |ps| > 1 { JoinOctets(ps[1..]); }
  }

  lemma {:induction false} EncodeOctets(s: string)
    requires Octets(s)
    ensures Octets(Encode(s))
    decreases |s|
  {
    if s != "" {
      hide Letter;
      assert forall n: nat :: n < 64 ==> Letter(n) as int < 256 by { LettersAreOctets(); }
      EncodeOctets(After3(s));
    }
  }

  lemma LettersAreOctets()
    ensures forall n: nat :: n < 64 ==> Letter(n) as int < 256
  {
  }

  lemma KeyDrop(key: string, line: string)
    requires key <= line
    ensures key + Drop(line, |key|) == line
    ensures Octets(line) ==> Octets(Drop(line, |key|))
  {
  }

  ghost predicate CleanPieces(ps: seq<string>) { forall i :: 0 <= i < |ps| ==> '\n' !in ps[i] && Octets(ps[i]) }

  lemma SliceBack(ps: seq<string>, i: int, j: int)
    requires CleanPieces(ps) && 0 <= i < j <= |ps|
    ensures Pieces(J(ps[i..j]), '\n') == ps[i..j] && Octets(J(ps[i..j])) && ps[i] <= J(ps[i..j])
  {
    PiecesOfJoin(ps[i..j], '\n');
    JoinOctets(ps[i..j]);
    JoinStarts(ps[i..j]);
  }

  lemma PiecesAreClean(f: Approval)
    requires Octet(f)
    ensures CleanPieces(PiecesOf(f)) && J(PiecesOf(f)) == CanonicalText(f)
  {
    hide LinesOf;
    var text := CanonicalText(f);
    LinesAreOctets(f);
    JoinOctets(LinesOf(f));
    hide Join, CanonicalText, Pieces;
    PiecesOctets(text);
    JoinPieces(text, '\n');
    forall i | 0 <= i < |PiecesOf(f)| ensures '\n' !in PiecesOf(f)[i] { PieceIsClean(text, '\n', i); }
  }

  lemma LinesAreOctets(f: Approval)
    requires Octet(f)
    ensures forall i :: 0 <= i < |LinesOf(f)| ==> Octets(LinesOf(f)[i])
  {
    hide Encode, Octets;
    EncodeOctets(S(f.host));
    EncodeOctets(S(f.what));
    EncodeOctets(S(f.detail));
    KeyedOctets("id=", S(f.id));
    KeyedOctets("mode=", S(f.mode));
    KeyedOctets("created=", S(f.created));
    KeyedOctets("expires=", S(f.expires));
    KeyedOctets("host=", Encode(S(f.host)));
    KeyedOctets("task=", S(f.task));
    KeyedOctets("what=", Encode(S(f.what)));
    KeyedOctets("detail=", Encode(S(f.detail)));
    KeyedOctets("walnut-approval-v1", "");
    assert "walnut-approval-v1" + "" == "walnut-approval-v1";
  }

  lemma KeyedOctets(key: string, v: string)
    requires Octets(v)
    ensures (forall i :: 0 <= i < |key| ==> key[i] as int < 256) ==> Octets(key + v)
  {
  }

  /** However a text is cut, its lines joined are the text, and their pieces are counted by the marks. */
  lemma AnyCut(ps: seq<string>, m: Marks)
    requires CleanPieces(ps) && InBounds(ps, m)
    ensures J(LinesAt(ps, m)) == J(ps)
    ensures var ls := LinesAt(ps, m);
            && m == Marks(1 + Count(ls[1]), 1 + Count(ls[1]) + Count(ls[2]),
                          1 + Count(ls[1]) + Count(ls[2]) + Count(ls[3]),
                          1 + Count(ls[1]) + Count(ls[2]) + Count(ls[3]) + Count(ls[4]))
    ensures var ls := LinesAt(ps, m);
            && ps[1] <= ls[1] && ps[m.mode] <= ls[2] && ps[m.created] <= ls[3] && ps[m.expires] <= ls[4]
            && ps[m.host + 1] <= ls[6] && forall i :: 0 <= i < 9 ==> Octets(ls[i])
  {
    hide Pieces, Join, Octets;
    var n, ls := |ps|, LinesAt(ps, m);
    SliceBack(ps, 1, m.mode);
    SliceBack(ps, m.mode, m.created);
    SliceBack(ps, m.created, m.expires);
    SliceBack(ps, m.expires, m.host);
    SliceBack(ps, m.host + 1, n - 2);
    OnePieceOf(ps[0]);
    OnePieceOf(ps[m.host]);
    OnePieceOf(ps[n - 2]);
    OnePieceOf(ps[n - 1]);
    PiecesOfLines(ls);
    FlatNine(ls);
    SlicesMakeAll(ps, m);
    JoinPieces(J(ls), '\n');
  }

  lemma SlicesMakeAll(ps: seq<string>, m: Marks)
    requires InBounds(ps, m)
    ensures ps == [ps[0]] + (ps[1..m.mode] + (ps[m.mode..m.created] + (ps[m.created..m.expires] + (ps[m.expires..m.host]
                  + ([ps[m.host]] + (ps[m.host + 1..|ps| - 2] + ([ps[|ps| - 2]] + [ps[|ps| - 1]])))))))
  {
  }

  /** Every reading is of some approval with the same text. */
  lemma RereadHasTheText(f: Approval, m: Marks)
    requires Octet(f) && Reading(PiecesOf(f), m)
    ensures var g := Reread(f, m);
            Octet(g) && CanonicalText(g) == CanonicalText(f) && MarksOf(g) == m
  {
    PiecesAreClean(f);
    RereadLines(f, m);
    hide LinesOf, Join, Pieces, Reading, Octet, LinesAt, PiecesOf;
    AnyCut(PiecesOf(f), m);
  }

  lemma RereadLines(f: Approval, m: Marks)
    requires Octet(f) && Reading(PiecesOf(f), m)
    ensures var g := Reread(f, m);
            Octet(g) && LinesOf(g) == LinesAt(PiecesOf(f), m)
  {
    CutKeys(f, m);
    hide PiecesOf, MarksOf, LinesAt, Reading;
    KeyedLines(f, LinesAt(PiecesOf(f), m));
  }

  /** Nine lines, each with its key, and the first and last two those of `f`. */
  predicate Keyed(f: Approval, ls: seq<string>)
    requires Octet(f)
  {
    && |ls| == 9 && (forall i :: 0 <= i < 9 ==> Octets(ls[i]))
    && "id=" <= ls[1] && "mode=" <= ls[2] && "created=" <= ls[3] && "expires=" <= ls[4] && HostLine(ls[5])
    && "task=" <= ls[6] && ls[0] == LinesOf(f)[0] && ls[7] == LinesOf(f)[7] && ls[8] == LinesOf(f)[8]
  }

  lemma CutKeys(f: Approval, m: Marks)
    requires Octet(f) && Reading(PiecesOf(f), m)
    ensures Keyed(f, LinesAt(PiecesOf(f), m))
  {
    PiecesAreClean(f);
    AnyCut(PiecesOf(f), m);
    OwnReadingIsOne(f);
    OwnReading(f);
    hide PiecesOf, MarksOf, Join, Pieces, LinesOf, HostLine;
    var ps, ls := PiecesOf(f), LinesAt(PiecesOf(f), m);
    StartsWith("id=", ps[1], ls[1]);
    StartsWith("mode=", ps[m.mode], ls[2]);
    StartsWith("created=", ps[m.created], ls[3]);
    StartsWith("expires=", ps[m.expires], ls[4]);
    StartsWith("task=", ps[m.host + 1], ls[6]);
  }

  /** The approval nine keyed lines stand for. */
  function FromLines(f: Approval, ls: seq<string>): Approval
    requires |ls| == 9
  {
    Approval(Some(Drop(ls[1], 3)), Some(Drop(ls[2], 5)), Some(Drop(ls[3], 8)), Some(Drop(ls[4], 8)),
             Decode(Drop(ls[5], 5)), Some(Drop(ls[6], 5)), f.what, f.detail)
  }

  lemma KeyedLines(f: Approval, ls: seq<string>)
    requires Octet(f) && Keyed(f, ls)
    ensures Octet(FromLines(f, ls)) && LinesOf(FromLines(f, ls)) == ls
  {
    hide Encode, Decode;
    var g := FromLines(f, ls);
    KeyDrop("id=", ls[1]);
    KeyDrop("mode=", ls[2]);
    KeyDrop("created=", ls[3]);
    KeyDrop("expires=", ls[4]);
    KeyDrop("host=", ls[5]);
    KeyDrop("task=", ls[6]);
    RereadOctet(f, g);
    hide Octet;
    var n := LinesOf(g);
    assert n[5] == ls[5];
    assert forall i :: 0 <= i < 9 ==> n[i] == ls[i];
  }

  lemma RereadOctet(f: Approval, g: Approval)
    requires Octet(f) && g.what == f.what && g.detail == f.detail
    requires Octets(S(g.id)) && Octets(S(g.mode)) && Octets(S(g.created)) && Octets(S(g.expires))
    requires Octets(S(g.host)) && Octets(S(g.task))
    ensures Octet(g)
  {
    var vs := [f.id, f.mode, f.created, f.expires, f.host, f.task, f.what, f.detail];
    assert vs[6] in vs && vs[7] in vs;
  }

  // ------------------------------------------------------------------ when a text has two meanings

  /** An approval's text is also the text of one that is shown differently exactly when its pieces can be cut
      another way: each key found again at the start of a later piece, in order, with a line of base64 right
      before the task. */
  lemma ForgeableIff(f: Approval)
    requires Octet(f)
    ensures (exists g :: Octet(g) && CanonicalText(g) == CanonicalText(f) && Shown(g) != Shown(f))
        <==> (exists m :: Reading(PiecesOf(f), m) && m != MarksOf(f))
  {
    hide CanonicalText, Reading, MarksOf, LinesOf, Shown, Octet;
    if g :| Octet(g) && CanonicalText(g) == CanonicalText(f) && Shown(g) != Shown(f) {
      assert PiecesOf(g) == PiecesOf(f);
      OwnReading(f);
      OwnReading(g);
      OwnReadingIsOne(g);
      SameLinesIff(f, g);
      assert MarksOf(g) != MarksOf(f);
    }
    if m :| Reading(PiecesOf(f), m) && m != MarksOf(f) {
      RereadHasTheText(f, m);
      var g := Reread(f, m);
      SameLinesIff(f, g);
      assert Shown(g) != Shown(f) by { if Shown(g) == Shown(f) { SameMarks(f, g); } }
    }
  }

  lemma SameMarks(f: Approval, g: Approval)
    requires Octet(f) && Octet(g) && LinesOf(f) == LinesOf(g)
    ensures MarksOf(f) == MarksOf(g)
  {
  }

  predicate BeginsAKey(piece: string) {
    "mode=" <= piece || "created=" <= piece || "expires=" <= piece || "host=" <= piece
  }

  /** No piece but the four that were written so begins with one of these keys. */
  predicate NoOtherKey(ps: seq<string>, own: Marks) {
    forall k :: 1 < k < |ps| && k != own.mode && k != own.created && k != own.expires && k != own.host ==>
      !BeginsAKey(ps[k])
  }

  lemma OneKeyOnly(ps: seq<string>, own: Marks, m: Marks)
    requires Reading(ps, own) && Reading(ps, m) && NoOtherKey(ps, own)
    ensures m == own
  {
    hide Decode, Encode;
    DifferentKeys(ps[m.mode]);
    DifferentKeys(ps[m.created]);
    DifferentKeys(ps[m.expires]);
    DifferentKeys(ps[m.host]);
  }

  lemma DifferentKeys(piece: string)
    ensures "mode=" <= piece ==> piece[0] == 'm'
    ensures "created=" <= piece ==> piece[0] == 'c'
    ensures "expires=" <= piece ==> piece[0] == 'e'
    ensures "host=" <= piece ==> piece[0] == 'h'
  {
  }

  /** So newlines in the plain fields forge nothing where no line after one begins with a key. */
  lemma NoOtherKeyNoForgery(f: Approval, g: Approval)
    requires Octet(f) && Octet(g) && NoOtherKey(PiecesOf(f), MarksOf(f))
    ensures CanonicalText(f) == CanonicalText(g) <==> Shown(f) == Shown(g)
  {
    hide CanonicalText, MarksOf, LinesOf, Shown, Octet, Reading, NoOtherKey;
    if CanonicalText(f) == CanonicalText(g) && Shown(f) != Shown(g) {
      ForgeableIff(f);
      var m :| Reading(PiecesOf(f), m) && m != MarksOf(f);
      OwnReadingIsOne(f);
      OneKeyOnly(PiecesOf(f), MarksOf(f), m);
    }
    if Shown(f) == Shown(g) {
      SameLinesIff(f, g);
      SameText(f, g);
    }
  }

  lemma SameText(f: Approval, g: Approval)
    requires Octet(f) && Octet(g) && LinesOf(f) == LinesOf(g)
    ensures CanonicalText(f) == CanonicalText(g)
  {
  }
}
