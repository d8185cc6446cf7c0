/** desktop/ApprovalBridge.swift canonicalText: the lines an approval's signature binds to. */
module ApprovalText {
  import opened Options
  import opened Text
  import opened Base64

  /** The fields as they come; None for one that is missing or no text. All texts are UTF-8 octets. */
  datatype Approval = Approval(id: Option<string>, mode: Option<string>, created: Option<string>,
                               expires: Option<string>, host: Option<string>, task: Option<string>,
                               what: Option<string>, detail: Option<string>)

  function S(v: Option<string>): string { if v.Some? then v.value else "" }

  predicate Octet(f: Approval) {
    forall v :: v in [f.id, f.mode, f.created, f.expires, f.host, f.task, f.what, f.detail] ==> Octets(S(v))
  }

  function LinesOf(f: Approval): seq<string>
    requires Octet(f)
  {
    ["walnut-approval-v1", "id=" + S(f.id), "mode=" + S(f.mode), "created=" + S(f.created),
     "expires=" + S(f.expires), "host=" + Encode(S(f.host)), "task=" + S(f.task), "what=" + Encode(S(f.what)),
     "detail=" + Encode(S(f.detail))]
  }

  function CanonicalText(f: Approval): string
    requires Octet(f)
  {
    Join(LinesOf(f), '\n')
  }

  /** What a person is shown: a missing field is an empty one. */
  function Shown(f: Approval): seq<string> {
    [S(f.id), S(f.mode), S(f.created), S(f.expires), S(f.host), S(f.task), S(f.what), S(f.detail)]
  }

  /** The fields written as they are hold no newline. */
  predicate OneLineEach(f: Approval) {
    '\n' !in S(f.id) && '\n' !in S(f.mode) && '\n' !in S(f.created) && '\n' !in S(f.expires) && '\n' !in S(f.task)
  }

  lemma CleanIff(key: string, value: string)
    requires '\n' !in key
    ensures '\n' !in key + value <==> '\n' !in value
  {
    assert forall c :: c in key + value <==> c in key || c in value;
  }

  lemma NineClean(ls: seq<string>)
    requires |ls| == 9
    ensures (forall i :: 0 <= i < 9 ==> '\n' !in ls[i])
        <==> && '\n' !in ls[0] && '\n' !in ls[1] && '\n' !in ls[2] && '\n' !in ls[3] && '\n' !in ls[4]
             && '\n' !in ls[5] && '\n' !in ls[6] && '\n' !in ls[7] && '\n' !in ls[8]
  {
  }

  lemma LinesCleanIff(f: Approval)
    requires Octet(f)
    ensures (forall i :: 0 <= i < 9 ==> '\n' !in LinesOf(f)[i]) <==> OneLineEach(f)
  {
    hide Encode;
    CleanIff("id=", S(f.id));
    CleanIff("mode=", S(f.mode));
    CleanIff("created=", S(f.created));
    CleanIff("expires=", S(f.expires));
    CleanIff("host=", Encode(S(f.host)));
    CleanIff("task=", S(f.task));
    CleanIff("what=", Encode(S(f.what)));
    CleanIff("detail=", Encode(S(f.detail)));
    NineClean(LinesOf(f));
  }

  lemma SameValue(key: string, v: string, w: string)
    ensures key + v == key + w <==> v == w
  {
    assert (key + v)[|key|..] == v && (key + w)[|key|..] == w;
  }

  lemma SameLinesIff(f: Approval, g: Approval)
    requires Octet(f) && Octet(g)
    ensures LinesOf(f) == LinesOf(g) <==> Shown(f) == Shown(g)
  {
    hide Encode;
    EncodeInjective(S(f.host), S(g.host));
    EncodeInjective(S(f.what), S(g.what));
    EncodeInjective(S(f.detail), S(g.detail));
    SameValue("id=", S(f.id), S(g.id));
    SameValue("mode=", S(f.mode), S(g.mode));
    SameValue("created=", S(f.created), S(g.created));
    SameValue("expires=", S(f.expires), S(g.expires));
    SameValue("host=", Encode(S(f.host)), Encode(S(g.host)));
    SameValue("task=", S(f.task), S(g.task));
    SameValue("what=", Encode(S(f.what)), Encode(S(g.what)));
    SameValue("detail=", Encode(S(f.detail)), Encode(S(g.detail)));
    var a, b, x, y := LinesOf(f), LinesOf(g), Shown(f), Shown(g);
    if a == b {
      assert forall i :: 0 <= i < 9 ==> a[i] == b[i];
      assert forall i :: 0 <= i < 8 ==> x[i] == y[i];
    }
    if x == y { assert forall i :: 0 <= i < 8 ==> x[i] == y[i]; }
  }

  /** One approval, one text: when either record's plain fields hold no newline, two records have the same
      text exactly when the person is shown the same fields. */
  lemma SameTextIff(f: Approval, g: Approval)
    requires Octet(f) && Octet(g) && OneLineEach(f)
    ensures CanonicalText(f) == CanonicalText(g) <==> Shown(f) == Shown(g)
  {
    hide LinesOf, Join, Shown;
    LinesCleanIff(f);
    LinesCleanIff(g);
    SameLinesIff(f, g);
    NineLines(f);
    NineLines(g);
    PiecesOfJoin(LinesOf(f), '\n');
    if CanonicalText(f) == CanonicalText(g) {
      PiecesCount(LinesOf(g), '\n');
      PiecesOfJoin(LinesOf(g), '\n');
    }
  }

  lemma NineLines(f: Approval)
    requires Octet(f)
    ensures |LinesOf(f)| == 9
  {
  }

  function Named(f: Approval, id: string, mode: string): Approval { f.(id := Some(id), mode := Some(mode)) }

  /** With a newline in plain fields, two approvals shown differently share a text. */
  lemma NewlinesForgeAField(f: Approval)
    requires Octet(f)
    ensures var g, h := Named(f, "a\nmode=b", "c"), Named(f, "a", "b\nmode=c");
            && Octet(g) && Octet(h) && CanonicalText(g) == CanonicalText(h) && Shown(g) != Shown(h)
  {
    StillOctet(f, "a\nmode=b", "c");
    StillOctet(f, "a", "b\nmode=c");
    hide Join, Octet, LinesOf, Octets, Shown;
    var g, h := Named(f, "a\nmode=b", "c"), Named(f, "a", "b\nmode=c");
    LinesOfNamed(f, "a\nmode=b", "c", "a", "b\nmode=c");
    SameTwoLines();
    SameJoin(LinesOf(g), LinesOf(h));
    ModeShown(f, "a\nmode=b", "c");
    ModeShown(f, "a", "b\nmode=c");
  }

  lemma SameTwoLines()
    ensures ("id=" + "a\nmode=b") + ['\n'] + ("mode=" + "c") == ("id=" + "a") + ['\n'] + ("mode=" + "b\nmode=c")
  {
  }

  lemma ModeShown(f: Approval, id: string, mode: string)
    ensures Shown(Named(f, id, mode))[1] == mode
  {
  }

  lemma LinesOfNamed(f: Approval, id: string, mode: string, otherId: string, otherMode: string)
    requires Octet(Named(f, id, mode)) && Octet(Named(f, otherId, otherMode))
    ensures var a, b := LinesOf(Named(f, id, mode)), LinesOf(Named(f, otherId, otherMode));
            && |a| == |b| == 9 && a[0] == b[0] && (forall i :: 3 <= i < 9 ==> a[i] == b[i])
            && a[1] == "id=" + id && a[2] == "mode=" + mode && b[1] == "id=" + otherId && b[2] == "mode=" + otherMode
  {
    hide Encode, Octet;
  }

  lemma SameJoin(a: seq<string>, b: seq<string>)
    requires |a| == |b| > 3 && a[0] == b[0] && a[1] + ['\n'] + a[2] == b[1] + ['\n'] + b[2]
    requires forall i :: 3 <= i < |a| ==> a[i] == b[i]
    ensures Join(a, '\n') == Join(b, '\n')
  {
    hide Join;
    ThreeThen(a);
    ThreeThen(b);
    assert a[3..] == b[3..];
  }

  lemma StillOctet(f: Approval, id: string, mode: string)
    requires Octet(f) && Octets(id) && Octets(mode)
    ensures Octet(Named(f, id, mode))
  {
    var g := Named(f, id, mode);
    var vs := [f.id, f.mode, f.created, f.expires, f.host, f.task, f.what, f.detail];
    forall v | v in [g.id, g.mode, g.created, g.expires, g.host, g.task, g.what, g.detail] ensures Octets(S(v)) {
      if v != Some(id) && v != Some(mode) { assert v in vs; }
    }
  }

  lemma ThreeThen(ls: seq<string>)
    requires |ls| > 3
    ensures Join(ls, '\n') == ls[0] + ['\n'] + (ls[1] + ['\n'] + ls[2]) + ['\n'] + Join(ls[3..], '\n')
  {
    var r1, r2 := ls[1..], ls[2..];
    assert r1[1..] == r2 && r2[1..] == ls[3..] && r1[0] == ls[1] && r2[0] == ls[2];
    assert Join(ls, '\n') == ls[0] + ['\n'] + Join(r1, '\n');
    assert Join(r1, '\n') == ls[1] + ['\n'] + Join(r2, '\n');
    assert Join(r2, '\n') == ls[2] + ['\n'] + Join(ls[3..], '\n');
  }

  // ------------------------------------------------------------------ answers

  datatype Decision = Approve | Deny

  /** What the key signs. */
  function AnswerMessage(digest: string, d: Decision): string {
    "walnut-approval-answer-v1\n" + digest + "\n" + match d case Approve => "approve" case Deny => "deny"
  }

  /** No approval's text is an answer, and an answer fits one digest and one decision. */
  lemma AnswersStandApart(f: Approval, digest: string, other: string, d: Decision, e: Decision)
    requires Octet(f)
    ensures CanonicalText(f) != AnswerMessage(digest, d)
    ensures AnswerMessage(digest, d) == AnswerMessage(other, e) <==> digest == other && d == e
  {
    hide Encode;
    assert CanonicalText(f)[16] == 'v' by {
      assert LinesOf(f)[0] == "walnut-approval-v1";
      assert CanonicalText(f)[..18] == "walnut-approval-v1";
    }
    assert AnswerMessage(digest, d)[16] == 'a';
    if AnswerMessage(digest, d) == AnswerMessage(other, e) { SameAnswer(digest, other, d, e); }
  }

  lemma SameAnswer(digest: string, other: string, d: Decision, e: Decision)
    requires AnswerMessage(digest, d) == AnswerMessage(other, e)
    ensures digest == other && d == e
  {
    var a, b := AnswerMessage(digest, d), AnswerMessage(other, e);
    assert a[|a| - 1] == if d == Approve then 'e' else 'y';
    assert b[|b| - 1] == if e == Approve then 'e' else 'y';
    assert a[26..26 + |digest|] == digest && b[26..26 + |other|] == other;
  }
}
