/** desktop-windows/src/wsl.ts splitLines: lines out of text that arrives in chunks. */
module LineSplitter {
  import opened Text

  /** rest.split(/\r?\n/). */
  function SplitText(s: string): (pieces: seq<string>)
    ensures pieces != []
    decreases |s|
  {
    var k := FirstOf(s, '\n');
    if k == |s| then [s] else [Cut(s[..k])] + SplitText(s[k + 1..])
  }

  /** A carriage return before the newline goes with it. */
  function Cut(line: string): string {
    if line != "" && line[|line| - 1] == '\r' then line[..|line| - 1] else line
  }

  function Lines(s: string): seq<string> { SplitText(s)[..|SplitText(s)| - 1] }

  function Unfinished(s: string): string { SplitText(s)[|SplitText(s)| - 1] }

  function WithoutNuls(line: string): string {
    if line == "" then "" else (if line[0] == '\0' then "" else [line[0]]) + WithoutNuls(line[1..])
  }

  function AllWithoutNuls(lines: seq<string>): seq<string> {
    if lines == [] then [] else [WithoutNuls(lines[0])] + AllWithoutNuls(lines[1..])
  }

  function Concat(chunks: seq<string>): string {
    if chunks == [] then "" else Concat(chunks[..|chunks| - 1]) + chunks[|chunks| - 1]
  }

  // ------------------------------------------------------------------ what a line loses

  lemma {:induction false} ConcatHead(head: string, rest: seq<string>)
    ensures Concat([head] + rest) == head + Concat(rest)
    decreases |rest|
  {
    var all := [head] + rest;
    if rest == [] {
      assert all[..0] == [] && Concat(all) == Concat([]) + head;
    } else {
      ConcatHead(head, rest[..|rest| - 1]);
      assert all[..|all| - 1] == [head] + rest[..|rest| - 1] && all[|all| - 1] == rest[|rest| - 1];
    }
  }

  /** A line loses its NULs and nothing else: it is the pieces between them, put together. */
  lemma {:induction false} NulsAreCut(line: string)
    ensures WithoutNuls(line) == Concat(Pieces(line, '\0')) && '\0' !in WithoutNuls(line)
  {
    hide Pieces, Concat;
    if line == "" {
      NoPieces();
    } else {
      NulsAreCut(line[1..]);
      PiecesNext(line, '\0');
      var rest := Pieces(line[1..], '\0');
      ConcatHead("", rest);
      ConcatHead(rest[0], rest[1..]);
      ConcatHead([line[0]] + rest[0], rest[1..]);
      assert rest == [rest[0]] + rest[1..];
      assert ([line[0]] + rest[0]) + Concat(rest[1..]) == [line[0]] + (rest[0] + Concat(rest[1..]));
    }
  }

  lemma NoPieces()
    ensures Concat(Pieces("", '\0')) == ""
  {
    assert [""][..0] == [];
  }

  // ------------------------------------------------------------------ what a line is

  /** The text again, each line with the ending it had. */
  function Endings(s: string): seq<string>
    decreases |s|
  {
    var k := FirstOf(s, '\n');
    if k == |s| then [] else [if Cut(s[..k]) == s[..k] then "\n" else "\r\n"] + Endings(s[k + 1..])
  }

  function Rebuilt(lines: seq<string>, endings: seq<string>, rest: string): string
    requires |lines| == |endings|
  {
    if lines == [] then rest else lines[0] + endings[0] + Rebuilt(lines[1..], endings[1..], rest)
  }

  /** Lines hold no newline, end at each one, and lose just the ending; the unfinished text follows. */
  lemma {:induction false} LinesRebuild(s: string)
    ensures |Lines(s)| == |Endings(s)| && Rebuilt(Lines(s), Endings(s), Unfinished(s)) == s
    ensures '\n' !in Unfinished(s)
    ensures forall i :: 0 <= i < |Lines(s)| ==> '\n' !in Lines(s)[i]
    ensures forall i :: 0 <= i < |Lines(s)| ==> Endings(s)[i] == "\n" || Endings(s)[i] == "\r\n"
    decreases |s|
  {
    hide Lines, Unfinished, FirstOf, SplitText;
    var k := FirstOf(s, '\n');
    if k < |s| {
      LinesRebuild(s[k + 1..]);
      LinesNext(s);
      assert Lines(s)[1..] == Lines(s[k + 1..]) && Endings(s)[1..] == Endings(s[k + 1..]);
      CutEnding(s[..k]);
      assert s == s[..k] + "\n" + s[k + 1..];
    } else {
      NoLines(s);
    }
  }

  lemma CutEnding(line: string)
    ensures Cut(line) + (if Cut(line) == line then "\n" else "\r\n") == line + "\n"
    ensures '\n' !in line ==> '\n' !in Cut(line)
  {
  }

  lemma NoLines(s: string)
    requires FirstOf(s, '\n') == |s|
    ensures Lines(s) == [] && Unfinished(s) == s && '\n' !in s
  {
    assert s[..|s|] == s;
  }

  lemma LinesNext(s: string)
    requires FirstOf(s, '\n') < |s|
    ensures var k := FirstOf(s, '\n');
            Lines(s) == [Cut(s[..k])] + Lines(s[k + 1..]) && Unfinished(s) == Unfinished(s[k + 1..])
  {
    hide FirstOf, Cut, SplitText;
    SplitNext(s);
    InitAndLast(Cut(s[..FirstOf(s, '\n')]), SplitText(s[FirstOf(s, '\n') + 1..]));
  }

  lemma InitAndLast(head: string, tail: seq<string>)
    requires tail != []
    ensures ([head] + tail)[..|[head] + tail| - 1] == [head] + tail[..|tail| - 1]
    ensures ([head] + tail)[|[head] + tail| - 1] == tail[|tail| - 1]
  {
  }

  lemma SplitNext(s: string)
    requires FirstOf(s, '\n') < |s|
    ensures SplitText(s) == [Cut(s[..FirstOf(s, '\n')])] + SplitText(s[FirstOf(s, '\n') + 1..])
  {
    hide FirstOf, Cut;
  }

  // ------------------------------------------------------------------ chunks

  lemma {:induction false} FirstOfAppend(a: string, b: string, sep: char)
    requires FirstOf(a, sep) < |a|
    ensures FirstOf(a + b, sep) == FirstOf(a, sep)
  {
    if a[0] != sep {
      assert (a + b)[1..] == a[1..] + b;
      FirstOfAppend(a[1..], b, sep);
    }
  }

  /** Splitting what is left with the next chunk gives the lines the whole text would have given. */
  lemma {:induction false} SplitWithNext(a: string, b: string)
    ensures Lines(a + b) == Lines(a) + Lines(Unfinished(a) + b)
    ensures Unfinished(a + b) == Unfinished(Unfinished(a) + b)
    decreases |a|
  {
    var k := FirstOf(a, '\n');
    if k == |a| {
      assert Lines(a) == [] && Unfinished(a) == a;
    } else {
      FirstOfAppend(a, b, '\n');
      assert (a + b)[..k] == a[..k] && (a + b)[k + 1..] == a[k + 1..] + b;
      LinesNext(a + b);
      LinesNext(a);
      SplitWithNext(a[k + 1..], b);
    }
  }

  lemma {:induction false} AllWithoutNulsAppend(a: seq<string>, b: seq<string>)
    ensures AllWithoutNuls(a + b) == AllWithoutNuls(a) + AllWithoutNuls(b)
  {
    if a == [] {
      assert a + b == b;
    } else {
      assert (a + b)[1..] == a[1..] + b;
      AllWithoutNulsAppend(a[1..], b);
    }
  }

  /** What one chunk does to the unfinished text and to the lines given so far. */
  function Fed(rest: string, given: seq<string>, chunk: string): (string, seq<string>) {
    (Unfinished(rest + chunk), given + AllWithoutNuls(Lines(rest + chunk)))
  }

  function FedAll(chunks: seq<string>): (string, seq<string>) {
    if chunks == [] then ("", [])
    else var before := FedAll(chunks[..|chunks| - 1]); Fed(before.0, before.1, chunks[|chunks| - 1])
  }

  /** However the text is cut into chunks, a carriage return and its newline apart or not, the lines given are
      those of the whole text, all but the unfinished last one. */
  lemma {:induction false} ChunksDoNotMatter(chunks: seq<string>)
    ensures FedAll(chunks) == (Unfinished(Concat(chunks)), AllWithoutNuls(Lines(Concat(chunks))))
  {
    hide SplitText;
    if chunks == [] {
      EmptyText();
    } else {
      var init, last := chunks[..|chunks| - 1], chunks[|chunks| - 1];
      ChunksDoNotMatter(init);
      SplitWithNext(Concat(init), last);
      AllWithoutNulsAppend(Lines(Concat(init)), Lines(Unfinished(Concat(init)) + last));
    }
  }

  lemma EmptyText()
    ensures Lines("") == [] && Unfinished("") == ""
  {
    assert SplitText("") == [""];
  }

  /** A carriage return and its newline in two chunks. */
  lemma SplitEndingIsOneEnding()
    ensures FedAll(["a\r", "\nb"]) == ("b", ["a"])
  {
    ChunksDoNotMatter(["a\r", "\nb"]);
    assert ["a\r", "\nb"][..1] == ["a\r"] && ["a\r"][..0] == [];
    assert Concat(["a\r"]) == "a\r";
    var s := Concat(["a\r", "\nb"]);
    assert s == "a\r\nb";
    assert FirstOf(s[2..], '\n') == 0 && FirstOf(s[1..], '\n') == 1 && FirstOf(s, '\n') == 2;
    assert s[3..] == "b" && FirstOf("b", '\n') == 1;
    LinesNext(s);
    assert Cut(s[..2]) == "a" && WithoutNuls("a") == "a";
    assert Lines("b") == [] && AllWithoutNuls(["a"]) == ["a"];
  }

  class Splitter {
    var rest: string
    var given: seq<string>
    ghost var chunks: seq<string>

    ghost predicate Valid()
      reads this
    {
      (rest, given) == FedAll(chunks)
    }

    constructor ()
      ensures Valid() && chunks == []
    {
      rest, given, chunks := "", [], [];
    }

    method Feed(chunk: string)
      requires Valid()
      modifies this
      ensures Valid() && chunks == old(chunks) + [chunk]
      ensures given == AllWithoutNuls(Lines(Concat(chunks))) && rest == Unfinished(Concat(chunks))
    {
      hide SplitText;
      ghost var before := (rest, given);
      rest := rest + chunk;
      var pieces := SplitText(rest);
      var lines := pieces[..|pieces| - 1];
      ghost var whole := rest;
      rest := pieces[|pieces| - 1];
      var i := 0;
      while i < |lines|
        invariant 0 <= i <= |lines|
        invariant rest == Unfinished(whole) && lines == Lines(whole) && chunks == old(chunks)
        invariant given + AllWithoutNuls(lines[i..]) == old(given) + AllWithoutNuls(lines)
      {
        assert lines[i..][1..] == lines[i + 1..];
        given := given + [WithoutNuls(lines[i])];
        i := i + 1;
      }
      assert lines[i..] == [];
      chunks := chunks + [chunk];
      assert given == before.1 + AllWithoutNuls(lines) by { assert given + [] == given; }
      assert chunks[..|chunks| - 1] == old(chunks) && chunks[|chunks| - 1] == chunk;
      assert FedAll(chunks) == Fed(before.0, before.1, chunk);
      ChunksDoNotMatter(chunks);
    }
  }
}
