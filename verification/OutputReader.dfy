/** desktop/DesktopDiagnostics.swift ProcessOutputReader, and the "listening" line main.swift looks for in it. */
module OutputReader {
  function Suffix(s: string, max: nat): string {
    if |s| > max then s[|s| - max..] else s
  }

  predicate ContainsAt(s: string, phrase: string, p: int) {
    0 <= p && p + |phrase| <= |s| && s[p..p + |phrase|] == phrase
  }

  predicate Contains(s: string, phrase: string) {
    exists p :: 0 <= p <= |s| && ContainsAt(s, phrase, p)
  }

  function Concat(texts: seq<string>): string {
    if texts == [] then "" else Concat(texts[..|texts| - 1]) + texts[|texts| - 1]
  }

  // ------------------------------------------------------------------ the reader

  /** What the handle's handler meets: decoded text, bytes that are no UTF-8, or the end; or a stop from
      elsewhere. A handler that was already running when the reader stopped still appends. */
  datatype Event = Data(text: string) | Undecodable | EndOfFile | Stop

  /** Every text decoded, in order. */
  function Texts(es: seq<Event>): seq<string> {
    if es == [] then []
    else Texts(es[..|es| - 1]) + if es[|es| - 1].Data? then [es[|es| - 1].text] else []
  }

  /** The first of the events that stop the reader is the end of the file. */
  predicate EndsAtEof(es: seq<Event>) {
    exists i :: 0 <= i < |es| && es[i].EndOfFile? && forall j :: 0 <= j < i ==> !es[j].EndOfFile? && !es[j].Stop?
  }

  /** Some event stopped the reader. */
  predicate Halted(es: seq<Event>) {
    exists i :: 0 <= i < |es| && (es[i].EndOfFile? || es[i].Stop?)
  }

  class ProcessOutputReader {
    const max: nat
    const phrase: string
    var buffer: string
    var stopped: bool
    var ends: nat                        // how often onEOF was called
    var portConfirmed: bool
    var confirmations: nat               // how often the port was confirmed
    ghost var events: seq<Event>

    ghost predicate Valid()
      reads this
    {
      && buffer == Suffix(Concat(Texts(events)), max)
      && (stopped <==> Halted(events))
      && ends == (if EndsAtEof(events) then 1 else 0)
      && (portConfirmed <==> Seen(Texts(events), max, phrase))
      && confirmations == if portConfirmed then 1 else 0
    }

    constructor (max: nat, phrase: string)
      ensures Valid() && events == [] && this.max == max && this.phrase == phrase
    {
      this.max, this.phrase := max, phrase;
      buffer, stopped, ends, portConfirmed, confirmations, events := "", false, 0, false, 0, [];
    }

    method StopFor() returns (first: bool)
      modifies this`stopped
      ensures stopped && (first <==> !old(stopped))
    {
      first := !stopped;
      stopped := true;
    }

    /** The handler, for one read. */
    method Handle(e: Event)
      requires Valid()
      modifies this
      ensures Valid() && events == old(events) + [e]
      ensures buffer == Suffix(Concat(Texts(events)), max)
      ensures (ends == 1 <==> EndsAtEof(events)) && ends <= 1
      ensures (confirmations == 1 <==> Seen(Texts(events), max, phrase)) && confirmations <= 1
    {
      hide Suffix, Concat, Seen, Texts, EndsAtEof, Halted, Contains;
      ghost var before := Texts(events);
      NextEvent(events, e);
      events := events + [e];
      match e {
        case EndOfFile =>
          var first := StopFor();
          if first { ends := ends + 1; }
        case Stop =>
          var _ := StopFor();
        case Undecodable =>
        case Data(text) =>
          SuffixNext(Concat(before), text, max);
          ConcatNext(before, text);
          SeenNext(before, text, max, phrase);
          buffer := buffer + text;
          if |buffer| > max { buffer := buffer[|buffer| - max..]; }
          if Contains(buffer, phrase) && !portConfirmed {
            portConfirmed := true;
            confirmations := confirmations + 1;
          }
      }
    }
  }

  lemma NextEvent(es: seq<Event>, e: Event)
    ensures Texts(es + [e]) == if e.Data? then Texts(es) + [e.text] else Texts(es)
    ensures Halted(es + [e]) <==> Halted(es) || e.EndOfFile? || e.Stop?
    ensures EndsAtEof(es + [e]) <==> EndsAtEof(es) || (e.EndOfFile? && !Halted(es))
    ensures EndsAtEof(es) ==> Halted(es)
  {
    var n := es + [e];
    assert n[..|es|] == es && n[|es|] == e;
    assert Texts(es) + [] == Texts(es);
    assert forall i :: 0 <= i < |es| ==> n[i] == es[i];
    if EndsAtEof(es) {
      var i :| 0 <= i < |es| && es[i].EndOfFile? && forall j :: 0 <= j < i ==> !es[j].EndOfFile? && !es[j].Stop?;
      assert n[i].EndOfFile?;
    }
    if Halted(es) {
      var i :| 0 <= i < |es| && (es[i].EndOfFile? || es[i].Stop?);
      assert n[i].EndOfFile? || n[i].Stop?;
    }
    if EndsAtEof(n) {
      var i :| 0 <= i < |n| && n[i].EndOfFile? && forall j :: 0 <= j < i ==> !n[j].EndOfFile? && !n[j].Stop?;
      if i < |es| { assert es[i].EndOfFile?; }
    }
  }

  /** Cutting after each text keeps as much as cutting once. */
  lemma SuffixNext(all: string, text: string, max: nat)
    ensures (var b := Suffix(all, max) + text; if |b| > max then b[|b| - max..] else b) == Suffix(all + text, max)
  {
    var b, whole := Suffix(all, max) + text, all + text;
    assert forall i :: 0 <= i < |b| ==> b[i] == whole[|whole| - |b| + i];
    if |b| > max { assert b[|b| - max..] == whole[|whole| - max..]; } else { assert b == Suffix(whole, max); }
  }

  lemma ConcatNext(texts: seq<string>, text: string)
    ensures Concat(texts + [text]) == Concat(texts) + text
  {
    assert (texts + [text])[..|texts|] == texts;
  }

  // ------------------------------------------------------------------ the phrase

  /** The buffer held the phrase after some text. */
  predicate Seen(texts: seq<string>, max: nat, phrase: string) {
    texts != [] && (Contains(Suffix(Concat(texts), max), phrase) || Seen(texts[..|texts| - 1], max, phrase))
  }

  lemma SeenNext(texts: seq<string>, text: string, max: nat, phrase: string)
    ensures Seen(texts + [text], max, phrase)
        <==> Seen(texts, max, phrase) || Contains(Suffix(Concat(texts + [text]), max), phrase)
  {
    assert (texts + [text])[..|texts|] == texts;
  }

  lemma ContainsInWhole(s: string, max: nat, phrase: string)
    ensures Contains(Suffix(s, max), phrase) ==> Contains(s, phrase)
  {
    if Contains(Suffix(s, max), phrase) {
      var t := Suffix(s, max);
      var p :| 0 <= p <= |t| && ContainsAt(t, phrase, p);
      var d := |s| - |t|;
      assert t == s[d..];
      assert s[d + p..d + p + |phrase|] == t[p..p + |phrase|];
      assert ContainsAt(s, phrase, d + p);
    }
  }

  /** The phrase a text completes starts late enough to be in the buffer, if text and phrase fit it. */
  lemma CompletedIsVisible(all: string, text: string, max: nat, phrase: string)
    requires |text| + |phrase| <= max + 1 && !Contains(all, phrase) && Contains(all + text, phrase)
    ensures Contains(Suffix(all + text, max), phrase)
  {
    var s := all + text;
    var p :| 0 <= p <= |s| && ContainsAt(s, phrase, p);
    assert p + |phrase| > |all| by {
      if p + |phrase| <= |all| {
        assert all[p..p + |phrase|] == s[p..p + |phrase|];
        assert ContainsAt(all, phrase, p);
      }
    }
    var t := Suffix(s, max);
    var d := |s| - |t|;
    assert t == s[d..];
    assert t[p - d..p - d + |phrase|] == s[p..p + |phrase|];
    assert ContainsAt(t, phrase, p - d);
  }

  lemma ContainsLater(all: string, text: string, phrase: string)
    requires Contains(all, phrase)
    ensures Contains(all + text, phrase)
  {
    var p :| 0 <= p <= |all| && ContainsAt(all, phrase, p);
    assert (all + text)[p..p + |phrase|] == all[p..p + |phrase|];
    assert ContainsAt(all + text, phrase, p);
  }

  predicate Fits(texts: seq<string>, max: nat, phrase: string) {
    forall i :: 0 <= i < |texts| ==> |texts[i]| + |phrase| <= max + 1
  }

  /** However the output is cut, when each text and the phrase fit the buffer (one character may be over), the
      port is confirmed as soon as all the text so far holds the phrase, and never without it. */
  lemma {:induction false} ConfirmedOnceWritten(texts: seq<string>, max: nat, phrase: string)
    requires phrase != "" && Fits(texts, max, phrase)
    ensures Seen(texts, max, phrase) <==> Contains(Concat(texts), phrase)
  {
    hide Contains, Suffix;
    if texts == [] {
      NothingInNothing(phrase);
    } else {
      var init, last := texts[..|texts| - 1], texts[|texts| - 1];
      ConfirmedOnceWritten(init, max, phrase);
      ContainsInWhole(Concat(texts), max, phrase);
      if Contains(Concat(init), phrase) {
        ContainsLater(Concat(init), last, phrase);
      } else if Contains(Concat(texts), phrase) {
        CompletedIsVisible(Concat(init), last, max, phrase);
      }
    }
  }

  lemma NothingInNothing(phrase: string)
    requires phrase != ""
    ensures !Contains("", phrase)
  {
  }

  function Filler(c: char, n: nat): string {
    seq(n, i => c)
  }

  /** One character more, and a phrase can pass unseen: its last character comes with a text that pushes its
      first one out of the buffer. */
  lemma OneMoreCanHideIt(max: nat, phrase: string, c: char)
    requires phrase != "" && |phrase| <= max && c !in phrase
    ensures var n := |phrase|;
            var texts := [phrase[..n - 1], [phrase[n - 1]] + Filler(c, max + 1 - n)];
            && |texts[1]| + n == max + 2
            && Contains(Concat(texts), phrase) && !Seen(texts, max, phrase)
  {
    hide Contains, Suffix, Concat, Seen;
    var n := |phrase|;
    var a, b := phrase[..n - 1], [phrase[n - 1]] + Filler(c, max + 1 - n);
    assert [] + [a] == [a] && [a] + [b] == [a, b];
    ConcatNext([], a);
    ConcatNext([a], b);
    NoTexts(max, phrase);
    SeenNext([], a, max, phrase);
    SeenNext([a], b, max, phrase);
    assert "" + a == a;
    assert a + b == phrase + Filler(c, max + 1 - n);
    HoldsAtItsStart(phrase, Filler(c, max + 1 - n));
    TooShort(a, phrase);
    ContainsInWhole(a, max, phrase);
    AfterTheCut(phrase, c, max);
    LostItsHead(phrase, c, max + 1 - n);
  }

  lemma NoTexts(max: nat, phrase: string)
    ensures Concat([]) == "" && !Seen([], max, phrase)
  {
  }

  lemma HoldsAtItsStart(phrase: string, more: string)
    ensures Contains(phrase + more, phrase)
  {
    assert (phrase + more)[0..|phrase|] == phrase;
    assert ContainsAt(phrase + more, phrase, 0);
  }

  lemma AfterTheCut(phrase: string, c: char, max: nat)
    requires phrase != "" && |phrase| <= max
    ensures Suffix(phrase + Filler(c, max + 1 - |phrase|), max) == phrase[1..] + Filler(c, max + 1 - |phrase|)
  {
  }

  lemma TooShort(s: string, phrase: string)
    requires |s| < |phrase|
    ensures !Contains(s, phrase)
  {
  }

  lemma LostItsHead(phrase: string, c: char, n: nat)
    requires phrase != "" && c !in phrase
    ensures !Contains(phrase[1..] + Filler(c, n), phrase)
  {
    var t := phrase[1..] + Filler(c, n);
    forall p | 0 <= p <= |t| ensures !ContainsAt(t, phrase, p) {
      if p + |phrase| <= |t| {
        assert t[p..p + |phrase|][|phrase| - 1] == t[p + |phrase| - 1] == c;
      }
    }
  }
}
