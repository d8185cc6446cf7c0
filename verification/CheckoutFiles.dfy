/** What git's own files hold of a clone, line by line, and what desktop/AppBuiltCheckout.swift reads back of it. */
module CheckoutFiles {
  import opened Options
  import opened Text
  import opened CheckoutClone

  // ------------------------------------------------------------------ .git/config as git writes it

  /** A line of the file: a remote's section, another one, or a setting. */
  datatype Item = Remote(name: string) | Other(title: string) | Setting(key: string, value: string)

  function ItemText(item: Item): string {
    match item
    case Remote(name) => "[remote \"" + name + "\"]"
    case Other(title) => "[" + title + "]"
    case Setting(key, value) => "\t" + key + " = " + value
  }

  /** No blank at either end. */
  predicate Trimmed(s: string) { s != "" ==> !Blank(s[0]) && !Blank(s[|s| - 1]) }

  /** As git writes them: a name is not empty, a key is one word, and nothing ends in blanks. */
  predicate Plain(item: Item) {
    match item
    case Remote(name) => name != "" && ']' !in name
    case Other(title) => ']' !in title && !("remote \"" <= title)
    case Setting(key, value) => key != "" && '=' !in key && key[0] != '[' && Trimmed(key) && Trimmed(value)
  }

  function ItemTexts(items: seq<Item>): (ts: seq<string>)
    ensures |ts| == |items| && forall i :: 0 <= i < |ts| ==> ts[i] == ItemText(items[i])
  {
    seq(|items|, i requires 0 <= i < |items| => ItemText(items[i]))
  }

  /** A url is set, whatever the case of its key. */
  predicate SetsUrl(item: Item) {
    item.Setting? && |item.key| == 3
    && item.key[0] in {'u', 'U'} && item.key[1] in {'r', 'R'} && item.key[2] in {'l', 'L'}
  }

  lemma TrimmedStays(s: string)
    requires Trimmed(s)
    ensures Trim(s) == s
  {
  }

  lemma {:induction false} TrimFront(s: string, t: string)
    requires forall i :: 0 <= i < |s| ==> Blank(s[i])
    ensures Trim(s + t) == Trim(t)
    decreases |s|
  {
    if s != "" {
      assert (s + t)[1..] == s[1..] + t;
      TrimFront(s[1..], t);
    } else {
      assert s + t == t;
    }
  }

  lemma LoweredUrlIff(key: string)
    ensures Lowered(key) == "url" <==>
              |key| == 3 && key[0] in {'u', 'U'} && key[1] in {'r', 'R'} && key[2] in {'l', 'L'}
  {
    hide Lowered;
    LoweredLength(key);
    if |key| == 3 {
      LoweredNext(key);
      LoweredNext(key[1..]);
      LoweredNext(key[2..]);
      LoweredLength("");
      assert key[1..][1..] == key[2..] && key[2..][1..] == "";
      var low := Lowered(key);
      assert low == [low[0], low[1], low[2]];
      assert low == "url" <==> low[0] == 'u' && low[1] == 'r' && low[2] == 'l';
    }
  }

  lemma LoweredNext(s: string)
    requires s != ""
    ensures Lowered(s) == [if 'A' <= s[0] <= 'Z' then s[0] - 'A' + 'a' else s[0]] + Lowered(s[1..])
  {
  }

  lemma {:induction false} LoweredLength(s: string)
    ensures |Lowered(s)| == |s|
  {
    if s != "" { LoweredLength(s[1..]); }
  }

  lemma SectionReads(inner: string)
    requires ']' !in inner
    ensures ReadLine("[" + inner + "]") == ReadSection(inner)
  {
    var line := "[" + inner + "]";
    TrimmedStays(line);
    FirstOfClean(inner, ']', "");
    assert line[1..] == inner + [']'] + "";
    assert line[1..][..|inner|] == inner;
  }

  /** Where a line's key ends, and that it is the key. */
  lemma KeyReads(kept: string, key: string)
    requires key != "" && '=' !in key && Trimmed(key) && |kept| >= |key| + 2 && kept[..|key| + 2] == key + " ="
    ensures FirstOf(kept, '=') == |key| + 1 && Trim(kept[..|key| + 1]) == key && kept[0] == key[0]
  {
    hide Trim, FirstOf;
    var spaced := key + " ";
    assert kept == spaced + ['='] + kept[|key| + 2..] by {
      assert key + " =" == spaced + ['='];
      assert kept == kept[..|key| + 2] + kept[|key| + 2..];
    }
    assert '=' !in spaced;
    FirstOfClean(spaced, '=', kept[|key| + 2..]);
    assert kept[..|key| + 1] == spaced;
    TrimBack(key);
  }

  lemma SettingReads(key: string, value: string)
    requires Plain(Setting(key, value))
    ensures ReadLine("\t" + key + " = " + value)
         == if SetsUrl(Setting(key, value)) then Url(value) else Neither
  {
    hide Trim, Lowered, FirstOf;
    var line := key + " = " + value;
    assert "\t" + key + " = " + value == "\t" + line;
    TrimFront("\t", line);
    TrimSetting(key, value);
    KeyReads(Trim(line), key);
    LoweredUrlIff(key);
    TrimFront(" ", value);
    TrimmedStays(value);
  }

  lemma TrimBack(key: string)
    requires Trimmed(key) && key != ""
    ensures Trim(key + " ") == key
  {
    assert (key + " ")[..|key|] == key;
    TrimmedStays(key);
  }

  /** The line without its tab: whole, or without the blank an empty value leaves behind. */
  lemma TrimSetting(key: string, value: string)
    requires Plain(Setting(key, value))
    ensures var kept := Trim(key + " = " + value);
            && |kept| >= |key| + 2 && kept[..|key| + 2] == key + " ="
            && Trim(kept[|key| + 2..]) == Trim(" " + value)
  {
    var line := key + " = " + value;
    if value != "" {
      TrimmedStays(line);
      assert line[|key| + 2..] == " " + value;
    } else {
      assert line == (key + " =") + " ";
      assert line[..|line| - 1] == key + " =";
      TrimmedStays(key + " =");
      assert (key + " =")[|key| + 2..] == "";
      TrimFront(" ", "");
    }
  }

  lemma ItemReads(item: Item)
    requires Plain(item)
    ensures ReadLine(ItemText(item)) ==
              match item
              case Remote(name) => Section(Some(name))
              case Other(_) => Section(None)
              case Setting(_, value) => if SetsUrl(item) then Url(value) else Neither
  {
    match item
    case Remote(name) =>
      var inner := "remote \"" + name + "\"";
      assert ItemText(item) == "[" + inner + "]";
      assert inner[8..|inner| - 1] == name;
      SectionReads(inner);
    case Other(title) => SectionReads(title);
    case Setting(key, value) => SettingReads(key, value);
  }

  // ------------------------------------------------------------------ the remotes of a whole file

  /** The last section before line i is this remote's. */
  predicate Under(items: seq<Item>, i: int, name: string) {
    exists j :: 0 <= j < i <= |items| && items[j] == Remote(name) && forall k :: j < k < i ==> items[k].Setting?
  }

  /** Line i sets a url of this remote. */
  predicate UrlOf(items: seq<Item>, i: int, name: string) {
    0 <= i < |items| && items[i].Setting? && SetsUrl(items[i]) && Under(items, i, name)
  }

  predicate AllPlain(items: seq<Item>) { forall i :: 0 <= i < |items| ==> Plain(items[i]) }

  /** The lines as read. */
  function ReadItems(items: seq<Item>): seq<Line> { ReadLines(ItemTexts(items)) }

  lemma ReadsEach(items: seq<Item>, i: int)
    requires AllPlain(items) && 0 <= i < |items|
    ensures ReadItems(items)[i] ==
              match items[i]
              case Remote(name) => Section(Some(name))
              case Other(_) => Section(None)
              case Setting(_, value) => if SetsUrl(items[i]) then Url(value) else Neither
  {
    hide ReadLine, ItemText, Plain;
    assert Plain(items[i]);
    ItemReads(items[i]);
  }

  lemma ReadsInit(items: seq<Item>)
    requires items != []
    ensures |ReadItems(items)| == |items|
    ensures var n := |items| - 1; ReadItems(items)[..n] == ReadItems(items[..n])
  {
    hide ReadLine, ItemText;
  }

  lemma {:induction false} CurrentIff(items: seq<Item>, name: string)
    requires AllPlain(items)
    ensures Current(ReadItems(items)) == Some(name) <==> Under(items, |items|, name)
  {
    hide ReadItems, SetsUrl, Plain;
    if items == [] {
      assert ReadItems(items) == [] by { NoItems(); }
    } else {
      var n := |items| - 1;
      ReadsEach(items, n);
      ReadsInit(items);
      CurrentIff(items[..n], name);
      UnderNext(items, name);
    }
  }

  lemma NoItems()
    ensures ReadItems([]) == []
  {
  }

  lemma UnderNext(items: seq<Item>, name: string)
    requires items != []
    ensures var n := |items| - 1;
            Under(items, |items|, name)
            <==> if items[n].Setting? then Under(items[..n], n, name) else items[n] == Remote(name)
    ensures forall i :: 0 <= i < |items| ==> (Under(items, i, name) <==> Under(items[..|items| - 1], i, name))
  {
    var n, init := |items| - 1, items[..|items| - 1];
    forall i | 0 <= i <= n ensures Under(items, i, name) <==> Under(init, i, name) {
      if Under(items, i, name) {
        var j :| 0 <= j < i && items[j] == Remote(name) && forall k :: j < k < i ==> items[k].Setting?;
        assert init[j] == Remote(name);
      }
      if Under(init, i, name) {
        var j :| 0 <= j < i && init[j] == Remote(name) && forall k :: j < k < i ==> init[k].Setting?;
        assert items[j] == Remote(name) && forall k :: j < k < i ==> items[k] == init[k];
      }
    }
    if Under(items, |items|, name) {
      var j :| 0 <= j < |items| && items[j] == Remote(name) && forall k :: j < k < |items| ==> items[k].Setting?;
      if items[n].Setting? { assert Under(items, n, name); }
    }
    if items[n].Setting? && Under(init, n, name) {
      assert Under(items, n, name);
      var j :| 0 <= j < n && items[j] == Remote(name) && forall k :: j < k < n ==> items[k].Setting?;
      assert Under(items, |items|, name);
    }
    if items[n] == Remote(name) { assert Under(items, |items|, name); }
  }

  /** One line, and no other, sets a url of this remote, and it is this url. */
  ghost predicate OneUrl(items: seq<Item>, name: string, url: string) {
    exists i :: UrlOf(items, i, name) && items[i].value == url && forall k :: UrlOf(items, k, name) ==> k == i
  }

  ghost predicate NoUrl(items: seq<Item>, name: string) { forall i :: !UrlOf(items, i, name) }

  lemma OneUrlNext(items: seq<Item>, name: string, url: string)
    requires items != []
    ensures var n, init := |items| - 1, items[..|items| - 1];
            && (NoUrl(items, name) <==> NoUrl(init, name) && !UrlOf(items, n, name))
            && (OneUrl(items, name, url) <==> if UrlOf(items, n, name) then NoUrl(init, name) && items[n].value == url
                                              else OneUrl(init, name, url))
  {
    var n, init := |items| - 1, items[..|items| - 1];
    UrlOfNext(items, name, url);
    hide Under, SetsUrl;
    assert forall i :: UrlOf(init, i, name) ==> 0 <= i < n;
    assert forall i :: UrlOf(items, i, name) ==> i == n || UrlOf(init, i, name);
    assert forall i :: UrlOf(init, i, name) ==> UrlOf(items, i, name);
  }

  lemma OneMore(before: seq<string>, last: string, url: string)
    ensures before + [last] == [url] <==> before == [] && last == url
    ensures before + [last] != []
  {
    var all := before + [last];
    assert |all| == |before| + 1 && all[|before|] == last;
    if before == [] { assert all == [last]; }
  }

  /** The urls read of a remote are those set under it. */
  lemma {:induction false} UrlsIff(items: seq<Item>, name: string, url: string)
    requires AllPlain(items)
    ensures UrlsOf(ReadItems(items), name) == [] <==> NoUrl(items, name)
    ensures UrlsOf(ReadItems(items), name) == [url] <==> OneUrl(items, name, url)
  {
    hide ReadItems, SetsUrl, Plain, Under;
    if items == [] {
      NoItems();
    } else {
      var n, init := |items| - 1, items[..|items| - 1];
      ReadsEach(items, n);
      ReadsInit(items);
      CurrentIff(init, name);
      UrlsIff(init, name, url);
      UnderNext(items, name);
      UrlOfNext(items, name, url);
      OneUrlNext(items, name, url);
      hide OneUrl, NoUrl;
      var before := UrlsOf(ReadItems(init), name);
      assert UrlsOf(ReadItems(items), name) == before + if UrlOf(items, n, name) then [items[n].value] else [];
      if UrlOf(items, n, name) {
        OneMore(before, items[n].value, url);
      } else {
        assert before + [] == before;
      }
    }
  }

  lemma UrlOfNext(items: seq<Item>, name: string, url: string)
    requires items != []
    ensures var n, init := |items| - 1, items[..|items| - 1];
            && (forall i :: 0 <= i < n ==> (UrlOf(items, i, name) <==> UrlOf(init, i, name)))
            && (UrlOf(items, n, name) <==> items[n].Setting? && SetsUrl(items[n]) && Under(init, n, name))
  {
    UnderNext(items, name);
    hide Under;
  }

  lemma NamesIff(items: seq<Item>, name: string)
    requires AllPlain(items)
    ensures Names(ReadItems(items), name) <==> Remote(name) in items
  {
    hide ReadLine, ItemText, Plain, SetsUrl;
    forall i | 0 <= i < |items| ensures ReadItems(items)[i] == Section(Some(name)) <==> items[i] == Remote(name) {
      ReadsEach(items, i);
    }
    if Remote(name) in items {
      var i :| 0 <= i < |items| && items[i] == Remote(name);
      assert ReadItems(items)[i] == Section(Some(name));
    }
  }

  /** A configuration passes for the app's clone exactly when origin is its one remote and one url is set for it,
      the repository's own. */
  lemma PrintedConfigIff(items: seq<Item>)
    requires AllPlain(items)
    ensures OnlyTheAppsRemote(ReadItems(items))
        <==> && (forall name :: Remote(name) in items <==> name == "origin")
             && OneUrl(items, "origin", "https://github.com/EvanZhang008/open-walnut.git")
  {
    hide ReadItems, Names, UrlsOf, UrlOf, Plain;
    forall name { NamesIff(items, name); }
    UrlsIff(items, "origin", REPO_URL);
  }

  // ------------------------------------------------------------------ .git/logs/HEAD

  /** A line of the reflog: what changed and by whom, a tab, and the message. */
  function LogLine(who: string, message: string): string { who + ['\t'] + message }

  /** A reflog passes exactly when it begins with the clone of the repository and every later message is a pull's. */
  lemma PrintedLogIff(entries: seq<(string, string)>)
    requires forall e <- entries :: '\t' !in e.0
    ensures OnlyPulls(Messages(seq(|entries|, i requires 0 <= i < |entries| => LogLine(entries[i].0, entries[i].1))))
        <==> && entries != []
             && entries[0].1 == "clone: from " + "https://github.com/EvanZhang008/open-walnut.git"
             && forall i :: 0 < i < |entries| ==> "pull --ff-only: " <= entries[i].1
  {
    var lines := seq(|entries|, i requires 0 <= i < |entries| => LogLine(entries[i].0, entries[i].1));
    forall i | 0 <= i < |entries| ensures Message(lines[i]) == entries[i].1 {
      assert entries[i] in entries;
      FirstOfClean(entries[i].0, '\t', entries[i].1);
    }
    hide Message;
    var ms := Messages(lines);
    assert forall i :: 0 <= i < |entries| ==> ms[i] == entries[i].1;
  }
}
