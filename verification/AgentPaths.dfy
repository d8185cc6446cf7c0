/** src/constants.ts: an agent's files, named after its id. */
module AgentPaths {
  import opened Options
  import opened Text
  import opened Base64
  import opened PercentCoding

  predicate WordChar(c: char) { Alnum(c) || c == '_' || c == '-' }

  predicate All(s: string, allowed: char -> bool) { forall i :: 0 <= i < |s| ==> allowed(s[i]) }

  /** ^[a-z0-9_-]{1,64}$ */
  predicate Ordinary(id: string) { 1 <= |id| <= 64 && All(id, WordChar) }

  /** ^[a-z0-9][a-z0-9._-]{0,63}:[a-z0-9][a-z0-9._/-]{0,127}$ */
  predicate Plugin(id: string) {
    var k := FirstOf(id, ':');
    && k < |id| && PluginPart(id[..k], 64, c => WordChar(c) || c == '.')
    && PluginPart(id[k + 1..], 128, c => WordChar(c) || c == '.' || c == '/')
  }

  predicate PluginPart(s: string, max: nat, allowed: char -> bool) {
    1 <= |s| <= max && Alnum(s[0]) && All(s, allowed)
  }

  predicate ValidAgentId(id: string) { Ordinary(id) || Plugin(id) }

  lemma ValidIsOctets(id: string)
    requires ValidAgentId(id)
    ensures Octets(id) && id != "" && forall c :: c in id ==> WordChar(c) || c == '.' || c == '/' || c == ':'
  {
    if !Ordinary(id) {
      var k := FirstOf(id, ':');
      assert id == id[..k] + [':'] + id[k + 1..];
      assert forall i :: 0 <= i < k ==> id[i] == id[..k][i];
      assert forall i :: k < i < |id| ==> id[i] == id[k + 1..][i - k - 1];
    }
  }

  /** None where the source throws. */
  function AgentPathSegment(id: string): Option<string> {
    if !ValidAgentId(id) then None
    else
      ValidIsOctets(id);
      Some(EncodeComponent(id))
  }

  function AgentIdFromPathSegment(segment: string): Option<string> {
    var id := DecodeComponent(segment);
    if id.None? || !ValidAgentId(id.value) then None else id
  }

  predicate LetterOrDigit(c: char) { 'a' <= c <= 'z' || 'A' <= c <= 'Z' || '0' <= c <= '9' }

  /** Every character is a letter, a digit or one of these marks. */
  predicate Of(s: string, marks: set<char>) { forall i :: 0 <= i < |s| ==> LetterOrDigit(s[i]) || s[i] in marks }

  /** Which ids are valid: without a colon up to 64 letters, digits, _ and -; with one, a plugin's name and its
      agent's, each beginning with a letter or digit, with dots too, and slashes in the agent's. */
  lemma ValidIdIff(plugin: string, agent: string)
    requires ':' !in plugin
    ensures ValidAgentId(plugin) <==> 1 <= |plugin| <= 64 && Of(plugin, {'_', '-'})
    ensures ValidAgentId(plugin + ":" + agent)
        <==> && 1 <= |plugin| <= 64 && LetterOrDigit(plugin[0]) && Of(plugin, {'_', '-', '.'})
             && 1 <= |agent| <= 128 && LetterOrDigit(agent[0]) && Of(agent, {'_', '-', '.', '/'})
  {
    hide FirstOf;
    FirstOfClean(plugin, ':', agent);
    var id := plugin + ":" + agent;
    assert id[..|plugin|] == plugin && id[|plugin| + 1..] == agent;
    assert id[|plugin|] == ':';
  }

  /** A segment names an id exactly when it decodes to it and it is valid; no other id has a segment. */
  lemma SegmentNamesIff(segment: string, id: string)
    ensures AgentIdFromPathSegment(segment) == Some(id) <==> ValidAgentId(id) && DecodeComponent(segment) == Some(id)
    ensures AgentPathSegment(id).Some? <==> ValidAgentId(id)
  {
    hide DecodeComponent, Ordinary, Plugin;
  }

  /** A valid id comes back from its segment. */
  lemma SegmentReadBack(id: string)
    requires ValidAgentId(id)
    ensures AgentIdFromPathSegment(AgentPathSegment(id).value) == Some(id)
  {
    ValidIsOctets(id);
    ReadBack(id);
  }

  /** The segment is one path component: no separator of any platform, and no dot name. */
  lemma SegmentIsAComponent(id: string)
    requires ValidAgentId(id)
    ensures var segment := AgentPathSegment(id).value;
            && segment != "" && segment != "." && segment != ".."
            && forall c :: c in segment ==> WordChar(c) || c == '.' || c == '%'
  {
    ValidIsOctets(id);
    var segment := EncodeComponent(id);
    OnlyPlainOrPercent(id);
    assert segment[0] == EncodeOctet(id[0])[0];
    assert WordChar(id[0]) by {
      if !Ordinary(id) { assert id[0] == id[..FirstOf(id, ':')][0]; }
    }
    assert segment[0] != '.';
    forall c | c in segment ensures WordChar(c) || c == '.' || c == '%' {
      assert Unreserved(c);
      assert c in id || c == '%' || '0' <= c <= '9' || 'A' <= c <= 'F';
    }
  }

  /** A segment written some other way can name an agent too, without being the agent's own. */
  lemma SegmentOfAnotherSpelling()
    ensures AgentIdFromPathSegment("%61") == Some("a") && AgentPathSegment("a") == Some("a")
  {
    var segment := "%61";
    assert segment[3..] == "" && (6 * 16 + 1) as char == 'a';
    assert DecodeComponent(segment) == Some(['a'] + "");
    assert Ordinary("a") && "a"[1..] == "";
    assert EncodeComponent("a") == EncodeOctet('a') + "" == "a";
  }

  // ------------------------------------------------------------------ files

  /** path.join of a directory and one component. */
  function Joined(dir: string, name: string): string { dir + "/" + name }

  /** "" for no agent. */
  function ChatHistoryFile(home: string, id: string): Option<string> {
    if id == "" || id == "general" then Some(Joined(home, "chat-history.json"))
    else
      var segment := AgentPathSegment(id);
      if segment.None? then None else Some(Joined(home, "chat-history-" + segment.value + ".json"))
  }

  function ConversationDir(conversations: string, id: string): Option<string> {
    var segment := AgentPathSegment(id);
    if segment.None? then None else Some(Joined(conversations, segment.value))
  }

  lemma SameTail(a: string, b: string, c: string, x: string)
    ensures a + b + x == a + c + x <==> b == c
  {
    if a + b + x == a + c + x {
      assert |b| == |c|;
      assert (a + b + x)[|a|..|a| + |b|] == b && (a + c + x)[|a|..|a| + |c|] == c;
    }
  }

  lemma SameSegmentIff(id: string, other: string)
    requires ValidAgentId(id) && ValidAgentId(other)
    ensures AgentPathSegment(id) == AgentPathSegment(other) <==> id == other
  {
    ValidIsOctets(id);
    ValidIsOctets(other);
    Injective(id, other);
  }

  predicate IsGeneral(id: string) { id == "" || id == "general" }

  /** Two agents share a chat history only when they are one, or both are the general one; a valid id has one. */
  lemma ChatHistoryIsOwn(home: string, id: string, other: string)
    ensures ChatHistoryFile(home, id).None? <==> !ValidAgentId(id) && !IsGeneral(id)
    ensures ChatHistoryFile(home, id).Some? && ChatHistoryFile(home, other).Some? ==>
              (ChatHistoryFile(home, id) == ChatHistoryFile(home, other)
               <==> id == other || (IsGeneral(id) && IsGeneral(other)))
  {
    hide ValidAgentId, EncodeComponent;
    if ChatHistoryFile(home, id).Some? && ChatHistoryFile(home, other).Some? {
      if !IsGeneral(id) && !IsGeneral(other) {
        SameSegmentIff(id, other);
        SameTail(home + "/" + "chat-history-", AgentPathSegment(id).value, AgentPathSegment(other).value, ".json");
        ChatPath(home, id);
        ChatPath(home, other);
      } else if IsGeneral(id) != IsGeneral(other) {
        var own := if IsGeneral(id) then other else id;
        ChatPath(home, own);
        NotTheGeneralFile(home, AgentPathSegment(own).value);
      }
    }
  }

  lemma ChatPath(home: string, id: string)
    requires !IsGeneral(id) && ChatHistoryFile(home, id).Some?
    ensures AgentPathSegment(id).Some?
    ensures ChatHistoryFile(home, id).value == home + "/" + "chat-history-" + AgentPathSegment(id).value + ".json"
  {
    hide AgentPathSegment;
    var v := AgentPathSegment(id).value;
    assert home + "/" + ("chat-history-" + v + ".json") == home + "/" + "chat-history-" + v + ".json";
  }

  lemma NotTheGeneralFile(home: string, segment: string)
    ensures home + "/" + "chat-history-" + segment + ".json" != home + "/" + "chat-history.json"
  {
    var a, b := home + "/" + "chat-history-" + segment + ".json", home + "/" + "chat-history.json";
    assert a[|home| + 13] == '-' && b[|home| + 13] == '.';
  }

  /** No two agents share a conversation directory. */
  lemma ConversationDirIsOwn(conversations: string, id: string, other: string)
    requires ValidAgentId(id) && ValidAgentId(other)
    ensures ConversationDir(conversations, id) == ConversationDir(conversations, other) <==> id == other
  {
    hide ValidAgentId, EncodeComponent;
    SameSegmentIff(id, other);
    var a, b := AgentPathSegment(id).value, AgentPathSegment(other).value;
    assert conversations + "/" + a + "" == conversations + "/" + a;
    assert conversations + "/" + b + "" == conversations + "/" + b;
    SameTail(conversations + "/", a, b, "");
  }

  /** On a file system that ignores case two agents share a directory exactly when their ids differ in case
      alone. */
  lemma CaseBlindIff(id: string, other: string)
    requires ValidAgentId(id) && ValidAgentId(other)
    ensures LowerAll(AgentPathSegment(id).value) == LowerAll(AgentPathSegment(other).value)
        <==> LowerAll(id) == LowerAll(other)
  {
    hide ValidAgentId;
    ValidIsOctets(id);
    ValidIsOctets(other);
    LowerReadBack(id);
    LowerReadBack(other);
    LowerFirst(id);
    LowerFirst(other);
  }
}
