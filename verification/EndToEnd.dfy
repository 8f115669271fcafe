/** From the line a sender types to the text a receiver stores and the sender its mute filter sees. */
module EndToEnd {
  import opened CStrings
  import opened Tokeniser
  import opened Commands
  import opened Pipeline
  import opened Delivery

  /** The words of a "say" line as the server hands them to say. */
  function ServerWords(line: string): seq<string> {
    var tokens := Parse(Clip(line, QUEUE_MSG_SIZE - 1));
    Used(ArgSlots(if tokens == [] then [] else tokens[1..]), 0)
  }

  /** What every connected client stores when `name` types "say$ " and that text. */
  function Heard(name: string, text: string): string {
    Stored(Response(FullMessage(name, ServerWords("say$ " + text))))
  }

  /** The text's words as the server keeps them. */
  function Kept(text: string): seq<string> {
    ClipAll(TakeUpTo(Words(text), MAX_COMMAND_LEN - 2))
  }

  lemma KeptWords(text: string)
    requires IsCStr(text) && |text| <= TEXT_MAX
    ensures ServerWords("say$ " + text) == Kept(text) && ParsedWords(Kept(text))
  {
    var ws := TakeUpTo(Words(text), MAX_COMMAND_LEN - 2);
    hide Words, Parse, Join, Response, Clip, ClipAll, TakeUpTo, AllWords, IsCommandWord, ServerWords, ParsedWords;
    SayIsCommandWord();
    ResponseWhole(text);
    CommandParses("say", text);
    WordsAreWords(text);
    TakenAreWords(Words(text), MAX_COMMAND_LEN - 2);
    ServerArguments(Response(text), "say", ws);
  }

  lemma ServerArguments(line: string, command: string, ws: seq<string>)
    requires Parse(Clip(line, QUEUE_MSG_SIZE - 1)) == [command] + ws && AllWords(ws) && |ws| <= MAX_COMMAND_LEN - 2
    ensures ServerWords(line) == ClipAll(ws) && ParsedWords(ClipAll(ws))
  {
    ClippedAreWords(ws);
    assert ([command] + ws)[1..] == ws;
    hide Parse, Used, ArgSlots, Clip;
    UsedSlots(ws);
    assert forall i :: 0 <= i < |ws| ==> |ClipAll(ws)[i]| < NAME_SIZE by {
      forall i | 0 <= i < |ws| ensures |Clip(ws[i], NAME_SIZE - 1)| < NAME_SIZE {
        ClipLength(ws[i], NAME_SIZE - 1);
      }
    }
  }

  lemma ClipLength(s: string, n: nat)
    ensures |Clip(s, n)| <= n
  {}

  /** What is heard, as words: the sender's heading and the words sent, cut to the client's limits. */
  function HeardWords(name: string, text: string): seq<string> {
    ClipAll(TakeUpTo([name + ":"] + Sent(Kept(text)), MAX_COMMAND_LEN - 2))
  }

  lemma HeardIsItsWords(name: string, text: string)
    requires IsName(name) && IsCStr(text) && |text| <= TEXT_MAX
    ensures Heard(name, text) == Join(HeardWords(name, text))
    ensures AllWords(HeardWords(name, text)) && AllWords([name + ":"] + Sent(Kept(text)))
  {
    var ws := Kept(text);
    KeptWords(text);
    BroadcastText(name, ws);
    BroadcastHeading(name);
    MessagePrints(ws);
    AllWordsCat([name + ":"], Sent(ws));
    TakenAreWords([name + ":"] + Sent(ws), MAX_COMMAND_LEN - 2);
    ClippedAreWords(TakeUpTo([name + ":"] + Sent(ws), MAX_COMMAND_LEN - 2));
    hide Stored, Response, Sent, DropTrailingSpace, Message, Join, ClipAll, AllWords, ParsedWords, Fits, FullMessage;
    hide Kept, ServerWords, TakeUpTo;
    HeadedArrivesIff([name + ":"], ws);
  }

  /** A typed text that nothing on the way can harm. */
  predicate Deliverable(text: string) {
    && Words(text) != [] && text == Join(Words(text)) && |text| <= MAX_MESSAGE - 2
    && |Words(text)| <= MAX_COMMAND_LEN - 3
    && forall i :: 0 <= i < |Words(text)| ==> |Words(text)[i]| < NAME_SIZE
  }

  lemma AllSent(ws: seq<string>)
    ensures Sent(ws) == ws <==> ws == [] || |Join(ws)| <= MAX_MESSAGE - 2
  {
    FittedIsLongest(ws, MAX_MESSAGE, |ws|);
    assert ws[..|ws|] == ws;
    hide Join, FitCount;
  }

  lemma KeptWhole(ws: seq<string>)
    ensures ClipAll(TakeUpTo(ws, MAX_COMMAND_LEN - 2)) == ws <==> Fits(ws)
  {
    var k := ClipAll(TakeUpTo(ws, MAX_COMMAND_LEN - 2));
    if k == ws {
      assert forall i :: 0 <= i < |ws| ==> ws[i] == k[i];
    }
  }

  lemma DeliverableArrives(name: string, text: string)
    requires IsName(name) && |name| <= 18 && IsCStr(text) && |text| <= TEXT_MAX && Deliverable(text)
    ensures Heard(name, text) == Says(name, text)
  {
    var ws := Words(text);
    assert Fits(ws);
    assert Fits([name + ":"] + ws) by {
      BroadcastHeading(name);
      FitsTogether([name + ":"], ws);
    }
    hide Words, Join, Heard, ClipAll, TakeUpTo, Sent, Fits, Says;
    KeptWhole(ws);
    AllSent(ws);
    HeardIsItsWords(name, text);
    KeptWhole([name + ":"] + ws);
    BroadcastHeading(name);
    JoinCat([name + ":"], ws);
    SaysSplits(name, text);
  }

  lemma HeardNeeds(name: string, text: string)
    requires IsName(name) && IsCStr(text) && |text| <= TEXT_MAX
    requires Heard(name, text) == Says(name, text)
    ensures HeardWords(name, text) == [name + ":"] + Words(text)
    ensures Join(HeardWords(name, text)) == Says(name, text)
  {
    SaysSplits(name, text);
    hide Words, Join, Heard, HeardWords, AllWords, IsWord, IsName, Says;
    HeardIsItsWords(name, text);
    WordsOfJoin(HeardWords(name, text));
    WordsCat(name + ":", text);
    ColonIsWord();
    HeadingWord(name, ":");
    WordsOfWord(name + ":");
  }

  /** A heading alone is too short to be the heading, a space and a text. */
  lemma NotBare(heading: string, ws: seq<string>)
    requires |Join([heading] + ws)| > |heading|
    ensures ws != []
  {
    hide Join;
    if ws == [] {
      assert [heading] + ws == [heading];
      JoinOne(heading);
    }
  }

  lemma ArrivedWasDeliverable(name: string, text: string)
    requires IsName(name) && IsCStr(text) && |text| <= TEXT_MAX
    requires Heard(name, text) == Says(name, text)
    ensures |name| <= 18 && Deliverable(text)
  {
    var ws, sent := Words(text), Sent(Kept(text));
    var all := [name + ":"] + sent;
    HeardNeeds(name, text);
    HeardIsItsWords(name, text);
    WordsAreWords(text);
    LostNothing(name, ws, sent, Kept(text));
    BroadcastHeading(name);
    KeptWhole(ws);
    AllSent(ws);
    assert HeardWords(name, text)[0] == name + ":";
    hide Words, Heard, ClipAll, TakeUpTo, Sent, Kept, HeardWords, Join;
    NotBare(name + ":", ws);
    JoinCat([name + ":"], ws);
    TextIs(name, text, Join(ws));
  }

  lemma TextIs(name: string, text: string, joined: string)
    requires name + ":" + " " + joined == Says(name, text)
    ensures text == joined
  {
    assert (name + ":" + " " + joined)[|name| + 2..] == joined;
    assert Says(name, text)[|name| + 2..] == text;
  }

  /** Clipping and cutting that still give all the words took nothing from them. */
  lemma LostNothing(name: string, ws: seq<string>, sent: seq<string>, kept: seq<string>)
    requires kept == ClipAll(TakeUpTo(ws, MAX_COMMAND_LEN - 2)) && |sent| <= |kept| && sent == kept[..|sent|]
    requires ClipAll(TakeUpTo([name + ":"] + sent, MAX_COMMAND_LEN - 2)) == [name + ":"] + ws
    ensures |name| <= 18 && |ws| <= MAX_COMMAND_LEN - 3 && sent == ws && kept == ws
    ensures forall i :: 0 <= i < |ws| ==> |ws[i]| < NAME_SIZE
  {
    var got := ClipAll(TakeUpTo([name + ":"] + sent, MAX_COMMAND_LEN - 2));
    assert got[0] == name + ":" == Clip(name + ":", NAME_SIZE - 1);
    assert |got| == |ws| + 1;
    forall i | 0 <= i < |ws| ensures ws[i] == sent[i] && |ws[i]| < NAME_SIZE {
      assert got[i + 1] == ws[i] == Clip(sent[i], NAME_SIZE - 1);
    }
  }

  /** Of a longer text the queue keeps the beginning. */
  lemma LongTextIsCut(name: string, text: string)
    requires IsName(name) && IsCStr(text) && |text| > TEXT_MAX
    ensures Heard(name, text) == Heard(name, text[..TEXT_MAX]) && |Heard(name, text)| <= JOIN_SIZE - 1
  {
    hide Parse, ArgSlots, Used, Stored, Response, FullMessage, Kept, Words, ParsedWords, ServerWords;
    SameLine(text);
    assert IsCStr(text[..TEXT_MAX]);
    KeptWords(text[..TEXT_MAX]);
    BroadcastFits(name, Kept(text[..TEXT_MAX]));
  }

  lemma SameLine(text: string)
    requires |text| > TEXT_MAX
    ensures ServerWords("say$ " + text) == ServerWords("say$ " + text[..TEXT_MAX])
  {
    hide Parse, ArgSlots, Used;
    assert Clip("say$ " + text, QUEUE_MSG_SIZE - 1) == Clip("say$ " + text[..TEXT_MAX], QUEUE_MSG_SIZE - 1);
  }

  /** End to end: the server takes what `name` types for something to say, every client takes what it is sent for
      something to store, and what it stores is "name: text" exactly when the name has at most 18 characters and the
      text has single spaces only, between 1 to 47 words of at most 19 characters, 254 characters in all. */
  lemma TypedTextArrivesIff(name: string, text: string)
    requires IsName(name) && IsCStr(text)
    ensures IsOfKind("say$ " + text, SAY)
    ensures IsOfKind(Response(FullMessage(name, ServerWords("say$ " + text))), SAY)
    ensures Heard(name, text) == name + ": " + text <==> |name| <= 18 && Deliverable(text)
  {
    hide Response, FullMessage, ServerWords, IsOfKind, Heard, Deliverable;
    SayIsOfKind(text);
    SayIsOfKind(FullMessage(name, ServerWords("say$ " + text)));
    assert Says(name, text) == name + ": " + text;
    hide Says;
    HeardIff(name, text);
  }

  lemma HeardIff(name: string, text: string)
    requires IsName(name) && IsCStr(text)
    ensures Heard(name, text) == Says(name, text) <==> |name| <= 18 && Deliverable(text)
  {
    if |text| > TEXT_MAX {
      LongTextIsCut(name, text);
      assert |Says(name, text)| > |text|;
    }
    hide Heard, Deliverable, Says;
    if |text| <= TEXT_MAX && Heard(name, text) == Says(name, text) {
      ArrivedWasDeliverable(name, text);
    }
    if |text| <= TEXT_MAX && |name| <= 18 && Deliverable(text) {
      DeliverableArrives(name, text);
    }
    if |text| > TEXT_MAX {
      TooLong(text);
    }
  }

  lemma TooLong(text: string)
    requires |text| > TEXT_MAX
    ensures !Deliverable(text)
  {}

  // ----- The sender that the mute filter sees -----

  /** extract_username: what stands before the first ':', if that is one to maxLen - 1 characters. */
  function Sender(message: string, maxLen: nat): string {
    var c := FirstOf(message, 0, ':');
    if 0 < c < maxLen && c < |message| then message[..c] else ""
  }

  lemma ClippedHeading(name: string, tail: string)
    requires IsName(name)
    ensures var h := Clip(name + ":" + tail, NAME_SIZE - 1);
            && |h| >= |name| && h[..|name|] == name
            && if |name| <= 18 then |h| > |name| && h[|name|] == ':' else |h| == |name|
  {
    var whole := name + ":" + tail;
    assert whole[..|name|] == name && whole[|name|] == ':';
  }

  /** Whom extract_username takes a message from `name` to be from: what stands before the first ':' of the name, if
      it has one; else the name, if the ':' after it is not clipped away; else nobody. */
  function SeenAs(name: string): string {
    var c := FirstOf(name, 0, ':');
    if c < |name| then name[..c] else if |name| <= 18 then name else ""
  }

  lemma SeenAsItselfIff(name: string)
    requires IsName(name)
    ensures SeenAs(name) == name <==> |name| <= 18 && ':' !in name
  {
    var c := FirstOf(name, 0, ':');
    if c < |name| {
      assert name[c] == ':';
    } else {
      assert forall i :: 0 <= i < |name| ==> name[i] != ':';
    }
  }

  /** A text that starts with the name, then with ':' or, when the ':' was clipped away, with a space or nothing. */
  predicate StartsAs(name: string, m: string) {
    && |m| >= |name| && m[..|name|] == name
    && (|name| <= 18 ==> |m| > |name| && m[|name|] == ':')
    && (|name| == 19 ==> |m| == 19 || m[19] != ':')
  }

  lemma FirstColon(name: string, m: string)
    requires IsName(name) && StartsAs(name, m)
    ensures var c, k := FirstOf(m, 0, ':'), FirstOf(name, 0, ':');
            if k < |name| || |name| <= 18 then c == k < |m| && m[..c] == name[..c] else c == |m| || c > 19
  {
    var c, k := FirstOf(m, 0, ':'), FirstOf(name, 0, ':');
    hide FirstOf;
    forall i | 0 <= i < |name| ensures m[i] == name[i] {
      assert m[i] == m[..|name|][i];
    }
    if k < |name| || |name| <= 18 {
      assert m[k] == ':';
    }
  }

  lemma SenderOf(name: string, m: string)
    requires IsName(name) && StartsAs(name, m)
    ensures Sender(m, NAME_SIZE) == SeenAs(name)
  {
    FirstColon(name, m);
    hide FirstOf, StartsAs;
    assert name[..|name|] == name;
  }

  lemma StartsWithFirst(ws: seq<string>)
    requires ws != []
    ensures |Join(ws)| >= |ws[0]| && Join(ws)[..|ws[0]|] == ws[0]
    ensures |Join(ws)| > |ws[0]| ==> Join(ws)[|ws[0]|] == ' '
  {}

  /** The first word decides: the name with ':' and perhaps more after it, clipped like any word. */
  lemma HeadingStarts(name: string, tail: string, words: seq<string>)
    requires IsName(name) && words != [] && words[0] == Clip(name + ":" + tail, NAME_SIZE - 1)
    ensures StartsAs(name, Join(words))
  {
    var h, m := words[0], Join(words);
    ClippedHeading(name, tail);
    StartsWithFirst(words);
    hide Join, Clip, IsName;
    assert m[..|h|][..|name|] == m[..|name|] == name;
    if |name| <= 18 {
      assert m[|name|] == m[..|h|][|name|] == ':';
    }
  }

  lemma HeadingDecides(name: string, tail: string, words: seq<string>)
    requires IsName(name) && words != [] && words[0] == Clip(name + ":" + tail, NAME_SIZE - 1)
    ensures Sender(Join(words), NAME_SIZE) == SeenAs(name)
  {
    hide *;
    HeadingStarts(name, tail, words);
    SenderOf(name, Join(words));
  }

  lemma ShortTextSeen(name: string, text: string)
    requires IsName(name) && IsCStr(text) && |text| <= TEXT_MAX
    ensures Sender(Heard(name, text), NAME_SIZE) == SeenAs(name)
  {
    HeardIsItsWords(name, text);
    assert name + ":" + "" == name + ":";
    assert HeardWords(name, text)[0] == Clip(name + ":", NAME_SIZE - 1);
    hide Join, Heard, HeardWords, Sender, SeenAs, Clip, IsName;
    HeadingDecides(name, "", HeardWords(name, text));
  }

  /** Whom everything that a client hears from `name` is taken to be from. */
  lemma SenderSeen(name: string, text: string)
    requires IsName(name) && IsCStr(text)
    ensures Sender(Heard(name, text), NAME_SIZE) == SeenAs(name)
  {
    hide Heard, Sender, SeenAs;
    if |text| > TEXT_MAX {
      LongTextIsCut(name, text);
      ShortTextSeen(name, text[..TEXT_MAX]);
    } else {
      ShortTextSeen(name, text);
    }
  }

  /** That is `name` itself exactly when the name has at most 18 characters and no ':'. */
  lemma SenderSeenIff(name: string, text: string)
    requires IsName(name) && IsCStr(text)
    ensures Sender(Heard(name, text), NAME_SIZE) == name <==> |name| <= 18 && ':' !in name
  {
    hide Heard, Sender, SeenAs;
    SenderSeen(name, text);
    SeenAsItselfIff(name);
  }

  /** A private message, as words at its receiver's client. */
  function HeardPrivately(from: string, ws: seq<string>): seq<string> {
    ClipAll(TakeUpTo(PrivateHeading(from) + Sent(ws), MAX_COMMAND_LEN - 2))
  }

  lemma PrivateIsItsWords(from: string, ws: seq<string>)
    requires IsName(from) && ParsedWords(ws)
    ensures Stored(PrivateToReceiver(from, ws)) == Join(HeardPrivately(from, ws))
  {
    PrivateText(from, ws);
    PrivateHeadingPrints(from);
    HeadedFits(from);
    hide Stored, Response, Sent, Message, Join, ClipAll, AllWords, ParsedWords, Fits, PrivateToReceiver, PrivateHeading;
    hide TakeUpTo, IsName;
    HeadedArrivesIff(PrivateHeading(from), ws);
  }

  lemma HeadedFits(from: string)
    requires IsName(from)
    ensures PrivateHeading(from) != [] && |from + ":(private message)"| <= 250
    ensures |"you to " + from + ":(private message)"| <= 250
  {}

  /** A private message is taken to be from the same. */
  lemma PrivateSenderSeen(from: string, ws: seq<string>)
    requires IsName(from) && ParsedWords(ws)
    ensures Sender(Stored(PrivateToReceiver(from, ws)), NAME_SIZE) == SeenAs(from)
  {
    PrivateIsItsWords(from, ws);
    PrivateFirst(from, ws);
    hide Join, Stored, Sender, SeenAs, Clip, IsName, ParsedWords, PrivateToReceiver, HeardPrivately;
    HeadingDecides(from, "(private", HeardPrivately(from, ws));
  }

  lemma PrivateFirst(from: string, ws: seq<string>)
    ensures HeardPrivately(from, ws) != []
    ensures HeardPrivately(from, ws)[0] == Clip(from + ":" + "(private", NAME_SIZE - 1)
  {
    assert from + ":(private" == from + ":" + "(private";
    assert (PrivateHeading(from) + Sent(ws))[0] == from + ":(private";
    hide Sent, Clip;
  }

  /** The sender's own copy, as words at its client. */
  function HeardBack(who: string, ws: seq<string>): seq<string> {
    ClipAll(TakeUpTo(CopyHeading(who) + Sent(ws), MAX_COMMAND_LEN - 2))
  }

  lemma CopyIsItsWords(who: string, ws: seq<string>)
    requires IsName(who) && ParsedWords(ws)
    ensures Stored(PrivateToSender(who, ws)) == Join(HeardBack(who, ws))
  {
    CopySplits(who, ws);
    CopyHeadingPrints(who);
    HeadedFits(who);
    hide Stored, Response, Sent, Message, Join, ClipAll, AllWords, ParsedWords, Fits, PrivateToSender, PrivateHeading;
    hide TakeUpTo, IsName;
    HeadedArrivesIff(CopyHeading(who), ws);
  }

  /** Whom it is taken to be from: "you to" and what of the receiver's name stands before the first ':', in the name or
      after it, if that is at most 12 characters; else nobody. */
  function CopySeenAs(who: string): string {
    var c := FirstOf(who, 0, ':');
    if c <= 12 then YouToSpace() + who[..c] else ""
  }

  function YouToSpace(): string {
    "you to "
  }

  lemma CopySenderSeen(who: string, ws: seq<string>)
    requires IsName(who) && ParsedWords(ws)
    ensures Sender(Stored(PrivateToSender(who, ws)), NAME_SIZE) == CopySeenAs(who)
  {
    CopyWords(who, ws);
    var words := HeardBack(who, ws);
    var rest := words[2..];
    hide *;
    CopyIsItsWords(who, ws);
    CopyStarts(words);
    HeadingStarts(who, "(private", rest);
    CopyDecides(who, Join(rest));
  }

  lemma CopyWords(who: string, ws: seq<string>)
    ensures |HeardBack(who, ws)| >= 4 && HeardBack(who, ws)[0] == "you" && HeardBack(who, ws)[1] == "to"
    ensures HeardBack(who, ws)[2] == Clip(who + ":" + "(private", NAME_SIZE - 1)
  {
    var all := CopyHeading(who) + Sent(ws);
    assert who + ":(private" == who + ":" + "(private";
    assert all[0] == "you" && all[1] == "to" && all[2] == who + ":(private";
    hide Sent, Clip;
  }

  lemma CopyStarts(words: seq<string>)
    requires |words| >= 4 && words[0] == "you" && words[1] == "to"
    ensures Join(words) == YouToSpace() + Join(words[2..])
  {
    assert words == ["you", "to"] + words[2..];
    hide Join;
    YouTo();
    JoinCat(["you", "to"], words[2..]);
    assert YouToSpace() == "you to" + " ";
  }

  lemma CopyDecides(who: string, rest: string)
    requires IsName(who) && StartsAs(who, rest)
    ensures Sender(YouToSpace() + rest, NAME_SIZE) == CopySeenAs(who)
  {
    var k, c, m := FirstOf(who, 0, ':'), FirstOf(rest, 0, ':'), YouToSpace() + rest;
    FirstColon(who, rest);
    YouToFirst(rest);
    hide FirstOf, StartsAs, YouToSpace;
    assert |YouToSpace()| == 7 ==> m[..7 + c] == YouToSpace() + rest[..c];
  }

  lemma YouToFirst(rest: string)
    ensures |YouToSpace()| == 7 && FirstOf(YouToSpace() + rest, 0, ':') == 7 + FirstOf(rest, 0, ':')
  {
    var m, c := YouToSpace() + rest, FirstOf(rest, 0, ':');
    assert forall i :: 0 <= i < 7 ==> m[i] == YouToSpace()[i] != ':';
    assert forall i :: 7 <= i < 7 + c ==> m[i] == rest[i - 7];
    hide FirstOf;
    FirstOfIs(m, 0, ':', 7 + c);
  }

  /** A kick notice, as words at a client. */
  function NoticeHeard(who: string): seq<string> {
    ClipAll(TakeUpTo(Words(ServerHeading() + " " + (who + " has been kicked")), MAX_COMMAND_LEN - 2))
  }

  function ServerHeading(): string {
    "SERVER:"
  }

  lemma NoticeIsItsWords(who: string)
    requires IsName(who)
    ensures Stored(KickNotice(who)) == Join(NoticeHeard(who))
    ensures NoticeHeard(who) != [] && NoticeHeard(who)[0] == ServerHeading()
  {
    NoticeIsText(who);
    NoticeFirst(who + " has been kicked");
    hide Stored, KickNotice, IsName, Join, ClipAll, TakeUpTo, Words, ServerHeading, Response;
    StoredWhole(ServerHeading() + " " + (who + " has been kicked"));
  }

  lemma NoticeIsText(who: string)
    requires IsName(who)
    ensures var text := ServerHeading() + " " + (who + " has been kicked");
            KickNotice(who) == Response(text) && IsCStr(text) && |text| <= TEXT_MAX
  {
    var tail := who + " has been kicked";
    assert "say$ SERVER: " + who + " has been kicked" == "say$ " + (ServerHeading() + " " + tail);
    KickedSplits();
    assert forall i :: 0 <= i < |tail| ==> tail[i] == if i < |who| then who[i] else " has been kicked"[i - |who|];
  }

  lemma NoticeFirst(tail: string)
    ensures var ws := ClipAll(TakeUpTo(Words(ServerHeading() + " " + tail), MAX_COMMAND_LEN - 2));
            ws != [] && ws[0] == ServerHeading()
  {
    WordsCat(ServerHeading(), tail);
    NoticeFixedWords();
    WordsOfWord(ServerHeading());
    hide Words;
  }

  function ServerName(): string {
    "SERVER"
  }

  lemma ServerIsName()
    ensures IsName(ServerName()) && |ServerName()| <= 18 && ':' !in ServerName()
    ensures Clip(ServerName() + ":" + "", NAME_SIZE - 1) == ServerHeading()
  {
    assert ServerName() + ":" + "" == ServerHeading();
  }

  /** A kick notice is taken to be from "SERVER". */
  lemma NoticeSenderSeen(who: string)
    requires IsName(who)
    ensures Sender(Stored(KickNotice(who)), NAME_SIZE) == ServerName()
  {
    hide *;
    NoticeIsItsWords(who);
    ServerIsName();
    SeenAsItselfIff(ServerName());
    HeadingDecides(ServerName(), "", NoticeHeard(who));
  }

  lemma CopySeenAsIff(m: string, who: string)
    requires IsName(m)
    ensures m == CopySeenAs(who) <==> m == "" && FirstOf(who, 0, ':') > 12
  {
    if FirstOf(who, 0, ':') <= 12 {
      assert CopySeenAs(who)[3] == YouToSpace()[3] == ' ';
    }
    hide FirstOf;
  }

  /** A 19-character name and a 48-word message show that both limits are reached. */
  lemma LimitsAreReached()
    ensures IsName(seq(19, _ => 'n')) && !(|seq(19, _ => 'n')| <= 18)
    ensures var ws := seq(48, _ => "w"); ParsedWords(ws) && |Sent(ws)| == 48
  {
    var ws := seq(48, _ => "w");
    SingleLetters(ws);
    FittedIsLongest(ws, MAX_MESSAGE, 48);
    assert ws[..48] == ws;
  }

  lemma {:induction false} SingleLetters(ws: seq<string>)
    requires ws != [] && forall i :: 0 <= i < |ws| ==> |ws[i]| == 1
    ensures |Join(ws)| == 2 * |ws| - 1
  {
    if |ws| > 1 {
      SingleLetters(ws[1..]);
    }
  }
}
