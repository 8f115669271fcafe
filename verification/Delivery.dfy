/** What arrives: broadcasts, private messages and kick notices, and the sender that the mute filter sees. */
module Delivery {
  import opened CStrings
  import opened Pipeline

  lemma HeadingWord(name: string, tail: string)
    requires IsName(name) && IsWord(tail)
    ensures IsWord(name + tail)
  {}

  lemma JoinOne(w: string)
    ensures Join([w]) == w
  {}

  // ----- Broadcasts -----

  lemma SaysSplits(name: string, text: string)
    ensures Says(name, text) == name + ":" + " " + text
  {}

  lemma BroadcastText(name: string, ws: seq<string>)
    requires IsName(name) && ParsedWords(ws)
    ensures FullMessage(name, ws) == Says(name, Message(ws)) == Join([name + ":"]) + " " + Message(ws)
    ensures |FullMessage(name, ws)| <= FULL_MESSAGE_SIZE - 1 - 11
  {
    MessagePrints(ws);
    SaysSplits(name, Message(ws));
    JoinOne(name + ":");
  }

  lemma ColonIsWord()
    ensures IsWord(":")
  {}

  /** A headed text, by whatever other way it is put together. */
  lemma Headed(text: string, heading: seq<string>, ws: seq<string>, headingMax: nat)
    requires AllWords(heading) && heading != [] && ParsedWords(ws) && |Join(heading)| <= 250
    requires |heading| <= MAX_COMMAND_LEN - 2 && |Join(ClipAll(heading))| <= headingMax
    requires text == Join(heading) + " " + Message(ws)
    ensures Response(text) == "say$ " + text
    ensures |Stored(Response(text))| <= headingMax + MAX_MESSAGE - 1
    ensures Stored(Response(text)) == DropTrailingSpace(text)
            <==> Fits(heading) && |heading| + |Sent(ws)| <= MAX_COMMAND_LEN - 2
  {
    hide Stored, Response, Sent, DropTrailingSpace, Message, Join, ClipAll, AllWords, ParsedWords, Fits;
    HeadedArrivesIff(heading, ws);
    HeadedLength(heading, ws);
  }

  lemma BroadcastHeading(name: string)
    requires IsName(name)
    ensures AllWords([name + ":"]) && Join([name + ":"]) == name + ":" && |Join(ClipAll([name + ":"]))| <= 19
    ensures Fits([name + ":"]) <==> |name| <= 18
  {
    ColonIsWord();
    HeadingWord(name, ":");
    JoinOne(name + ":");
    assert ClipAll([name + ":"]) == [Clip(name + ":", NAME_SIZE - 1)];
    JoinOne(Clip(name + ":", NAME_SIZE - 1));
  }

  /** No buffer on the way is too small: the broadcast is formatted whole, and its stored text fits join's. */
  lemma BroadcastFits(name: string, ws: seq<string>)
    requires IsName(name) && ParsedWords(ws)
    ensures FullMessage(name, ws) == Says(name, Message(ws))
    ensures Response(FullMessage(name, ws)) == "say$ " + FullMessage(name, ws)
    ensures |Stored(Response(FullMessage(name, ws)))| <= JOIN_SIZE - 1
    ensures FULL_MESSAGE_SIZE == 288 && RESPONSE_BUFFER_SIZE == QUEUE_MSG_SIZE == 512 && JOIN_SIZE == 300
  {
    BroadcastText(name, ws);
    BroadcastHeading(name);
    hide Stored, Response, Sent, DropTrailingSpace, Message, Join, ClipAll, AllWords, ParsedWords, Fits, FullMessage;
    Headed(FullMessage(name, ws), [name + ":"], ws, 19);
  }

  /** End to end, a broadcast's text arrives, but for a trailing space, exactly when the sender's name has at
      most 18 characters and at most 47 words are sent. */
  lemma BroadcastArrivesIff(name: string, ws: seq<string>)
    requires IsName(name) && ParsedWords(ws)
    ensures Stored(Response(FullMessage(name, ws))) == DropTrailingSpace(FullMessage(name, ws))
            <==> |name| <= 18 && |Sent(ws)| <= 47
  {
    BroadcastText(name, ws);
    BroadcastHeading(name);
    hide Stored, Response, Sent, DropTrailingSpace, Message, Join, ClipAll, AllWords, ParsedWords, Fits, FullMessage;
    Headed(FullMessage(name, ws), [name + ":"], ws, 19);
  }

  // ----- Private messages and kick notices -----

  function PrivateHeading(name: string): seq<string> {
    [name + ":(private", "message)"]
  }

  lemma PrivateIsWord()
    ensures IsWord(":(private") && IsWord("message)")
  {}

  lemma PrivateHeadingPrints(name: string)
    requires IsName(name)
    ensures AllWords(PrivateHeading(name))
    ensures Join(PrivateHeading(name)) == name + ":(private message)"
    ensures |Join(ClipAll(PrivateHeading(name)))| <= 28
    ensures Fits(PrivateHeading(name)) <==> |name| <= 10
  {
    PrivateIsWord();
    HeadingWord(name, ":(private");
    var h := PrivateHeading(name);
    assert h[1..] == ["message)"];
    assert name + ":(private" + " " + "message)" == name + ":(private message)";
    var c := Clip(name + ":(private", NAME_SIZE - 1);
    assert ClipAll(h) == [c, "message)"] && [c, "message)"][1..] == ["message)"];
  }

  lemma PrivateText(from: string, ws: seq<string>)
    requires IsName(from) && ParsedWords(ws)
    ensures PrivateToReceiver(from, ws) == Response(from + ":(private message)" + " " + Message(ws))
    ensures from + ":(private message) " + Message(ws) == from + ":(private message)" + " " + Message(ws)
  {
    assert "say$ " + from + ":(private message) " + Message(ws)
        == "say$ " + (from + ":(private message)" + " " + Message(ws));
  }

  /** A private message arrives whole exactly when the sender's name has at most 10 characters (the heading's
      first word is the name with ":(private" after it) and at most 46 words are sent. */
  lemma PrivateArrivesIff(from: string, ws: seq<string>)
    requires IsName(from) && ParsedWords(ws)
    ensures PrivateToReceiver(from, ws) == ReceiverText(from, Message(ws))
    ensures |Stored(PrivateToReceiver(from, ws))| <= JOIN_SIZE - 1
    ensures Stored(PrivateToReceiver(from, ws)) == DropTrailingSpace(from + ":(private message) " + Message(ws))
            <==> |from| <= 10 && |Sent(ws)| <= 46
  {
    PrivateText(from, ws);
    PrivateFits(from, "say$ ", ws);
    PrivateHeadingPrints(from);
    hide Stored, Response, Sent, DropTrailingSpace, Message, Join, ClipAll, AllWords, ParsedWords, Fits;
    hide PrivateToReceiver;
    Headed(from + ":(private message) " + Message(ws), PrivateHeading(from), ws, 28);
  }

  // The sender's own copy: "you to", then the heading above.

  /** The reply's buffer holds the heading, with what may stand before it, and any message. */
  lemma PrivateFits(name: string, before: string, ws: seq<string>)
    requires IsName(name) && ParsedWords(ws) && |before| <= 12
    ensures |before + name + ":(private message) " + Message(ws)| <= RESPONSE_BUFFER_SIZE - 1
  {
    MessagePrints(ws);
    hide Message, AllWords, Sent;
  }

  function CopyHeading(who: string): seq<string> {
    ["you", "to"] + PrivateHeading(who)
  }

  lemma CopyHeadingPrints(who: string)
    requires IsName(who)
    ensures AllWords(CopyHeading(who))
    ensures Join(CopyHeading(who)) == "you to " + who + ":(private message)"
    ensures |Join(ClipAll(CopyHeading(who)))| <= 35
    ensures Fits(CopyHeading(who)) <==> |who| <= 10
  {
    PrivateHeadingPrints(who);
    var h, you := PrivateHeading(who), ["you", "to"];
    YouTo();
    JoinCat(you, h);
    assert "you to" + " " + (who + ":(private message)") == "you to " + who + ":(private message)";
    JoinCat(you, ClipAll(h));
    assert ClipAll(you + h) == you + ClipAll(h);
    FitsTogether(you, []);
    AllWordsCat(you, h);
    assert CopyHeading(who)[2] == h[0] && CopyHeading(who)[3] == h[1];
    hide Join, PrivateHeading;
  }

  lemma YouTo()
    ensures AllWords(["you", "to"]) && Join(["you", "to"]) == "you to"
  {
    assert ["you", "to"][1..] == ["to"];
    assert "you" + " " + "to" == "you to";
  }

  lemma CopySplits(who: string, ws: seq<string>)
    ensures PrivateToSender(who, ws) == Response("you to " + who + ":(private message)" + " " + Message(ws))
    ensures "you to " + who + ":(private message) " + Message(ws)
            == "you to " + who + ":(private message)" + " " + Message(ws)
  {
    assert "say$ you to " + who + ":(private message) " + Message(ws)
        == "say$ " + ("you to " + who + ":(private message)" + " " + Message(ws));
  }

  /** The sender's copy: exactly when the receiver's name has at most 10 characters and at most 44 words are
      sent. */
  lemma CopyArrivesIff(who: string, ws: seq<string>)
    requires IsName(who) && ParsedWords(ws)
    ensures PrivateToSender(who, ws) == CopyText(who, Message(ws))
    ensures |Stored(PrivateToSender(who, ws))| <= JOIN_SIZE - 1
    ensures Stored(PrivateToSender(who, ws)) == DropTrailingSpace("you to " + who + ":(private message) " + Message(ws))
            <==> |who| <= 10 && |Sent(ws)| <= 44
  {
    CopySplits(who, ws);
    PrivateFits(who, "say$ you to ", ws);
    CopyHeadingPrints(who);
    hide Stored, Response, Sent, DropTrailingSpace, Message, Join, ClipAll, AllWords, ParsedWords, Fits;
    hide PrivateToSender, PrivateHeading;
    Headed("you to " + who + ":(private message) " + Message(ws), CopyHeading(who), ws, 35);
  }

  function NoticeWords(who: string): seq<string> {
    ["SERVER:", who, "has", "been", "kicked"]
  }

  lemma NoticePrints(who: string)
    requires IsName(who) && who != ""
    ensures AllWords(NoticeWords(who)) && Fits(NoticeWords(who))
    ensures Join(NoticeWords(who)) == "SERVER: " + who + " has been kicked"
  {
    var w, tail := NoticeWords(who), ["has", "been", "kicked"];
    NoticeFixedWords();
    JoinTwo("SERVER:", who);
    assert tail[1..] == ["been", "kicked"];
    JoinTwo("been", "kicked");
    assert "has" + " " + ("been" + " " + "kicked") == "has been kicked";
    assert w == ["SERVER:", who] + tail;
    JoinCat(["SERVER:", who], tail);
    assert Join(tail) == "has been kicked";
    hide Join;
    assert "SERVER:" + " " + who + " " + "has been kicked" == "SERVER: " + who + " has been kicked";
  }

  lemma JoinTwo(a: string, b: string)
    ensures Join([a, b]) == a + " " + b
  {
    assert [a, b][1..] == [b];
  }

  lemma NoticeFixedWords()
    ensures IsWord("SERVER:") && IsWord("has") && IsWord("been") && IsWord("kicked")
  {}

  /** A kick notice arrives whole exactly when the name is not empty, as it is in a bare kick command; no buffer cuts
      it, nor the answer to the sender of a private message to nobody. */
  lemma NoticeArrivesIff(who: string)
    requires IsName(who)
    ensures KickNotice(who) == NoticeText(who) && NotFound(who) == NotFoundText(who)
    ensures Stored(KickNotice(who)) == "SERVER: " + who + " has been kicked" <==> who != ""
  {
    var text := "SERVER: " + who + " has been kicked";
    assert "say$ SERVER: " + who + " has been kicked" == "say$ " + text;
    NoticeIsPrinted(who);
    hide Stored, Join, Words, AllWords, Fits;
    ArrivesUnchangedIff(text);
  }

  lemma NoticeIsPrinted(who: string)
    requires IsName(who)
    ensures var text := "SERVER: " + who + " has been kicked";
            && IsCStr(text) && |text| <= 50
            && (text == Join(Words(text)) && Fits(Words(text)) <==> who != "")
  {
    if who == "" {
      EmptyNotice();
    } else {
      NoticePrints(who);
      hide Join, Words;
      WordsOfJoin(NoticeWords(who));
      JoinIsCStr(NoticeWords(who));
    }
  }

  /** Two spaces in a row are printed as one. */
  lemma DoubleSpaceLost(a: string, b: string)
    ensures |Join(Words(a + " " + (" " + b)))| < |a + " " + (" " + b)|
  {
    WordsPrintShorter(a + " " + b);
    WordsCat(a, b);
    WordsCat(a, " " + b);
    assert Words(" " + b) == Words(b) by {
      assert (" " + b)[1..] == b;
    }
    hide Words, Join;
  }

  function KickedTail(): string {
    "has been kicked"
  }

  lemma KickedSplits()
    ensures " has been kicked" == " " + KickedTail() && IsCStr(KickedTail()) && |KickedTail()| == 15
  {}

  lemma EmptyNotice()
    ensures var text := "SERVER: " + "" + " has been kicked";
            IsCStr(text) && |text| <= 50 && text != Join(Words(text))
  {
    hide Words, Join, KickedTail;
    KickedSplits();
    var tail := KickedTail();
    assert "SERVER: " + "" + (" " + tail) == "SERVER:" + " " + (" " + tail);
    DoubleSpaceLost("SERVER:", tail);
  }
}
