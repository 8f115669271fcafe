/** A message's way from the server's formatting to the text that a client stores: formatted, clipped by
    the queue, split into at most 49 words, clipped to 19 characters a word, and printed again. */
module Pipeline {
  import opened CStrings
  import opened Tokeniser
  import opened Commands

  const FULL_MESSAGE_SIZE := MAX_MESSAGE + MAX_NAME_LEN + 2

  /** The longest text a "say$ " response can carry through a queue slot. */
  const TEXT_MAX := QUEUE_MSG_SIZE - 1 - 5

  // ----- The server's side -----

  /** say's and sayto's message, from the words it was given. */
  function Message(ws: seq<string>): string {
    Fitted(ws, MAX_MESSAGE)
  }

  /** How a broadcast looks on every screen. */
  function Says(name: string, text: string): string {
    name + ": " + text
  }

  /** say: what is kept in the chat history. */
  function FullMessage(name: string, ws: seq<string>): string {
    Snprintf(Says(name, Message(ws)), FULL_MESSAGE_SIZE)
  }

  function Response(text: string): string {
    Snprintf("say$ " + text, RESPONSE_BUFFER_SIZE)
  }

  function ReceiverText(from: string, message: string): string {
    "say$ " + from + ":(private message) " + message
  }

  function CopyText(who: string, message: string): string {
    "say$ you to " + who + ":(private message) " + message
  }

  function NoticeText(who: string): string {
    "say$ SERVER: " + who + " has been kicked"
  }

  function NotFoundText(who: string): string {
    "error$ User not found. (" + who + ")"
  }

  function PrivateToReceiver(from: string, ws: seq<string>): string {
    Snprintf(ReceiverText(from, Message(ws)), RESPONSE_BUFFER_SIZE)
  }

  function PrivateToSender(who: string, ws: seq<string>): string {
    Snprintf(CopyText(who, Message(ws)), RESPONSE_BUFFER_SIZE)
  }

  function KickNotice(who: string): string {
    Snprintf(NoticeText(who), RESPONSE_BUFFER_SIZE)
  }

  function NotFound(who: string): string {
    Snprintf(NotFoundText(who), RESPONSE_BUFFER_SIZE)
  }

  /** A name as the server holds it: one word, or nothing, of at most 19 characters. */
  predicate IsName(name: string) {
    |name| < NAME_SIZE && (name == "" || IsWord(name))
  }

  /** Words as the server's parser leaves them: at most 48 arguments, none over 19 characters. */
  predicate ParsedWords(ws: seq<string>) {
    AllWords(ws) && |ws| <= MAX_COMMAND_LEN - 2 && forall i :: 0 <= i < |ws| ==> |ws[i]| < NAME_SIZE
  }

  // ----- The client's side -----

  /** What say_exec stores for a message that arrives. */
  function Stored(response: string): string {
    var tokens := Parse(Clip(response, QUEUE_MSG_SIZE - 1));
    Join(Used(ArgSlots(if tokens == [] then [] else tokens[1..]), 0))
  }

  function ClipAll(ws: seq<string>): (r: seq<string>)
    ensures |r| == |ws| && forall i :: 0 <= i < |ws| ==> r[i] == Clip(ws[i], NAME_SIZE - 1)
  {
    seq(|ws|, i requires 0 <= i < |ws| => Clip(ws[i], NAME_SIZE - 1))
  }

  lemma {:induction false} UsedIs(slots: seq<string>, start: nat, ws: seq<string>)
    requires start + |ws| <= |slots| && (start + |ws| < |slots| ==> slots[start + |ws|] == "")
    requires forall i :: 0 <= i < |ws| ==> ws[i] == slots[start + i] && ws[i] != ""
    ensures Used(slots, start) == ws
    decreases |ws|
  {
    if ws != [] {
      UsedIs(slots, start + 1, ws[1..]);
      assert ws == [ws[0]] + ws[1..];
    }
  }

  lemma UsedSlots(ws: seq<string>)
    requires AllWords(ws) && |ws| < MAX_CMD_SIZE
    ensures Used(ArgSlots(ws), 0) == ClipAll(ws)
  {
    hide ArgSlots, Used;
    UsedIs(ArgSlots(ws), 0, ClipAll(ws));
  }

  predicate IsCommandWord(w: string) {
    IsWord(w) && forall i :: 0 <= i < |w| ==> w[i] != '$'
  }

  lemma SayIsCommandWord()
    ensures IsCommandWord("say")
  {}

  /** A command's '$' is dropped; its first word is the command, the others its arguments. */
  lemma CommandParses(command: string, text: string)
    requires IsCommandWord(command)
    ensures Parse(command + "$" + (" " + text)) == [command] + TakeUpTo(Words(text), MAX_COMMAND_LEN - 2)
  {
    var r := command + "$" + (" " + text);
    RemoveDollarIs(command, " " + text);
    assert command + (" " + text) == command + " " + text;
    WordsCat(command, text);
    WordsOfWord(command);
    hide Words, RemoveDollar;
  }

  /** A line without '$' is parsed into its first 49 words as it stands. */
  lemma PlainLineParses(line: string)
    requires '$' !in line
    ensures Parse(line) == TakeUpTo(Words(line), MAX_COMMAND_LEN - 1)
  {
    RemoveDollarIs(line, "");
  }

  /** What command_handler makes of a line that comes in through the queue. */
  ghost predicate IsOfKind(line: string, k: Kind) {
    var tokens := Parse(Clip(line, QUEUE_MSG_SIZE - 1));
    tokens != [] && Names(tokens[0], k)
  }

  /** A command with anything after its '$' and a space. */
  lemma CommandIsOfKind(command: string, text: string, k: Kind)
    requires IsCommandWord(command) && Names(command, k) && |command| <= 20
    ensures IsOfKind(command + "$" + (" " + text), k)
  {
    var line, room := command + "$" + (" " + text), QUEUE_MSG_SIZE - 3 - |command|;
    assert Clip(line, QUEUE_MSG_SIZE - 1) == command + "$" + (" " + Clip(text, room));
    CommandParses(command, Clip(text, room));
    hide Parse, Names, Clip, IsCommandWord;
  }

  /** A command with nothing after its '$'. */
  lemma BareCommandIsOfKind(command: string, k: Kind)
    requires IsCommandWord(command) && Names(command, k) && |command| <= 20
    ensures Parse(command + "$") == [command] && IsOfKind(command + "$", k)
  {
    var line := command + "$";
    assert line == command + "$" + "" && command + "" == command;
    RemoveDollarIs(command, "");
    WordsOfWord(command);
    hide Words, RemoveDollar, Names;
  }

  /** What fits the reply's buffer fits the queue's slot, so neither changes what the other has left. */
  lemma SentIsOfKind(line: string, k: Kind)
    requires IsOfKind(line, k)
    ensures IsOfKind(Snprintf(line, RESPONSE_BUFFER_SIZE), k)
  {
    assert Clip(Clip(line, QUEUE_MSG_SIZE - 1), QUEUE_MSG_SIZE - 1) == Clip(line, QUEUE_MSG_SIZE - 1);
    hide Parse, Names, Clip;
  }

  /** A line that a user says, and a response with any text. */
  lemma SayIsOfKind(text: string)
    ensures IsOfKind("say$ " + text, SAY) && IsOfKind(Response(text), SAY)
  {
    assert "say$ " + text == "say" + "$" + (" " + text);
    SayIsCommandWord();
    NamesOnTheWire();
    hide IsOfKind, Names, IsCommandWord, Clip;
    CommandIsOfKind("say", text, SAY);
    SentIsOfKind("say$ " + text, SAY);
  }

  lemma ResponseWhole(text: string)
    requires |text| <= TEXT_MAX
    ensures Response(text) == "say" + "$" + (" " + text) == "say$ " + text
    ensures Clip(Response(text), QUEUE_MSG_SIZE - 1) == Response(text)
  {
    assert "say" + "$" + (" " + text) == "say$ " + text;
  }

  lemma StoredWhole(text: string)
    requires IsCStr(text) && |text| <= TEXT_MAX
    ensures Response(text) == "say$ " + text
    ensures Stored(Response(text)) == Join(ClipAll(TakeUpTo(Words(text), MAX_COMMAND_LEN - 2)))
  {
    var ws := TakeUpTo(Words(text), MAX_COMMAND_LEN - 2);
    hide Words, Parse, Join, Stored, Response, ClipAll, Clip, TakeUpTo, AllWords, IsCommandWord;
    SayIsCommandWord();
    ResponseWhole(text);
    CommandParses("say", text);
    WordsAreWords(text);
    TakenAreWords(Words(text), MAX_COMMAND_LEN - 2);
    StoredArguments(Response(text), "say", ws);
  }

  lemma ResponseCuts(text: string)
    ensures Response(text) == Response(Clip(text, TEXT_MAX)) && |Clip(text, TEXT_MAX)| <= TEXT_MAX
    ensures IsCStr(text) ==> IsCStr(Clip(text, TEXT_MAX))
  {}

  /** For any text at all: of its first 506 characters, the client stores the first 48 words, each clipped, with single
      spaces. */
  lemma StoredText(text: string)
    requires IsCStr(text)
    ensures var kept := Clip(text, TEXT_MAX);
            && Response(text) == "say$ " + kept
            && Stored(Response(text)) == Join(ClipAll(TakeUpTo(Words(kept), MAX_COMMAND_LEN - 2)))
  {
    hide Words, Join, Stored, Response, ClipAll, Clip, TakeUpTo;
    ResponseCuts(text);
    StoredWhole(Clip(text, TEXT_MAX));
  }

  lemma StoredArguments(response: string, command: string, ws: seq<string>)
    requires Parse(Clip(response, QUEUE_MSG_SIZE - 1)) == [command] + ws && AllWords(ws) && |ws| < MAX_CMD_SIZE
    ensures Stored(response) == Join(ClipAll(ws))
  {
    hide Parse, Join, Used, ArgSlots, ClipAll, Clip;
    assert ([command] + ws)[1..] == ws;
    UsedSlots(ws);
  }

  lemma TakenAreWords(ws: seq<string>, n: nat)
    requires AllWords(ws)
    ensures AllWords(TakeUpTo(ws, n)) && |TakeUpTo(ws, n)| <= n
  {}

  // ----- When nothing is lost -----

  /** Every word short enough to survive, and few enough of them. */
  predicate Fits(ws: seq<string>) {
    |ws| <= MAX_COMMAND_LEN - 2 && forall i :: 0 <= i < |ws| ==> |ws[i]| < NAME_SIZE
  }

  lemma {:induction false} ClippingShortens(ws: seq<string>)
    ensures |Join(ClipAll(ws))| <= |Join(ws)|
    ensures |Join(ClipAll(ws))| == |Join(ws)| ==> forall i :: 0 <= i < |ws| ==> |ws[i]| < NAME_SIZE
    ensures (forall i :: 0 <= i < |ws| ==> |ws[i]| < NAME_SIZE) ==> ClipAll(ws) == ws
  {
    if |ws| > 1 {
      ClippingShortens(ws[1..]);
      assert ClipAll(ws)[1..] == ClipAll(ws[1..]);
      assert forall i :: 1 <= i < |ws| ==> ws[i] == ws[1..][i - 1];
    }
  }

  lemma DroppingShortens(ws: seq<string>, k: nat)
    requires k < |ws| && AllWords(ws)
    ensures |Join(ws[..k])| < |Join(ws)|
  {
    NextWord(ws, k);
    PrintedGrows(ws, k + 1, |ws|);
    assert ws[..|ws|] == ws;
  }

  /** Printing survives the client's limits exactly when it is within them. */
  lemma SurvivesIff(ws: seq<string>)
    requires AllWords(ws)
    ensures Join(ClipAll(TakeUpTo(ws, MAX_COMMAND_LEN - 2))) == Join(ws) <==> Fits(ws)
  {
    ClippingShortens(TakeUpTo(ws, MAX_COMMAND_LEN - 2));
    if |ws| > MAX_COMMAND_LEN - 2 {
      DroppingShortens(ws, MAX_COMMAND_LEN - 2);
    }
  }

  lemma ClippedAreWords(ws: seq<string>)
    requires AllWords(ws)
    ensures AllWords(ClipAll(ws))
  {}

  lemma {:induction false} WordsPrintShorter(s: string)
    ensures |Join(Words(s))| <= |s|
    decreases |s|
  {
    if s != "" {
      if s[0] == ' ' {
        WordsPrintShorter(s[1..]);
      } else {
        var k := FirstOf(s, 0, ' ');
        var rest := s[k..];
        if rest != "" {
          assert Words(rest) == Words(rest[1..]);
          WordsPrintShorter(rest[1..]);
        }
        assert Words(s)[1..] == Words(rest);
      }
    }
  }

  /** Of a text that the response cuts, less is stored than it has. */
  lemma CutIsLost(text: string)
    requires IsCStr(text) && |text| > TEXT_MAX
    ensures |Stored(Response(text))| <= TEXT_MAX
  {
    var ws := Words(Clip(text, TEXT_MAX));
    WordsPrintShorter(Clip(text, TEXT_MAX));
    hide Words, Join, Stored, Response, ClipAll;
    StoredText(text);
    ClippingShortens(TakeUpTo(ws, MAX_COMMAND_LEN - 2));
    if |ws| > MAX_COMMAND_LEN - 2 {
      PrefixShorter(ws, MAX_COMMAND_LEN - 2);
    }
  }

  /** Any text arrives unchanged exactly when it has at most 506 characters and single spaces only, between at most 48
      words of at most 19 characters. */
  lemma ArrivesUnchangedIff(text: string)
    requires IsCStr(text)
    ensures Stored(Response(text)) == text
            <==> |text| <= TEXT_MAX && text == Join(Words(text)) && Fits(Words(text))
  {
    hide Stored, Response, Join, Words, Fits;
    if |text| <= TEXT_MAX {
      WholeArrivesIff(text);
    } else {
      CutIsLost(text);
    }
  }

  lemma WholeArrivesIff(text: string)
    requires IsCStr(text) && |text| <= TEXT_MAX
    ensures Stored(Response(text)) == text <==> text == Join(Words(text)) && Fits(Words(text))
  {
    var taken := TakeUpTo(Words(text), MAX_COMMAND_LEN - 2);
    hide Words, Join, Stored, Response, ClipAll;
    StoredWhole(text);
    WordsAreWords(text);
    TakenAreWords(Words(text), MAX_COMMAND_LEN - 2);
    ClippedAreWords(taken);
    WordsOfJoin(ClipAll(taken));
    SurvivesIff(Words(text));
  }

  // ----- Messages with a heading -----

  /** The text without the one space it may end in. */
  function DropTrailingSpace(s: string): string {
    if s != "" && s[|s| - 1] == ' ' then s[..|s| - 1] else s
  }

  lemma {:induction false} JoinCat(a: seq<string>, b: seq<string>)
    requires a != [] && b != []
    ensures Join(a + b) == Join(a) + " " + Join(b)
  {
    if |a| == 1 {
      assert (a + b)[1..] == b;
    } else {
      assert (a + b)[1..] == a[1..] + b;
      JoinCat(a[1..], b);
    }
  }

  lemma {:induction false} JoinEndsInWord(ws: seq<string>)
    requires AllWords(ws) && ws != []
    ensures Join(ws) != "" && Join(ws)[|Join(ws)| - 1] != ' '
  {
    if |ws| > 1 {
      JoinEndsInWord(ws[1..]);
    }
  }

  /** The words that reach the message: those that join_args finds room for. */
  function Sent(ws: seq<string>): seq<string> {
    ws[..FitCount(ws, MAX_MESSAGE)]
  }

  /** A message is its words that fit, printed, with or without a trailing space. */
  predicate Prints(m: string, sent: seq<string>) {
    m == Join(sent) || (sent != [] && m == Join(sent) + " ")
  }

  lemma MessagePrints(ws: seq<string>)
    requires AllWords(ws)
    ensures Prints(Message(ws), Sent(ws)) && AllWords(Sent(ws))
    ensures |Message(ws)| <= MAX_MESSAGE - 1 && |Join(Sent(ws))| <= MAX_MESSAGE - 2
  {
    FittedIsLongest(ws, MAX_MESSAGE, |Sent(ws)|);
    hide Join, FitCount;
    if Sent(ws) == [] {
      NothingPrinted(ws);
    }
  }

  lemma PrintedWords(m: string, sent: seq<string>)
    requires Prints(m, sent) && AllWords(sent)
    ensures Words(m) == sent && IsCStr(m)
  {
    WordsOfJoin(sent);
    TrailingSpace(Join(sent));
    JoinIsCStr(sent);
    hide Words, Join;
  }

  lemma HeadedTrims(heading: seq<string>, m: string, sent: seq<string>)
    requires AllWords(heading) && heading != [] && Prints(m, sent) && AllWords(sent)
    ensures DropTrailingSpace(Join(heading) + " " + m) == Join(heading + sent)
  {
    JoinEndsInWord(heading + sent);
    if sent == [] {
      assert heading + sent == heading && Join(sent) == "";
      hide Join;
      assert Join(heading) + " " + m == Join(heading) + " ";
    } else {
      JoinCat(heading, sent);
      hide Join;
      assert Join(heading) + " " + (Join(sent) + " ") == Join(heading + sent) + " ";
    }
  }

  /** A heading, a space and a message: its words, and its text but for the trailing space. */
  lemma HeadedWords(heading: seq<string>, ws: seq<string>)
    requires AllWords(heading) && heading != [] && AllWords(ws)
    ensures Words(Join(heading) + " " + Message(ws)) == heading + Sent(ws)
    ensures DropTrailingSpace(Join(heading) + " " + Message(ws)) == Join(heading + Sent(ws))
    ensures IsCStr(Join(heading) + " " + Message(ws)) && AllWords(Sent(ws))
    ensures |Message(ws)| <= MAX_MESSAGE - 1 && |Join(Sent(ws))| <= MAX_MESSAGE - 2
  {
    MessagePrints(ws);
    PrintedWords(Message(ws), Sent(ws));
    HeadedTrims(heading, Message(ws), Sent(ws));
    WordsCat(Join(heading), Message(ws));
    WordsOfJoin(heading);
    JoinIsCStr(heading);
    hide Words, Join, Fitted, FitCount;
  }

  lemma FitsTogether(heading: seq<string>, sent: seq<string>)
    requires forall i :: 0 <= i < |sent| ==> |sent[i]| < NAME_SIZE
    ensures Fits(heading + sent) <==> Fits(heading) && |heading| + |sent| <= MAX_COMMAND_LEN - 2
  {
    var all := heading + sent;
    assert forall i :: 0 <= i < |heading| ==> all[i] == heading[i];
    assert forall i :: |heading| <= i < |all| ==> all[i] == sent[i - |heading|];
  }

  /** The text of a headed message arrives, but for a trailing space, exactly when every heading word is at most
      19 characters and heading and message are at most 48 words together. */
  lemma HeadedArrivesIff(heading: seq<string>, ws: seq<string>)
    requires AllWords(heading) && heading != [] && ParsedWords(ws) && |Join(heading)| <= 250
    ensures var text := Join(heading) + " " + Message(ws);
            && Response(text) == "say$ " + text
            && Stored(Response(text)) == Join(ClipAll(TakeUpTo(heading + Sent(ws), MAX_COMMAND_LEN - 2)))
            && (Stored(Response(text)) == DropTrailingSpace(text)
                <==> Fits(heading) && |heading| + |Sent(ws)| <= MAX_COMMAND_LEN - 2)
  {
    var text, sent := Join(heading) + " " + Message(ws), Sent(ws);
    HeadedWords(heading, ws);
    StoredWhole(text);
    AllWordsCat(heading, sent);
    SurvivesIff(heading + sent);
    FitsTogether(heading, sent);
    hide *;
  }

  lemma AllWordsCat(a: seq<string>, b: seq<string>)
    requires AllWords(a) && AllWords(b)
    ensures AllWords(a + b)
  {}

  lemma {:induction false} PrefixShorter(ws: seq<string>, n: nat)
    requires n <= |ws|
    ensures |Join(ws[..n])| <= |Join(ws)|
  {
    PrintedGrows(ws, n, |ws|);
    assert ws[..|ws|] == ws;
  }

  lemma HeadedPrefixLength(heading: seq<string>, sent: seq<string>, n: nat)
    requires heading != [] && n <= |sent|
    ensures |Join(ClipAll(heading + sent[..n]))| <= |Join(ClipAll(heading))| + 1 + |Join(sent)|
  {
    PrefixShorter(sent, n);
    ClippingShortens(sent[..n]);
    assert ClipAll(heading + sent[..n]) == ClipAll(heading) + ClipAll(sent[..n]);
    if n > 0 {
      JoinCat(ClipAll(heading), ClipAll(sent[..n]));
    } else {
      assert ClipAll(heading) + ClipAll(sent[..n]) == ClipAll(heading);
    }
  }

  /** However long the heading's words were, the text stored has a bound that its words clipped decide. */
  lemma HeadedLength(heading: seq<string>, ws: seq<string>)
    requires AllWords(heading) && heading != [] && ParsedWords(ws)
    requires |Join(heading)| <= 250 && |heading| <= MAX_COMMAND_LEN - 2
    ensures |Stored(Response(Join(heading) + " " + Message(ws)))| <= |Join(ClipAll(heading))| + MAX_MESSAGE - 1
  {
    var sent, taken := Sent(ws), TakeUpTo(heading + Sent(ws), MAX_COMMAND_LEN - 2);
    var n := |taken| - |heading|;
    assert taken == heading + sent[..n];
    hide *;
    HeadedWords(heading, ws);
    HeadedArrivesIff(heading, ws);
    HeadedPrefixLength(heading, sent, n);
  }
}
