/** The lines that go over the wire, by the words in them: what each end takes them for. */
module Wire {
  import opened CStrings
  import opened Net
  import opened Clients
  import opened Tokeniser
  import opened Commands
  import opened Pipeline
  import opened ServerCode
  import opened Handlers
  import opened History
  import R = ServerRun

  lemma CommandWords()
    ensures IsCommandWord("conn") && IsCommandWord("connsuccess") && IsCommandWord("say") && IsCommandWord("sayto")
    ensures IsCommandWord("mute") && IsCommandWord("unmute") && IsCommandWord("rename") && IsCommandWord("disconn")
    ensures IsCommandWord("disconnresponse") && IsCommandWord("kick") && IsCommandWord("ping")
    ensures IsCommandWord("retping") && IsCommandWord("error")
  {}

  /** What a user types. */
  lemma TypedLineIsOfKind(text: string)
    ensures IsOfKind("conn$" + (" " + text), CONN)
    ensures IsOfKind("say$" + (" " + text), SAY)
    ensures IsOfKind("sayto$" + (" " + text), SAYTO)
    ensures IsOfKind("mute$" + (" " + text), MUTE)
    ensures IsOfKind("unmute$" + (" " + text), UNMUTE)
    ensures IsOfKind("rename$" + (" " + text), RENAME)
    ensures IsOfKind("kick$" + (" " + text), KICK)
    ensures IsOfKind("disconn$", DISCONN)
    ensures IsOfKind("retping$", RETPING)
  {
    CommandWords();
    NamesOnTheWire();
    hide IsOfKind, Names, IsCommandWord;
    assert "conn" + "$" == "conn$" && "say" + "$" == "say$" && "sayto" + "$" == "sayto$" && "mute" + "$" == "mute$";
    assert "unmute" + "$" == "unmute$" && "rename" + "$" == "rename$" && "kick" + "$" == "kick$";
    assert "disconn" + "$" == "disconn$" && "retping" + "$" == "retping$";
    CommandIsOfKind("conn", text, CONN);
    CommandIsOfKind("say", text, SAY);
    CommandIsOfKind("sayto", text, SAYTO);
    CommandIsOfKind("mute", text, MUTE);
    CommandIsOfKind("unmute", text, UNMUTE);
    CommandIsOfKind("rename", text, RENAME);
    CommandIsOfKind("kick", text, KICK);
    BareCommandIsOfKind("disconn", DISCONN);
    BareCommandIsOfKind("retping", RETPING);
  }

  lemma RepliesAreResponses(name: string, ws: seq<string>)
    ensures PrivateToReceiver(name, ws) == Response(name + ":(private message) " + Message(ws))
    ensures PrivateToSender(name, ws) == Response("you to " + name + ":(private message) " + Message(ws))
    ensures KickNotice(name) == Response("SERVER: " + name + " has been kicked")
  {
    hide Message;
    assert "say$ " + name + ":(private message) " + Message(ws)
        == "say$ " + (name + ":(private message) " + Message(ws));
    SplitCopy(name, Message(ws));
    SplitNotice(name);
  }

  lemma SplitCopy(name: string, message: string)
    ensures CopyText(name, message) == "say$ " + ("you to " + name + ":(private message) " + message)
  {
    assert "say$ you to " == "say$ " + "you to ";
  }

  lemma SplitNotice(name: string)
    ensures NoticeText(name) == "say$ " + ("SERVER: " + name + " has been kicked")
  {
    assert "say$ SERVER: " == "say$ " + "SERVER: ";
  }

  /** What the server sends: broadcasts, private messages, copies and kick notices are taken for "say", a welcome for a
      successful connect, a goodbye for a disconnect, and the two refusals for errors. */
  lemma SentLineIsOfKind(name: string, ws: seq<string>)
    ensures IsOfKind(Response(FullMessage(name, ws)), SAY)
    ensures IsOfKind(PrivateToReceiver(name, ws), SAY) && IsOfKind(PrivateToSender(name, ws), SAY)
    ensures IsOfKind(KickNotice(name), SAY)
    ensures IsOfKind(Welcome(name), CONN_SUCCESS) && IsOfKind(Renamed(name), RENAME)
    ensures IsOfKind(Goodbye(), DISCONN_RESPONSE)
    ensures IsOfKind(Denied(), ERROR) && IsOfKind(NotFound(name), ERROR)
    ensures IsOfKind("ping$", PING)
  {
    hide *;
    RepliesAreResponses(name, ws);
    SayIsOfKind(FullMessage(name, ws));
    SayIsOfKind(name + ":(private message) " + Message(ws));
    SayIsOfKind("you to " + name + ":(private message) " + Message(ws));
    SayIsOfKind("SERVER: " + name + " has been kicked");
    WelcomeIs(name);
    ErrorsAre(name);
    BareLinesAre();
  }

  lemma BareLinesAre()
    ensures IsOfKind(Goodbye(), DISCONN_RESPONSE) && IsOfKind("ping$", PING)
  {
    assert "disconnresponse" + "$" == Goodbye() && "ping" + "$" == "ping$";
    hide IsOfKind, Names, IsCommandWord, Goodbye;
    CommandWords();
    NamesOnTheWire();
    BareCommandIsOfKind("disconnresponse", DISCONN_RESPONSE);
    BareCommandIsOfKind("ping", PING);
  }

  lemma WelcomeIs(name: string)
    ensures IsOfKind(Welcome(name), CONN_SUCCESS) && IsOfKind(Renamed(name), RENAME)
  {
    assert "connsuccess$ " + name == "connsuccess" + "$" + (" " + name);
    assert "rename$ " + name == "rename" + "$" + (" " + name);
    CommandWords();
    NamesOnTheWire();
    hide IsOfKind, Names, IsCommandWord;
    CommandIsOfKind("connsuccess", name, CONN_SUCCESS);
    CommandIsOfKind("rename", name, RENAME);
  }

  lemma ErrorsAre(name: string)
    ensures IsOfKind(Denied(), ERROR) && IsOfKind(NotFound(name), ERROR)
  {
    hide IsOfKind, NotFoundText, Refusal;
    ErrorIsOfKind(Refusal());
    SplitError(name);
    ErrorIsOfKind("User not found. (" + name + ")");
    SentIsOfKind(NotFoundText(name), ERROR);
  }

  lemma ErrorIsOfKind(text: string)
    ensures IsOfKind("error$ " + text, ERROR)
  {
    CommandWords();
    NamesOnTheWire();
    hide IsOfKind, Names, IsCommandWord;
    assert "error$ " + text == "error" + "$" + (" " + text);
    CommandIsOfKind("error", text, ERROR);
  }

  lemma SplitError(name: string)
    ensures NotFoundText(name) == "error$ " + ("User not found. (" + name + ")")
  {
    assert "error$ User not found. (" == "error$ " + "User not found. (";
  }

  /** The name that a client takes from its welcome, or from the answer to a rename, is the one the server has. */
  lemma WelcomeNames(name: string)
    requires IsName(name) && name != ""
    ensures Parse(Welcome(name)) == ["connsuccess", name] && Parse(Renamed(name)) == ["rename", name]
  {
    CommandWords();
    WordsOfWord(name);
    assert "connsuccess$ " + name == "connsuccess" + "$" + (" " + name);
    assert "rename$ " + name == "rename" + "$" + (" " + name);
    hide IsCommandWord, Words, Parse;
    CommandParses("connsuccess", name);
    CommandParses("rename", name);
  }

  // ----- What a line from a client does -----

  /** The handler that a command's kind is given to does to the list what the steps of that kind do, with nothing in
      between; the others do nothing. */
  lemma HandledIsStep(s: R.State, args: seq<string>, from: Addr, now: int)
    requires args != [] && s.clock == now
    ensures Server.Handled(s.clients, CONN, args, s.next, from, now) == R.Apply(s, R.Connect(from, args[0])).clients
    ensures R.Enabled(s, R.RenameTo(from, args[0])) ==>
              Server.Handled(s.clients, RENAME, args, s.next, from, now)
              == R.Apply(s, R.RenameTo(from, args[0])).clients
    ensures forall kind :: kind !in {CONN, RENAME, DISCONN, KICK} ==>
              Server.Handled(s.clients, kind, args, s.next, from, now) == s.clients
  {
    hide Add, Rename;
  }

  lemma HandledIsRun(s: R.State, args: seq<string>, from: Addr, now: int)
    requires args != [] && R.InOrder(s.clients, s.next)
    ensures R.ValidRun(s, LeaveRun(s, from)) && R.ValidRun(s, KickRun(s, from, args[0]))
    ensures Server.Handled(s.clients, DISCONN, args, s.next, from, now) == R.Exec(s, LeaveRun(s, from)).clients
    ensures Server.Handled(s.clients, KICK, args, s.next, from, now) == R.Exec(s, KickRun(s, from, args[0])).clients
  {
    hide Left, Kicked, LeaveRun, KickRun, R.ValidRun, R.Exec, R.InOrder;
    LeaveIsItsParts(s, from);
    KickIsItsParts(s, from, args[0]);
  }

  /** Who is told what: everybody is sent what the client at the sender's address says, once; */
  lemma EverybodyIsTold(cs: seq<Client>, all: seq<string>, args: seq<string>, from: Addr, i: nat, j: nat)
    requires args != [] && FirstAt(cs, from, i) && j < |cs|
    ensures var sent := Server.Sent(cs, all, SAY, args, from);
            |sent| == |cs| && sent[j] == Datagram(cs[j].addr, Response(FullMessage(cs[i].name, Used(args, 0))))
  {
    FirstAtIs(cs, from, i);
    hide IndexOfAddr, FullMessage, Used, Response;
  }

  /** a private message goes to the first client of the name, and back to its sender; */
  lemma TwoAreTold(cs: seq<Client>, all: seq<string>, args: seq<string>, from: Addr, i: nat, r: nat)
    requires args != [] && FirstAt(cs, from, i)
    ensures FirstNamed(cs, args[0], r) ==>
              Server.Sent(cs, all, SAYTO, args, from)
              == [Datagram(cs[r].addr, PrivateToReceiver(cs[i].name, Used(args, 1))),
                  Datagram(from, PrivateToSender(args[0], Used(args, 1)))]
    ensures (forall j :: 0 <= j < |cs| ==> cs[j].name != args[0]) ==>
              Server.Sent(cs, all, SAYTO, args, from) == [Datagram(from, NotFound(args[0]))]
  {
    FirstAtIs(cs, from, i);
    if FirstNamed(cs, args[0], r) {
      FirstNamedIs(cs, args[0], r);
    }
    hide IndexOfAddr, IndexOfName, PrivateToReceiver, PrivateToSender, NotFound, Used;
  }

  /** a rename, a connect and a disconnect are answered, the last to whoever is removed; */
  lemma OneIsTold(cs: seq<Client>, all: seq<string>, args: seq<string>, from: Addr, i: nat, r: nat)
    requires args != [] && FirstAt(cs, from, i)
    ensures Server.Sent(cs, all, RENAME, args, from) == [Datagram(from, Renamed(args[0]))]
    ensures Server.Sent(cs, all, CONN, args, from)
            == [Datagram(from, Welcome(args[0]))] + ToOne(from, Responses(Replayed(all)))
    ensures FirstNamed(cs, cs[i].name, r) ==>
              Server.Sent(cs, all, DISCONN, args, from) == [Datagram(cs[r].addr, Goodbye())]
  {
    FirstAtIs(cs, from, i);
    if FirstNamed(cs, cs[i].name, r) {
      FirstNamedIs(cs, cs[i].name, r);
    }
    hide IndexOfAddr, IndexOfName, Welcome, Renamed, Goodbye, ToOne, Responses, Replayed;
  }

  /** and a kick is refused, or said goodbye to and told to all who are left. */
  lemma AllAreToldOfAKick(cs: seq<Client>, all: seq<string>, args: seq<string>, from: Addr, r: nat)
    requires args != []
    ensures cs == [] || cs[0].addr != from ==> Server.Sent(cs, all, KICK, args, from) == [Datagram(from, Denied())]
    ensures cs != [] && cs[0].addr == from && FirstNamed(cs, args[0], r) ==>
              Server.Sent(cs, all, KICK, args, from)
              == [Datagram(cs[r].addr, Goodbye())] + Broadcast(cs[..r] + cs[r + 1..], KickNotice(args[0]))
  {
    if FirstNamed(cs, args[0], r) {
      FirstNamedIs(cs, args[0], r);
    }
    hide IndexOfAddr, IndexOfName, Goodbye, Denied, KickNotice, Broadcast;
  }
}
