/** The client's state: what server commands do to it, and what the display shows of it. */
module ClientCode {
  import opened CStrings
  import opened Commands
  import opened EndToEnd
  import opened MuteTable
  import opened Pipeline
  import opened Tokeniser
  import Handoff

  /** extract_username. */
  method ExtractUsername(message: string, maxLen: nat) returns (username: string)
    ensures username == Sender(message, maxLen)
  {
    var colon := 0;
    while colon < |message| && message[colon] != ':'
      invariant colon <= |message| && forall j :: 0 <= j < colon ==> message[j] != ':'
    {
      colon := colon + 1;
    }
    FirstOfIs(message, 0, ':', colon);
    if colon < |message| && 0 < colon < maxLen {
      username := message[..colon];
    } else {
      username := "";
    }
  }

  /** The messages whose sender is not muted, in order. */
  function Visible(messages: seq<string>, muted: set<string>): seq<string> {
    if messages == [] then []
    else
      var n := |messages| - 1;
      Visible(messages[..n], muted) + if Sender(messages[n], NAME_SIZE) in muted then [] else [messages[n]]
  }

  /** The lines are the messages at these places: in the order of the messages, those whose sender is not muted, all of
      them and no others. */
  ghost predicate DrawnFrom(lines: seq<string>, messages: seq<string>, muted: set<string>, places: seq<nat>) {
    && |lines| == |places|
    && (forall i :: 0 <= i < |places| ==> places[i] < |messages| && lines[i] == messages[places[i]])
    && (forall i, j :: 0 <= i < j < |places| ==> places[i] < places[j])
    && (forall k: nat :: k < |messages| ==> (k in places <==> Sender(messages[k], NAME_SIZE) !in muted))
  }

  lemma DrawnOneMore(lines: seq<string>, messages: seq<string>, m: string, muted: set<string>, places: seq<nat>)
    requires DrawnFrom(lines, messages, muted, places) && Sender(m, NAME_SIZE) !in muted
    ensures DrawnFrom(lines + [m], messages + [m], muted, places + [|messages|])
  {
    hide Sender;
    var all, more := messages + [m], places + [|messages|];
    forall k: nat | k < |all| ensures k in more <==> Sender(all[k], NAME_SIZE) !in muted {
      assert k in more <==> k in places || k == |messages|;
      assert k < |messages| ==> all[k] == messages[k];
    }
  }

  lemma NotDrawn(lines: seq<string>, messages: seq<string>, m: string, muted: set<string>, places: seq<nat>)
    requires DrawnFrom(lines, messages, muted, places) && Sender(m, NAME_SIZE) in muted
    ensures DrawnFrom(lines, messages + [m], muted, places)
  {
    hide Sender;
    var all := messages + [m];
    forall k: nat | k < |all| ensures k in places <==> Sender(all[k], NAME_SIZE) !in muted {
      assert k < |messages| ==> all[k] == messages[k];
    }
  }

  lemma {:induction false} VisibleInOrder(messages: seq<string>, muted: set<string>) returns (places: seq<nat>)
    ensures DrawnFrom(Visible(messages, muted), messages, muted, places)
  {
    if messages == [] {
      places := [];
    } else {
      var n := |messages| - 1;
      places := VisibleInOrder(messages[..n], muted);
      hide Sender, DrawnFrom;
      var before, m := Visible(messages[..n], muted), messages[n];
      assert messages == messages[..n] + [m];
      if Sender(m, NAME_SIZE) in muted {
        NotDrawn(before, messages[..n], m, muted, places);
        assert before + [] == before;
      } else {
        DrawnOneMore(before, messages[..n], m, muted, places);
        places := places + [n];
      }
    }
  }

  /** With nobody muted, everything stored is drawn. */
  lemma {:induction false} AllVisible(messages: seq<string>)
    ensures Visible(messages, {}) == messages
  {
    hide Sender;
    if messages != [] {
      var n := |messages| - 1;
      AllVisible(messages[..n]);
      assert messages == messages[..n] + [messages[n]];
    }
  }

  class Client {
    var name: string
    var connected: bool
    const messages: array<string>
    var messageCount: nat
    const muteTable: Table

    /** Where the two input threads stand. */
    ghost var handoff: Handoff.State

    ghost predicate Valid()
      reads this, messages, muteTable, muteTable.table, muteTable.nodes
    {
      && messages.Length == MAX_MSGS && messageCount <= MAX_MSGS && muteTable.Valid()
      && handoff.connected == connected && Handoff.TurnAwake(handoff)
    }

    constructor ()
      ensures Valid() && !connected && messageCount == 0 && muteTable.keys == {}
    {
      var table := new Table();
      name, connected, messageCount, muteTable := "", false, 0, table;
      handoff := Handoff.Init();
      messages := new string[MAX_MSGS](_ => "");
    }

    /** say_exec; the source demands room for one more message. */
    method SayExec(cmd: Command)
      requires Valid() && messageCount < MAX_MSGS
      requires cmd.args.Length == MAX_CMD_SIZE && cmd.args[48] == "" && |Join(Used(cmd.args[..], 0))| < JOIN_SIZE
      requires cmd.args != messages
      modifies messages, this`messageCount
      ensures Valid()
      ensures messages[..messageCount] == old(messages[..messageCount]) + [Join(Used(cmd.args[..], 0))]
    {
      var result := JoinSlots(cmd.args);
      messages[messageCount] := result;
      messageCount := messageCount + 1;
    }

    method MuteExec(username: string)
      requires Valid()
      modifies muteTable, muteTable.table, muteTable.nodes
      ensures Valid() && muteTable.keys == old(muteTable.keys) + {username}
      ensures fresh(muteTable.nodes - old(muteTable.nodes))
    {
      muteTable.Insert(username);
    }

    method UnmuteExec(username: string)
      requires Valid()
      modifies muteTable, muteTable.table, muteTable.nodes
      ensures Valid() && muteTable.keys == old(muteTable.keys) - {username}
      ensures muteTable.nodes == old(muteTable.nodes)
    {
      muteTable.RemoveKey(username);
    }

    /** execute_connect_response: a step of the hand-off, whose signal wakes `woken`. */
    method ExecuteConnectResponse(username: string, ghost woken: set<Handoff.Thread>)
      requires Valid() && Handoff.Enabled(handoff, Handoff.SetConnected(true, woken))
      modifies this`connected, this`name, this`handoff
      ensures Valid() && connected && name == username
      ensures handoff == Handoff.Apply(old(handoff), Handoff.SetConnected(true, woken))
    {
      connected := true;
      name := username;
      handoff := Handoff.Apply(handoff, Handoff.SetConnected(true, woken));
    }

    method ExecuteDisconnectResponse(ghost woken: set<Handoff.Thread>)
      requires Valid() && Handoff.Enabled(handoff, Handoff.SetConnected(false, woken))
      modifies this`connected, this`messageCount, this`handoff
      ensures Valid() && !connected && messageCount == 0
      ensures handoff == Handoff.Apply(old(handoff), Handoff.SetConnected(false, woken))
    {
      connected := false;
      handoff := Handoff.Apply(handoff, Handoff.SetConnected(false, woken));
      messageCount := 0;
    }

    /** rename_exec. */
    method RenameExec(username: string)
      requires Valid()
      modifies this`name
      ensures Valid() && name == username
    {
      name := username;
    }

    /** What a server response of each kind needs of the client: room for a message, or the hand-off's turn. */
    ghost predicate Ready(kind: Kind, args: seq<string>, woken: set<Handoff.Thread>)
      requires |args| == MAX_CMD_SIZE
      reads this
    {
      match kind
      case SAY => messageCount < MAX_MSGS && args[48] == "" && |Join(Used(args, 0))| < JOIN_SIZE
      case CONN_SUCCESS => Handoff.Enabled(handoff, Handoff.SetConnected(true, woken))
      case DISCONN_RESPONSE => Handoff.Enabled(handoff, Handoff.SetConnected(false, woken))
      case _ => true
    }

    /** execute_server_command: what each kind of response changes, and that it changes nothing else. */
    method ExecuteServerCommand(cmd: Command, ghost woken: set<Handoff.Thread>)
      requires Valid() && cmd.args.Length == MAX_CMD_SIZE && cmd.args != messages
      requires Ready(cmd.kind, cmd.args[..], woken)
      modifies this, messages, muteTable, muteTable.table, muteTable.nodes
      ensures Valid()
      ensures messages[..messageCount] == match old(cmd.kind)
                                          case SAY => old(messages[..messageCount]) + [Join(Used(old(cmd.args[..]), 0))]
                                          case DISCONN_RESPONSE => []
                                          case _ => old(messages[..messageCount])
      ensures muteTable.keys == match old(cmd.kind)
                                case MUTE => old(muteTable.keys) + {old(cmd.args[0])}
                                case UNMUTE => old(muteTable.keys) - {old(cmd.args[0])}
                                case _ => old(muteTable.keys)
      ensures connected == match old(cmd.kind)
                           case CONN_SUCCESS => true
                           case DISCONN_RESPONSE => false
                           case _ => old(connected)
      ensures name == if old(cmd.kind) in {CONN_SUCCESS, RENAME} then old(cmd.args[0]) else old(name)
    {
      match cmd.kind {
        case CONN_SUCCESS => ExecuteConnectResponse(cmd.args[0], woken);
        case DISCONN_RESPONSE => ExecuteDisconnectResponse(woken);
        case SAY => SayExec(cmd);
        case MUTE => MuteExec(cmd.args[0]);
        case UNMUTE => UnmuteExec(cmd.args[0]);
        case RENAME => RenameExec(cmd.args[0]);
        case _ =>
      }
    }

    /** From the tokens of a line to what the client stores: of a line taken for "say", its stored text; of any other
        but a disconnect, nothing. */
    method Receive(ghost line: string, tokens: seq<string>, ghost woken: set<Handoff.Thread>)
      requires Valid() && tokens == Parse(Clip(line, QUEUE_MSG_SIZE - 1)) && tokens != []
      requires forall k :: Names(tokens[0], k) ==> Ready(k, ArgSlots(tokens[1..]), woken)
      modifies this, messages, muteTable, muteTable.table, muteTable.nodes
      ensures Valid()
      ensures IsOfKind(line, SAY) ==> messages[..messageCount] == old(messages[..messageCount]) + [Stored(line)]
      ensures !IsOfKind(line, SAY) && !IsOfKind(line, DISCONN_RESPONSE)
              ==> messages[..messageCount] == old(messages[..messageCount])
    {
      hide Parse, ArgSlots, Used, Join, Names;
      var cmd := new Command(UNKNOWN);
      cmd.Handle(tokens);
      ghost var kind := cmd.kind;
      ExecuteServerCommand(cmd, woken);
      OneKindOnly(tokens[0], kind);
    }

    static lemma OneKindOnly(word: string, k: Kind)
      requires Names(word, k)
      ensures forall l :: Names(word, l) ==> l == k
    {
      forall l | Names(word, l) ensures l == k {
        NamesOneKind(word, k, l);
      }
    }

    /** chat_display's drawing loop. */
    method Render() returns (lines: seq<string>)
      requires Valid()
      ensures lines == Visible(messages[..messageCount], muteTable.keys)
      ensures exists places :: DrawnFrom(lines, messages[..messageCount], muteTable.keys, places)
    {
      hide DrawnFrom, Sender;
      lines := [];
      var i := 0;
      while i < messageCount
        invariant 0 <= i <= messageCount
        invariant lines == Visible(messages[..i], muteTable.keys)
        modifies {}
      {
        assert messages[..i + 1][..i] == messages[..i];
        var username := ExtractUsername(messages[i], NAME_SIZE);
        var muted := muteTable.Contains(username);
        if !muted {
          lines := lines + [messages[i]];
        }
        i := i + 1;
      }
      ghost var places := VisibleInOrder(messages[..messageCount], muteTable.keys);
    }

    /** Muting a name that is not muted, looking, and unmuting it brings the earlier view back. */
    method MuteAndUnmute(username: string) returns (before: seq<string>, during: seq<string>, after: seq<string>)
      requires Valid() && username !in muteTable.keys
      modifies muteTable, muteTable.table, muteTable.nodes
      ensures Valid() && after == before
      ensures during == From(before, username, false)
    {
      before := Render();
      MuteExec(username);
      during := Render();
      VisibleAfterMute(messages[..messageCount], old(muteTable.keys), username);
      UnmuteExec(username);
      assert muteTable.keys == old(muteTable.keys);
      after := Render();
    }
  }

  /** The messages from a sender, or those from everyone else, in order. */
  function From(messages: seq<string>, sender: string, wanted: bool): seq<string> {
    if messages == [] then []
    else
      var n := |messages| - 1;
      From(messages[..n], sender, wanted)
      + if (Sender(messages[n], NAME_SIZE) == sender) == wanted then [messages[n]] else []
  }

  /** Muting one more name takes that sender's messages, past and future, out of the view and nothing else. */
  lemma {:induction false} VisibleAfterMute(messages: seq<string>, muted: set<string>, username: string)
    ensures Visible(messages, muted + {username}) == From(Visible(messages, muted), username, false)
  {
    hide Sender;
    if messages != [] {
      var n := |messages| - 1;
      var v := Visible(messages[..n], muted);
      VisibleAfterMute(messages[..n], muted, username);
      if Sender(messages[n], NAME_SIZE) in muted {
        assert v + [] == v;
      } else {
        FromSnoc(v, messages[n], username);
      }
    }
  }

  lemma FromSnoc(messages: seq<string>, m: string, sender: string)
    ensures From(messages + [m], sender, false)
            == From(messages, sender, false) + if Sender(m, NAME_SIZE) == sender then [] else [m]
  {
    hide Sender;
    assert (messages + [m])[..|messages|] == messages;
  }

  /** What the view holds: a message is in it exactly as often as among the stored ones, or not at all if its
      sender is muted. */
  lemma {:induction false} VisibleCounts(messages: seq<string>, muted: set<string>, m: string)
    ensures multiset(Visible(messages, muted))[m]
            == if Sender(m, NAME_SIZE) in muted then 0 else multiset(messages)[m]
  {
    if messages != [] {
      var n := |messages| - 1;
      VisibleCounts(messages[..n], muted, m);
      assert messages == messages[..n] + [messages[n]];
    }
  }

  lemma OneVisible(m: string, muted: set<string>)
    ensures Visible([m], muted) == if Sender(m, NAME_SIZE) in muted then [] else [m]
  {
    hide Sender;
    assert [m][..0] == [];
    assert Visible([m], muted) == Visible([m][..0], muted) + if Sender(m, NAME_SIZE) in muted then [] else [m];
  }

  /** Which messages a set of muted names hides: exactly those that are taken to be from one of them. A broadcast or a
      private message is taken to be from SeenAs of its sender's name, one's own copy of a private message from
      CopySeenAs of the receiver's, and a kick notice from "SERVER". Each may be "", which a bare mute command mutes. */
  lemma MuteHidesIff(muted: set<string>, name: string, text: string, ws: seq<string>)
    requires IsName(name) && IsCStr(text) && ParsedWords(ws)
    ensures Visible([Heard(name, text)], muted) == [] <==> SeenAs(name) in muted
    ensures Visible([Stored(PrivateToReceiver(name, ws))], muted) == [] <==> SeenAs(name) in muted
    ensures Visible([Stored(PrivateToSender(name, ws))], muted) == [] <==> CopySeenAs(name) in muted
    ensures Visible([Stored(KickNotice(name))], muted) == [] <==> ServerName() in muted
  {
    hide Sender, SeenAs, CopySeenAs, Heard, Stored, PrivateToReceiver, PrivateToSender, KickNotice;
    hide IsName, IsCStr, ParsedWords, Visible;
    SenderSeen(name, text);
    OneVisible(Heard(name, text), muted);
    PrivateSenderSeen(name, ws);
    OneVisible(Stored(PrivateToReceiver(name, ws)), muted);
    CopySenderSeen(name, ws);
    OneVisible(Stored(PrivateToSender(name, ws)), muted);
    NoticeSenderSeen(name);
    OneVisible(Stored(KickNotice(name)), muted);
  }

  /** So muting a name hides what is heard from it exactly when the name has at most 18 characters and no ':', */
  lemma MuteHidesItsOwnIff(name: string, text: string, ws: seq<string>)
    requires IsName(name) && IsCStr(text) && ParsedWords(ws)
    ensures Visible([Heard(name, text)], {name}) == [] <==> |name| <= 18 && ':' !in name
    ensures Visible([Stored(PrivateToReceiver(name, ws))], {name}) == [] <==> |name| <= 18 && ':' !in name
  {
    hide SeenAs, CopySeenAs, Heard, Stored, PrivateToReceiver, PrivateToSender, KickNotice;
    hide IsName, IsCStr, ParsedWords, Visible;
    MuteHidesIff({name}, name, text, ws);
    SeenAsItselfIff(name);
  }

  /** and muting a name m hides a copy exactly when m is "" and more than 12 characters of the receiver's name stand
      before its first ':', or before the one after it. */
  lemma MuteHidesCopiesIff(m: string, who: string, ws: seq<string>)
    requires IsName(m) && IsName(who) && ParsedWords(ws)
    ensures Visible([Stored(PrivateToSender(who, ws))], {m}) == [] <==> m == "" && FirstOf(who, 0, ':') > 12
  {
    hide CopySeenAs, Stored, PrivateToSender, ParsedWords, Visible, FirstOf, IsName, Sender;
    CopySenderSeen(who, ws);
    OneVisible(Stored(PrivateToSender(who, ws)), {m});
    CopySeenAsIff(m, who);
  }
}
