/** The command handlers of server_interface.c on the heap list and the chat history. Each runs here with
    nothing between its critical sections; ServerRun has the interleavings. Sends go to a log. */
module ServerCode {
  import opened CStrings
  import opened Net
  import opened Commands
  import opened Pipeline
  import opened Clients
  import opened Registry
  import opened History

  datatype Datagram = Datagram(to: Addr, text: string)

  /** One datagram to everybody listed, in the list's order. */
  function Broadcast(cs: seq<Client>, text: string): (ps: seq<Datagram>)
    ensures |ps| == |cs| && forall i :: 0 <= i < |cs| ==> ps[i] == Datagram(cs[i].addr, text)
  {
    seq(|cs|, i requires 0 <= i < |cs| => Datagram(cs[i].addr, text))
  }

  function ToOne(to: Addr, texts: seq<string>): (ps: seq<Datagram>)
    ensures |ps| == |texts| && forall i :: 0 <= i < |ps| ==> ps[i] == Datagram(to, texts[i])
  {
    seq(|texts|, i requires 0 <= i < |texts| => Datagram(to, texts[i]))
  }

  function Denied(): string {
    "error$ " + Refusal()
  }

  function Refusal(): string {
    "Permission denied. Only admin can kick users."
  }

  function Goodbye(): string {
    "disconnresponse$"
  }

  function Welcome(name: string): string {
    "connsuccess$ " + name
  }

  function Renamed(name: string): string {
    "rename$ " + name
  }

  /** sayto: to the first client of that name and back to the sender, or an error to the sender. */
  function PrivatelySent(cs: seq<Client>, name: string, who: string, ws: seq<string>, from: Addr): seq<Datagram> {
    var r := IndexOfName(cs, who);
    if r < |cs| then
      [Datagram(cs[r].addr, PrivateToReceiver(name, ws)), Datagram(from, PrivateToSender(who, ws))]
    else [Datagram(from, NotFound(who))]
  }

  /** kick: a refusal, or a goodbye to whoever is removed and a notice to all who are left. */
  function KickSent(cs: seq<Client>, from: Addr, target: string): seq<Datagram> {
    var k := IndexOfName(cs, target);
    if cs == [] || cs[0].addr != from then [Datagram(from, Denied())]
    else if k == |cs| then []
    else [Datagram(cs[k].addr, Goodbye())] + Broadcast(RemoveByName(cs, target), KickNotice(target))
  }

  class Server {
    const list: ClientList
    const history: ChatHistory
    var log: seq<Datagram>

    ghost predicate Valid()
      reads list, list.nodes, history, history.chat
    {
      list.Valid() && history.Valid()
    }

    constructor ()
      ensures Valid() && list.View() == [] && history.all == [] && log == []
    {
      var l := new ClientList();
      var h := new ChatHistory();
      list, history, log := l, h, [];
    }

    /** The loop of say and kick over the nodes. */
    method SendToAll(text: string)
      requires Valid()
      modifies this`log
      ensures log == old(log) + Broadcast(list.View(), text)
    {
      var node := list.head;
      ghost var k, cs := 0, list.View();
      while node != null
        invariant k <= |cs| && node == list.NodeAt(k)
        invariant log == old(log) + Broadcast(cs[..k], text)
        decreases |cs| - k
      {
        assert node.View() == cs[k];
        assert cs[..k + 1] == cs[..k] + [cs[k]];
        assert Broadcast(cs[..k + 1], text) == Broadcast(cs[..k], text) + [Datagram(cs[k].addr, text)];
        log := log + [Datagram(node.address, text)];
        node := node.next;
        k := k + 1;
      }
      assert cs[..k] == cs;
    }

    /** The first critical section of say: who sent this? */
    method NameOf(from: Addr) returns (name: string)
      requires list.Valid() && IndexOfAddr(list.View(), from) < |list.View()|
      ensures name == list.View()[IndexOfAddr(list.View(), from)].name
    {
      var node := list.FindClientByAddress(from);
      assert node.View() == list.View()[IndexOfAddr(list.View(), from)];
      name := node.name;
    }

    method AddressOf(who: string) returns (addr: Option<Addr>)
      requires list.Valid()
      ensures var cs := list.View();
              var k := IndexOfName(cs, who);
              addr == if k < |cs| then Some(cs[k].addr) else None
    {
      var client := list.FindClient(who);
      if client == null {
        return None;
      }
      assert client.View() == list.View()[IndexOfName(list.View(), who)];
      addr := Some(client.address);
    }

    /** say: the message goes to everybody listed, its sender included, once, and into the history. The source
        demands that the sender is listed. */
    method Say(args: array<string>, from: Addr)
      requires Valid() && args.Length == MAX_CMD_SIZE
      requires IndexOfAddr(list.View(), from) < |list.View()|
      modifies this`log, history, history.chat
      ensures Valid() && list.View() == old(list.View())
      ensures var cs := old(list.View());
              var full := FullMessage(cs[IndexOfAddr(cs, from)].name, Used(old(args[..]), 0));
              && history.all == old(history.all) + [full]
              && log == old(log) + Broadcast(cs, Response(full))
    {
      hide FirstOf, Used, Fitted, IndexOfAddr, Says, Response, Snprintf, ClientList.View, ClientList.Valid;
      hide ChatHistory.Valid;
      var message := JoinArgs(args, 0, MAX_MESSAGE);
      var name := NameOf(from);
      var full := Snprintf(Says(name, message), FULL_MESSAGE_SIZE);
      history.Store(full);
      SendToAll(Response(full));
    }

    /** sayto: one datagram to the first client of that name and a copy to the sender, or an error to the sender,
        who must be listed. */
    method Sayto(args: array<string>, from: Addr)
      requires Valid() && args.Length == MAX_CMD_SIZE
      requires IndexOfAddr(list.View(), from) < |list.View()|
      modifies this`log
      ensures Valid() && list.View() == old(list.View())
      ensures var cs, who, ws := list.View(), args[0], Used(args[..], 1);
              var r, s := IndexOfName(cs, who), IndexOfAddr(cs, from);
              && log == old(log) + (if r < |cs| then [
                   Datagram(cs[r].addr, PrivateToReceiver(cs[s].name, ws)), Datagram(from, PrivateToSender(who, ws))
                 ] else [Datagram(from, NotFound(who))])
              && log == old(log) + PrivatelySent(cs, cs[s].name, who, ws, from)
    {
      hide FirstOf, Used, Fitted, IndexOfAddr, IndexOfName, Snprintf, ReceiverText, CopyText, NotFoundText;
      hide ClientList.View, ClientList.Valid, ChatHistory.Valid;
      var toWho := args[0];
      var message := JoinArgs(args, 1, MAX_MESSAGE);
      var name := NameOf(from);
      var client := AddressOf(toWho);
      var sent := [Datagram(from, NotFound(toWho))];
      if client.Some? {
        var text := Snprintf(ReceiverText(name, message), RESPONSE_BUFFER_SIZE);
        var copy := Snprintf(CopyText(toWho, message), RESPONSE_BUFFER_SIZE);
        sent := [Datagram(client.value, text), Datagram(from, copy)];
      }
      log := log + sent;
    }

    /** connect_to_server's loop over the history. */
    method SendEach(to: Addr, texts: seq<string>)
      modifies this`log
      ensures log == old(log) + ToOne(to, texts)
    {
      var i := 0;
      while i < |texts|
        invariant 0 <= i <= |texts|
        invariant log == old(log) + ToOne(to, texts[..i])
      {
        assert ToOne(to, texts[..i + 1]) == ToOne(to, texts[..i]) + [Datagram(to, texts[i])];
        log := log + [Datagram(to, texts[i])];
        i := i + 1;
      }
      assert texts[..i] == texts;
    }

    /** connect_to_server: the new client goes to the tail, and is sent its success and the history. */
    method ConnectToServer(ghost id: nat, from: Addr, name: string, now: int)
      requires Valid()
      modifies this`log, list, list.nodes
      ensures Valid() && list.View() == Add(old(list.View()), id, from, name, now)
      ensures log == old(log) + [Datagram(from, Welcome(name))] + ToOne(from, Responses(Replayed(history.all)))
    {
      hide Response, Replayed, Responses, ToOne, ClientList.View, ClientList.Valid, ChatHistory.Valid;
      list.AddClientToList(id, from, name, now);
      log := log + [Datagram(from, Welcome(name))];
      var sent := history.Replay();
      SendEach(from, sent);
    }

    /** disconnect's first critical section: the node found, by its name. */
    method LookUp(from: Addr) returns (name: Option<string>)
      requires list.Valid()
      ensures var cs, i := list.View(), IndexOfAddr(list.View(), from);
              name == if i < |cs| then Some(cs[i].name) else None
    {
      var node := list.FindClientByAddress(from);
      if node == null {
        return None;
      }
      assert node.View() == list.View()[IndexOfAddr(list.View(), from)];
      name := Some(node.name);
    }

    /** disconnect: the client at that address is looked up, removed by its name, and told so. */
    method Disconnect(from: Addr)
      requires Valid()
      modifies this`log, list, list.nodes
      ensures Valid()
      ensures list.View() == Left(old(list.View()), from)
      ensures var cs := old(list.View());
              var i := IndexOfAddr(cs, from);
              if i == |cs| then list.View() == cs && log == old(log)
              else
                && list.View() == RemoveByName(cs, cs[i].name)
                && log == old(log) + [Datagram(cs[IndexOfName(cs, cs[i].name)].addr, Goodbye())]
    {
      hide IndexOfAddr, IndexOfName, RemoveByName, Goodbye, Left, ClientList.View, ClientList.Valid, ChatHistory.Valid;
      ghost var cs := list.View();
      LeftIs(cs, from);
      var name := LookUp(from);
      if name.Some? {
        FoundByName(cs, IndexOfAddr(cs, from));
        var addr := list.RemoveClientFromList(name.value);
        if addr.Some? {
          log := log + [Datagram(addr.value, Goodbye())];
        }
      }
    }

    static lemma LeftIs(cs: seq<Client>, addr: Addr)
      ensures var i := IndexOfAddr(cs, addr);
              Left(cs, addr) == if i == |cs| then cs else RemoveByName(cs, cs[i].name)
    {}

    static lemma FoundByName(cs: seq<Client>, i: nat)
      requires i < |cs|
      ensures IndexOfName(cs, cs[i].name) <= i
    {}

    /** kick: only the head of the list may, and everybody left is told of a removal. */
    method Kick(from: Addr, target: string)
      requires Valid()
      modifies this`log, list, list.nodes
      ensures Valid()
      ensures list.View() == Kicked(old(list.View()), from, target)
      ensures log == old(log) + KickSent(old(list.View()), from, target)
      ensures var cs := old(list.View());
              var k := IndexOfName(cs, target);
              if cs == [] || cs[0].addr != from then list.View() == cs && log == old(log) + [Datagram(from, Denied())]
              else
                && list.View() == RemoveByName(cs, target)
                && log == old(log) + if k == |cs| then []
                                     else [Datagram(cs[k].addr, Goodbye())] + Broadcast(list.View(), KickNotice(target))
    {
      hide Denied;
      var admin := list.IsAdmin(from);
      if admin {
        KickOut(target);
      } else {
        log := log + [Datagram(from, Denied())];
      }
    }

    /** kick's second critical section, and what it sends. */
    method KickOut(target: string)
      requires Valid()
      modifies this`log, list, list.nodes
      ensures Valid()
      ensures var cs := old(list.View());
              var k := IndexOfName(cs, target);
              && list.View() == RemoveByName(cs, target)
              && log == old(log) + if k == |cs| then []
                                   else [Datagram(cs[k].addr, Goodbye())] + Broadcast(list.View(), KickNotice(target))
    {
      hide IndexOfName, KickNotice, Goodbye, RemoveByName, ClientList.View, ClientList.Valid, ChatHistory.Valid;
      var addr := list.RemoveClientFromList(target);
      if addr.Some? {
        log := log + [Datagram(addr.value, Goodbye())];
        SendToAll(KickNotice(target));
      }
    }

    /** rename_client. */
    method RenameTo(from: Addr, name: string)
      requires Valid() && IndexOfAddr(list.View(), from) < |list.View()|
      modifies this`log, list.nodes
      ensures Valid() && list.View() == Rename(old(list.View()), from, name)
      ensures log == old(log) + [Datagram(from, Renamed(name))]
    {
      hide Rename, IndexOfAddr, Renamed, ClientList.View, ClientList.Valid, ChatHistory.Valid;
      list.RenameClient(from, name);
      log := log + [Datagram(from, Renamed(name))];
    }

    static lemma TouchKeepsPlace(cs: seq<Client>, addr: Addr, now: int)
      ensures |Touch(cs, addr, now)| == |cs| && IndexOfAddr(Touch(cs, addr, now), addr) == IndexOfAddr(cs, addr)
    {
      var i, es := IndexOfAddr(cs, addr), Touch(cs, addr, now);
      assert forall j :: 0 <= j < |cs| ==> es[j].addr == cs[j].addr;
    }

    /** What the handler of each kind does to the list. */
    static function Handled(cs: seq<Client>, kind: Kind, args: seq<string>, id: nat, from: Addr, now: int): seq<Client>
      requires args != []
    {
      match kind
      case CONN => Add(cs, id, from, args[0], now)
      case RENAME => Rename(cs, from, args[0])
      case DISCONN => Left(cs, from)
      case KICK => Kicked(cs, from, args[0])
      case _ => cs
    }

    /** What the handler of each kind sends. */
    static function Sent(cs: seq<Client>, all: seq<string>, kind: Kind, args: seq<string>, from: Addr): seq<Datagram>
      requires args != []
    {
      var s := IndexOfAddr(cs, from);
      match kind
      case CONN => [Datagram(from, Welcome(args[0]))] + ToOne(from, Responses(Replayed(all)))
      case SAY => if s < |cs| then Broadcast(cs, Response(FullMessage(cs[s].name, Used(args, 0)))) else []
      case SAYTO => if s < |cs| then PrivatelySent(cs, cs[s].name, args[0], Used(args, 1), from) else []
      case RENAME => [Datagram(from, Renamed(args[0]))]
      case DISCONN =>
        if s < |cs| then [Datagram(cs[IndexOfName(cs, cs[s].name)].addr, Goodbye())] else []
      case KICK => KickSent(cs, from, args[0])
      case _ => []
    }

    /** The handler that a command's kind is given to. The relays of mute, unmute and unknown commands are not part of
        this. */
    method Handle(command: Command, ghost id: nat, from: Addr, now: int)
      requires Valid() && command.args.Length == MAX_CMD_SIZE && command.args != history.chat
      requires command.kind in {SAY, SAYTO, RENAME} ==> IndexOfAddr(list.View(), from) < |list.View()|
      modifies this`log, list, list.nodes, history, history.chat
      ensures Valid()
      ensures list.View() == Handled(old(list.View()), command.kind, old(command.args[..]), id, from, now)
      ensures log == old(log) + Sent(old(list.View()), old(history.all), command.kind, old(command.args[..]), from)
      ensures command.kind != SAY ==> history.all == old(history.all)
    {
      hide Add, Rename, Left, Kicked, IndexOfAddr, IndexOfName, Used, FullMessage, Response, Replayed, Responses;
      hide ToOne, Broadcast, PrivatelySent, KickSent, Welcome, Renamed, Goodbye;
      hide RemoveByName, Without, ClientList.View, ClientList.Valid, ChatHistory.Valid;
      NameFound(list.View(), from);
      match command.kind {
        case CONN => ConnectToServer(id, from, command.args[0], now);
        case SAY => Say(command.args, from);
        case SAYTO => Sayto(command.args, from);
        case DISCONN => Disconnect(from);
        case RENAME => RenameTo(from, command.args[0]);
        case KICK => Kick(from, command.args[0]);
        case _ =>
      }
    }

    static lemma NameFound(cs: seq<Client>, addr: Addr)
      ensures var i := IndexOfAddr(cs, addr); i < |cs| ==> IndexOfName(cs, cs[i].name) <= i
    {}

    /** spawn_execute_command_threads: any command but connect is recorded as activity of its sender first. */
    method Execute(command: Command, ghost id: nat, from: Addr, now: int)
      requires Valid() && command.args.Length == MAX_CMD_SIZE && command.args != history.chat
      requires command.kind in {SAY, SAYTO, RENAME} ==> IndexOfAddr(list.View(), from) < |list.View()|
      modifies this`log, list, list.nodes, history, history.chat
      ensures Valid()
      ensures var cs := if command.kind == CONN then old(list.View()) else Touch(old(list.View()), from, now);
              && list.View() == Handled(cs, command.kind, old(command.args[..]), id, from, now)
              && log == old(log) + Sent(cs, old(history.all), command.kind, old(command.args[..]), from)
    {
      hide Touch, Handled, Sent, IndexOfAddr, IndexOfName, Used, FullMessage, Response;
      hide ClientList.View, ClientList.Valid, ChatHistory.Valid;
      if command.kind != CONN {
        TouchKeepsPlace(list.View(), from, now);
        list.UpdateClientActivity(from, now);
      }
      Handle(command, id, from, now);
    }
  }
}
