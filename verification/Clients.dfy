/** The server's client list as a sequence: what each list routine of server_types.h and each scan of
    server_interface.c does to it. */
module Clients {
  import opened CStrings
  import opened Net
  import opened Sequences

  const INACTIVITY_THRESHOLD := 180
  const PING_TIMEOUT := 10

  /** A connected client. `id` is its place in the order of all connections ever made, and stands for the
      node's identity; it is not in the source. Times are whole seconds; pingSent 0 means no ping pending. */
  datatype Client = Client(id: nat, addr: Addr, name: string, lastActive: int, pingSent: int)

  /** The first index from i on with that name, or the length. */
  function IndexOfName(cs: seq<Client>, name: string, i: nat := 0): (k: nat)
    requires i <= |cs|
    ensures i <= k <= |cs| && (k < |cs| ==> cs[k].name == name)
    ensures forall j :: i <= j < k ==> cs[j].name != name
    decreases |cs| - i
  {
    if i == |cs| || cs[i].name == name then i else IndexOfName(cs, name, i + 1)
  }

  function IndexOfAddr(cs: seq<Client>, addr: Addr, i: nat := 0): (k: nat)
    requires i <= |cs|
    ensures i <= k <= |cs| && (k < |cs| ==> cs[k].addr == addr)
    ensures forall j :: i <= j < k ==> cs[j].addr != addr
    decreases |cs| - i
  {
    if i == |cs| || cs[i].addr == addr then i else IndexOfAddr(cs, addr, i + 1)
  }

  /** Silent for over three minutes, and not pinged since or pinged over ten seconds ago. */
  predicate Actionable(c: Client, now: int) {
    now - c.lastActive > INACTIVITY_THRESHOLD && (c.pingSent == 0 || now - c.pingSent > PING_TIMEOUT)
  }

  function FirstActionable(cs: seq<Client>, now: int, i: nat := 0): (k: nat)
    requires i <= |cs|
    ensures i <= k <= |cs| && (k < |cs| ==> Actionable(cs[k], now))
    ensures forall j :: i <= j < k ==> !Actionable(cs[j], now)
    decreases |cs| - i
  {
    if i == |cs| || Actionable(cs[i], now) then i else FirstActionable(cs, now, i + 1)
  }

  function Without(cs: seq<Client>, k: nat): seq<Client> {
    if k < |cs| then Drop(cs, k) else cs
  }

  function Add(cs: seq<Client>, id: nat, addr: Addr, name: string, now: int): seq<Client> {
    cs + [Client(id, addr, Clip(name, NAME_SIZE - 1), now, 0)]
  }

  function RemoveByName(cs: seq<Client>, name: string): seq<Client> {
    Without(cs, IndexOfName(cs, name))
  }

  function Touch(cs: seq<Client>, addr: Addr, now: int): seq<Client> {
    var k := IndexOfAddr(cs, addr);
    if k < |cs| then cs[k := cs[k].(lastActive := now, pingSent := 0)] else cs
  }

  function Rename(cs: seq<Client>, addr: Addr, name: string): seq<Client> {
    var k := IndexOfAddr(cs, addr);
    if k < |cs| then cs[k := cs[k].(name := name)] else cs
  }

  /** A kick with nothing between its admin check and its removal. */
  function Kicked(cs: seq<Client>, addr: Addr, target: string): seq<Client> {
    if cs != [] && cs[0].addr == addr then RemoveByName(cs, target) else cs
  }

  /** A disconnect with nothing between its lookup and its removal. */
  function Left(cs: seq<Client>, addr: Addr): seq<Client> {
    var i := IndexOfAddr(cs, addr);
    if i < |cs| then RemoveByName(cs, cs[i].name) else cs
  }

  /** One pass of the connection manager, with nothing in between: ping the first client that needs one, or remove, by
      its name, the first that let a ping time out. */
  function Tick(cs: seq<Client>, now: int): seq<Client> {
    var k := FirstActionable(cs, now);
    if k == |cs| then cs
    else if cs[k].pingSent == 0 then cs[k := cs[k].(pingSent := now)]
    else RemoveByName(cs, cs[k].name)
  }
}
