/** The server's linked list of clients on the heap, as server_types.h relinks it. */
module Registry {
  import opened CStrings
  import opened Net
  import opened Clients

  class ClientNode {
    var next: ClientNode?
    var address: Addr
    var name: string
    var lastActive: int
    var pingSent: int
    ghost const id: nat

    constructor (ghost id: nat, addr: Addr, name: string, now: int)
      ensures this.id == id && next == null && View() == Client(id, addr, name, now, 0)
    {
      next, address, this.name, lastActive, pingSent := null, addr, name, now, 0;
      this.id := id;
    }

    ghost function View(): Client
      reads this
    {
      Client(id, address, name, lastActive, pingSent)
    }
  }

  ghost predicate Distinct(s: seq<ClientNode>) {
    forall i, j :: 0 <= i < j < |s| ==> s[i] != s[j]
  }

  lemma StillDistinct(s: seq<ClientNode>, k: nat)
    requires Distinct(s) && k < |s|
    ensures Distinct(s[..k] + s[k + 1..])
  {}

  class ClientList {
    var head: ClientNode?
    var tail: ClientNode?
    ghost var nodes: seq<ClientNode>

    /** head starts a chain of distinct nodes that ends, and tail is its last node. */
    ghost predicate Valid()
      reads this, nodes
    {
      && Distinct(nodes)
      && head == NodeAt(0)
      && tail == (if nodes == [] then null else nodes[|nodes| - 1])
      && (forall i :: 0 <= i < |nodes| ==> nodes[i].next == NodeAt(i + 1))
    }

    ghost function NodeAt(i: nat): ClientNode?
      reads this
    {
      if i < |nodes| then nodes[i] else null
    }

    ghost function View(): (cs: seq<Client>)
      reads this, nodes
      ensures |cs| == |nodes|
    {
      seq(|nodes|, i requires 0 <= i < |nodes| reads this, nodes => nodes[i].View())
    }

    constructor ()
      ensures Valid() && View() == []
    {
      head, tail, nodes := null, null, [];
    }

    method AddClientToList(ghost id: nat, addr: Addr, name: string, now: int)
      requires Valid()
      modifies this, nodes
      ensures Valid()
      ensures View() == Add(old(View()), id, addr, name, now)
      ensures |nodes| == |old(nodes)| + 1 && nodes[..|old(nodes)|] == old(nodes) && fresh(nodes[|old(nodes)|])
    {
      var node := new ClientNode(id, addr, Clip(name, NAME_SIZE - 1), now);
      ghost var was := nodes;
      if head == null {
        head, tail := node, node;
      } else {
        tail.next := node;
        tail := node;
      }
      nodes := nodes + [node];
      assert forall i :: 0 <= i < |was| ==> nodes[i] == was[i];
    }

    /** Takes node k out of the chain, given the node before it. */
    method Unlink(iter: ClientNode, last: ClientNode?, ghost k: nat)
      requires Valid() && k < |nodes| && iter == nodes[k]
      requires last == if k == 0 then null else nodes[k - 1]
      modifies this, nodes
      ensures Valid()
      ensures nodes == old(nodes)[..k] + old(nodes)[k + 1..]
      ensures View() == Without(old(View()), k)
    {
      ghost var was := nodes;
      assert last != null ==> forall i :: 0 <= i < |was| && i != k - 1 ==> was[i] != last;
      if last == null {
        head := iter.next;
      } else {
        last.next := iter.next;
      }
      if iter == tail {
        tail := last;
      }
      hide Distinct, Without;
      nodes := nodes[..k] + nodes[k + 1..];
      ViewWithout(k);
      ChainWithout(k);
    }

    twostate lemma ChainWithout(k: nat)
      requires old(Valid()) && k < |old(nodes)| && nodes == old(nodes)[..k] + old(nodes)[k + 1..]
      requires head == if k == 0 then old(NodeAt(1)) else old(head)
      requires tail == if k < |old(nodes)| - 1 then old(tail) else if k == 0 then null else old(nodes[k - 1])
      requires forall i :: 0 <= i < |old(nodes)| && i != k - 1 ==> old(nodes)[i].next == old(nodes[i].next)
      requires k > 0 ==> old(nodes)[k - 1].next == old(NodeAt(k + 1))
      ensures Valid()
    {
      StillDistinct(old(nodes), k);
      hide Distinct;
      forall i | 0 <= i < |nodes| ensures nodes[i].next == NodeAt(i + 1) {
        assert nodes[i] == old(nodes)[if i < k then i else i + 1];
      }
    }

    twostate lemma ViewWithout(k: nat)
      requires k < |old(nodes)| && nodes == old(nodes)[..k] + old(nodes)[k + 1..]
      requires forall i :: 0 <= i < |old(nodes)| ==> old(nodes)[i].View() == old(nodes[i].View())
      ensures View() == Without(old(View()), k)
    {
      ghost var v, w := View(), Without(old(View()), k);
      forall i | 0 <= i < |v| ensures v[i] == w[i] {
        assert v[i] == old(nodes)[if i < k then i else i + 1].View();
      }
    }

    method Locate(name: string) returns (iter: ClientNode?, last: ClientNode?, ghost k: nat)
      requires Valid()
      ensures k == IndexOfName(View(), name) <= |nodes|
      ensures iter == NodeAt(k) && last == if k == 0 then null else nodes[k - 1]
    {
      iter, last, k := head, null, 0;
      while iter != null && iter.name != name
        invariant k <= |nodes| && iter == NodeAt(k)
        invariant last == if k == 0 then null else nodes[k - 1]
        invariant forall j :: 0 <= j < k ==> View()[j].name != name
        decreases |nodes| - k
      {
        last := iter;
        iter := iter.next;
        k := k + 1;
      }
      NameFoundAt(View(), name, k);
    }

    /** Unlinks exactly the first node with that name and hands back its address. */
    method RemoveClientFromList(name: string) returns (addr: Option<Addr>)
      requires Valid()
      modifies this, nodes
      ensures Valid()
      ensures var k := IndexOfName(old(View()), name);
              && nodes == (if k < |old(nodes)| then old(nodes)[..k] + old(nodes)[k + 1..] else old(nodes))
              && addr == if k < |old(nodes)| then Some(old(View())[k].addr) else None
      ensures View() == RemoveByName(old(View()), name)
    {
      var iter, last, k := Locate(name);
      if iter == null {
        return None;
      }
      assert View()[k] == iter.View();
      addr := Some(iter.address);
      hide IndexOfName;
      Unlink(iter, last, k);
    }

    /** A change of one node's data leaves the chain alone. */
    twostate lemma OneNodeChanged(k: nat)
      requires old(Valid()) && unchanged(this) && k < |nodes|
      requires forall i :: 0 <= i < |nodes| && i != k ==> unchanged(nodes[i])
      requires nodes[k].next == old(nodes[k].next)
      ensures Valid() && View() == old(View())[k := nodes[k].View()]
    {}

    static lemma NameFoundAt(cs: seq<Client>, name: string, k: nat)
      requires k <= |cs| && (k < |cs| ==> cs[k].name == name) && forall j :: 0 <= j < k ==> cs[j].name != name
      ensures IndexOfName(cs, name) == k
    {}

    method FindClient(who: string) returns (node: ClientNode?)
      requires Valid()
      ensures node == NodeAt(IndexOfName(View(), who))
    {
      ghost var k := 0;
      node := head;
      while node != null && node.name != who
        invariant k <= |nodes| && node == NodeAt(k)
        invariant forall j :: 0 <= j < k ==> View()[j].name != who
        decreases |nodes| - k
      {
        node := node.next;
        k := k + 1;
      }
      NameFoundAt(View(), who, k);
    }

    method FindClientByAddress(addr: Addr) returns (node: ClientNode?)
      requires Valid()
      ensures node == NodeAt(IndexOfAddr(View(), addr))
    {
      ghost var k := 0;
      node := head;
      while node != null && node.address != addr
        invariant k <= |nodes| && node == NodeAt(k)
        invariant forall j :: 0 <= j < k ==> View()[j].addr != addr
        decreases |nodes| - k
      {
        node := node.next;
        k := k + 1;
      }
      assert k < |nodes| ==> View()[k].addr == addr;
    }

    method UpdateClientActivity(addr: Addr, now: int)
      requires Valid()
      modifies nodes
      ensures Valid()
      ensures View() == Touch(old(View()), addr, now)
    {
      hide IndexOfAddr;
      ghost var k := IndexOfAddr(View(), addr);
      var node := FindClientByAddress(addr);
      if node != null {
        assert View()[k] == node.View();
        node.lastActive := now;
        node.pingSent := 0;
        OneNodeChanged(k);
      }
    }

    /** rename_client's critical section; the source demands that the sender is listed. */
    method RenameClient(addr: Addr, name: string)
      requires Valid() && IndexOfAddr(View(), addr) < |View()|
      modifies nodes
      ensures Valid()
      ensures View() == Rename(old(View()), addr, name)
    {
      hide IndexOfAddr;
      ghost var k := IndexOfAddr(View(), addr);
      var node := FindClientByAddress(addr);
      assert View()[k] == node.View();
      node.name := name;
      OneNodeChanged(k);
    }

    /** kick's first critical section. */
    method IsAdmin(addr: Addr) returns (yes: bool)
      requires Valid()
      ensures yes == (View() != [] && View()[0].addr == addr)
    {
      yes := head != null && head.address == addr;
    }

    /** connection_manager's loop over the nodes. */
    method FindActionable(now: int) returns (node: ClientNode?)
      requires Valid()
      ensures node == NodeAt(FirstActionable(View(), now))
    {
      ghost var k := 0;
      node := head;
      while node != null
        invariant k <= |nodes| && node == NodeAt(k)
        invariant forall j :: 0 <= j < k ==> !Actionable(View()[j], now)
        decreases |nodes| - k
      {
        assert View()[k] == node.View();
        if now - node.lastActive > INACTIVITY_THRESHOLD {
          if node.pingSent == 0 {
            break;
          } else if now - node.pingSent > PING_TIMEOUT {
            break;
          }
        }
        node := node.next;
        k := k + 1;
      }
    }

    /** What connection_manager takes from its scan: the node to ping, or the node to evict and a copy of its name. */
    method Scan(now: int) returns (toPing: ClientNode?, toKick: ClientNode?, kickName: string)
      requires Valid()
      ensures var cs, k := View(), FirstActionable(View(), now);
              && toPing == (if k < |cs| && cs[k].pingSent == 0 then NodeAt(k) else null)
              && toKick == (if k < |cs| && cs[k].pingSent != 0 then NodeAt(k) else null)
              && kickName == (if k < |cs| && cs[k].pingSent != 0 then cs[k].name else "")
    {
      hide FirstActionable;
      toPing, toKick, kickName := null, null, "";
      ghost var k := FirstActionable(View(), now);
      var node := FindActionable(now);
      if node == null {
        return;
      }
      assert View()[k] == node.View();
      if node.pingSent == 0 {
        toPing := node;
      } else {
        toKick, kickName := node, node.name;
      }
    }

    /** The write of ping_sent, however much later. */
    method WritePing(node: ClientNode, ghost k: nat, at: int)
      requires Valid() && k < |nodes| && nodes[k] == node
      modifies node
      ensures Valid()
      ensures View() == old(View())[k := old(View())[k].(pingSent := at)]
    {
      assert View()[k] == node.View();
      node.pingSent := at;
      OneNodeChanged(k);
    }

    /** connection_manager's pass, with nothing happening between its critical sections. */
    method ConnectionTick(now: int) returns (ping: Option<Addr>, kick: Option<Addr>)
      requires Valid()
      modifies this, nodes
      ensures Valid()
      ensures View() == Tick(old(View()), now)
      ensures var k := FirstActionable(old(View()), now);
              var cs := old(View());
              && ping == (if k < |cs| && cs[k].pingSent == 0 then Some(cs[k].addr) else None)
              && kick == (if k < |cs| && cs[k].pingSent != 0 then Some(cs[k].addr) else None)
    {
      hide IndexOfName, FirstActionable;
      ping, kick := None, None;
      ghost var k := FirstActionable(View(), now);
      var toPing, toKick, kickName := Scan(now);
      assert k < |View()| ==> View()[k] == nodes[k].View();
      if toPing != null {
        ping := Some(toPing.address);
        WritePing(toPing, k, now);
      }
      if toKick != null {
        kick := Some(toKick.address);
        var removed := RemoveClientFromList(kickName);
      }
    }
  }
}
