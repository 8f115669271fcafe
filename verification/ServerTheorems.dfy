/** Admin succession, kicks and disconnects over every interleaving. */
module ServerTheorems {
  import opened CStrings
  import opened Net
  import opened Clients
  import opened Sequences
  import opened ServerRun

  /** The head of the list, who may kick, is the earliest-connected client still present. */
  lemma AdminIsEarliest(s: State, i: nat)
    requires Reachable(s) && 0 < i < |s.clients|
    ensures s.clients[0].id < s.clients[i].id
  {
    ReachableInv(s);
  }

  /** When a kick removes someone, however long after its check, the client that passed the check is still
      the head or has left the list. */
  lemma KickerIsStillAdmin(s: State, k: nat)
    requires Reachable(s) && Enabled(s, KickRemove(k))
    ensures Listed(s, s.kicks[k].admin) ==> s.clients[0].id == s.kicks[k].admin
  {
    ReachableInv(s);
  }

  /** Once off the list, a node never comes back. */
  lemma {:induction false} GoneForGood(s: State, run: seq<Action>, id: nat)
    requires Inv(s) && ValidRun(s, run) && id < s.next && !Listed(s, id)
    ensures !Listed(Exec(s, run), id)
    decreases |run|
  {
    if run != [] {
      StepKeepsInv(s, run[0]);
      StaysGone(s, run[0], id);
      hide Inv, Apply, Listed;
      GoneForGood(Apply(s, run[0]), run[1..], id);
    }
  }

  lemma StaysGone(s: State, a: Action, id: nat)
    requires Enabled(s, a) && id < s.next && !Listed(s, id)
    ensures !Listed(Apply(s, a), id) && id < Apply(s, a).next
  {
    if Removes(s, a) {
      RemovalStep(s, a);
      WithoutAt(s.clients, RemovedAt(s, a));
    } else {
      KeepingStep(s, a);
    }
    hide Apply, Removes, RemovedAt, Enabled, IndexOfId, Without;
  }

  ghost predicate NobodyBefore(cs: seq<Client>, id: nat) {
    forall i :: 0 <= i < |cs| ==> id <= cs[i].id
  }

  lemma StillNobodyBefore(s: State, a: Action, id: nat)
    requires Enabled(s, a) && id < s.next && NobodyBefore(s.clients, id)
    ensures NobodyBefore(Apply(s, a).clients, id) && id < Apply(s, a).next
  {
    if Removes(s, a) {
      RemovalStep(s, a);
      WithoutAt(s.clients, RemovedAt(s, a));
    } else {
      KeepingStep(s, a);
    }
    hide Apply, Removes, RemovedAt, Enabled, Without;
  }

  lemma {:induction false} HeadStays(s: State, run: seq<Action>, id: nat)
    requires Inv(s) && ValidRun(s, run) && id < s.next && NobodyBefore(s.clients, id)
    ensures Listed(Exec(s, run), id) ==> Exec(s, run).clients[0].id == id
    decreases |run|
  {
    if run != [] {
      StepKeepsInv(s, run[0]);
      StillNobodyBefore(s, run[0], id);
      hide Inv, Apply, NobodyBefore;
      HeadStays(Apply(s, run[0]), run[1..], id);
    }
  }

  /** Who is admin changes in one way only: the admin leaves, and a node that has left never comes back. As
      long as a client that was ever the head is listed at all, it is the head. */
  lemma AdminUntilGone(s: State, run: seq<Action>)
    requires Reachable(s) && s.clients != [] && ValidRun(s, run)
    ensures var e, admin := Exec(s, run), s.clients[0].id;
            Listed(e, admin) ==> e.clients[0].id == admin
  {
    ReachableInv(s);
    HeadStays(s, run, s.clients[0].id);
  }

  /** A client that takes a free name is the one that a private message to that name finds: after a rename, */
  lemma RenamedIsFound(s: State, addr: Addr, name: string)
    requires Enabled(s, RenameTo(addr, name)) && TakesFreeName(s, RenameTo(addr, name))
    ensures var e, i := Apply(s, RenameTo(addr, name)).clients, IndexOfAddr(s.clients, addr);
            IndexOfName(e, name) == i && e[i].id == s.clients[i].id && e[i].addr == addr
  {
    var e, i := Apply(s, RenameTo(addr, name)).clients, IndexOfAddr(s.clients, addr);
    assert e == s.clients[i := s.clients[i].(name := name)];
    hide Apply, IndexOfAddr;
    assert e[i].name == name && forall j :: 0 <= j < i ==> e[j].name != name;
  }

  /** and after a connect, when it stands last. */
  lemma ConnectedIsFound(s: State, addr: Addr, name: string)
    requires TakesFreeName(s, Connect(addr, name))
    ensures var e := Apply(s, Connect(addr, name)).clients;
            var i := IndexOfName(e, Clip(name, NAME_SIZE - 1));
            i == |s.clients| == |e| - 1 && e[i].id == s.next && e[i].addr == addr
  {
    var e := Apply(s, Connect(addr, name)).clients;
    assert e[|s.clients|].name == Clip(name, NAME_SIZE - 1);
  }

  /** Removing node i by its own name removes that node exactly when nobody before it has the name. */
  lemma RemoveByOwnNameIff(s: State, i: nat)
    requires Reachable(s) && i < |s.clients|
    ensures RemoveByName(s.clients, s.clients[i].name) == Without(s.clients, i)
            <==> forall j :: 0 <= j < i ==> s.clients[j].name != s.clients[i].name
  {
    ReachableInv(s);
    var k := IndexOfName(s.clients, s.clients[i].name);
    if k < i {
      assert Without(s.clients, k)[k] == s.clients[k + 1];
      assert Without(s.clients, i)[k] == s.clients[k];
    }
  }

  /** With unique names, disconnect takes out exactly the node it found, under whatever name it goes by now. */
  lemma DisconnectRemovesItsNode(s: State, k: nat)
    requires Reachable(s) && UniqueNames(s.clients) && Enabled(s, DisconnectRemove(k))
    ensures var i := IndexOfId(s.clients, s.leaves[k]);
            && Apply(s, DisconnectRemove(k)).clients == Without(s.clients, i)
            && !Listed(Apply(s, DisconnectRemove(k)), s.leaves[k])
  {
    var i := IndexOfId(s.clients, s.leaves[k]);
    RemoveByOwnNameIff(s, i);
    ReachableInv(s);
    WithoutAt(s.clients, i);
  }

  /** Without them it can take out a stranger: the second Bob's disconnect removes the first. */
  lemma DisconnectCanRemoveAnother()
    returns (run: seq<Action>)
    ensures ValidRun(Init(0), run)
    ensures var e := Exec(Init(0), run); !Listed(e, 0) && Listed(e, 1)
  {
    var a, b := Addr(1, 1), Addr(1, 2);
    var run0 := [Connect(a, "bob"), Connect(b, "bob"), DisconnectFind(b), DisconnectRemove(0)];
    var c0, c1 := Client(0, a, "bob", 0, 0), Client(1, b, "bob", 0, 0);
    var s0 := Init(0);
    var s1 := Apply(s0, run0[0]);
    assert s1 == State(0, 1, [c0], [], [], Sleeping);
    var s2 := Apply(s1, run0[1]);
    assert s2 == State(0, 2, [c0, c1], [], [], Sleeping);
    assert IndexOfAddr([c0, c1], b) == 1;
    var s3 := Apply(s2, run0[2]);
    assert s3 == State(0, 2, [c0, c1], [], [1], Sleeping);
    assert IndexOfId([c0, c1], 1) == 1;
    assert IndexOfName([c0, c1], "bob") == 0;
    assert Drop([1 as nat], 0) == [];
    var s4 := Apply(s3, run0[3]);
    assert s4 == State(0, 2, [c1], [], [], Sleeping);
    run := run0;
    assert run[1..][1..] == run[2..] && run[2..][1..] == run[3..] && run[3..][1..] == [];
    assert ValidRun(s4, []) && Exec(s4, []) == s4;
    assert ValidRun(s3, run[3..]) && Exec(s3, run[3..]) == s4;
    assert ValidRun(s2, run[2..]) && Exec(s2, run[2..]) == s4;
    assert ValidRun(s1, run[1..]) && Exec(s1, run[1..]) == s4;
  }
}
