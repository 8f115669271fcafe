/** What a kick, a disconnect and a rename do to whom, from the request to the removal, over every interleaving. */
module Handlers {
  import opened Net
  import opened Clients
  import opened Sequences
  import opened ServerRun
  import opened ServerTheorems

  /** Place i is the first at that address. */
  predicate FirstAt(cs: seq<Client>, addr: Addr, i: nat) {
    i < |cs| && cs[i].addr == addr && forall j :: 0 <= j < i ==> cs[j].addr != addr
  }

  predicate FirstNamed(cs: seq<Client>, name: string, i: nat) {
    i < |cs| && cs[i].name == name && forall j :: 0 <= j < i ==> cs[j].name != name
  }

  lemma FirstAtIs(cs: seq<Client>, addr: Addr, i: nat)
    requires FirstAt(cs, addr, i)
    ensures IndexOfAddr(cs, addr) == i
  {}

  lemma FirstNamedIs(cs: seq<Client>, name: string, i: nat)
    requires FirstNamed(cs, name, i)
    ensures IndexOfName(cs, name) == i
  {}

  /** When the connection manager's steps can be made: a pass can start whenever the one before is over, and a scan may
      go by any time already past. */
  lemma ManagerIsKeptOutOnlyByItself(s: State, seconds: nat, now: nat)
    ensures Enabled(s, Elapse(seconds))
    ensures Enabled(s, Scan(now)) <==> s.manager == Sleeping && now <= s.clock
    ensures Enabled(s, Pass(seconds)) <==> s.manager == Sleeping && seconds > 0
    ensures Enabled(s, WritePing) || Enabled(s, EvictRemove) || s.manager == Sleeping
  {}

  /** No handler ever has to wait for another's step, but a rename and a leave need their client. */
  lemma NobodyIsKeptOut(s: State, addr: Addr, name: string, k: nat)
    ensures Enabled(s, Connect(addr, name)) && Enabled(s, Activity(addr))
    ensures Enabled(s, KickCheck(addr, name)) && Enabled(s, DisconnectFind(addr))
    ensures Enabled(s, RenameTo(addr, name)) <==> exists i :: FirstAt(s.clients, addr, i)
    ensures Enabled(s, KickRemove(k)) <==> k < |s.kicks|
    ensures Enabled(s, DisconnectRemove(k)) <==> k < |s.leaves| && exists c :: c in s.clients && c.id == s.leaves[k]
  {
    var i := IndexOfAddr(s.clients, addr);
    if i < |s.clients| {
      assert FirstAt(s.clients, addr, i);
    }
    if k < |s.leaves| && Listed(s, s.leaves[k]) {
      assert s.clients[IndexOfId(s.clients, s.leaves[k])] in s.clients;
    }
    hide IndexOfAddr;
  }

  // ----- Kicks -----

  /** Who passes the admin check: the client at the head, by its address. */
  predicate Admits(s: State, addr: Addr) {
    s.clients != [] && s.clients[0].addr == addr
  }

  /** Anybody else's kick changes nothing; the admin's adds one removal, of the name it asks for, in its own name. */
  lemma KickCheckAdmitsTheHead(s: State, addr: Addr, target: string)
    ensures var e := Apply(s, KickCheck(addr, target));
            && (e.kicks != s.kicks <==> Admits(s, addr))
            && (!Admits(s, addr) ==> e == s)
            && (Admits(s, addr) ==>
                  && |e.kicks| == |s.kicks| + 1 && e.kicks[..|s.kicks|] == s.kicks
                  && e.kicks[|s.kicks|].admin == s.clients[0].id && e.kicks[|s.kicks|].target == target
                  && e.(kicks := s.kicks) == s)
  {}

  /** The kick that a step admits: one asked for from the head's address, by that client and for that target. */
  function AdmittedBy(s: State, a: Action): multiset<Kick> {
    match a
    case KickCheck(addr, target) =>
      if Admits(s, addr) then multiset{Kick(s.clients[0].id, target)} else multiset{}
    case _ => multiset{}
  }

  /** The kick whose removal a step makes. */
  function RemovedBy(s: State, a: Action): multiset<Kick>
    requires Enabled(s, a)
  {
    if a.KickRemove? then multiset{s.kicks[a.k]} else multiset{}
  }

  ghost function Admitted(s: State, run: seq<Action>): multiset<Kick>
    requires ValidRun(s, run)
    decreases |run|
  {
    if run == [] then multiset{} else AdmittedBy(s, run[0]) + Admitted(Apply(s, run[0]), run[1..])
  }

  ghost function Removed(s: State, run: seq<Action>): multiset<Kick>
    requires ValidRun(s, run)
    decreases |run|
  {
    if run == [] then multiset{} else RemovedBy(s, run[0]) + Removed(Apply(s, run[0]), run[1..])
  }

  lemma KickStep(s: State, a: Action)
    requires Enabled(s, a)
    ensures multiset(s.kicks) + AdmittedBy(s, a) == multiset(Apply(s, a).kicks) + RemovedBy(s, a)
  {
    if a.KickRemove? {
      DropKeepsRest(s.kicks, a.k);
    }
    hide Drop;
  }

  /** Kicks are conserved: over every run, the removals made and those still pending are exactly those that an admin
      asked for, each once and for its own target. */
  lemma {:induction false} KicksAreConserved(s: State, run: seq<Action>)
    requires ValidRun(s, run)
    ensures multiset(s.kicks) + Admitted(s, run) == multiset(Exec(s, run).kicks) + Removed(s, run)
    decreases |run|
  {
    if run != [] {
      KickStep(s, run[0]);
      hide Apply, Enabled, AdmittedBy, RemovedBy;
      var s1, rest := Apply(s, run[0]), run[1..];
      KicksAreConserved(s1, rest);
      Conserved(multiset(s.kicks), AdmittedBy(s, run[0]), multiset(s1.kicks), RemovedBy(s, run[0]),
                Admitted(s1, rest), multiset(Exec(s1, rest).kicks), Removed(s1, rest));
    }
  }

  /** A kick's removal takes the first client of the name it asks for and nobody else, or, when nobody has the name,
      nobody. */
  lemma KickTakesFirstNamed(s: State, k: nat, i: nat)
    requires Enabled(s, KickRemove(k))
    ensures FirstNamed(s.clients, s.kicks[k].target, i) ==>
              Apply(s, KickRemove(k)).clients == s.clients[..i] + s.clients[i + 1..]
    ensures (forall j :: 0 <= j < |s.clients| ==> s.clients[j].name != s.kicks[k].target) ==>
              Apply(s, KickRemove(k)).clients == s.clients
  {
    if FirstNamed(s.clients, s.kicks[k].target, i) {
      FirstNamedIs(s.clients, s.kicks[k].target, i);
    }
    hide IndexOfName;
  }

  /** The steps of a kick with nothing in between: together they do to the list what the kick handler does. */
  function KickRun(s: State, addr: Addr, target: string): seq<Action> {
    [KickCheck(addr, target)] + if Apply(s, KickCheck(addr, target)) == s then [] else [KickRemove(|s.kicks|)]
  }

  lemma KickIsItsParts(s: State, addr: Addr, target: string)
    ensures ValidRun(s, KickRun(s, addr, target))
    ensures var e := Exec(s, KickRun(s, addr, target));
            e == s.(clients := Kicked(s.clients, addr, target))
  {
    hide RemoveByName;
    var a, s1 := KickCheck(addr, target), Apply(s, KickCheck(addr, target));
    NoSteps(s1);
    if Admits(s, addr) {
      var e := Apply(s1, KickRemove(|s.kicks|));
      assert Drop(s1.kicks, |s.kicks|) == s.kicks;
      assert s1.kicks != s.kicks;
      NoSteps(e);
      OneStep(s1, KickRemove(|s.kicks|), []);
      assert [KickRemove(|s.kicks|)] + [] == [KickRemove(|s.kicks|)];
      OneStep(s, a, [KickRemove(|s.kicks|)]);
    } else {
      OneStep(s, a, []);
    }
  }

  // ----- Disconnects -----

  /** Where a pending leave is after a run, if its own removal has not been made. */
  function LeaveAfter(run: seq<Action>, k: nat): Option<nat> {
    if run == [] then Some(k)
    else if run[0].DisconnectRemove? && run[0].k == k then None
    else LeaveAfter(run[1..], if run[0].DisconnectRemove? && run[0].k < k then k - 1 else k)
  }

  lemma {:induction false} LeaveStays(s: State, run: seq<Action>, k: nat)
    requires ValidRun(s, run) && k < |s.leaves| && LeaveAfter(run, k).Some?
    ensures var k' := LeaveAfter(run, k).value; k' < |Exec(s, run).leaves| && Exec(s, run).leaves[k'] == s.leaves[k]
    decreases |run|
  {
    if run != [] {
      var k1 := if run[0].DisconnectRemove? && run[0].k < k then k - 1 else k;
      LeaveStep(s, run[0], k);
      hide Apply, Enabled;
      LeaveStays(Apply(s, run[0]), run[1..], k1);
    }
  }

  lemma LeaveStep(s: State, a: Action, k: nat)
    requires Enabled(s, a) && k < |s.leaves| && !(a.DisconnectRemove? && a.k == k)
    ensures var k1, e := if a.DisconnectRemove? && a.k < k then k - 1 else k, Apply(s, a);
            k1 < |e.leaves| && e.leaves[k1] == s.leaves[k]
  {}

  /** A disconnect from an unknown address changes nothing. */
  lemma UnknownLeavesNobody(s: State, addr: Addr)
    requires forall i :: 0 <= i < |s.clients| ==> s.clients[i].addr != addr
    ensures Apply(s, DisconnectFind(addr)) == s
  {}

  /** From the lookup to the removal: whatever falls in between, if the sender is still listed and no name is in use
      twice when the removal is made, it takes out exactly the client that was first at the sender's address when it
      was looked up. */
  lemma DisconnectTakesTheSender(s: State, addr: Addr, i: nat, run: seq<Action>)
    requires Reachable(s) && FirstAt(s.clients, addr, i)
    requires ValidRun(Apply(s, DisconnectFind(addr)), run) && LeaveAfter(run, |s.leaves|).Some?
    requires var e := Exec(Apply(s, DisconnectFind(addr)), run);
             Listed(e, s.clients[i].id) && UniqueNames(e.clients)
    ensures var e, k := Exec(Apply(s, DisconnectFind(addr)), run), LeaveAfter(run, |s.leaves|).value;
            && Enabled(e, DisconnectRemove(k))
            && var e' := Apply(e, DisconnectRemove(k));
               && e'.clients == Without(e.clients, IndexOfId(e.clients, s.clients[i].id))
               && !Listed(e', s.clients[i].id)
  {
    var s1 := Apply(s, DisconnectFind(addr));
    FirstAtIs(s.clients, addr, i);
    assert s1.leaves[|s.leaves|] == s.clients[i].id;
    LeaveStays(s1, run, |s.leaves|);
    var e, k := Exec(s1, run), LeaveAfter(run, |s.leaves|).value;
    StaysReachable(s, DisconnectFind(addr), run);
    assert Enabled(e, DisconnectRemove(k));
    hide IndexOfAddr, IndexOfId, Reachable, Exec, ValidRun, Without, UniqueNames, Apply, LeaveAfter;
    DisconnectRemovesItsNode(e, k);
  }

  lemma StaysReachable(s: State, a: Action, run: seq<Action>)
    requires Reachable(s) && Enabled(s, a) && ValidRun(Apply(s, a), run)
    ensures Reachable(Exec(Apply(s, a), run))
  {
    hide Apply, Enabled;
    var clock: nat, before: seq<Action> :| ValidRun(Init(clock), before) && Exec(Init(clock), before) == s;
    OneStep(s, a, run);
    RunConcat(Init(clock), before, [a] + run);
    assert ValidRun(Init(clock), before + ([a] + run));
  }

  /** The steps of a disconnect with nothing in between: together they do what the disconnect handler does. */
  function LeaveRun(s: State, addr: Addr): seq<Action> {
    [DisconnectFind(addr)] + if Apply(s, DisconnectFind(addr)) == s then [] else [DisconnectRemove(|s.leaves|)]
  }

  lemma LeaveIsItsParts(s: State, addr: Addr)
    requires InOrder(s.clients, s.next)
    ensures ValidRun(s, LeaveRun(s, addr))
    ensures Exec(s, LeaveRun(s, addr)) == s.(clients := Left(s.clients, addr))
  {
    hide RemoveByName;
    var a, s1, i := DisconnectFind(addr), Apply(s, DisconnectFind(addr)), IndexOfAddr(s.clients, addr);
    NoSteps(s1);
    if i < |s.clients| {
      assert s1.leaves[|s.leaves|] == s.clients[i].id && s1.leaves != s.leaves;
      assert IndexOfId(s.clients, s.clients[i].id) == i;
      var e := Apply(s1, DisconnectRemove(|s.leaves|));
      assert Drop(s1.leaves, |s.leaves|) == s.leaves;
      NoSteps(e);
      OneStep(s1, DisconnectRemove(|s.leaves|), []);
      assert [DisconnectRemove(|s.leaves|)] + [] == [DisconnectRemove(|s.leaves|)];
      OneStep(s, a, [DisconnectRemove(|s.leaves|)]);
    } else {
      OneStep(s, a, []);
    }
  }

  // ----- Renames -----

  /** A rename takes effect, whether or not the name is in use: the first client at that address has the name, and is
      otherwise as before; everybody else is as before in everything. */
  lemma RenameRenamesTheSender(s: State, addr: Addr, name: string, i: nat)
    requires FirstAt(s.clients, addr, i)
    ensures Enabled(s, RenameTo(addr, name))
    ensures var e := Apply(s, RenameTo(addr, name));
            && |e.clients| == |s.clients| && e.clients[i] == s.clients[i].(name := name)
            && (forall j :: 0 <= j < |s.clients| && j != i ==> e.clients[j] == s.clients[j])
            && e.(clients := s.clients) == s
  {
    FirstAtIs(s.clients, addr, i);
    hide IndexOfAddr;
  }
}
