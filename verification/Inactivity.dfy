/** Inactive clients, over every interleaving of all handlers with the parts of the connection manager's passes:
    whom a ping and an eviction find, and what falls in the gaps between a scan and what follows it. */
module Inactivity {
  import opened CStrings
  import opened Net
  import opened Clients
  import opened ServerRun

  // ----- What a step does to one node -----

  /** The node, while it is listed. */
  function Node(s: State, id: nat): Client
    requires Listed(s, id)
  {
    s.clients[IndexOfId(s.clients, id)]
  }

  /** The step is activity of that node. */
  predicate Touches(s: State, a: Action, id: nat) {
    a.Activity? && var i := IndexOfAddr(s.clients, a.addr); i < |s.clients| && s.clients[i].id == id
  }

  /** The ping that a step records, if it does. */
  function PingOf(s: State, a: Action): Manager {
    if a.WritePing? then s.manager else if a.Pass? then Picked(s.clients, s.clock + a.seconds) else Sleeping
  }

  lemma PlaceOfId(cs: seq<Client>, j: nat, id: nat)
    requires j < |cs| && cs[j].id == id && forall i :: 0 <= i < j ==> cs[i].id != id
    ensures IndexOfId(cs, id) == j
  {}

  /** Where a node is after place k is removed. */
  lemma RemovalPlace(cs: seq<Client>, next: nat, k: nat, id: nat)
    requires InOrder(cs, next)
    ensures var w, j, i := Without(cs, k), IndexOfId(cs, id), IndexOfId(Without(cs, k), id);
            if j == |cs| || k == j then i == |w|
            else i < |w| && w[i] == cs[j] && i == (if k < j then j - 1 else j)
  {
    var w, j := Without(cs, k), IndexOfId(cs, id);
    WithoutAt(cs, k);
    hide Without;
    if j < |cs| && k != j {
      PlaceOfId(w, if k < j then j - 1 else j, id);
    }
  }

  lemma UpdatePlace(cs: seq<Client>, k: nat, c: Client, id: nat)
    requires k < |cs| && c.id == cs[k].id
    ensures var u, j := cs[k := c], IndexOfId(cs, id);
            IndexOfId(u, id) == j && (j < |cs| ==> u[j] == if k == j then c else cs[j])
  {
    var u, j := cs[k := c], IndexOfId(cs, id);
    if j < |cs| {
      PlaceOfId(u, j, id);
    } else {
      assert IndexOfId(u, id) == |u|;
    }
  }

  lemma AddPlace(cs: seq<Client>, c: Client, id: nat)
    requires c.id != id
    ensures var j := IndexOfId(cs, id); IndexOfId(cs + [c], id) == if j < |cs| then j else |cs| + 1
  {
    var j := IndexOfId(cs, id);
    if j < |cs| {
      PlaceOfId(cs + [c], j, id);
    } else {
      assert IndexOfId(cs + [c], id) == |cs| + 1;
    }
  }

  predicate SameTimes(c: Client, e: Client) {
    e.lastActive == c.lastActive && e.pingSent == c.pingSent
  }

  /** What a change of the list by one step means for a node's times. */
  ghost predicate NodeFollows(cs: seq<Client>, es: seq<Client>, id: nat, touched: bool, clock: int, ping: Manager) {
    var j, i := IndexOfId(cs, id), IndexOfId(es, id);
    i < |es| ==>
      && j < |cs|
      && if touched then es[i].lastActive == clock && es[i].pingSent == 0
         else if ping.ToPing? && ping.id == id then es[i] == cs[j].(pingSent := ping.at)
         else SameTimes(cs[j], es[i])
  }

  lemma RemovalFollows(cs: seq<Client>, next: nat, k: nat, id: nat, clock: int, ping: Manager)
    requires InOrder(cs, next) && !ping.ToPing?
    ensures NodeFollows(cs, Without(cs, k), id, false, clock, ping)
  {
    RemovalPlace(cs, next, k, id);
    hide IndexOfId, Without;
  }

  lemma PingFollows(cs: seq<Client>, ping: Manager, id: nat, clock: int)
    requires ping.ToPing?
    ensures NodeFollows(cs, RecordPing(cs, ping.id, ping.at), id, false, clock, ping)
  {
    var k := IndexOfId(cs, ping.id);
    if k < |cs| {
      UpdatePlace(cs, k, cs[k].(pingSent := ping.at), id);
    }
    hide IndexOfId;
  }

  lemma TouchFollows(cs: seq<Client>, next: nat, addr: Addr, id: nat, clock: int)
    requires InOrder(cs, next)
    ensures var k := IndexOfAddr(cs, addr);
            NodeFollows(cs, Touch(cs, addr, clock), id, k < |cs| && cs[k].id == id, clock, Sleeping)
  {
    var k := IndexOfAddr(cs, addr);
    if k < |cs| {
      UpdatePlace(cs, k, cs[k].(lastActive := clock, pingSent := 0), id);
      if cs[k].id == id {
        PlaceOfId(cs, k, id);
      }
    }
    hide IndexOfId, IndexOfAddr;
  }

  lemma RenameFollows(cs: seq<Client>, addr: Addr, name: string, id: nat, clock: int)
    ensures NodeFollows(cs, Rename(cs, addr, name), id, false, clock, Sleeping)
  {
    var k := IndexOfAddr(cs, addr);
    if k < |cs| {
      UpdatePlace(cs, k, cs[k].(name := name), id);
    }
    hide IndexOfId, IndexOfAddr;
  }

  lemma PassFollows(cs: seq<Client>, next: nat, now: int, id: nat, clock: int)
    requires InOrder(cs, next)
    ensures NodeFollows(cs, Tick(cs, now), id, false, clock, Picked(cs, now))
  {
    hide NodeFollows, Tick, Picked, RecordPing, Without, IndexOfName;
    PassIsPicked(cs, next, now);
    match Picked(cs, now) {
      case Sleeping => NothingFollows(cs, id, clock);
      case ToPing(_, _) => PingFollows(cs, Picked(cs, now), id, clock);
      case ToEvict(_, name, _) => RemovalFollows(cs, next, IndexOfName(cs, name), id, clock, Picked(cs, now));
    }
  }

  lemma NothingFollows(cs: seq<Client>, id: nat, clock: int)
    ensures NodeFollows(cs, cs, id, false, clock, Sleeping)
  {}

  lemma ConnectFollows(cs: seq<Client>, c: Client, id: nat, clock: int)
    requires c.id != id
    ensures NodeFollows(cs, cs + [c], id, false, clock, Sleeping)
  {
    AddPlace(cs, c, id);
    hide IndexOfId;
  }

  /** One step, one node: activity of the node sets its times, a ping recorded for it sets pingSent, and nothing
      else does either. */
  lemma StepFollows(s: State, a: Action, id: nat)
    requires Inv(s) && Enabled(s, a) && id < s.next
    ensures NodeFollows(s.clients, Apply(s, a).clients, id, Touches(s, a, id), s.clock, PingOf(s, a))
    ensures id < Apply(s, a).next && s.clock <= Apply(s, a).clock
  {
    var cs := s.clients;
    hide InOrder, TimesMakeSense, PickMakesSense, KicksByAdmin, NodeFollows;
    hide Tick, Picked, RecordPing, Without, Touch, Rename, IndexOfName, IndexOfAddr;
    match a {
      case Connect(addr, name) =>
        ConnectFollows(cs, Client(s.next, addr, Clip(name, NAME_SIZE - 1), s.clock, 0), id, s.clock);
      case Activity(addr) => TouchFollows(cs, s.next, addr, id, s.clock);
      case RenameTo(addr, name) => RenameFollows(cs, addr, name, id, s.clock);
      case KickRemove(k) => RemovalFollows(cs, s.next, IndexOfName(cs, s.kicks[k].target), id, s.clock, Sleeping);
      case DisconnectRemove(k) =>
        RemovalFollows(cs, s.next, IndexOfName(cs, CurrentName(s, s.leaves[k])), id, s.clock, Sleeping);
      case Pass(seconds) => PassFollows(cs, s.next, s.clock + seconds, id, s.clock);
      case WritePing => PingFollows(cs, s.manager, id, s.clock);
      case EvictRemove => RemovalFollows(cs, s.next, IndexOfName(cs, s.manager.name), id, s.clock, Sleeping);
      case _ => NothingFollows(cs, id, s.clock);
    }
  }

  // ----- Clean runs: nobody is heard from between a scan that picks it and what follows -----

  predicate TouchesPicked(s: State, a: Action) {
    !s.manager.Sleeping? && Touches(s, a, s.manager.id)
  }

  ghost predicate CleanRun(s: State, run: seq<Action>)
    decreases |run|
  {
    run == [] || (Enabled(s, run[0]) && !TouchesPicked(s, run[0]) && CleanRun(Apply(s, run[0]), run[1..]))
  }

  /** Runs of whole passes are clean. */
  lemma {:induction false} WholePassesAreClean(s: State, run: seq<Action>)
    requires s.manager.Sleeping? && ValidRun(s, run) && forall i :: 0 <= i < |run| ==> !run[i].Scan?
    ensures CleanRun(s, run)
    decreases |run|
  {
    if run != [] {
      ManagerAfter(s, run[0]);
      hide Apply, Enabled, Touches;
      assert forall i :: 0 <= i < |run[1..]| ==> run[1..][i] == run[i + 1];
      WholePassesAreClean(Apply(s, run[0]), run[1..]);
    }
  }

  ghost predicate CleanlyReachable(s: State) {
    exists clock: nat, run: seq<Action> ::
      ValidRun(Init(clock), run) && CleanRun(Init(clock), run) && Exec(Init(clock), run) == s
  }

  /** A pending ping was sent after more than three minutes of silence. */
  predicate PingEarned(c: Client) {
    c.pingSent != 0 ==> c.pingSent - c.lastActive > INACTIVITY_THRESHOLD
  }

  /** The client picked still is what the scan saw. */
  predicate PickEarned(c: Client, m: Manager)
    requires !m.Sleeping?
  {
    && m.at - c.lastActive > INACTIVITY_THRESHOLD
    && if m.ToPing? then c.pingSent == 0 else c.pingSent != 0 && m.at - c.pingSent > PING_TIMEOUT
  }

  /** One node's share of what clean runs keep. */
  predicate EarnedAt(s: State, id: nat) {
    Listed(s, id) ==>
      PingEarned(Node(s, id)) && (!s.manager.Sleeping? && s.manager.id == id ==> PickEarned(Node(s, id), s.manager))
  }

  lemma PickIsPlace(cs: seq<Client>, next: nat, now: int)
    requires InOrder(cs, next) && !Picked(cs, now).Sleeping?
    ensures var k := FirstActionable(cs, now);
            k < |cs| && IndexOfId(cs, Picked(cs, now).id) == k && PickEarned(cs[k], Picked(cs, now))
  {
    var k := FirstActionable(cs, now);
    PlaceOfId(cs, k, cs[k].id);
  }

  lemma CleanStepEarns(s: State, a: Action, id: nat)
    requires Inv(s) && Enabled(s, a) && !TouchesPicked(s, a) && id < s.next && EarnedAt(s, id)
    ensures EarnedAt(Apply(s, a), id)
  {
    StepFollows(s, a, id);
    if a.Pass? && PingOf(s, a).ToPing? {
      PickIsPlace(s.clients, s.next, s.clock + a.seconds);
    }
    if a.Scan? && !Picked(s.clients, a.now).Sleeping? {
      PickIsPlace(s.clients, s.next, a.now);
    }
    ManagerAfter(s, a);
    hide Apply, Picked, FirstActionable, IndexOfId, IndexOfAddr, InOrder, KicksByAdmin, Enabled;
  }

  /** Only scans start a pass, and only the write or the removal ends it. */
  lemma ManagerAfter(s: State, a: Action)
    requires Enabled(s, a)
    ensures Apply(s, a).manager
            == if a.Scan? then Picked(s.clients, a.now)
               else if a.WritePing? || a.EvictRemove? then Sleeping
               else s.manager
    ensures a.Pass? || a.Scan? ==> s.manager.Sleeping?
    ensures a.Scan? ==> a.now <= s.clock
    ensures a.Scan? ==> Apply(s, a).clients == s.clients
  {
    hide Picked;
  }

  lemma NewcomerEarns(s: State, a: Action, id: nat)
    requires Inv(s) && Enabled(s, a) && s.next <= id
    ensures EarnedAt(Apply(s, a), id)
  {
    var e := Apply(s, a);
    ManagerAfter(s, a);
    if Listed(e, id) {
      var i := IndexOfId(e.clients, id);
      if Removes(s, a) {
        RemovalStep(s, a);
        WithoutAt(s.clients, RemovedAt(s, a));
      } else {
        KeepingStep(s, a);
      }
      assert i >= |s.clients| && a.Connect?;
      assert e.clients[i] == Client(s.next, a.addr, Clip(a.name, NAME_SIZE - 1), s.clock, 0);
    }
    hide Apply, Removes, RemovedAt, Without, IndexOfId;
  }

  ghost predicate AllEarned(s: State) {
    forall id: nat :: EarnedAt(s, id)
  }

  lemma {:induction false} CleanRunEarns(s: State, run: seq<Action>)
    requires Inv(s) && ValidRun(s, run) && CleanRun(s, run) && AllEarned(s)
    ensures AllEarned(Exec(s, run))
    decreases |run|
  {
    hide Inv, Apply, EarnedAt, Enabled;
    if run != [] {
      forall id: nat ensures EarnedAt(Apply(s, run[0]), id) {
        if id < s.next {
          CleanStepEarns(s, run[0], id);
        } else {
          NewcomerEarns(s, run[0], id);
        }
      }
      StepKeepsInv(s, run[0]);
      CleanRunEarns(Apply(s, run[0]), run[1..]);
    }
  }

  lemma CleanlyReachableEarns(s: State)
    requires CleanlyReachable(s)
    ensures Inv(s) && AllEarned(s) && Reachable(s)
  {
    var clock: nat, run: seq<Action> :|
      ValidRun(Init(clock), run) && CleanRun(Init(clock), run) && Exec(Init(clock), run) == s;
    CleanRunEarns(Init(clock), run);
    RunKeepsInv(Init(clock), run);
  }

  /** Over every clean run, whoever the manager is about to evict has been silent for at least 192 seconds and has
      left a ping unanswered for at least 11. */
  lemma EvictionIsEarned(s: State)
    requires CleanlyReachable(s) && s.manager.ToEvict? && Listed(s, s.manager.id)
    ensures var c, at := Node(s, s.manager.id), s.manager.at;
            at - c.lastActive >= 192 && c.pingSent != 0 && at - c.pingSent >= 11 && at <= s.clock
  {
    CleanlyReachableEarns(s);
    assert EarnedAt(s, s.manager.id);
  }

  lemma FirstWithItsName(cs: seq<Client>, k: nat)
    requires UniqueNames(cs) && k < |cs|
    ensures IndexOfName(cs, cs[k].name) == k
  {}

  /** A whole pass that takes a client off the list picked it for eviction, when names are unique. */
  lemma TickTakesItsPick(cs: seq<Client>, next: nat, now: int, i: nat)
    requires InOrder(cs, next) && UniqueNames(cs) && i < |cs|
    ensures var m := Picked(cs, now);
            IndexOfId(Tick(cs, now), cs[i].id) == |Tick(cs, now)|
            ==> m.ToEvict? && m.id == cs[i].id && m.at == now && PickEarned(cs[i], m)
  {
    var id, m, k := cs[i].id, Picked(cs, now), FirstActionable(cs, now);
    PassIsPicked(cs, next, now);
    if !m.Sleeping? {
      PickIsPlace(cs, next, now);
    }
    PlaceOfId(cs, i, id);
    assert !m.Sleeping? ==> m.at == now && (m.ToEvict? ==> m.name == cs[k].name);
    hide Picked, FirstActionable, IndexOfId, IndexOfName, Tick, Without, PickEarned, InOrder;
    if m.ToEvict? {
      FirstWithItsName(cs, k);
      RemovalPlace(cs, next, k, id);
    } else if m.ToPing? {
      UpdatePlace(cs, k, cs[k].(pingSent := now), id);
    }
  }

  lemma WholePassEvictsItsPick(s: State, seconds: nat, i: nat)
    requires Inv(s) && UniqueNames(s.clients) && Enabled(s, Pass(seconds)) && i < |s.clients|
    requires !Listed(Apply(s, Pass(seconds)), s.clients[i].id)
    ensures var m := Picked(s.clients, s.clock + seconds);
            m.ToEvict? && m.id == s.clients[i].id && m.at == s.clock + seconds && PickEarned(s.clients[i], m)
  {
    hide Picked, Tick, UniqueNames, InOrder, PickEarned;
    TickTakesItsPick(s.clients, s.next, s.clock + seconds, i);
  }

  /** The case with nothing in between: whoever a whole pass takes off the list has earned it. */
  lemma WholePassEvictionIsEarned(s: State, seconds: nat, i: nat)
    requires CleanlyReachable(s) && UniqueNames(s.clients) && Enabled(s, Pass(seconds)) && i < |s.clients|
    requires !Listed(Apply(s, Pass(seconds)), s.clients[i].id)
    ensures var c, now := s.clients[i], s.clock + seconds;
            now - c.lastActive >= 192 && c.pingSent != 0 && now - c.pingSent >= 11
  {
    CleanlyReachableEarns(s);
    WholePassEvictsItsPick(s, seconds, i);
    PlaceOfId(s.clients, i, s.clients[i].id);
    assert EarnedAt(s, s.clients[i].id);
    hide Picked, CleanlyReachable, Apply, UniqueNames;
  }

  // ----- Activity protects -----

  /** The manager has picked the node, for a ping or for eviction. */
  predicate IsPicked(s: State, id: nat) {
    !s.manager.Sleeping? && s.manager.id == id
  }

  /** Heard from no earlier than `time`; pings and evictions of it follow only so much later. */
  predicate Guarded(s: State, id: nat, time: int) {
    && time <= s.clock && id < s.next
    && (Listed(s, id) ==>
          Node(s, id).lastActive >= time
          && (Node(s, id).pingSent != 0 ==> Node(s, id).pingSent > time + INACTIVITY_THRESHOLD))
    && (IsPicked(s, id) ==>
          s.manager.at > time + INACTIVITY_THRESHOLD
          && (s.manager.ToEvict? ==> s.manager.at >= time + 192))
  }

  lemma StepGuards(s: State, a: Action, id: nat, time: int)
    requires Inv(s) && Enabled(s, a) && Guarded(s, id, time)
    ensures Guarded(Apply(s, a), id, time)
  {
    StepFollows(s, a, id);
    ManagerAfter(s, a);
    PickTime(s, a);
    if a.Pass? && PingOf(s, a).ToPing? {
      PickIsPlace(s.clients, s.next, s.clock + a.seconds);
    }
    if a.Scan? && !Picked(s.clients, a.now).Sleeping? {
      PickIsPlace(s.clients, s.next, a.now);
    }
    hide Apply, Picked, FirstActionable, IndexOfId, IndexOfAddr, InOrder, KicksByAdmin, Enabled, TimesMakeSense;
    hide PickMakesSense, Touches;
  }

  lemma PickTime(s: State, a: Action)
    ensures var now := if a.Scan? then a.now else s.clock + if a.Pass? then a.seconds else 0;
            !Picked(s.clients, now).Sleeping? ==> Picked(s.clients, now).at == now
  {}

  lemma {:induction false} RunGuards(s: State, run: seq<Action>, id: nat, time: int)
    requires Inv(s) && ValidRun(s, run) && Guarded(s, id, time)
    ensures Guarded(Exec(s, run), id, time)
    decreases |run|
  {
    hide Inv, Apply, Guarded, Enabled;
    if run != [] {
      StepKeepsInv(s, run[0]);
      StepGuards(s, run[0], id, time);
      RunGuards(Apply(s, run[0]), run[1..], id, time);
    }
  }

  /** Heard from no earlier than `time`, and not picked for eviction with less than 181 seconds of silence after it. */
  predicate Heard(s: State, id: nat, time: int) {
    && time <= s.clock && id < s.next
    && (Listed(s, id) ==> Node(s, id).lastActive >= time)
    && (IsPicked(s, id) && s.manager.ToEvict? ==> s.manager.at > time + INACTIVITY_THRESHOLD)
  }

  lemma StepHears(s: State, a: Action, id: nat, time: int)
    requires Inv(s) && Enabled(s, a) && Heard(s, id, time)
    ensures Heard(Apply(s, a), id, time)
  {
    StepFollows(s, a, id);
    ManagerAfter(s, a);
    PickTime(s, a);
    if a.Scan? && !Picked(s.clients, a.now).Sleeping? {
      PickIsPlace(s.clients, s.next, a.now);
    }
    hide Apply, Picked, FirstActionable, IndexOfId, IndexOfAddr, InOrder, KicksByAdmin, Enabled, TimesMakeSense;
    hide PickMakesSense, Touches;
  }

  lemma {:induction false} RunHears(s: State, run: seq<Action>, id: nat, time: int)
    requires Inv(s) && ValidRun(s, run) && Heard(s, id, time)
    ensures Heard(Exec(s, run), id, time)
    decreases |run|
  {
    hide Inv, Apply, Heard, Enabled;
    if run != [] {
      StepKeepsInv(s, run[0]);
      StepHears(s, run[0], id, time);
      RunHears(Apply(s, run[0]), run[1..], id, time);
    }
  }

  /** What protects a node: it is not picked for eviction before `until`, by the parts of a pass or by a whole one. */
  ghost predicate Spared(s: State, id: nat, until: int) {
    && (s.manager.ToEvict? && s.manager.id == id ==> s.manager.at >= until)
    && forall seconds: nat ::
         Enabled(s, Pass(seconds)) && UniqueNames(s.clients) && Listed(s, id) && s.clock + seconds < until
         ==> Listed(Apply(s, Pass(seconds)), id)
  }

  /** A pick before `until` would need what the node's times exclude. */
  lemma NotPickedIsSpared(s: State, id: nat, until: int)
    requires Inv(s) && (IsPicked(s, id) && s.manager.ToEvict? ==> s.manager.at >= until)
    requires Listed(s, id) ==>
               var c := Node(s, id);
               c.lastActive + INACTIVITY_THRESHOLD + 1 >= until
               || (c.pingSent != 0 ==> c.pingSent + PING_TIMEOUT + 1 >= until)
    ensures Spared(s, id, until)
  {
    hide Apply, Inv, Enabled, UniqueNames;
    forall seconds: nat | Enabled(s, Pass(seconds)) && UniqueNames(s.clients) && Listed(s, id)
                          && s.clock + seconds < until
      ensures Listed(Apply(s, Pass(seconds)), id)
    {
      if !Listed(Apply(s, Pass(seconds)), id) {
        WholePassEvictsItsPick(s, seconds, IndexOfId(s.clients, id));
      }
    }
  }

  lemma TouchGuards(s: State, addr: Addr, i: nat)
    requires Inv(s) && i == IndexOfAddr(s.clients, addr) < |s.clients| && !IsPicked(s, s.clients[i].id)
    ensures Guarded(Apply(s, Activity(addr)), s.clients[i].id, s.clock)
    ensures Apply(s, Activity(addr)).clients[i].pingSent == 0
  {
    var id := s.clients[i].id;
    StepFollows(s, Activity(addr), id);
    ManagerAfter(s, Activity(addr));
    hide IndexOfAddr, IndexOfId, InOrder, KicksByAdmin;
  }

  lemma TouchHears(s: State, addr: Addr, i: nat)
    requires Inv(s) && i == IndexOfAddr(s.clients, addr) < |s.clients|
    requires !(IsPicked(s, s.clients[i].id) && s.manager.ToEvict?)
    ensures Heard(Apply(s, Activity(addr)), s.clients[i].id, s.clock)
  {
    var id := s.clients[i].id;
    StepFollows(s, Activity(addr), id);
    ManagerAfter(s, Activity(addr));
    hide IndexOfAddr, IndexOfId, InOrder, KicksByAdmin;
  }

  /** Any command but connect cancels its sender's pending ping, and for the next 191 seconds no pass evicts the
      sender, whatever falls in between, if no pass had picked it before; */
  lemma ActivityProtects(s: State, addr: Addr, run: seq<Action>, i: nat)
    requires Reachable(s) && i == IndexOfAddr(s.clients, addr) < |s.clients| && !IsPicked(s, s.clients[i].id)
    requires ValidRun(Apply(s, Activity(addr)), run)
    ensures Apply(s, Activity(addr)).clients[i].pingSent == 0
    ensures Spared(Exec(Apply(s, Activity(addr)), run), s.clients[i].id, s.clock + 192)
  {
    ReachableInv(s);
    StepKeepsInv(s, Activity(addr));
    TouchGuards(s, addr, i);
    hide IndexOfAddr, Inv, Guarded, Spared, Apply;
    var s1 := Apply(s, Activity(addr));
    RunGuards(s1, run, s.clients[i].id, s.clock);
    RunKeepsInv(s1, run);
    GuardedIsSpared(Exec(s1, run), s.clients[i].id, s.clock);
  }

  lemma GuardedIsSpared(s: State, id: nat, time: int)
    requires Inv(s) && Guarded(s, id, time)
    ensures Spared(s, id, time + 192)
  {
    hide Inv, Spared, IndexOfId;
    NotPickedIsSpared(s, id, time + 192);
  }

  lemma HeardIsSpared(s: State, id: nat, time: int)
    requires Inv(s) && Heard(s, id, time)
    ensures Spared(s, id, time + 181)
  {
    hide Inv, Spared, IndexOfId;
    NotPickedIsSpared(s, id, time + 181);
  }

  /** if one had, but for a ping, then for the next 180. And these are all that are protected: a sender picked for
      eviction before is picked still. */
  lemma ActivityProtectsIff(s: State, addr: Addr, i: nat)
    requires Reachable(s) && i == IndexOfAddr(s.clients, addr) < |s.clients|
    ensures (forall run :: ValidRun(Apply(s, Activity(addr)), run)
                           ==> Spared(Exec(Apply(s, Activity(addr)), run), s.clients[i].id, s.clock + 181))
            <==> !(IsPicked(s, s.clients[i].id) && s.manager.ToEvict?)
  {
    ReachableInv(s);
    StepKeepsInv(s, Activity(addr));
    ManagerAfter(s, Activity(addr));
    var s1, id := Apply(s, Activity(addr)), s.clients[i].id;
    if IsPicked(s, id) && s.manager.ToEvict? {
      NoSteps(s1);
      assert s1.manager.at <= s.clock;
      assert !Spared(Exec(s1, []), id, s.clock + 181);
    } else {
      TouchHears(s, addr, i);
      hide IndexOfAddr, Inv, Heard, Spared, Apply;
      forall run | ValidRun(s1, run) ensures Spared(Exec(s1, run), id, s.clock + 181) {
        RunHears(s1, run, id, s.clock);
        RunKeepsInv(s1, run);
        HeardIsSpared(Exec(s1, run), id, s.clock);
      }
    }
  }

  /** So does connecting. */
  lemma ConnectProtects(s: State, addr: Addr, name: string, run: seq<Action>)
    requires Reachable(s) && ValidRun(Apply(s, Connect(addr, name)), run)
    ensures Spared(Exec(Apply(s, Connect(addr, name)), run), s.next, s.clock + 192)
  {
    ReachableInv(s);
    StepKeepsInv(s, Connect(addr, name));
    var s1 := Apply(s, Connect(addr, name));
    PlaceOfId(s1.clients, |s.clients|, s.next);
    assert Guarded(s1, s.next, s.clock);
    hide IndexOfId, Inv, Guarded, Spared, Apply;
    RunGuards(s1, run, s.next, s.clock);
    RunKeepsInv(s1, run);
    GuardedIsSpared(Exec(s1, run), s.next, s.clock);
  }
}
