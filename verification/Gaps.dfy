/** The gaps in the connection manager's pass: between its scan, done as a reader, and the write of ping_sent or the
    removal by the name it copied. What falls in them, exactly when it does harm, and runs in which it does. */
module Gaps {
  import opened Net
  import opened Clients
  import opened Sequences
  import opened ServerRun
  import opened Inactivity

  /** The steps leave the manager's pass unfinished. */
  predicate Between(run: seq<Action>) {
    WritePing !in run && EvictRemove !in run
  }

  /** The node is heard from in the run. */
  ghost predicate Touched(s: State, run: seq<Action>, id: nat)
    requires ValidRun(s, run)
    decreases |run|
  {
    run != [] && (Touches(s, run[0], id) || Touched(Apply(s, run[0]), run[1..], id))
  }

  /** How a node stands after a gap, compared with before. */
  ghost predicate GapFollows(s: State, e: State, id: nat, touched: bool) {
    Listed(e, id) ==>
      && Listed(s, id)
      && if touched then Node(e, id).lastActive >= s.clock && Node(e, id).pingSent == 0
         else SameTimes(Node(s, id), Node(e, id))
  }

  lemma GapStep(s: State, a: Action, id: nat)
    requires Inv(s) && Enabled(s, a) && IsPicked(s, id) && a != WritePing && a != EvictRemove
    ensures Apply(s, a).manager == s.manager && Apply(s, a).clock >= s.clock
    ensures GapFollows(s, Apply(s, a), id, Touches(s, a, id))
  {
    StepFollows(s, a, id);
    ManagerAfter(s, a);
    hide Apply, Picked, IndexOfId, Touches, InOrder, KicksByAdmin;
  }

  lemma {:induction false} GapRun(s: State, run: seq<Action>, id: nat)
    requires Inv(s) && ValidRun(s, run) && IsPicked(s, id) && Between(run)
    ensures Exec(s, run).manager == s.manager && Exec(s, run).clock >= s.clock
    ensures GapFollows(s, Exec(s, run), id, Touched(s, run, id))
    decreases |run|
  {
    hide Inv, Apply, Enabled, Touches, IndexOfId;
    if run != [] {
      GapStep(s, run[0], id);
      StepKeepsInv(s, run[0]);
      GapRun(Apply(s, run[0]), run[1..], id);
    }
  }

  /** What a scan saw of the client it picks, and what is left of it after the gap. */
  lemma PickAfterGap(s: State, now: nat, gap: seq<Action>)
    requires Reachable(s) && Enabled(s, Scan(now)) && !Apply(s, Scan(now)).manager.Sleeping?
    requires ValidRun(Apply(s, Scan(now)), gap) && Between(gap)
    ensures var s1, e, id := Apply(s, Scan(now)), Exec(Apply(s, Scan(now)), gap), Apply(s, Scan(now)).manager.id;
            && e.manager == s1.manager && s1.manager.at == now <= e.clock && Inv(e)
            && Listed(s, id) && PickEarned(Node(s, id), s1.manager)
            && (Listed(e, id) ==> if Touched(s1, gap, id)
                                  then Node(e, id).lastActive >= s.clock >= now && Node(e, id).pingSent == 0
                                  else SameTimes(Node(s, id), Node(e, id)))
  {
    var s1 := Apply(s, Scan(now));
    ReachableInv(s);
    StepKeepsInv(s, Scan(now));
    ManagerAfter(s, Scan(now));
    PickTime(s, Scan(now));
    PickIsPlace(s.clients, s.next, now);
    hide Inv, Apply, Picked, FirstActionable, IndexOfId, PickEarned;
    GapRun(s1, gap, s1.manager.id);
    RunKeepsInv(s1, gap);
  }

  /** The ping that the manager records was earned exactly when the client was not heard from since the scan. */
  lemma PingIsEarnedIff(s: State, now: nat, gap: seq<Action>)
    requires Reachable(s) && Enabled(s, Scan(now)) && Apply(s, Scan(now)).manager.ToPing?
    requires ValidRun(Apply(s, Scan(now)), gap) && Between(gap)
    requires Listed(Exec(Apply(s, Scan(now)), gap), Apply(s, Scan(now)).manager.id)
    ensures Exec(Apply(s, Scan(now)), gap).manager == Apply(s, Scan(now)).manager
    ensures var s1, id := Apply(s, Scan(now)), Apply(s, Scan(now)).manager.id;
            var w := Apply(Exec(s1, gap), WritePing);
            && Listed(w, id) && Node(w, id).pingSent == now != 0
            && (PingEarned(Node(w, id)) <==> !Touched(s1, gap, id))
  {
    var s1 := Apply(s, Scan(now));
    var e := Exec(s1, gap);
    var k := IndexOfId(e.clients, s1.manager.id);
    PickAfterGap(s, now, gap);
    ReachableInv(s);
    UpdatePlace(e.clients, k, e.clients[k].(pingSent := now), s1.manager.id);
    assert Apply(e, WritePing).clients == e.clients[k := e.clients[k].(pingSent := now)];
    hide Apply, Picked, FirstActionable, IndexOfId, Touched, Exec, ValidRun, InOrder, KicksByAdmin, PickMakesSense;
  }

  /** Pinged after more than 180 seconds of silence and not heard from for more than 10 after that: 192 in all. */
  predicate FairlyEvicted(c: Client, at: int) {
    c.pingSent != 0 && c.pingSent - c.lastActive >= 181 && at - c.pingSent >= 11
  }

  /** When the manager comes to evict the client it picked, that is still fair exactly when the client was not heard
      from since the scan and its ping had been earned. If it was heard from, the silence is no longer than the gap. */
  lemma EvictionIsFairIff(s: State, now: nat, gap: seq<Action>)
    requires Reachable(s) && Enabled(s, Scan(now)) && Apply(s, Scan(now)).manager.ToEvict?
    requires ValidRun(Apply(s, Scan(now)), gap) && Between(gap)
    requires Listed(Exec(Apply(s, Scan(now)), gap), Apply(s, Scan(now)).manager.id)
    ensures var s1, id := Apply(s, Scan(now)), Apply(s, Scan(now)).manager.id;
            var e := Exec(s1, gap);
            && Listed(s, id)
            && (FairlyEvicted(Node(e, id), now) <==> !Touched(s1, gap, id) && PingEarned(Node(s, id)))
            && (PingEarned(Node(s, id)) ==> (now - Node(e, id).lastActive >= 192 <==> !Touched(s1, gap, id)))
            && (Touched(s1, gap, id) ==> e.clock - Node(e, id).lastActive <= e.clock - s.clock)
  {
    PickAfterGap(s, now, gap);
    hide Apply, Picked, IndexOfId, Touched, Exec, ValidRun, Inv, Reachable;
  }

  /** The removal takes out the client picked exactly when it is the first of the name copied, and then nobody else;
      otherwise it takes out whoever is, or nobody. */
  lemma EvictionTakesIff(s: State)
    requires Reachable(s) && s.manager.ToEvict? && Listed(s, s.manager.id)
    ensures var cs, m, e := s.clients, s.manager, Apply(s, EvictRemove);
            var i, k := IndexOfId(cs, m.id), IndexOfName(cs, m.name);
            && (!Listed(e, m.id) <==> cs[i].name == m.name && forall j :: 0 <= j < i ==> cs[j].name != m.name)
            && (!Listed(e, m.id) ==> e.clients == Without(cs, i))
            && (Listed(e, m.id) && k < |cs| ==> !Listed(e, cs[k].id) && cs[k].id != m.id)
            && (k == |cs| ==> e.clients == cs)
  {
    ReachableInv(s);
    var cs, m := s.clients, s.manager;
    var i, k := IndexOfId(cs, m.id), IndexOfName(cs, m.name);
    assert Apply(s, EvictRemove).clients == Without(cs, k);
    RemovalPlace(cs, s.next, k, m.id);
    if k < |cs| {
      PlaceOfId(cs, k, cs[k].id);
      RemovalPlace(cs, s.next, k, cs[k].id);
    }
    hide Apply, IndexOfId, InOrder, KicksByAdmin, TimesMakeSense, PickMakesSense;
  }

  // ----- Runs from the start in which a gap does harm -----

  function Ann(): Addr {
    Addr(1, 1)
  }

  /** Ann alone, connected at second 0. */
  function Alone(clock: int, lastActive: int, pingSent: int, m: Manager): State {
    State(clock, 1, [Client(0, Ann(), "ann", lastActive, pingSent)], [], [], m)
  }

  function Evicting(at: int): Manager {
    ToEvict(0, "ann", at)
  }

  /** The ways in which Ann's state changes. */
  lemma AloneSteps(clock: nat, lastActive: int, pingSent: int, seconds: nat, m: Manager)
    ensures var s := Alone(clock, lastActive, pingSent, m);
            && Enabled(s, Elapse(seconds)) && Enabled(s, Activity(Ann()))
            && Apply(s, Elapse(seconds)) == Alone(clock + seconds, lastActive, pingSent, m)
            && Apply(s, Activity(Ann())) == Alone(clock, clock, 0, m)
  {
    var c := Client(0, Ann(), "ann", lastActive, pingSent);
    assert IndexOfAddr([c], Ann()) == 0;
    assert [c][0 := c.(lastActive := clock, pingSent := 0)] == [Client(0, Ann(), "ann", clock, 0)];
  }

  lemma AlonePicked(clock: nat, lastActive: int, pingSent: int)
    requires clock - lastActive > 180 && (pingSent == 0 || clock - pingSent > 10)
    ensures Enabled(Alone(clock, lastActive, pingSent, Sleeping), Scan(clock))
    ensures Apply(Alone(clock, lastActive, pingSent, Sleeping), Scan(clock))
            == Alone(clock, lastActive, pingSent, if pingSent == 0 then ToPing(0, clock) else Evicting(clock))
  {
    assert FirstActionable([Client(0, Ann(), "ann", lastActive, pingSent)], clock) == 0;
  }

  lemma AlonePinged(clock: nat, lastActive: int, at: int)
    ensures Enabled(Alone(clock, lastActive, 0, ToPing(0, at)), WritePing)
    ensures Apply(Alone(clock, lastActive, 0, ToPing(0, at)), WritePing) == Alone(clock, lastActive, at, Sleeping)
  {
    var c := Client(0, Ann(), "ann", lastActive, 0);
    assert IndexOfId([c], 0) == 0;
    assert [c][0 := c.(pingSent := at)] == [Client(0, Ann(), "ann", lastActive, at)];
  }

  lemma Arrives(clock: nat)
    ensures Apply(Init(clock), Connect(Ann(), "ann")) == Alone(clock, clock, 0, Sleeping)
  {
    assert [] + [Client(0, Ann(), "ann", clock, 0)] == [Client(0, Ann(), "ann", clock, 0)];
  }

  /** Two steps more. */
  lemma TwoSteps(s: State, run: seq<Action>, a: Action, b: Action) returns (longer: seq<Action>)
    requires ValidRun(s, run) && FreeNames(s, run)
    requires Enabled(Exec(s, run), a) && Enabled(Apply(Exec(s, run), a), b)
    requires TakesFreeName(Exec(s, run), a) && TakesFreeName(Apply(Exec(s, run), a), b)
    ensures ValidRun(s, longer) && FreeNames(s, longer) && Exec(s, longer) == Apply(Apply(Exec(s, run), a), b)
  {
    var s1 := Exec(s, run);
    hide Apply, Enabled, TakesFreeName;
    NoSteps(Apply(Apply(s1, a), b));
    OneStep(Apply(s1, a), b, []);
    OneStep(s1, a, [b] + []);
    OneFreeStep(Apply(s1, a), b, []);
    OneFreeStep(s1, a, [b] + []);
    longer := run + ([a] + ([b] + []));
    RunConcat(s, run, [a] + ([b] + []));
    FreeNamesConcat(s, run, [a] + ([b] + []));
  }

  lemma OneStepMore(s: State, run: seq<Action>, a: Action) returns (longer: seq<Action>)
    requires ValidRun(s, run) && FreeNames(s, run) && Enabled(Exec(s, run), a) && TakesFreeName(Exec(s, run), a)
    ensures ValidRun(s, longer) && FreeNames(s, longer) && Exec(s, longer) == Apply(Exec(s, run), a)
  {
    var s1 := Exec(s, run);
    hide Apply, Enabled, TakesFreeName;
    NoSteps(Apply(s1, a));
    OneStep(s1, a, []);
    OneFreeStep(s1, a, []);
    longer := run + ([a] + []);
    RunConcat(s, run, [a] + []);
    FreeNamesConcat(s, run, [a] + []);
  }

  /** Up to the scan that picks Ann for her first ping, 181 seconds after she connected. */
  lemma FirstPick() returns (run: seq<Action>)
    ensures ValidRun(Init(0), run) && Exec(Init(0), run) == Alone(181, 0, 0, ToPing(0, 181))
    ensures FreeNames(Init(0), run)
  {
    var first := Connect(Ann(), "ann");
    assert Enabled(Init(0), first);
    hide Apply, Alone, Enabled;
    Arrives(0);
    AloneSteps(0, 0, 0, 181, Sleeping);
    AlonePicked(181, 0, 0);
    NoSteps(Init(0));
    run := OneStepMore(Init(0), [], first);
    run := TwoSteps(Init(0), run, Elapse(181), Scan(181));
  }

  /** A gap before the ping is recorded: Ann is heard from in it, so the ping that she needs no more stays pending, and
      181 seconds later she is picked for eviction without having been pinged again. */
  lemma PingGapEvictsEarly() returns (run: seq<Action>)
    ensures ValidRun(Init(0), run) && Exec(Init(0), run) == Alone(362, 181, 181, Evicting(362))
    ensures Apply(Alone(362, 181, 181, Evicting(362)), EvictRemove).clients == []
  {
    hide Apply, Alone, Enabled;
    var first := FirstPick();
    AloneSteps(181, 0, 0, 0, ToPing(0, 181));
    AlonePinged(181, 181, 181);
    AloneSteps(181, 181, 181, 181, Sleeping);
    AlonePicked(362, 181, 181);
    AloneEvicted(362, 181, 181, 362);
    var more := TwoSteps(Init(0), first, Activity(Ann()), WritePing);
    run := TwoSteps(Init(0), more, Elapse(181), Scan(362));
  }

  lemma AloneEvicted(clock: nat, lastActive: int, pingSent: int, at: int)
    ensures Apply(Alone(clock, lastActive, pingSent, Evicting(at)), EvictRemove).clients == []
  {
    var c := Client(0, Ann(), "ann", lastActive, pingSent);
    assert IndexOfName([c], "ann") == 0;
    assert Drop([c], 0) == [];
  }

  /** Up to the scan that picks Ann for eviction, rightly so far. */
  lemma SecondPick() returns (run: seq<Action>)
    ensures ValidRun(Init(0), run) && Exec(Init(0), run) == Alone(192, 0, 181, Evicting(192))
    ensures FreeNames(Init(0), run)
  {
    hide Apply, Alone, Enabled;
    var first := FirstPick();
    AlonePinged(181, 0, 181);
    AloneSteps(181, 0, 181, 11, Sleeping);
    AlonePicked(192, 0, 181);
    var more := TwoSteps(Init(0), first, WritePing, Elapse(11));
    run := OneStepMore(Init(0), more, Scan(192));
  }

  /** A gap before the removal: Ann is heard from in it, and evicted after no silence at all. */
  lemma EvictionGapEvictsAtOnce() returns (run: seq<Action>)
    ensures ValidRun(Init(0), run) && Exec(Init(0), run) == Alone(192, 192, 0, Evicting(192))
    ensures Apply(Alone(192, 192, 0, Evicting(192)), EvictRemove).clients == []
  {
    AloneEvicted(192, 192, 0, 192);
    hide Apply, Alone, Enabled;
    var first := SecondPick();
    AloneSteps(192, 0, 181, 0, Evicting(192));
    run := OneStepMore(Init(0), first, Activity(Ann()));
  }

  /** Ann under another name, and a newcomer under hers. */
  function Renamed(): State {
    State(192, 2, [Client(0, Ann(), "eve", 0, 181), Client(1, Addr(1, 2), "ann", 192, 0)], [], [], Evicting(192))
  }

  lemma RenamedFollows()
    ensures var s := Alone(192, 0, 181, Evicting(192));
            var a, b := RenameTo(Ann(), "eve"), Connect(Addr(1, 2), "ann");
            && Enabled(s, a) && TakesFreeName(s, a) && Enabled(Apply(s, a), b) && TakesFreeName(Apply(s, a), b)
            && Apply(Apply(s, a), b) == Renamed()
  {
    var c, d := Client(0, Ann(), "ann", 0, 181), Client(0, Ann(), "eve", 0, 181);
    var s1 := State(192, 1, [d], [], [], Evicting(192));
    assert IndexOfAddr([c], Ann()) == 0;
    assert [c][0 := c.(name := "eve")] == [d];
    assert Apply(Alone(192, 0, 181, Evicting(192)), RenameTo(Ann(), "eve")) == s1;
    NewAnn(d);
  }

  lemma NewAnn(d: Client)
    requires d == Client(0, Ann(), "eve", 0, 181)
    ensures var s, b := State(192, 1, [d], [], [], Evicting(192)), Connect(Addr(1, 2), "ann");
            TakesFreeName(s, b) && Apply(s, b) == Renamed()
  {
    var e := Client(1, Addr(1, 2), "ann", 192, 0);
    assert "eve"[0] != "ann"[0];
    assert [d] + [e] == [d, e];
  }

  lemma WrongOneEvicted()
    ensures Apply(Renamed(), EvictRemove).clients == [Client(0, Ann(), "eve", 0, 181)]
  {
    var d, e := Client(0, Ann(), "eve", 0, 181), Client(1, Addr(1, 2), "ann", 192, 0);
    assert "eve"[0] != "ann"[0];
    assert IndexOfName([d, e], "ann") == 1;
    assert Drop([d, e], 1) == [d];
  }

  /** A rename in the gap: though no name is in use twice at any time, the manager evicts a client that connected
      this very second, and Ann stays. */
  lemma RenameGapEvictsAnother() returns (run: seq<Action>)
    ensures ValidRun(Init(0), run) && Exec(Init(0), run) == Renamed() && UniqueThroughout(Init(0), run)
    ensures Apply(Renamed(), EvictRemove).clients == [Client(0, Ann(), "eve", 0, 181)]
  {
    var first := SecondPick();
    RenamedFollows();
    WrongOneEvicted();
    hide Apply, Alone, Renamed;
    run := TwoSteps(Init(0), first, RenameTo(Ann(), "eve"), Connect(Addr(1, 2), "ann"));
    FreeNamesStayUnique(Init(0), run);
  }
}
