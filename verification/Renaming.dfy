/** Why bounded eviction needs that nobody picked for eviction is renamed before the removal: with such renames one
    client, the silent one itself if need be, holds the connection manager up for any time. */
module Renaming {
  import opened Net
  import opened Clients
  import opened ServerRun
  import opened Eviction

  function Ann(): Addr {
    Addr(1, 1)
  }

  function AnnsName(eve: bool): string {
    if eve then "eve" else "ann"
  }

  function AnnsNode(eve: bool, pingSent: int): Client {
    Client(0, Ann(), AnnsName(eve), 0, pingSent)
  }

  /** The clients behind Ann, last heard from at second 192. */
  function Others(m: nat): (cs: seq<Client>)
    ensures |cs| == m && forall p :: 0 <= p < m ==> cs[p] == Client(p + 1, Addr(2, p), "bob", 192, 0)
  {
    seq(m, p requires 0 <= p < m => Client(p + 1, Addr(2, p), "bob", 192, 0))
  }

  /** Ann, silent since second 0, under one of two names, and m others behind her. */
  function Row(m: nat, clock: int, eve: bool, pingSent: int, manager: Manager): State {
    State(clock, m + 1, [AnnsNode(eve, pingSent)] + Others(m), [], [], manager)
  }

  lemma NamesDiffer(eve: bool)
    ensures AnnsName(eve) != AnnsName(!eve) && AnnsName(eve) != "bob"
  {
    assert AnnsName(eve)[0] != AnnsName(!eve)[0] && AnnsName(eve)[0] != "bob"[0];
  }

  // ----- The steps -----

  lemma Elapses(m: nat, clock: nat, eve: bool, pingSent: int, seconds: nat)
    ensures var s := Row(m, clock, eve, pingSent, Sleeping);
            Enabled(s, Elapse(seconds)) && Apply(s, Elapse(seconds)) == Row(m, clock + seconds, eve, pingSent, Sleeping)
  {
    hide Others, AnnsName;
  }

  /** Ann is picked when she is due; nobody is when she is not and is alone. */
  lemma RowScanned(m: nat, clock: nat, eve: bool, pingSent: int)
    requires clock > 180 && pingSent >= 0 && (m > 0 ==> pingSent == 0 || clock - pingSent > 10)
    ensures var s := Row(m, clock, eve, pingSent, Sleeping);
            && Enabled(s, Scan(clock))
            && Apply(s, Scan(clock))
               == Row(m, clock, eve, pingSent, if pingSent == 0 then ToPing(0, clock)
                                               else if clock - pingSent > 10 then ToEvict(0, AnnsName(eve), clock)
                                               else Sleeping)
  {
    var s := Row(m, clock, eve, pingSent, Sleeping);
    assert s.clients[0] == AnnsNode(eve, pingSent);
    if pingSent == 0 || clock - pingSent > 10 {
      assert FirstActionable(s.clients, clock) == 0;
    } else {
      assert FirstActionable(s.clients, clock) == 1 == |s.clients|;
    }
    hide FirstActionable, AnnsName, Others;
  }

  lemma RowPinged(m: nat, clock: nat, eve: bool, at: int)
    ensures var s := Row(m, clock, eve, 0, ToPing(0, at));
            Enabled(s, WritePing) && Apply(s, WritePing) == Row(m, clock, eve, at, Sleeping)
  {
    var s := Row(m, clock, eve, 0, ToPing(0, at));
    assert s.clients[0] == AnnsNode(eve, 0);
    assert IndexOfId(s.clients, 0) == 0;
    assert s.clients[0 := s.clients[0].(pingSent := at)] == Row(m, clock, eve, at, Sleeping).clients;
    hide IndexOfId, AnnsName, Others;
  }

  /** Ann takes the other name before the removal, */
  lemma RowRenamed(m: nat, clock: nat, eve: bool, pingSent: int, manager: Manager)
    ensures var s, a := Row(m, clock, eve, pingSent, manager), RenameTo(Ann(), AnnsName(!eve));
            Enabled(s, a) && Apply(s, a) == Row(m, clock, !eve, pingSent, manager)
  {
    var s := Row(m, clock, eve, pingSent, manager);
    assert s.clients[0] == AnnsNode(eve, pingSent);
    assert IndexOfAddr(s.clients, Ann()) == 0;
    assert s.clients[0 := s.clients[0].(name := AnnsName(!eve))] == Row(m, clock, !eve, pingSent, manager).clients;
    hide IndexOfAddr, AnnsName, Others;
  }

  /** which finds nobody. */
  lemma RowMissed(m: nat, clock: nat, eve: bool, pingSent: int)
    ensures var s := Row(m, clock, !eve, pingSent, ToEvict(0, AnnsName(eve), clock));
            Enabled(s, EvictRemove) && Apply(s, EvictRemove) == Row(m, clock, !eve, pingSent, Sleeping)
  {
    var cs := Row(m, clock, !eve, pingSent, Sleeping).clients;
    NamesDiffer(eve);
    forall p | 0 <= p < |cs| ensures cs[p].name != AnnsName(eve) {
      if p > 0 {
        assert cs[p] == Others(m)[p - 1];
      }
    }
    assert IndexOfName(cs, AnnsName(eve)) == |cs|;
    hide IndexOfName, AnnsName, Others;
  }

  // ----- The seconds -----

  /** A run, silent but for renames and without any activity, that goes on from s for as long as `rest` does. */
  ghost predicate Goes(s: State, run: seq<Action>, id: nat, scanned: bool, e: State) {
    && SilentRun(s, run, id, scanned, true) && ValidRun(s, run) && Exec(s, run) == e
    && forall i :: 0 <= i < |run| ==> !run[i].Activity?
  }

  lemma GoOn(s: State, a: Action, run: seq<Action>, id: nat, scanned: bool, e: State)
    requires Enabled(s, a) && Punctual(s, a, scanned) && !a.Activity?
    requires Goes(Apply(s, a), run, id, ScannedAfter(scanned, a), e)
    ensures Goes(s, [a] + run, id, scanned, e)
  {
    hide Apply, Enabled, Punctual, SilentRun, ValidRun, Exec;
    OneSilentStep(s, a, run, id, scanned, true);
    OneStep(s, a, run);
  }

  lemma QuietSecond(clock: nat, eve: bool, pingSent: int, rest: seq<Action>, e: State) returns (run: seq<Action>)
    requires 180 <= clock && 0 < pingSent && clock + 1 - pingSent <= 10
    requires Goes(Row(0, clock + 1, eve, pingSent, Sleeping), rest, 0, true, e)
    ensures Goes(Row(0, clock, eve, pingSent, Sleeping), run, 0, true, e)
  {
    hide Row, Apply, Enabled, Goes;
    Elapses(0, clock, eve, pingSent, 1);
    RowScanned(0, clock + 1, eve, pingSent);
    RowFields(0, clock, eve, pingSent, Sleeping);
    RowFields(0, clock + 1, eve, pingSent, Sleeping);
    GoOn(Row(0, clock + 1, eve, pingSent, Sleeping), Scan(clock + 1), rest, 0, false, e);
    run := [Elapse(1)] + ([Scan(clock + 1)] + rest);
    GoOn(Row(0, clock, eve, pingSent, Sleeping), Elapse(1), [Scan(clock + 1)] + rest, 0, true, e);
  }

  lemma RowFields(m: nat, clock: int, eve: bool, pingSent: int, manager: Manager)
    ensures Row(m, clock, eve, pingSent, manager).clock == clock
    ensures Row(m, clock, eve, pingSent, manager).manager == manager
  {}

  lemma PingSecond(clock: nat, eve: bool, rest: seq<Action>, e: State) returns (run: seq<Action>)
    requires 180 <= clock
    requires Goes(Row(0, clock + 1, eve, clock + 1, Sleeping), rest, 0, true, e)
    ensures Goes(Row(0, clock, eve, 0, Sleeping), run, 0, true, e)
  {
    var now := clock + 1;
    hide Row, Apply, Enabled, Goes;
    Elapses(0, clock, eve, 0, 1);
    RowScanned(0, now, eve, 0);
    RowPinged(0, now, eve, now);
    RowFields(0, clock, eve, 0, Sleeping);
    RowFields(0, now, eve, 0, Sleeping);
    RowFields(0, now, eve, 0, ToPing(0, now));
    GoOn(Row(0, now, eve, 0, ToPing(0, now)), WritePing, rest, 0, true, e);
    GoOn(Row(0, now, eve, 0, Sleeping), Scan(now), [WritePing] + rest, 0, false, e);
    run := [Elapse(1)] + ([Scan(now)] + ([WritePing] + rest));
    GoOn(Row(0, clock, eve, 0, Sleeping), Elapse(1), [Scan(now)] + ([WritePing] + rest), 0, true, e);
  }

  lemma RenameSecond(m: nat, clock: nat, eve: bool, pingSent: int, rest: seq<Action>, e: State)
    returns (run: seq<Action>)
    requires 180 <= clock && 0 < pingSent && clock + 1 - pingSent > 10
    requires Goes(Row(m, clock + 1, !eve, pingSent, Sleeping), rest, m, true, e)
    ensures Goes(Row(m, clock, eve, pingSent, Sleeping), run, m, true, e)
  {
    var now := clock + 1;
    var pick, a := ToEvict(0, AnnsName(eve), now), RenameTo(Ann(), AnnsName(!eve));
    hide Row, Apply, Enabled, Goes, AnnsName;
    Elapses(m, clock, eve, pingSent, 1);
    RowScanned(m, now, eve, pingSent);
    RowRenamed(m, now, eve, pingSent, pick);
    RowMissed(m, now, eve, pingSent);
    RowFields(m, clock, eve, pingSent, Sleeping);
    RowFields(m, now, eve, pingSent, Sleeping);
    GoOn(Row(m, now, !eve, pingSent, pick), EvictRemove, rest, m, true, e);
    GoOn(Row(m, now, eve, pingSent, pick), a, [EvictRemove] + rest, m, true, e);
    GoOn(Row(m, now, eve, pingSent, Sleeping), Scan(now), [a] + ([EvictRemove] + rest), m, false, e);
    run := [Elapse(1)] + ([Scan(now)] + ([a] + ([EvictRemove] + rest)));
    GoOn(Row(m, clock, eve, pingSent, Sleeping), Elapse(1), [Scan(now)] + ([a] + ([EvictRemove] + rest)), m, true, e);
  }

  lemma NoSeconds(s: State, id: nat)
    ensures Goes(s, [], id, true, s)
  {
    NoSteps(s);
    NoSilentSteps(s, id, true, true);
  }

  lemma {:induction false} Seconds(m: nat, clock: nat, eve: bool, pingSent: int, n: nat)
    returns (run: seq<Action>, eve': bool, pingSent': int)
    requires clock >= 180 && 0 <= pingSent && (m > 0 ==> pingSent > 0 && clock + 1 - pingSent > 10)
    ensures Goes(Row(m, clock, eve, pingSent, Sleeping), run, m, true, Row(m, clock + n, eve', pingSent', Sleeping))
    decreases n
  {
    hide Row, Goes;
    if n == 0 {
      run, eve', pingSent' := [], eve, pingSent;
      NoSeconds(Row(m, clock, eve, pingSent, Sleeping), m);
    } else if pingSent == 0 {
      run, eve', pingSent' := Seconds(m, clock + 1, eve, clock + 1, n - 1);
      run := PingSecond(clock, eve, run, Row(m, clock + n, eve', pingSent', Sleeping));
    } else if clock + 1 - pingSent > 10 {
      run, eve', pingSent' := Seconds(m, clock + 1, !eve, pingSent, n - 1);
      run := RenameSecond(m, clock, eve, pingSent, run, Row(m, clock + n, eve', pingSent', Sleeping));
    } else {
      run, eve', pingSent' := Seconds(m, clock + 1, eve, pingSent, n - 1);
      run := QuietSecond(clock, eve, pingSent, run, Row(m, clock + n, eve', pingSent', Sleeping));
    }
  }

  // ----- From the start -----

  lemma AnnConnects(clock: nat) returns (run: seq<Action>)
    ensures ValidRun(Init(0), run) && Exec(Init(0), run) == Row(0, clock, false, 0, Sleeping)
  {
    var first := Connect(Ann(), "ann");
    var s1 := Row(0, 0, false, 0, Sleeping);
    assert [] + [AnnsNode(false, 0)] == s1.clients;
    assert Enabled(Init(0), first) && Apply(Init(0), first) == s1;
    hide Row, Apply, Enabled;
    Elapses(0, 0, false, 0, clock);
    NoSteps(Row(0, clock, false, 0, Sleeping));
    OneStep(s1, Elapse(clock), []);
    OneStep(Init(0), first, [Elapse(clock)] + []);
    run := [first] + ([Elapse(clock)] + []);
  }

  lemma AnnPinged() returns (run: seq<Action>)
    ensures ValidRun(Init(0), run) && Exec(Init(0), run) == Row(0, 192, false, 181, Sleeping)
  {
    var before := AnnConnects(181);
    hide Row, Apply, Enabled, ValidRun, Exec;
    RowScanned(0, 181, false, 0);
    RowPinged(0, 181, false, 181);
    Elapses(0, 181, false, 181, 11);
    NoSteps(Row(0, 192, false, 181, Sleeping));
    var rest := [WritePing] + ([Elapse(11)] + []);
    OneStep(Row(0, 181, false, 181, Sleeping), Elapse(11), []);
    OneStep(Row(0, 181, false, 0, ToPing(0, 181)), WritePing, [Elapse(11)] + []);
    OneStep(Row(0, 181, false, 0, Sleeping), Scan(181), rest);
    RunConcat(Init(0), before, [Scan(181)] + rest);
    run := before + ([Scan(181)] + rest);
  }

  lemma OneMore(m: nat)
    ensures var s, a := Row(m, 192, false, 181, Sleeping), Connect(Addr(2, m), "bob");
            Enabled(s, a) && Apply(s, a) == Row(m + 1, 192, false, 181, Sleeping)
  {
    assert Others(m + 1) == Others(m) + [Client(m + 1, Addr(2, m), "bob", 192, 0)];
    assert [AnnsNode(false, 181)] + (Others(m) + [Client(m + 1, Addr(2, m), "bob", 192, 0)])
        == [AnnsNode(false, 181)] + Others(m) + [Client(m + 1, Addr(2, m), "bob", 192, 0)];
    hide Others, AnnsName;
  }

  lemma {:induction false} Gather(m: nat) returns (run: seq<Action>)
    ensures ValidRun(Init(0), run) && Exec(Init(0), run) == Row(m, 192, false, 181, Sleeping)
  {
    if m == 0 {
      run := AnnPinged();
    } else {
      hide Row, Apply, Enabled, ValidRun, Exec;
      var before := Gather(m - 1);
      OneMore(m - 1);
      NoSteps(Row(m, 192, false, 181, Sleeping));
      OneStep(Row(m - 1, 192, false, 181, Sleeping), Connect(Addr(2, m - 1), "bob"), []);
      RunConcat(Init(0), before, [Connect(Addr(2, m - 1), "bob")] + []);
      run := before + ([Connect(Addr(2, m - 1), "bob")] + []);
    }
  }

  lemma ReachedBy(run: seq<Action>, s: State)
    requires ValidRun(Init(0), run) && Exec(Init(0), run) == s
    ensures Reachable(s)
  {
    var clock: nat := 0;
    assert ValidRun(Init(clock), run) && Exec(Init(clock), run) == s;
  }

  lemma LastInRow(m: nat, clock: int, eve: bool, pingSent: int)
    ensures var s := Row(m, clock, eve, pingSent, Sleeping);
            && |s.clients| == m + 1 && s.clients[m].id == m && s.clients[m].lastActive == (if m == 0 then 0 else 192)
            && Listed(s, m) && s.clock == clock
  {
    var cs := Row(m, clock, eve, pingSent, Sleeping).clients;
    forall p | 0 <= p <= m ensures cs[p].id == p {
      if p > 0 {
        assert cs[p] == Others(m)[p - 1];
      }
    }
    if m > 0 {
      assert cs[m] == Others(m)[m - 1];
    }
    hide Others, AnnsName;
  }

  /** With a rename in the gap of each eviction, for every m there is a reachable state with m clients ahead of one
      heard from in the last 180 seconds, and for every number of seconds a run, a pass in each and nobody heard from
      at all, after which that client is still listed. (The handlers of as many earlier rename commands run late, one
      in each gap.) With m == 0 it is the silent client itself that is renamed. */
  lemma RenamesStarve(m: nat, seconds: nat) returns (s: State, run: seq<Action>)
    ensures Reachable(s) && m < |s.clients|
    ensures s.clients[m].lastActive <= s.clock <= s.clients[m].lastActive + INACTIVITY_THRESHOLD
    ensures SilentRun(s, run, s.clients[m].id, true, true) && ValidRun(s, run)
    ensures forall i :: 0 <= i < |run| ==> !run[i].Activity?
    ensures Exec(s, run).clock == s.clock + seconds && Listed(Exec(s, run), s.clients[m].id)
  {
    hide Row, ValidRun, Exec, Reachable, SilentRun, Listed;
    var clock, pingSent := 180, 0;
    var before;
    if m == 0 {
      before := AnnConnects(180);
    } else {
      clock, pingSent := 192, 181;
      before := Gather(m);
    }
    s := Row(m, clock, false, pingSent, Sleeping);
    ReachedBy(before, s);
    LastInRow(m, clock, false, pingSent);
    var eve', pingSent';
    run, eve', pingSent' := Seconds(m, clock, false, pingSent, seconds);
    LastInRow(m, clock + seconds, eve', pingSent');
  }
}
