/** Why bounded eviction needs a bound on the clients ahead: 181 of them, each answering its ping within the
    second, keep the connection manager busy for ever. */
module Starvation {
  import opened Net
  import opened Clients
  import opened ServerRun
  import opened Inactivity
  import opened Eviction
  import opened Renaming

  const CROWD := 181

  /** The last second up to `clock` that belongs to the client at place p. */
  function LastHeard(p: nat, clock: nat): int {
    clock as int - (clock as int - p as int) % CROWD
  }

  /** The crowd, in turn, and behind it clients last heard from at second 180. */
  function Member(p: nat, clock: nat): Client {
    if p < CROWD then Client(p, Addr(p, 0), [(p + 33) as char], LastHeard(p, clock), 0)
    else Client(p, Addr(p, 0), "silent", CROWD - 1, 0)
  }

  function Crowd(n: nat, clock: nat): (cs: seq<Client>)
    ensures |cs| == n && forall p :: 0 <= p < n ==> cs[p] == Member(p, clock)
  {
    seq(n, p requires 0 <= p < n => Member(p, clock))
  }

  function Crowded(n: nat, clock: nat): State {
    State(clock, n, Crowd(n, clock), [], [], Sleeping)
  }

  /** The place of the one crowd member that is due in the next second. */
  function Due(clock: nat): nat {
    (clock + 1) % CROWD
  }

  lemma OnlyDueIsDue(p: nat, clock: nat)
    requires p < CROWD
    ensures Actionable(Member(p, clock), clock + 1) <==> p == Due(clock)
  {}

  lemma FirstActionableIs(cs: seq<Client>, now: int, k: nat)
    requires k < |cs| && Actionable(cs[k], now) && forall p :: 0 <= p < k ==> !Actionable(cs[p], now)
    ensures FirstActionable(cs, now) == k
  {}

  lemma DueIsFirst(n: nat, clock: nat)
    requires n >= CROWD
    ensures FirstActionable(Crowd(n, clock), clock + 1) == Due(clock)
  {
    hide Actionable, Crowd, Member;
    var d := Due(clock);
    forall p | 0 <= p <= d ensures Actionable(Crowd(n, clock)[p], clock + 1) <==> p == d {
      OnlyDueIsDue(p, clock);
    }
    FirstActionableIs(Crowd(n, clock), clock + 1, d);
  }

  lemma CrowdMoves(p: nat, clock: nat)
    ensures Member(p, clock + 1)
            == if p == Due(clock) then Member(p, clock).(lastActive := clock + 1) else Member(p, clock)
  {}

  /** One second: a ping to the crowd member that is due, and its answer. */
  function Answer(clock: nat): Action {
    Activity(Addr(Due(clock), 0))
  }

  function PingedState(n: nat, clock: nat): State
    requires n >= CROWD
  {
    var d := Due(clock);
    State(clock + 1, n, Crowd(n, clock)[d := Member(d, clock).(pingSent := clock + 1)], [], [], Sleeping)
  }

  lemma PassPings(n: nat, clock: nat)
    requires n >= CROWD
    ensures Apply(Crowded(n, clock), Pass(1)) == PingedState(n, clock)
  {
    DueIsFirst(n, clock);
    hide FirstActionable, Crowd;
  }

  lemma AddrAt(n: nat, clock: nat)
    requires n >= CROWD
    ensures IndexOfAddr(PingedState(n, clock).clients, Addr(Due(clock), 0)) == Due(clock)
  {
    hide Crowd;
    var cs, d := PingedState(n, clock).clients, Due(clock);
    forall p | 0 <= p < d ensures cs[p].addr != Addr(d, 0) {
      assert cs[p] == Member(p, clock);
    }
    assert cs[d].addr == Addr(d, 0);
  }

  lemma AnswerArrives(n: nat, clock: nat)
    requires n >= CROWD
    ensures Apply(PingedState(n, clock), Answer(clock)) == Crowded(n, clock + 1)
  {
    AddrAt(n, clock);
    hide IndexOfAddr, Crowd, Member;
    var d := Due(clock);
    var ps := PingedState(n, clock).clients;
    var cs := ps[d := ps[d].(lastActive := clock + 1, pingSent := 0)];
    PingUndone(d, clock);
    forall p | 0 <= p < n ensures cs[p] == Crowd(n, clock + 1)[p] {
      CrowdMoves(p, clock);
    }
    assert cs == Crowd(n, clock + 1);
  }

  lemma PingUndone(d: nat, clock: nat)
    ensures var c := Member(d, clock);
            c.(pingSent := clock + 1).(lastActive := clock + 1, pingSent := 0) == c.(lastActive := clock + 1)
  {}

  // ----- The crowd gathers -----

  lemma FirstInCrowd(p: nat, clock: nat)
    requires p <= clock < CROWD
    ensures LastHeard(p, clock) == p
  {}

  lemma NobodyDue(cs: seq<Client>, now: int)
    requires forall p :: 0 <= p < |cs| ==> now - cs[p].lastActive <= INACTIVITY_THRESHOLD
    ensures Tick(cs, now) == cs
  {
    assert forall p :: 0 <= p < |cs| ==> !Actionable(cs[p], now);
  }

  lemma SecondPasses(k: nat)
    requires k + 1 < CROWD
    ensures Apply(Crowded(k + 1, k), Pass(1)) == State(k + 1, k + 1, Crowd(k + 1, k + 1), [], [], Sleeping)
  {
    var cs := Crowd(k + 1, k);
    forall p | 0 <= p < k + 1 ensures cs[p] == Crowd(k + 1, k + 1)[p] && cs[p].lastActive == p {
      FirstInCrowd(p, k);
      FirstInCrowd(p, k + 1);
    }
    assert cs == Crowd(k + 1, k + 1);
    NobodyDue(cs, k + 1);
    hide Tick, Crowd;
  }

  /** The next client's arrival: one in each second up to second 180, and then the silent ones. */
  function Arrival(p: nat): Action {
    Connect(Addr(p, 0), if p < CROWD then [(p + 33) as char] else "silent")
  }

  lemma OneArrives(p: nat, clock: nat)
    requires clock == if p < CROWD then p else CROWD - 1
    ensures Apply(State(clock, p, Crowd(p, clock), [], [], Sleeping), Arrival(p)) == Crowded(p + 1, clock)
  {
    if p < CROWD {
      FirstInCrowd(p, p);
    }
    assert Crowd(p + 1, clock) == Crowd(p, clock) + [Member(p, clock)];
    hide Crowd;
  }

  /** When the n-th client arrives. */
  function ArrivalTime(n: nat): nat
    requires n > 0
  {
    if n <= CROWD then n - 1 else CROWD - 1
  }

  lemma {:induction false} Gather(n: nat) returns (run: seq<Action>)
    requires n > 0
    ensures ValidRun(Init(0), run) && Exec(Init(0), run) == Crowded(n, ArrivalTime(n))
  {
    var t := ArrivalTime(n);
    if n == 1 {
      assert Crowd(0, 0) == [];
      OneArrives(0, 0);
      assert Enabled(Init(0), Arrival(0));
      hide *;
      NoSteps(Crowded(1, 0));
      OneStep(Init(0), Arrival(0), []);
      run := [Arrival(0)] + [];
    } else {
      var before := Gather(n - 1);
      var step := [Arrival(n - 1)] + [];
      OneArrives(n - 1, t);
      if n <= CROWD {
        SecondPasses(n - 2);
      }
      var mid := State(t, n - 1, Crowd(n - 1, t), [], [], Sleeping);
      assert Enabled(mid, Arrival(n - 1)) && Enabled(Crowded(n - 1, ArrivalTime(n - 1)), Pass(1));
      hide Crowd, Apply, ValidRun, Exec;
      NoSteps(Crowded(n, t));
      OneStep(mid, Arrival(n - 1), []);
      if n <= CROWD {
        OneStep(Crowded(n - 1, n - 2), Pass(1), step);
        step := [Pass(1)] + step;
      }
      RunConcat(Init(0), before, step);
      run := before + step;
    }
  }

  lemma CrowdIsReachable(n: nat)
    requires n >= CROWD
    ensures Reachable(Crowded(n, CROWD - 1))
  {
    hide Crowded;
    var run := Gather(n);
    var clock: nat := 0;
    assert ValidRun(Init(clock), run) && Exec(Init(clock), run) == Crowded(n, CROWD - 1);
  }

  // ----- And stays -----

  lemma OneSecond(n: nat, clock: nat)
    requires n > CROWD
    ensures var s := Crowded(n, clock);
            && Enabled(s, Pass(1)) && Punctual(s, Pass(1), true) && !Touches(s, Pass(1), n - 1)
            && !RenamesPick(s, Pass(1)) && ScannedAfter(true, Pass(1))
            && Enabled(PingedState(n, clock), Answer(clock)) && Punctual(PingedState(n, clock), Answer(clock), true)
            && !RenamesPick(PingedState(n, clock), Answer(clock)) && ScannedAfter(true, Answer(clock))
            && !Touches(PingedState(n, clock), Answer(clock), n - 1)
  {
    AddrAt(n, clock);
    hide Crowd, IndexOfAddr;
  }

  lemma OneSecondMore(n: nat, clock: nat, rest: seq<Action>, id: nat)
    requires n > CROWD && id == n - 1
    requires SilentRun(Crowded(n, clock + 1), rest, id, true, false) && ValidRun(Crowded(n, clock + 1), rest)
    ensures var run := [Pass(1)] + ([Answer(clock)] + rest);
            && SilentRun(Crowded(n, clock), run, id, true, false) && ValidRun(Crowded(n, clock), run)
            && Exec(Crowded(n, clock), run) == Exec(Crowded(n, clock + 1), rest)
  {
    hide Crowded, PingedState, Answer, Apply, Enabled, Touches, Punctual, RenamesPick, ScannedAfter;
    hide SilentRun, ValidRun, Exec;
    OneSecond(n, clock);
    PassPings(n, clock);
    AnswerArrives(n, clock);
    OneSilentStep(PingedState(n, clock), Answer(clock), rest, id, true, false);
    OneSilentStep(Crowded(n, clock), Pass(1), [Answer(clock)] + rest, id, true, false);
    OneStep(PingedState(n, clock), Answer(clock), rest);
    OneStep(Crowded(n, clock), Pass(1), [Answer(clock)] + rest);
  }

  lemma {:induction false} Seconds(n: nat, clock: nat, seconds: nat) returns (run: seq<Action>)
    requires n > CROWD
    ensures SilentRun(Crowded(n, clock), run, n - 1, true, false) && ValidRun(Crowded(n, clock), run)
    ensures Exec(Crowded(n, clock), run) == Crowded(n, clock + seconds)
    decreases seconds
  {
    hide Crowded, Answer, SilentRun, ValidRun, Exec;
    if seconds == 0 {
      NoSteps(Crowded(n, clock));
      NoSilentSteps(Crowded(n, clock), n - 1, true, false);
      run := [];
    } else {
      var rest := Seconds(n, clock + 1, seconds - 1);
      OneSecondMore(n, clock, rest, n - 1);
      run := [Pass(1)] + ([Answer(clock)] + rest);
    }
  }

  lemma LastIsListed(m: nat, clock: nat)
    requires m >= CROWD
    ensures var s := Crowded(m + 1, clock);
            && s.clock == clock && |s.clients| == m + 1
            && s.clients[m].id == m && s.clients[m].lastActive == CROWD - 1 && Listed(s, m)
  {
    hide Crowd;
    var cs := Crowd(m + 1, clock);
    assert forall p :: 0 <= p <= m ==> cs[p].id == p;
  }

  /** From a reachable state with m >= 181 clients ahead of a client just heard from, for every number of seconds there
      is a run, a pass in each, after which the client is still listed though silent all along. */
  lemma NeverEvicted(m: nat, seconds: nat) returns (s: State, run: seq<Action>)
    requires m >= CROWD
    ensures Reachable(s) && m < |s.clients| && s.clock == s.clients[m].lastActive
    ensures SilentRun(s, run, s.clients[m].id, true, false) && ValidRun(s, run)
    ensures Exec(s, run).clock == s.clock + seconds && Listed(Exec(s, run), s.clients[m].id)
    ensures m == CROWD ==> UniqueNames(s.clients)
  {
    var clock: nat := CROWD - 1;
    hide Reachable, UniqueNames, SilentRun, ValidRun, Exec, Crowded, Crowd, Listed;
    s := Crowded(m + 1, clock);
    CrowdIsReachable(m + 1);
    LastIsListed(m, clock);
    LastIsListed(m, clock + seconds);
    if m == CROWD {
      CrowdNames(clock);
    }
    run := Seconds(m + 1, clock, seconds);
  }

  lemma CrowdNames(clock: nat)
    ensures UniqueNames(Crowded(CROWD + 1, clock).clients)
  {
    var cs := Crowd(CROWD + 1, clock);
    hide Crowd;
    forall i, j | 0 <= i < j < |cs| ensures cs[i].name != cs[j].name {
      if j < CROWD {
        assert cs[i].name[0] != cs[j].name[0];
      }
    }
  }

  // ----- The threshold -----

  /** A client silent with m clients ahead of it, from any reachable state: after any run with one pass a second it is
      gone d seconds after it was last heard from. `renames` says whether clients picked for eviction are renamed. */
  ghost predicate GoneBy(m: nat, d: int, renames: bool) {
    forall s: State, run: seq<Action>, scanned: bool ::
      Reachable(s) && m < |s.clients| && s.clock <= s.clients[m].lastActive + INACTIVITY_THRESHOLD
      && SilentRun(s, run, s.clients[m].id, scanned, renames) && ValidRun(s, run)
      && Exec(s, run).clock >= s.clients[m].lastActive + d
      ==> !Listed(Exec(s, run), s.clients[m].id)
  }

  /** Without renames of clients picked for eviction, a bound on the eviction of a client with m ahead of it exists
      exactly when m <= 180; with them there is none for any m. */
  lemma EvictionBoundedIff(m: nat)
    ensures (exists d :: GoneBy(m, d, false)) <==> m <= 180
    ensures !exists d :: GoneBy(m, d, true)
  {
    hide Reachable, Listed;
    if m <= 180 {
      BoundFor(m);
    } else if exists d :: GoneBy(m, d, false) {
      var d :| GoneBy(m, d, false);
      var s, run := NeverEvicted(m, if d < 0 then 0 else d);
    }
    if exists d :: GoneBy(m, d, true) {
      var d :| GoneBy(m, d, true);
      var s, run := RenamesStarve(m, if d < 0 then 0 else d);
    }
  }

  lemma BoundFor(m: nat)
    requires m <= 180
    ensures GoneBy(m, 193 + 194 * m, false)
  {
    hide Reachable, Listed;
    forall s: State, run: seq<Action>, scanned: bool |
      Reachable(s) && m < |s.clients| && s.clock <= s.clients[m].lastActive + INACTIVITY_THRESHOLD
      && SilentRun(s, run, s.clients[m].id, scanned, false) && ValidRun(s, run)
      && Exec(s, run).clock >= s.clients[m].lastActive + (193 + 194 * m)
      ensures !Listed(Exec(s, run), s.clients[m].id)
    {
      EvictedAtLast(s, run, scanned, m);
    }
  }
}
