/** What a writer's one wait means for the server, with the monitor as written: the handlers' critical sections run
    inside the monitor's, so whatever starts with a look at the list never starts again. */
module Lockout {
  import M = Monitor
  import MonitorTheorems
  import opened Net
  import S = ServerRun

  datatype State = State(monitor: M.State, server: S.State)

  datatype Step = Lock(move: M.Action) | Serve(a: S.Action)

  /** The critical sections that are run as a reader, and as a writer. */
  predicate AsReader(a: S.Action) {
    a.Scan? || a.KickCheck? || a.DisconnectFind?
  }

  predicate AsWriter(a: S.Action) {
    a.Connect? || a.RenameTo? || a.KickRemove? || a.DisconnectRemove? || a.EvictRemove?
  }

  predicate SomeoneIn(s: M.State, p: M.Phase) {
    p in s.threads
  }

  predicate Enabled(s: State, step: Step) {
    match step
    case Lock(move) => M.Enabled(s.monitor, move)
    case Serve(a) =>
      && !a.Pass? && S.Enabled(s.server, a)
      && (AsReader(a) ==> SomeoneIn(s.monitor, M.Reading))
      && (AsWriter(a) ==> SomeoneIn(s.monitor, M.Writing))
  }

  function Apply(s: State, step: Step): State
    requires Enabled(s, step)
  {
    match step
    case Lock(move) => s.(monitor := M.Apply(M.AsWritten, s.monitor, move))
    case Serve(a) => s.(server := S.Apply(s.server, a))
  }

  ghost predicate ValidRun(s: State, run: seq<Step>)
    decreases |run|
  {
    run == [] || (Enabled(s, run[0]) && ValidRun(Apply(s, run[0]), run[1..]))
  }

  ghost function Exec(s: State, run: seq<Step>): State
    requires ValidRun(s, run)
    decreases |run|
  {
    if run == [] then s else Exec(Apply(s, run[0]), run[1..])
  }

  /** The removals that are under way. */
  function Pending(s: S.State): nat {
    |s.kicks| + |s.leaves| + if s.manager.ToEvict? then 1 else 0
  }

  /** A writer has waited, and nobody is reading. */
  ghost predicate Locked(s: State) {
    M.Inv(M.AsWritten, s.monitor) && s.monitor.ww > 0 && !SomeoneIn(s.monitor, M.Reading)
  }

  lemma StaysLocked(s: State, step: Step)
    requires Locked(s) && Enabled(s, step)
    ensures Locked(Apply(s, step))
    ensures step.Serve? ==> !AsReader(step.a)
  {
    if step.Lock? {
      M.StepKeepsInv(M.AsWritten, s.monitor, step.move);
      MonitorTheorems.AsWrittenStep(s.monitor, step.move);
      ThreadsStay(s.monitor, step.move);
    }
    hide M.Apply, M.Inv, S.Apply, S.Enabled, M.Enabled;
  }

  lemma ThreadsStay(s: M.State, a: M.Action)
    requires M.Inv(M.AsWritten, s) && M.Enabled(s, a)
    ensures |M.Apply(M.AsWritten, s, a).threads| == |s.threads|
  {}

  /** A step of the server that is not run as a reader: it takes one client off the list at most, and then one of the
      removals under way is done. */
  lemma ServeCosts(s: S.State, a: S.Action)
    requires S.Enabled(s, a) && !AsReader(a) && !a.Pass?
    ensures var e := S.Apply(s, a); |e.clients| - Pending(e) >= |s.clients| - Pending(s)
  {
    if S.Removes(s, a) {
      S.RemovalStep(s, a);
      S.WithoutAt(s.clients, S.RemovedAt(s, a));
    } else {
      S.KeepingStep(s, a);
    }
    hide S.RemovedAt, S.RecordPing, S.CurrentName;
  }

  /** From then on, in every run of the whole server: no scan for inactive clients, no admin check and no lookup for a
      disconnect is ever made again, and no more clients leave the list than removals were under way. */
  lemma {:induction false} NoScanNoKickNoLeave(s: State, run: seq<Step>)
    requires Locked(s) && ValidRun(s, run)
    ensures forall i :: 0 <= i < |run| && run[i].Serve? ==> !AsReader(run[i].a)
    ensures |Exec(s, run).server.clients| >= |s.server.clients| - Pending(s.server)
    decreases |run|
  {
    if run != [] {
      StaysLocked(s, run[0]);
      if run[0].Serve? {
        ServeCosts(s.server, run[0].a);
      }
      hide Locked, M.Apply, S.Apply, S.Enabled, M.Enabled, Pending;
      NoScanNoKickNoLeave(Apply(s, run[0]), run[1..]);
      assert forall i :: 0 < i < |run| ==> run[i] == run[1..][i - 1];
    }
  }

  // ----- Runs of the monitor as runs of both -----

  function Locks(moves: seq<M.Action>): seq<Step> {
    if moves == [] then [] else [Lock(moves[0])] + Locks(moves[1..])
  }

  lemma Prepend(s: State, step: Step, run: seq<Step>)
    requires Enabled(s, step) && ValidRun(Apply(s, step), run)
    ensures ValidRun(s, [step] + run) && Exec(s, [step] + run) == Exec(Apply(s, step), run)
  {
    hide Apply, Enabled;
    assert ([step] + run)[1..] == run;
  }

  /** What the monitor can do, it can do beside any server, and then what follows. */
  lemma {:induction false} LocksRun(s: State, moves: seq<M.Action>, rest: seq<Step>)
    requires M.ValidRun(M.AsWritten, s.monitor, moves)
    requires ValidRun(s.(monitor := M.Exec(M.AsWritten, s.monitor, moves)), rest)
    ensures ValidRun(s, Locks(moves) + rest)
    ensures Exec(s, Locks(moves) + rest) == Exec(s.(monitor := M.Exec(M.AsWritten, s.monitor, moves)), rest)
    decreases |moves|
  {
    hide M.Apply, M.Enabled;
    if moves == [] {
      assert Locks(moves) + rest == rest;
    } else {
      var s1 := Apply(s, Lock(moves[0]));
      LocksRun(s1, moves[1..], rest);
      Prepend(s, Lock(moves[0]), Locks(moves[1..]) + rest);
      assert Locks(moves) + rest == [Lock(moves[0])] + (Locks(moves[1..]) + rest);
    }
  }

  /** From the start of both, one wait of one writer is enough. */
  lemma OneWaitLocks(clock: nat) returns (run: seq<Step>)
    ensures ValidRun(State(M.Init(2), S.Init(clock)), run)
    ensures Locked(Exec(State(M.Init(2), S.Init(clock)), run))
  {
    hide M.Inv, M.Reachable, M.ValidRun, M.Exec;
    var m := MonitorTheorems.AfterWriterWaits(M.AsWritten);
    assert m.ww == 1 && m.threads == [M.ReadBlocked, M.Idle];
    var moves := MonitorTheorems.WriterWaitsOnce();
    assert moves[0..] == moves && MonitorTheorems.Stage(M.AsWritten, 0) == M.Init(2);
    hide MonitorTheorems.AfterWriterWaits, MonitorTheorems.WriterWaitsOnce, MonitorTheorems.Stage, M.Init;
    MonitorTheorems.AfterWriterWaitsReachable(M.AsWritten);
    M.ReachableInv(M.AsWritten, m);
    MonitorTheorems.WriterWaitsOnceFrom(M.AsWritten, 0);
    var s := State(M.Init(2), S.Init(clock));
    LocksRun(s, moves, []);
    run := Locks(moves) + [];
  }

  // ----- Exactly when the list can be looked at again -----

  /** Some continuation has a reader's look at the list in it. */
  ghost predicate CanLook(s: State) {
    exists run :: ValidRun(s, run) && Looks(run)
  }

  ghost predicate Looks(run: seq<Step>) {
    exists i :: 0 <= i < |run| && run[i].Serve? && AsReader(run[i].a)
  }

  /** An admin check, which any client may ask for at any time. */
  function ALook(): Step {
    Serve(S.KickCheck(NO_ADDR, ""))
  }

  lemma LookAfter(s: State, moves: seq<M.Action>, t: nat)
    requires M.ValidRun(M.AsWritten, s.monitor, moves)
    requires M.In(M.Exec(M.AsWritten, s.monitor, moves), t, M.Reading)
    ensures CanLook(s)
  {
    var s1 := s.(monitor := M.Exec(M.AsWritten, s.monitor, moves));
    assert s1.monitor.threads[t] == M.Reading;
    hide M.ValidRun, M.Exec, S.Apply;
    assert Enabled(s1, ALook());
    assert ValidRun(Apply(s1, ALook()), []);
    Prepend(s1, ALook(), []);
    LocksRun(s, moves, [ALook()] + []);
    var run := Locks(moves) + ([ALook()] + []);
    assert run[|Locks(moves)|] == ALook();
    assert Looks(run);
  }

  /** With the monitor as written, some continuation scans, checks an admin or looks up a leaver exactly when somebody
      is reading, or WW is 0 and there is a thread to read. */
  lemma CanLookIff(s: State)
    requires M.Reachable(M.AsWritten, s.monitor)
    ensures CanLook(s) <==> SomeoneIn(s.monitor, M.Reading) || (s.monitor.ww == 0 && s.monitor.threads != [])
  {
    M.ReachableInv(M.AsWritten, s.monitor);
    if SomeoneIn(s.monitor, M.Reading) {
      var t: nat :| t < |s.monitor.threads| && s.monitor.threads[t] == M.Reading;
      LookAfter(s, [], t);
    } else if s.monitor.ww == 0 && s.monitor.threads != [] {
      MonitorTheorems.CanReadWhenOpen(s.monitor, 0);
      var moves :| M.ValidRun(M.AsWritten, s.monitor, moves)
                   && M.In(M.Exec(M.AsWritten, s.monitor, moves), 0, M.Reading);
      LookAfter(s, moves, 0);
    } else {
      CannotLook(s);
    }
  }

  lemma CannotLook(s: State)
    requires M.Inv(M.AsWritten, s.monitor) && !SomeoneIn(s.monitor, M.Reading)
    requires s.monitor.ww > 0 || s.monitor.threads == []
    ensures !CanLook(s)
  {
    hide M.Inv;
    forall run | ValidRun(s, run) ensures !Looks(run) {
      if s.monitor.ww > 0 {
        NoScanNoKickNoLeave(s, run);
      } else {
        NobodyThere(s, run);
      }
    }
  }

  lemma {:induction false} NobodyThere(s: State, run: seq<Step>)
    requires s.monitor.threads == [] && ValidRun(s, run)
    ensures !Looks(run)
    decreases |run|
  {
    if run != [] {
      NobodyMoves(s, run[0]);
      hide M.Apply, S.Apply, S.Enabled, M.Enabled;
      NobodyThere(Apply(s, run[0]), run[1..]);
      assert forall i :: 0 < i < |run| ==> run[i] == run[1..][i - 1];
    }
  }

  lemma NobodyMoves(s: State, step: Step)
    requires s.monitor.threads == [] && Enabled(s, step)
    ensures Apply(s, step).monitor.threads == [] && (step.Serve? ==> !AsReader(step.a))
  {
    hide S.Apply;
  }
}
