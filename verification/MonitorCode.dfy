/** The monitor's four routines as they are written, loops and all, against the step relation. */
module MonitorCode {
  import opened Threads
  import opened Monitor

  predicate ActsAs(a: Action, t: nat) {
    !a.Spurious? && a.t == t
  }

  /** waits[i] is what the other threads do during the i-th pthread_cond_wait of thread t: t itself does
      nothing, and is woken in the end. A wait beyond the last one does not end. */
  predicate WaitsOk(s: State, next: Action, reader: bool, t: nat, waits: seq<seq<Action>>)
    decreases |waits|
  {
    Enabled(s, next) &&
    (waits == [] ||
     var s1 := Apply(AsWritten, s, next);
     In(s1, t, Reading) || In(s1, t, Writing) ||
     ((forall i :: 0 <= i < |waits[0]| ==> !ActsAs(waits[0][i], t))
      && ValidRun(AsWritten, s1, waits[0])
      && WaitsOk(Exec(AsWritten, s1, waits[0]),
                 if reader then ReaderResume(t) else WriterResume(t), reader, t, waits[1..])))
  }

  lemma EmptyRun(s: State)
    ensures ValidRun(AsWritten, s, []) && Exec(AsWritten, s, []) == s
  {}

  lemma CountersNonNegative(v: Variant, s: State)
    requires Inv(v, s)
    ensures s.ar >= 0 && s.aw >= 0 && s.ww >= 0
  {}

  /** The run so far, then one more step of t. */
  lemma OneMore(s0: State, run: seq<Action>, s: State, next: Action)
    requires ValidRun(AsWritten, s0, run) && Exec(AsWritten, s0, run) == s && Inv(AsWritten, s) && Enabled(s, next)
    ensures ValidRun(AsWritten, s0, run + [next])
    ensures Exec(AsWritten, s0, run + [next]) == Apply(AsWritten, s, next)
    ensures Inv(AsWritten, Apply(AsWritten, s, next))
  {
    RunSnoc(AsWritten, s0, run, next);
    StepKeepsInv(AsWritten, s, next);
  }

  /** The run so far, then one finished wait of t. */
  lemma OneWait(s0: State, run: seq<Action>, s: State, next: Action, reader: bool, t: nat, waits: seq<seq<Action>>)
    requires WaitsOk(s, next, reader, t, waits) && waits != []
    requires var s1 := Apply(AsWritten, s, next);
             && !In(s1, t, Reading) && !In(s1, t, Writing) && Inv(AsWritten, s1)
             && ValidRun(AsWritten, s0, run) && Exec(AsWritten, s0, run) == s1
    ensures var s1 := Apply(AsWritten, s, next);
            && ValidRun(AsWritten, s1, waits[0])
            && var s2 := Exec(AsWritten, s1, waits[0]);
            && Inv(AsWritten, s2)
            && ValidRun(AsWritten, s0, run + waits[0]) && Exec(AsWritten, s0, run + waits[0]) == s2
            && WaitsOk(s2, if reader then ReaderResume(t) else WriterResume(t), reader, t, waits[1..])
  {
    var s1 := Apply(AsWritten, s, next);
    RunConcat(AsWritten, s0, run, waits[0]);
    RunKeepsInv(AsWritten, s1, waits[0]);
  }

  class ClientMonitor {
    var AR: int
    var WR: int
    var AW: int
    var WW: int
    // Not in the source: where each thread stands.
    var threads: seq<Phase>

    function Snapshot(): State
      reads this
    {
      State(AR, WR, AW, WW, threads)
    }

    constructor (n: nat)
      ensures Snapshot() == Init(n) && Inv(AsWritten, Snapshot())
    {
      AR, WR, AW, WW := 0, 0, 0, 0;
      threads := seq(n, _ => Idle);
      new;
      InvInit(AsWritten, n);
    }

    /** pthread_cond_wait: the mutex is free for the others until t is woken and holds it again. */
    method Wait(others: seq<Action>)
      requires ValidRun(AsWritten, Snapshot(), others)
      modifies this
      ensures Snapshot() == Exec(AsWritten, old(Snapshot()), others)
    {
      var s := Exec(AsWritten, Snapshot(), others);
      AR, WR, AW, WW, threads := s.ar, s.wr, s.aw, s.ww, s.threads;
    }

    /** Whatever the others do, a reader's check-in is a run of monitor steps that ends with the reader
        in, or with it asleep in a wait that has not ended. */
    method ReaderCheckinLoop(t: nat, waits: seq<seq<Action>>) returns (entered: bool, ghost run: seq<Action>)
      requires Inv(AsWritten, Snapshot())
      requires In(Snapshot(), t, Idle) && WaitsOk(Snapshot(), ReaderCheckin(t), true, t, waits)
      modifies this
      ensures ValidRun(AsWritten, old(Snapshot()), run)
      ensures Snapshot() == Exec(AsWritten, old(Snapshot()), run)
      ensures Inv(AsWritten, Snapshot())
      ensures In(Snapshot(), t, if entered then Reading else ReadBlocked)
      ensures entered ==> AW == 0
    {
      hide Inv, ValidRun, Exec, Wake, IsSignal;
      CountersNonNegative(AsWritten, Snapshot());
      EmptyRun(Snapshot());
      ghost var s0 := Snapshot();
      ghost var cur, next := s0, ReaderCheckin(t);
      var k := 0;
      run := [];
      while AW + WW > 0
        invariant k <= |waits| && ValidRun(AsWritten, s0, run) && cur == Exec(AsWritten, s0, run)
        invariant Inv(AsWritten, cur) && cur.ar >= 0 && cur.aw >= 0 && cur.ww >= 0
                  && WaitsOk(cur, next, true, t, waits[k..])
        invariant next == ReaderCheckin(t) || next == ReaderResume(t)
        invariant Snapshot() == if next.ReaderResume? then cur.(wr := cur.wr - 1) else cur
        decreases |waits| - k
      {
        WR := WR + 1;
        threads := threads[t := ReadBlocked];
        assert Snapshot() == Apply(AsWritten, cur, next);
        OneMore(s0, run, cur, next);
        run := run + [next];
        if k == |waits| {
          return false, run;
        }
        assert waits[k..][1..] == waits[k + 1..];
        OneWait(s0, run, cur, next, true, t, waits[k..]);
        Wait(waits[k]);
        CountersNonNegative(AsWritten, Snapshot());
        run, cur, next := run + waits[k], Snapshot(), ReaderResume(t);
        WR := WR - 1;
        k := k + 1;
      }
      AR := AR + 1;
      threads := threads[t := Reading];
      assert Snapshot() == Apply(AsWritten, cur, next);
      OneMore(s0, run, cur, next);
      run := run + [next];
      entered := true;
    }

    method ReaderCheckoutCode(t: nat, woken: set<nat>)
      requires Enabled(Snapshot(), ReaderCheckout(t, woken))
      modifies this
      ensures Snapshot() == Apply(AsWritten, old(Snapshot()), ReaderCheckout(t, woken))
    {
      AR := AR - 1;
      threads := threads[t := Idle];
      if AR == 0 && WW > 0 {
        threads := Wake(threads, woken, WriteBlocked, WriteSignalled);
      }
    }

    /** The writer's loop: as the reader's, but nothing undoes WW++ after the wait. */
    method WriterCheckinLoop(t: nat, waits: seq<seq<Action>>) returns (entered: bool, ghost run: seq<Action>)
      requires Inv(AsWritten, Snapshot())
      requires In(Snapshot(), t, Idle) && WaitsOk(Snapshot(), WriterCheckin(t), false, t, waits)
      modifies this
      ensures ValidRun(AsWritten, old(Snapshot()), run)
      ensures Snapshot() == Exec(AsWritten, old(Snapshot()), run)
      ensures Inv(AsWritten, Snapshot())
      ensures In(Snapshot(), t, if entered then Writing else WriteBlocked)
      ensures entered ==> AW == 1 && AR == 0
    {
      hide Inv, ValidRun, Exec, Wake, IsSignal;
      CountersNonNegative(AsWritten, Snapshot());
      EmptyRun(Snapshot());
      ghost var s0 := Snapshot();
      ghost var cur, next := s0, WriterCheckin(t);
      var k := 0;
      run := [];
      while AW + AR > 0
        invariant k <= |waits| && ValidRun(AsWritten, s0, run) && cur == Exec(AsWritten, s0, run)
        invariant Inv(AsWritten, cur) && cur.ar >= 0 && cur.aw >= 0 && cur.ww >= 0
                  && WaitsOk(cur, next, false, t, waits[k..])
        invariant next == WriterCheckin(t) || next == WriterResume(t)
        invariant Snapshot() == cur
        decreases |waits| - k
      {
        WW := WW + 1;
        threads := threads[t := WriteBlocked];
        assert Snapshot() == Apply(AsWritten, cur, next);
        OneMore(s0, run, cur, next);
        run := run + [next];
        if k == |waits| {
          return false, run;
        }
        assert waits[k..][1..] == waits[k + 1..];
        OneWait(s0, run, cur, next, false, t, waits[k..]);
        Wait(waits[k]);
        CountersNonNegative(AsWritten, Snapshot());
        run, cur, next := run + waits[k], Snapshot(), WriterResume(t);
        k := k + 1;
      }
      AW := AW + 1;
      threads := threads[t := Writing];
      assert Snapshot() == Apply(AsWritten, cur, next);
      OneMore(s0, run, cur, next);
      run := run + [next];
      entered := true;
    }

    method WriterCheckoutCode(t: nat, woken: set<nat>)
      requires Enabled(Snapshot(), WriterCheckout(t, woken))
      modifies this
      ensures Snapshot() == Apply(AsWritten, old(Snapshot()), WriterCheckout(t, woken))
    {
      AW := AW - 1;
      threads := threads[t := Idle];
      if WW > 0 {
        threads := Wake(threads, woken, WriteBlocked, WriteSignalled);
      } else if WR > 0 {
        threads := Wake(threads, Sleepers(threads, ReadBlocked), ReadBlocked, ReadSignalled);
      }
    }
  }
}
