/** What the monitor guarantees over all runs of N threads, and where the code as written
    falls short of the variant that undoes the waiting writer's WW++. */
module MonitorTheorems {
  import opened Threads
  import opened Monitor

  // ----- Safety, both variants -----

  /** No writer is ever active together with anyone else. */
  lemma MutualExclusion(v: Variant, s: State, i: nat, j: nat)
    requires Reachable(v, s) && i != j && In(s, i, Writing) && j < |s.threads|
    ensures s.threads[j] != Writing && s.threads[j] != Reading
  {
    ReachableInv(v, s);
    CountPositive(s.threads, i);
    CountPositive(s.threads, j);
    if s.threads[j] == Writing {
      CountTwo(s.threads, if i < j then i else j, if i < j then j else i);
    }
  }

  /** The counters are the head counts; WW is one only in the intended variant, and an upper bound as written. */
  lemma CountersCountThreads(v: Variant, s: State)
    requires Reachable(v, s)
    ensures s.ar == Count(s.threads, Reading) && s.aw == Count(s.threads, Writing)
    ensures s.aw <= 1 && (s.ar > 0 ==> s.aw == 0)
    ensures s.wr == Count(s.threads, ReadBlocked) + Count(s.threads, ReadSignalled)
    ensures s.ww >= Count(s.threads, WriteBlocked) + Count(s.threads, WriteSignalled)
    ensures v.Intended? ==> s.ww == Count(s.threads, WriteBlocked) + Count(s.threads, WriteSignalled)
  {
    ReachableInv(v, s);
  }

  /** No writer wakeup is lost: when the lock is free and a writer sleeps, another has been woken. */
  lemma WriterWakeupPending(v: Variant, s: State, t: nat) returns (u: nat)
    requires Reachable(v, s) && s.ar == s.aw == 0 && In(s, t, WriteBlocked)
    ensures In(s, u, WriteSignalled)
  {
    ReachableInv(v, s);
    CountPositive(s.threads, t);
    u := CountWitness(s.threads, WriteSignalled);
  }

  /** Intended variant: no reader sleeps for nothing, and a free lock with any sleeper has a woken writer. */
  lemma IntendedWakeupPending(s: State, t: nat) returns (u: nat)
    requires Reachable(Intended, s) && s.ar == s.aw == 0
    requires In(s, t, ReadBlocked) || In(s, t, WriteBlocked)
    ensures In(s, u, WriteSignalled)
  {
    ReachableInv(Intended, s);
    CountPositive(s.threads, t);
    u := CountWitness(s.threads, WriteSignalled);
  }

  /** A reader that leaves others reading wakes nobody: all other threads stay as they are. */
  lemma NotTheLastWakesNobody(v: Variant, s: State, t: nat, u: nat, woken: set<nat>)
    requires Reachable(v, s) && Enabled(s, ReaderCheckout(t, woken)) && u != t && In(s, u, Reading)
    ensures Apply(v, s, ReaderCheckout(t, woken)).threads == s.threads[t := Idle]
  {
    ReachableInv(v, s);
    CountTwo(s.threads, if t < u then t else u, if t < u then u else t);
  }

  /** Whoever leaves last wakes sleeping writers if WW says that writers wait, at least one if one sleeps; a writer, if
      not, wakes all sleeping readers. Nobody else's place changes. */
  lemma LastOutWakes(v: Variant, s: State, a: Action, u: nat)
    requires Reachable(v, s) && Enabled(s, a) && (a.ReaderCheckout? || a.WriterCheckout?)
    requires (a.ReaderCheckout? ==> s.ar == 1) && u < |s.threads| && u != a.t
    ensures var e := Apply(v, s, a);
            && |e.threads| == |s.threads| && e.threads[a.t] == Idle
            && if s.ww > 0 then
                 && (a.woken == {} ==> WriteBlocked !in s.threads)
                 && e.threads[u] == if u in a.woken && s.threads[u] == WriteBlocked then WriteSignalled
                                    else s.threads[u]
               else if a.WriterCheckout? && s.threads[u] == ReadBlocked then e.threads[u] == ReadSignalled
               else e.threads[u] == s.threads[u]
  {
    ReachableInv(v, s);
    CountPositive(s.threads, u);
    var s1 := if a.ReaderCheckout? then LeaveReader(s, a.t) else LeaveWriter(s, a.t);
    assert forall i :: 0 <= i < |s.threads| && i != a.t ==> s1.threads[i] == s.threads[i];
    if WriteBlocked in s.threads {
      var i :| 0 <= i < |s.threads| && s.threads[i] == WriteBlocked;
      assert s1.threads[i] == WriteBlocked;
    }
  }

  /** A spurious wakeup wakes those it chooses among the sleepers, readers and writers, and changes nothing else. */
  lemma SpuriousWakes(v: Variant, s: State, woken: set<nat>, u: nat)
    requires u < |s.threads|
    ensures Enabled(s, Spurious(woken))
    ensures var e := Apply(v, s, Spurious(woken));
            && e.(threads := s.threads) == s && |e.threads| == |s.threads|
            && e.threads[u] == if u !in woken then s.threads[u]
                               else if s.threads[u] == ReadBlocked then ReadSignalled
                               else if s.threads[u] == WriteBlocked then WriteSignalled
                               else s.threads[u]
  {}

  // ----- Draining: runs in which nobody new checks in -----

  /** Steps that a monitor takes by itself once no thread checks in any more. */
  predicate Internal(a: Action) {
    a.ReaderResume? || a.ReaderCheckout? || a.WriterResume? || a.WriterCheckout?
  }

  ghost predicate InternalRun(v: Variant, s: State, run: seq<Action>) {
    ValidRun(v, s, run) && forall a :: a in run ==> Internal(a)
  }

  ghost predicate Stuck(s: State) {
    forall a :: Internal(a) ==> !Enabled(s, a)
  }

  ghost predicate AllIdle(s: State) {
    forall t :: 0 <= t < |s.threads| ==> s.threads[t] == Idle
  }

  function Outside(s: State): nat {
    |s.threads| - Count(s.threads, Idle)
  }

  function Signalled(s: State): nat {
    Count(s.threads, ReadSignalled) + Count(s.threads, WriteSignalled)
  }

  lemma {:induction false} SignalledBound(ts: seq<Phase>)
    ensures Count(ts, ReadSignalled) + Count(ts, WriteSignalled) <= |ts|
  {
    if ts != [] {
      SignalledBound(ts[..|ts| - 1]);
    }
  }

  function Fuel(s: State): nat {
    Outside(s) * (|s.threads| + 1) + Signalled(s)
  }

  lemma CheckoutUsesFuel(v: Variant, s: State, a: Action)
    requires Enabled(s, a) && (a.ReaderCheckout? || a.WriterCheckout?)
    ensures Outside(Apply(v, s, a)) == Outside(s) - 1
  {
    CountUpdate(s.threads, a.t, Idle);
    var s1 := if a.ReaderCheckout? then LeaveReader(s, a.t) else LeaveWriter(s, a.t);
    WakeMoves(s1.threads, a.woken, WriteBlocked, WriteSignalled);
    WakeMoves(s1.threads, Sleepers(s1.threads, ReadBlocked), ReadBlocked, ReadSignalled);
  }

  lemma ResumeUsesFuel(v: Variant, s: State, a: Action)
    requires Enabled(s, a) && (a.ReaderResume? || a.WriterResume?)
    ensures Outside(Apply(v, s, a)) == Outside(s) && Signalled(Apply(v, s, a)) < Signalled(s)
  {
    var s1 := Apply(v, s, a);
    CountUpdate(s.threads, a.t, s1.threads[a.t]);
    assert s1.threads == s.threads[a.t := s1.threads[a.t]];
  }

  lemma InternalUsesFuel(v: Variant, s: State, a: Action)
    requires Enabled(s, a) && Internal(a)
    ensures Fuel(Apply(v, s, a)) < Fuel(s)
  {
    var s1 := Apply(v, s, a);
    if a.ReaderResume? || a.WriterResume? {
      ResumeUsesFuel(v, s, a);
    } else {
      CheckoutUsesFuel(v, s, a);
      SignalledBound(s1.threads);
      var k := |s.threads| + 1;
      assert (Outside(s) - 1) * k == Outside(s) * k - k;
    }
  }

  /** Left alone, the monitor comes to rest after a bounded number of steps, in any order they are taken. */
  lemma {:induction false} InternalRunsEnd(v: Variant, s: State, run: seq<Action>)
    requires InternalRun(v, s, run)
    ensures |run| <= Fuel(s)
    decreases |run|
  {
    if run != [] {
      InternalUsesFuel(v, s, run[0]);
      InternalRunsEnd(v, Apply(v, s, run[0]), run[1..]);
    }
  }

  /** A thread that is active or woken can move. */
  lemma ActiveCanMove(s: State, t: nat)
    requires t < |s.threads| && s.threads[t] !in {Idle, ReadBlocked, WriteBlocked}
    ensures !Stuck(s)
  {
    match s.threads[t] {
      case Reading => assert Enabled(s, ReaderCheckout(t, Sleepers(LeaveReader(s, t).threads, WriteBlocked)));
      case Writing => assert Enabled(s, WriterCheckout(t, Sleepers(LeaveWriter(s, t).threads, WriteBlocked)));
      case ReadSignalled => assert Enabled(s, ReaderResume(t));
      case WriteSignalled => assert Enabled(s, WriterResume(t));
      case _ => assert false;
    }
  }

  lemma StuckCounts(v: Variant, s: State)
    requires Inv(v, s) && Stuck(s)
    ensures s.ar == s.aw == 0 && Count(s.threads, ReadSignalled) == 0 && Count(s.threads, WriteSignalled) == 0
    ensures Count(s.threads, WriteBlocked) == 0
    ensures forall t :: 0 <= t < |s.threads| ==> s.threads[t] == Idle || s.threads[t] == ReadBlocked
  {
    forall p | p !in {Idle, ReadBlocked, WriteBlocked} ensures Count(s.threads, p) == 0 {
      if Count(s.threads, p) > 0 {
        var t := CountWitness(s.threads, p);
        ActiveCanMove(s, t);
      }
    }
    forall t: nat | t < |s.threads| ensures s.threads[t] == Idle || s.threads[t] == ReadBlocked {
      CountPositive(s.threads, t);
    }
  }

  /** Intended variant: however the steps fall, the monitor comes to rest only with every thread out. */
  lemma IntendedDrains(s: State, run: seq<Action>)
    requires Reachable(Intended, s) && InternalRun(Intended, s, run) && Stuck(Exec(Intended, s, run))
    ensures AllIdle(Exec(Intended, s, run))
  {
    ReachableInv(Intended, s);
    RunKeepsInv(Intended, s, run);
    var e := Exec(Intended, s, run);
    StuckCounts(Intended, e);
    forall t: nat | t < |e.threads| ensures e.threads[t] == Idle {
      CountPositive(e.threads, t);
    }
  }

  /** A run to rest exists from every state. */
  lemma {:induction false} RestIsReached(v: Variant, s: State) returns (run: seq<Action>)
    ensures InternalRun(v, s, run) && Stuck(Exec(v, s, run))
    decreases Fuel(s)
  {
    if Stuck(s) {
      run := [];
    } else {
      var a :| Internal(a) && Enabled(s, a);
      InternalUsesFuel(v, s, a);
      var rest := RestIsReached(v, Apply(v, s, a));
      run := [a] + rest;
      assert run[1..] == rest;
    }
  }

  // ----- The code as written -----

  lemma AsWrittenStep(s: State, a: Action)
    requires Inv(AsWritten, s) && Enabled(s, a)
    ensures Apply(AsWritten, s, a).ww >= s.ww
    ensures s.ww > 0 ==> forall t :: 0 <= t < |s.threads| && s.threads[t] != Reading
                                     ==> Apply(AsWritten, s, a).threads[t] != Reading
    ensures s.ww > 0 ==> forall t :: 0 <= t < |s.threads|
                                     && (s.threads[t] == ReadBlocked || s.threads[t] == ReadSignalled)
                                     ==> Apply(AsWritten, s, a).threads[t] == ReadBlocked
                                         || Apply(AsWritten, s, a).threads[t] == ReadSignalled
  {}

  /** As written, WW never falls, and once it is positive no thread that is not reading ever reads again. */
  lemma {:induction false} AsWrittenLocksReadersOut(s: State, run: seq<Action>)
    requires Inv(AsWritten, s) && ValidRun(AsWritten, s, run)
    ensures Exec(AsWritten, s, run).ww >= s.ww
    ensures |Exec(AsWritten, s, run).threads| == |s.threads|
    ensures s.ww > 0 ==> forall t :: 0 <= t < |s.threads| && s.threads[t] != Reading
                                     ==> Exec(AsWritten, s, run).threads[t] != Reading
    ensures s.ww > 0 ==> forall t :: 0 <= t < |s.threads|
                                     && (s.threads[t] == ReadBlocked || s.threads[t] == ReadSignalled)
                                     ==> Exec(AsWritten, s, run).threads[t] == ReadBlocked
                                         || Exec(AsWritten, s, run).threads[t] == ReadSignalled
    decreases |run|
  {
    if run != [] {
      AsWrittenStep(s, run[0]);
      StepKeepsInv(AsWritten, s, run[0]);
      AsWrittenLocksReadersOut(Apply(AsWritten, s, run[0]), run[1..]);
    }
  }

  lemma InternalStepKeepsZero(s: State, a: Action)
    requires Inv(AsWritten, s) && Enabled(s, a) && Internal(a)
    ensures s.ww == 0 ==> Apply(AsWritten, s, a).ww == 0
    ensures s.wr == 0 ==> Apply(AsWritten, s, a).wr == 0
  {
    CountPositive(s.threads, a.t);
  }

  lemma {:induction false} InternalKeepsZero(s: State, run: seq<Action>)
    requires Inv(AsWritten, s) && InternalRun(AsWritten, s, run)
    ensures s.ww == 0 ==> Exec(AsWritten, s, run).ww == 0
    ensures s.wr == 0 ==> Exec(AsWritten, s, run).wr == 0
    decreases |run|
  {
    if run != [] {
      InternalStepKeepsZero(s, run[0]);
      StepKeepsInv(AsWritten, s, run[0]);
      InternalKeepsZero(Apply(AsWritten, s, run[0]), run[1..]);
    }
  }

  /** As written, the monitor drains exactly when no writer has ever waited or no reader is waiting now. */
  lemma AsWrittenDrainsIff(s: State, run: seq<Action>)
    requires Reachable(AsWritten, s) && InternalRun(AsWritten, s, run) && Stuck(Exec(AsWritten, s, run))
    ensures AllIdle(Exec(AsWritten, s, run)) <==> s.ww == 0 || s.wr == 0
  {
    ReachableInv(AsWritten, s);
    RunKeepsInv(AsWritten, s, run);
    var e := Exec(AsWritten, s, run);
    StuckCounts(AsWritten, e);
    if s.ww == 0 || s.wr == 0 {
      InternalKeepsZero(s, run);
      forall t: nat | t < |e.threads| ensures e.threads[t] == Idle {
        CountPositive(e.threads, t);
      }
    } else {
      var p := if Count(s.threads, ReadBlocked) > 0 then ReadBlocked else ReadSignalled;
      var t := CountWitness(s.threads, p);
      AsWrittenLocksReadersOut(s, run);
      assert e.threads[t] != Idle;
    }
  }

  lemma Prepend(v: Variant, s: State, a: Action, run: seq<Action>)
    requires Enabled(s, a) && ValidRun(v, Apply(v, s, a), run)
    ensures ValidRun(v, s, [a] + run) && Exec(v, s, [a] + run) == Exec(v, Apply(v, s, a), run)
  {
    assert ([a] + run)[1..] == run;
  }

  /** With no writer active or waiting, any thread can be let in as a reader at once. */
  lemma AdmitReader(s: State, t: nat) returns (run: seq<Action>)
    requires Inv(AsWritten, s) && s.ww == 0 && s.aw == 0 && t < |s.threads|
    ensures ValidRun(AsWritten, s, run) && In(Exec(AsWritten, s, run), t, Reading)
  {
    CountPositive(s.threads, t);
    if s.threads[t] == Reading {
      run := [];
    } else {
      var a := if s.threads[t] == Idle then ReaderCheckin(t) else ReaderResume(t);
      Prepend(AsWritten, s, a, []);
      run := [a] + [];
    }
  }

  /** Some continuation has thread t reading. */
  ghost predicate CanRead(s: State, t: nat) {
    exists run :: ValidRun(AsWritten, s, run) && In(Exec(AsWritten, s, run), t, Reading)
  }

  lemma CanReadWhenOpen(s: State, t: nat)
    requires Inv(AsWritten, s) && s.ww == 0 && t < |s.threads|
    ensures CanRead(s, t)
  {
    if s.aw == 0 {
      var run := AdmitReader(s, t);
      assert ValidRun(AsWritten, s, run);
    } else {
      var w := CountWitness(s.threads, Writing);
      var a := WriterCheckout(w, Sleepers(LeaveWriter(s, w).threads, WriteBlocked));
      StepKeepsInv(AsWritten, s, a);
      var run := AdmitReader(Apply(AsWritten, s, a), t);
      Prepend(AsWritten, s, a, run);
      assert ValidRun(AsWritten, s, [a] + run);
    }
  }

  /** As written, a thread can still get in as a reader in some continuation exactly when WW is 0
      (or it is reading already). */
  lemma AsWrittenReaderAdmittedIff(s: State, t: nat)
    requires Reachable(AsWritten, s) && t < |s.threads|
    ensures CanRead(s, t) <==> s.ww == 0 || s.threads[t] == Reading
  {
    ReachableInv(AsWritten, s);
    if CanRead(s, t) {
      var run :| ValidRun(AsWritten, s, run) && In(Exec(AsWritten, s, run), t, Reading);
      AsWrittenLocksReadersOut(s, run);
    }
    if s.ww == 0 {
      CanReadWhenOpen(s, t);
    } else if s.threads[t] == Reading {
      assert ValidRun(AsWritten, s, []);
      assert In(Exec(AsWritten, s, []), t, Reading);
    }
  }

  /** One reader, one writer that waits for it, then the reader again. */
  function WriterWaitsOnce(): seq<Action> {
    [ReaderCheckin(0), WriterCheckin(1), ReaderCheckout(0, {1}),
     WriterResume(1), WriterCheckout(1, {}), ReaderCheckin(0)]
  }

  function AfterWriterWaits(v: Variant): State {
    if v.Intended? then State(1, 0, 0, 0, [Reading, Idle]) else State(0, 1, 0, 1, [ReadBlocked, Idle])
  }

  /** The states that schedule goes through. */
  function Stage(v: Variant, i: nat): State
    requires i <= 6
  {
    var leftOver := if v.Intended? then 0 else 1;
    match i
    case 0 => Init(2)
    case 1 => State(1, 0, 0, 0, [Reading, Idle])
    case 2 => State(1, 0, 0, 1, [Reading, WriteBlocked])
    case 3 => State(0, 0, 0, 1, [Idle, WriteSignalled])
    case 4 => State(0, 0, 1, leftOver, [Idle, Writing])
    case 5 => State(0, 0, 0, leftOver, [Idle, Idle])
    case _ => AfterWriterWaits(v)
  }

  lemma StageStep(v: Variant, i: nat)
    requires i < 6
    ensures Enabled(Stage(v, i), WriterWaitsOnce()[i])
    ensures Apply(v, Stage(v, i), WriterWaitsOnce()[i]) == Stage(v, i + 1)
  {
    if i == 0 {
      assert Init(2).threads == [Idle, Idle];
    } else if i == 2 {
      assert LeaveReader(Stage(v, 2), 0).threads == [Idle, WriteBlocked];
      assert Sleepers([Idle, WriteBlocked], WriteBlocked) == {1};
    } else if i == 4 {
      assert LeaveWriter(Stage(v, 4), 1).threads == [Idle, Idle];
      assert Sleepers([Idle, Idle], WriteBlocked) == {};
    }
  }

  lemma {:induction false} WriterWaitsOnceFrom(v: Variant, i: nat)
    requires i <= 6
    ensures ValidRun(v, Stage(v, i), WriterWaitsOnce()[i..])
    ensures Exec(v, Stage(v, i), WriterWaitsOnce()[i..]) == AfterWriterWaits(v)
    decreases 6 - i
  {
    if i < 6 {
      StageStep(v, i);
      WriterWaitsOnceFrom(v, i + 1);
      Prepend(v, Stage(v, i), WriterWaitsOnce()[i], WriterWaitsOnce()[i + 1..]);
      assert WriterWaitsOnce()[i..] == [WriterWaitsOnce()[i]] + WriterWaitsOnce()[i + 1..];
    }
  }

  lemma AfterWriterWaitsReachable(v: Variant)
    ensures Reachable(v, AfterWriterWaits(v))
  {
    WriterWaitsOnceFrom(v, 0);
    var run := WriterWaitsOnce();
    assert run[0..] == run;
    assert ValidRun(v, Init(2), run) && Exec(v, Init(2), run) == AfterWriterWaits(v);
  }

  lemma LockedOut(s: State, run: seq<Action>, t: nat)
    requires Reachable(AsWritten, s) && s.ww > 0 && t < |s.threads| && s.threads[t] != Reading
    requires ValidRun(AsWritten, s, run)
    ensures !In(Exec(AsWritten, s, run), t, Reading)
  {
    AsWrittenReaderAdmittedIff(s, t);
  }

  /** The same schedule leaves the reader in under the intended variant; as written it reaches a state with
      no writer active or waiting where no thread reads in any continuation. */
  lemma OneWaitLocksReadersOutForever(run: seq<Action>, t: nat)
    requires ValidRun(AsWritten, AfterWriterWaits(AsWritten), run) && t < 2
    ensures Reachable(AsWritten, AfterWriterWaits(AsWritten)) && Reachable(Intended, AfterWriterWaits(Intended))
    ensures AfterWriterWaits(Intended).threads == [Reading, Idle]
    ensures AfterWriterWaits(AsWritten).threads == [ReadBlocked, Idle]
    ensures !In(Exec(AsWritten, AfterWriterWaits(AsWritten), run), t, Reading)
  {
    AfterWriterWaitsReachable(AsWritten);
    AfterWriterWaitsReachable(Intended);
    LockedOut(AfterWriterWaits(AsWritten), run, t);
  }
}
