/** The reader-writer monitor of server_types.h: its check-in and check-out routines as atomic steps
    of N threads. */
module Monitor {
  import opened Threads

  /** Where a thread stands. A signalled thread has been woken but has not yet retaken the mutex. */
  datatype Phase = Idle | ReadBlocked | ReadSignalled | Reading | WriteBlocked | WriteSignalled | Writing

  /** AsWritten never undoes the WW++ of a waiting writer; Intended does WW-- after the wait,
      as the reader side does with WR. */
  datatype Variant = AsWritten | Intended

  datatype State = State(ar: int, wr: int, aw: int, ww: int, threads: seq<Phase>)

  /** One critical section of the mutex, or a spurious return from a wait. `woken` is the scheduler's
      choice of the threads that a signal wakes. */
  datatype Action =
    | ReaderCheckin(t: nat)
    | ReaderResume(t: nat)
    | ReaderCheckout(t: nat, woken: set<nat>)
    | WriterCheckin(t: nat)
    | WriterResume(t: nat)
    | WriterCheckout(t: nat, woken: set<nat>)
    | Spurious(woken: set<nat>)

  function Init(n: nat): State {
    State(0, 0, 0, 0, seq(n, _ => Idle))
  }

  predicate In(s: State, t: nat, p: Phase) {
    t < |s.threads| && s.threads[t] == p
  }

  function SignalWriter(s: State, woken: set<nat>): State {
    s.(threads := Wake(s.threads, woken, WriteBlocked, WriteSignalled))
  }

  function BroadcastReaders(s: State): State {
    s.(threads := Wake(s.threads, Sleepers(s.threads, ReadBlocked), ReadBlocked, ReadSignalled))
  }

  /** The reader's loop test, and what follows up to the next wait or the unlock. */
  function ReaderTest(s: State, t: nat): State
    requires t < |s.threads|
  {
    if s.aw + s.ww > 0 then s.(wr := s.wr + 1, threads := s.threads[t := ReadBlocked])
    else s.(ar := s.ar + 1, threads := s.threads[t := Reading])
  }

  function WriterTest(s: State, t: nat): State
    requires t < |s.threads|
  {
    if s.aw + s.ar > 0 then s.(ww := s.ww + 1, threads := s.threads[t := WriteBlocked])
    else s.(aw := s.aw + 1, threads := s.threads[t := Writing])
  }

  function LeaveReader(s: State, t: nat): State
    requires t < |s.threads|
  {
    s.(ar := s.ar - 1, threads := s.threads[t := Idle])
  }

  function LeaveWriter(s: State, t: nat): State
    requires t < |s.threads|
  {
    s.(aw := s.aw - 1, threads := s.threads[t := Idle])
  }

  predicate Enabled(s: State, a: Action) {
    match a
    case ReaderCheckin(t) => In(s, t, Idle)
    case ReaderResume(t) => In(s, t, ReadSignalled)
    case ReaderCheckout(t, woken) =>
      In(s, t, Reading) && IsSignal(LeaveReader(s, t).threads, woken, WriteBlocked)
    case WriterCheckin(t) => In(s, t, Idle)
    case WriterResume(t) => In(s, t, WriteSignalled)
    case WriterCheckout(t, woken) =>
      In(s, t, Writing) && IsSignal(LeaveWriter(s, t).threads, woken, WriteBlocked)
    case Spurious(woken) => true
  }

  function Apply(v: Variant, s: State, a: Action): State
    requires Enabled(s, a)
  {
    match a
    case ReaderCheckin(t) => ReaderTest(s, t)
    case ReaderResume(t) => ReaderTest(s.(wr := s.wr - 1), t)
    case ReaderCheckout(t, woken) =>
      var s1 := LeaveReader(s, t);
      if s1.ar == 0 && s1.ww > 0 then SignalWriter(s1, woken) else s1
    case WriterCheckin(t) => WriterTest(s, t)
    case WriterResume(t) => WriterTest(if v.Intended? then s.(ww := s.ww - 1) else s, t)
    case WriterCheckout(t, woken) =>
      var s1 := LeaveWriter(s, t);
      if s1.ww > 0 then SignalWriter(s1, woken)
      else if s1.wr > 0 then BroadcastReaders(s1)
      else s1
    case Spurious(woken) =>
      s.(threads := Wake(Wake(s.threads, woken, ReadBlocked, ReadSignalled), woken, WriteBlocked, WriteSignalled))
  }

  predicate ValidRun(v: Variant, s: State, run: seq<Action>)
    decreases |run|
  {
    run == [] || (Enabled(s, run[0]) && ValidRun(v, Apply(v, s, run[0]), run[1..]))
  }

  function Exec(v: Variant, s: State, run: seq<Action>): State
    requires ValidRun(v, s, run)
    decreases |run|
  {
    if run == [] then s else Exec(v, Apply(v, s, run[0]), run[1..])
  }

  lemma {:induction false} RunConcat(v: Variant, s: State, r1: seq<Action>, r2: seq<Action>)
    requires ValidRun(v, s, r1) && ValidRun(v, Exec(v, s, r1), r2)
    ensures ValidRun(v, s, r1 + r2)
    ensures Exec(v, s, r1 + r2) == Exec(v, Exec(v, s, r1), r2)
    decreases |r1|
  {
    if r1 == [] {
      assert r1 + r2 == r2;
    } else {
      assert (r1 + r2)[1..] == r1[1..] + r2;
      RunConcat(v, Apply(v, s, r1[0]), r1[1..], r2);
    }
  }

  lemma RunSnoc(v: Variant, s: State, r: seq<Action>, a: Action)
    requires ValidRun(v, s, r) && Enabled(Exec(v, s, r), a)
    ensures ValidRun(v, s, r + [a])
    ensures Exec(v, s, r + [a]) == Apply(v, Exec(v, s, r), a)
  {
    var e := Exec(v, s, r);
    assert Exec(v, Apply(v, e, a), []) == Apply(v, e, a);
    assert [a][1..] == [];
    RunConcat(v, s, r, [a]);
  }

  /** What holds in every reachable state, whichever the variant. */
  ghost predicate Inv(v: Variant, s: State) {
    && s.ar == Count(s.threads, Reading)
    && s.aw == Count(s.threads, Writing)
    && s.aw <= 1
    && (s.ar > 0 ==> s.aw == 0)
    && s.wr == Count(s.threads, ReadBlocked) + Count(s.threads, ReadSignalled)
    && s.ww >= Count(s.threads, WriteBlocked) + Count(s.threads, WriteSignalled)
    && (v.Intended? ==> s.ww == Count(s.threads, WriteBlocked) + Count(s.threads, WriteSignalled))
    && (Count(s.threads, ReadBlocked) > 0 ==> s.aw + s.ww > 0)
    && (s.ar == s.aw == 0 && Count(s.threads, WriteBlocked) > 0 ==> Count(s.threads, WriteSignalled) > 0)
  }

  lemma InvInit(v: Variant, n: nat)
    ensures Inv(v, Init(n))
  {
    forall p | p != Idle ensures Count(Init(n).threads, p) == 0 {
      CountNone(Init(n).threads, p);
    }
  }

  lemma ReaderTestKeepsInv(v: Variant, s: State, a: Action)
    requires Inv(v, s) && Enabled(s, a) && (a.ReaderCheckin? || a.ReaderResume?)
    ensures Inv(v, Apply(v, s, a))
  {
    var q := if s.aw + s.ww > 0 then ReadBlocked else Reading;
    assert Apply(v, s, a).threads == s.threads[a.t := q];
    CountPositive(s.threads, a.t);
    CountUpdate(s.threads, a.t, q);
  }

  lemma WriterTestKeepsInv(v: Variant, s: State, a: Action)
    requires Inv(v, s) && Enabled(s, a) && (a.WriterCheckin? || a.WriterResume?)
    ensures Inv(v, Apply(v, s, a))
  {
    var q := if s.aw + s.ar > 0 then WriteBlocked else Writing;
    assert Apply(v, s, a).threads == s.threads[a.t := q];
    CountPositive(s.threads, a.t);
    CountUpdate(s.threads, a.t, q);
  }

  lemma ReaderCheckoutKeepsInv(v: Variant, s: State, t: nat, woken: set<nat>)
    requires Inv(v, s) && Enabled(s, ReaderCheckout(t, woken))
    ensures Inv(v, Apply(v, s, ReaderCheckout(t, woken)))
  {
    CountPositive(s.threads, t);
    CountUpdate(s.threads, t, Idle);
    var s1 := LeaveReader(s, t);
    WakeMoves(s1.threads, woken, WriteBlocked, WriteSignalled);
    SignalEffect(s1.threads, woken, WriteBlocked, WriteSignalled);
  }

  lemma WriterCheckoutKeepsInv(v: Variant, s: State, t: nat, woken: set<nat>)
    requires Inv(v, s) && Enabled(s, WriterCheckout(t, woken))
    ensures Inv(v, Apply(v, s, WriterCheckout(t, woken)))
  {
    CountPositive(s.threads, t);
    CountUpdate(s.threads, t, Idle);
    var s1 := LeaveWriter(s, t);
    WakeMoves(s1.threads, woken, WriteBlocked, WriteSignalled);
    SignalEffect(s1.threads, woken, WriteBlocked, WriteSignalled);
    WakeMoves(s1.threads, Sleepers(s1.threads, ReadBlocked), ReadBlocked, ReadSignalled);
    BroadcastEffect(s1.threads, ReadBlocked, ReadSignalled);
  }

  lemma SpuriousKeepsInv(v: Variant, s: State, woken: set<nat>)
    requires Inv(v, s)
    ensures Inv(v, Apply(v, s, Spurious(woken)))
  {
    WakeMoves(s.threads, woken, ReadBlocked, ReadSignalled);
    WakeMoves(Wake(s.threads, woken, ReadBlocked, ReadSignalled), woken, WriteBlocked, WriteSignalled);
  }

  lemma StepKeepsInv(v: Variant, s: State, a: Action)
    requires Inv(v, s) && Enabled(s, a)
    ensures Inv(v, Apply(v, s, a))
    ensures |Apply(v, s, a).threads| == |s.threads|
  {
    match a {
      case ReaderCheckout(t, woken) => ReaderCheckoutKeepsInv(v, s, t, woken);
      case WriterCheckout(t, woken) => WriterCheckoutKeepsInv(v, s, t, woken);
      case Spurious(woken) => SpuriousKeepsInv(v, s, woken);
      case ReaderCheckin(t) => ReaderTestKeepsInv(v, s, a);
      case ReaderResume(t) => ReaderTestKeepsInv(v, s, a);
      case WriterCheckin(t) => WriterTestKeepsInv(v, s, a);
      case WriterResume(t) => WriterTestKeepsInv(v, s, a);
    }
  }

  lemma {:induction false} RunKeepsInv(v: Variant, s: State, run: seq<Action>)
    requires Inv(v, s) && ValidRun(v, s, run)
    ensures Inv(v, Exec(v, s, run))
    ensures |Exec(v, s, run).threads| == |s.threads|
    decreases |run|
  {
    if run != [] {
      StepKeepsInv(v, s, run[0]);
      RunKeepsInv(v, Apply(v, s, run[0]), run[1..]);
    }
  }

  ghost predicate Reachable(v: Variant, s: State) {
    exists n: nat, run: seq<Action> :: ValidRun(v, Init(n), run) && Exec(v, Init(n), run) == s
  }

  lemma ReachableInv(v: Variant, s: State)
    requires Reachable(v, s)
    ensures Inv(v, s)
  {
    var n: nat, run: seq<Action> :| ValidRun(v, Init(n), run) && Exec(v, Init(n), run) == s;
    InvInit(v, n);
    RunKeepsInv(v, Init(n), run);
  }
}
