/** Counting threads by phase, and what a condition-variable signal does to them. */
module Threads {

  /** How many entries of ts are in phase p. */
  function Count<T(==)>(ts: seq<T>, p: T): (n: nat)
    ensures n <= |ts|
  {
    if ts == [] then 0
    else Count(ts[..|ts| - 1], p) + (if ts[|ts| - 1] == p then 1 else 0)
  }

  lemma {:induction false} CountUpdate<T(!new)>(ts: seq<T>, i: nat, q: T)
    requires i < |ts|
    ensures forall p :: Count(ts[i := q], p) ==
                        Count(ts, p) - (if ts[i] == p then 1 else 0) + (if q == p then 1 else 0)
  {
    var n := |ts| - 1;
    if i == n {
      assert ts[i := q][..n] == ts[..n];
    } else {
      assert ts[i := q][..n] == ts[..n][i := q];
      CountUpdate(ts[..n], i, q);
    }
  }

  lemma {:induction false} CountPositive<T(!new)>(ts: seq<T>, i: nat)
    requires i < |ts|
    ensures Count(ts, ts[i]) > 0
  {
    if i < |ts| - 1 {
      CountPositive(ts[..|ts| - 1], i);
    }
  }

  lemma {:induction false} CountTwo<T(!new)>(ts: seq<T>, i: nat, j: nat)
    requires i < j < |ts| && ts[i] == ts[j]
    ensures Count(ts, ts[i]) >= 2
  {
    if j < |ts| - 1 {
      CountTwo(ts[..|ts| - 1], i, j);
    } else {
      CountPositive(ts[..j], i);
    }
  }

  lemma {:induction false} CountWitness<T(!new)>(ts: seq<T>, p: T) returns (i: nat)
    requires Count(ts, p) > 0
    ensures i < |ts| && ts[i] == p
  {
    if ts[|ts| - 1] == p {
      i := |ts| - 1;
    } else {
      i := CountWitness(ts[..|ts| - 1], p);
    }
  }

  lemma {:induction false} CountNone<T(!new)>(ts: seq<T>, p: T)
    requires forall i :: 0 <= i < |ts| ==> ts[i] != p
    ensures Count(ts, p) == 0
  {
    if Count(ts, p) > 0 {
      var i := CountWitness(ts, p);
    }
  }

  /** The threads of ts that sleep in phase p. */
  function Sleepers<T(==)>(ts: seq<T>, p: T): (r: set<nat>)
    ensures forall i :: i in r <==> 0 <= i < |ts| && ts[i] == p
  {
    set i: nat | i < |ts| && ts[i] == p
  }

  /** A legal effect of pthread_cond_signal: it wakes only sleepers, and at least one if there is one
      (IEEE Std 1003.1-2017, pthread_cond_signal). */
  predicate IsSignal<T(==)>(ts: seq<T>, woken: set<nat>, blocked: T) {
    woken <= Sleepers(ts, blocked) && (Sleepers(ts, blocked) != {} ==> woken != {})
  }

  function Wake<T(==)>(ts: seq<T>, woken: set<nat>, blocked: T, signalled: T): (r: seq<T>)
    ensures |r| == |ts|
    ensures forall i :: 0 <= i < |ts| ==> r[i] == if i in woken && ts[i] == blocked then signalled else ts[i]
  {
    seq(|ts|, i requires 0 <= i < |ts| => if i in woken && ts[i] == blocked then signalled else ts[i])
  }

  /** Waking moves threads from one phase to another and touches no other phase. */
  lemma {:induction false} WakeMoves<T(!new)>(ts: seq<T>, woken: set<nat>, blocked: T, signalled: T)
    requires blocked != signalled
    ensures var r := Wake(ts, woken, blocked, signalled);
            && Count(r, blocked) + Count(r, signalled) == Count(ts, blocked) + Count(ts, signalled)
            && Count(r, blocked) <= Count(ts, blocked)
            && forall p :: p != blocked && p != signalled ==> Count(r, p) == Count(ts, p)
  {
    if ts != [] {
      var n := |ts| - 1;
      WakeMoves(ts[..n], woken, blocked, signalled);
      assert Wake(ts, woken, blocked, signalled)[..n] == Wake(ts[..n], woken, blocked, signalled);
    }
  }

  /** A signal with a sleeper to wake wakes one. */
  lemma {:induction false} WakeWakes<T(!new)>(ts: seq<T>, woken: set<nat>, blocked: T, signalled: T, i: nat)
    requires blocked != signalled && i < |ts| && i in woken && ts[i] == blocked
    ensures Count(Wake(ts, woken, blocked, signalled), blocked) < Count(ts, blocked)
  {
    var n := |ts| - 1;
    var r := Wake(ts, woken, blocked, signalled);
    assert r[..n] == Wake(ts[..n], woken, blocked, signalled);
    WakeMoves(ts[..n], woken, blocked, signalled);
    if i < n {
      WakeWakes(ts[..n], woken, blocked, signalled, i);
    }
  }

  /** What one pthread_cond_signal does to the two phases of one condition variable. */
  lemma SignalEffect<T(!new)>(ts: seq<T>, woken: set<nat>, blocked: T, signalled: T)
    requires blocked != signalled && IsSignal(ts, woken, blocked)
    ensures var r := Wake(ts, woken, blocked, signalled);
            Count(ts, blocked) > 0 ==> Count(r, signalled) > Count(ts, signalled)
  {
    WakeMoves(ts, woken, blocked, signalled);
    if Count(ts, blocked) > 0 {
      var j := CountWitness(ts, blocked);
      assert j in Sleepers(ts, blocked);
      var i :| i in woken;
      assert i in Sleepers(ts, blocked);
      WakeWakes(ts, woken, blocked, signalled, i);
    }
  }

  /** pthread_cond_broadcast leaves no sleeper. */
  lemma BroadcastEffect<T(!new)>(ts: seq<T>, blocked: T, signalled: T)
    requires blocked != signalled
    ensures Count(Wake(ts, Sleepers(ts, blocked), blocked, signalled), blocked) == 0
  {
    CountNone(Wake(ts, Sleepers(ts, blocked), blocked, signalled), blocked);
  }
}
