/** What the queue guarantees its N producers and M consumers. */
module QueueTheorems {
  import opened CStrings
  import opened Ring
  import opened Threads
  import opened Tokeniser
  import opened QueueRun

  ghost predicate RunFromInit(s0: State, run: seq<Action>) {
    IsInit(s0) && (InitInv(s0); ValidRun(s0, run))
  }

  ghost predicate Reachable(s: State) {
    exists s0: State, run: seq<Action> :: RunFromInit(s0, run) && (InitInv(s0); Exec(s0, run) == s)
  }

  lemma ReachableInv(s: State)
    requires Reachable(s)
    ensures Inv(s) && BorrowOk(s)
  {
    hide Inv, BorrowOk, ValidRun, Exec;
    var s0: State, run: seq<Action> :| RunFromInit(s0, run) && (InitInv(s0); Exec(s0, run) == s);
    InitInv(s0);
    RunKeepsBorrow(s0, run);
  }

  /** Over every run: what was appended is what was popped, then what is held, in order, each message with
      its own sender; and size counts what is held, never more than 255. */
  lemma FifoOverRuns(s: State)
    requires Reachable(s)
    ensures WellFormed(s.ring)
    ensures s.appended == s.popped + Contents(s.ring)
    ensures s.ring.size == |s.appended| - |s.popped| && s.ring.size <= QUEUE_MAX - 1
  {
    ReachableInv(s);
    SizeDecides(s.ring);
  }

  /** Wakeups never fall short of the work: for every message held there is a woken consumer as long as
      any consumer sleeps, and for every free slot a woken producer as long as any producer sleeps. */
  lemma WakeupsCoverWork(s: State)
    requires Reachable(s)
    ensures Count(s.consumers, Blocked) > 0 ==> Count(s.consumers, Signalled) >= s.ring.size
    ensures Count(s.producers, Blocked) > 0 ==> Count(s.producers, Signalled) >= QUEUE_MAX - 1 - s.ring.size
  {
    ReachableInv(s);
  }

  /** When nobody is on the way back from a wait, a sleeping consumer means there is nothing to pop,
      a sleeping producer means there is no room, and both cannot sleep at once. */
  lemma AtRest(s: State)
    requires Reachable(s) && Count(s.consumers, Signalled) == 0 && Count(s.producers, Signalled) == 0
    ensures Blocked in s.consumers ==> s.popped == s.appended
    ensures Blocked in s.producers ==> |s.appended| - |s.popped| == QUEUE_MAX - 1
    ensures !(Blocked in s.consumers && Blocked in s.producers)
  {
    ReachableInv(s);
    SizeDecides(s.ring);
    if Blocked in s.consumers {
      var i :| 0 <= i < |s.consumers| && s.consumers[i] == Blocked;
      CountPositive(s.consumers, i);
    }
    if Blocked in s.producers {
      var i :| 0 <= i < |s.producers| && s.producers[i] == Blocked;
      CountPositive(s.producers, i);
    }
  }

  function Outside(s: State): nat {
    |s.producers| - Count(s.producers, Idle) + (|s.consumers| - Count(s.consumers, Idle))
  }

  function SignalledCount(s: State): nat {
    Count(s.producers, Signalled) + Count(s.consumers, Signalled)
  }

  /** Each return from a wait either ends that thread's call or uses up a wakeup. */
  lemma ResumeUsesWakeup(s: State, a: Action)
    requires Inv(s) && Enabled(s, a) && (a.ProducerResume? || a.ConsumerResume?)
    ensures var s' := Apply(s, a);
            Outside(s') < Outside(s) || (Outside(s') == Outside(s) && SignalledCount(s') < SignalledCount(s))
  {
    hide WellFormed, Contents, Append, Pop, PendingOk, Fifo, NoLostWakeup, PacketOf, Parse, Tokens;
    if a.ProducerResume? {
      CountUpdate(s.producers, a.p, if Full(s.ring) then Blocked else Idle);
      WakeMoves(s.consumers, a.woken, Blocked, Signalled);
    } else {
      CountUpdate(s.consumers, a.c, if Empty(s.ring) then Blocked else Idle);
      WakeMoves(s.producers, a.woken, Blocked, Signalled);
    }
  }

  lemma {:induction false} SignalledBound(ts: seq<Phase>)
    ensures Count(ts, Signalled) <= |ts|
  {}

  function Weighed(outside: nat, signalled: nat, n: nat): nat {
    outside * (n + 1) + signalled
  }

  function Fuel(s: State): nat {
    Weighed(Outside(s), SignalledCount(s), |s.producers| + |s.consumers|)
  }

  lemma Falls(outside: nat, outside': nat, signalled: nat, signalled': nat, n: nat)
    requires signalled' <= n && (outside' < outside || (outside' == outside && signalled' < signalled))
    ensures Weighed(outside', signalled', n) < Weighed(outside, signalled, n)
  {
    if outside' < outside {
      assert outside' * (n + 1) <= (outside - 1) * (n + 1) == outside * (n + 1) - (n + 1);
    }
  }

  lemma SignalledSmall(s: State)
    ensures SignalledCount(s) <= |s.producers| + |s.consumers|
  {
    SignalledBound(s.producers);
    SignalledBound(s.consumers);
  }

  lemma FuelFalls(s: State, s1: State)
    requires |s1.producers| == |s.producers| && |s1.consumers| == |s.consumers|
    requires Outside(s1) < Outside(s) || (Outside(s1) == Outside(s) && SignalledCount(s1) < SignalledCount(s))
    ensures Fuel(s1) < Fuel(s)
  {
    SignalledSmall(s1);
    hide Outside, SignalledCount, Weighed;
    Falls(Outside(s), Outside(s1), SignalledCount(s), SignalledCount(s1), |s.producers| + |s.consumers|);
  }

  /** With no new calls, the returns from waits come to an end, whatever their order. */
  lemma {:induction false} ResumesEnd(s: State, run: seq<Action>)
    requires Inv(s) && ValidRun(s, run) && forall a :: a in run ==> a.ProducerResume? || a.ConsumerResume?
    ensures |run| <= Fuel(s)
    decreases |run|
  {
    if run != [] {
      assert run[0] in run;
      StepKeepsInv(s, run[0]);
      ResumeUsesWakeup(s, run[0]);
      hide Inv, Apply, Enabled, Fuel, Outside, SignalledCount;
      FuelFalls(s, Apply(s, run[0]));
      ResumesEnd(Apply(s, run[0]), run[1..]);
    }
  }

  /** With one consumer, the tokens of its last pop stay readable as the parse of the message it popped,
      whatever any number of producers append before its next pop. */
  lemma BorrowedTokensStay(s: State)
    requires Reachable(s) && |s.consumers| == 1 && s.borrowed != [] && s.borrowed[0].Borrowed?
    ensures var b := s.borrowed[0];
            && b.slot < QUEUE_MAX == |s.ring.slots|
            && (forall i :: 0 <= i < |b.out| ==> b.out[i] <= |s.ring.slots[b.slot].msg|)
            && Tokens(s.ring.slots[b.slot].msg, b.out) == Parse(b.front.text)
            && s.popped != [] && b.front == s.popped[|s.popped| - 1]
  {
    ReachableInv(s);
  }

  // ----- Why one consumer -----

  /** With a second consumer the borrowing is not safe: from any full queue, two pops and then two appends
      leave the second appended message in the slot whose tokens the first pop handed out. */
  lemma TwoPopsExposeTheSlot(r: Ring, m0: seq<char>, m1: seq<char>, a: Request, b: Request)
    requires WellFormed(r) && Full(r) && |m0| == |m1| == QUEUE_MSG_SIZE && IsCStr(a.msg) && IsCStr(b.msg)
    ensures WellFormed(Pop(r, m0)) && WellFormed(Pop(Pop(r, m0), m1))
    ensures var r1 := Pop(Pop(r, m0), m1);
            && !Empty(Pop(r, m0)) && !Full(r1)
            && WellFormed(Append(r1, a.msg, a.from)) && !Full(Append(r1, a.msg, a.from))
            && var r3 := Append(Append(r1, a.msg, a.from), b.msg, b.from);
            CStrAt(r3.slots[r.head].msg, 0) == Clip(b.msg, QUEUE_MSG_SIZE - 1)
  {
    SizeDecides(r);
    PopWellFormed(r, m0);
    SizeDecides(Pop(r, m0));
    PopWellFormed(Pop(r, m0), m1);
    var r1 := Pop(Pop(r, m0), m1);
    SizeDecides(r1);
    AppendWellFormed(r1, a.msg, a.from);
    SizeDecides(Append(r1, a.msg, a.from));
    FilledReads(b.msg);
    assert r.head < QUEUE_MAX == |r.slots| && r.tail < QUEUE_MAX;
    hide WellFormed, Terminated, Filled, FirstOf, CStrAt;
    assert (r1.tail + 1) % QUEUE_MAX == r.head;
  }
}
