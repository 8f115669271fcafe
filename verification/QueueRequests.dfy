/** What becomes of each producer's request, through any number of waits. */
module QueueRequests {
  import opened CStrings
  import opened Ring
  import opened Threads
  import opened Tokeniser
  import opened QueueRun
  import opened QueueTheorems

  /** The message that a call of q_append puts into the queue, with its sender. */
  function PacketFor(q: Request): Packet {
    Packet(Clip(q.msg, QUEUE_MSG_SIZE - 1), q.from)
  }

  /** No call is refused and nobody woken is held up, full queue or empty: a producer or consumer that is idle can call,
      one that has been woken can go on, with a signal that wakes all it may. */
  lemma NobodyIsRefused(s: State, p: nat, q: Request, c: nat, t: Tokenised)
    requires Inv(s) && p < |s.producers| && c < |s.consumers| && TokenisedOk(s.ring, t)
    ensures var consumers, producers := Sleepers(s.consumers, Blocked), Sleepers(s.producers, Blocked);
            && (Enabled(s, Produce(p, q, consumers)) <==> s.producers[p] == Idle && IsCStr(q.msg))
            && (Enabled(s, ProducerResume(p, consumers)) <==> s.producers[p] == Signalled)
            && (Enabled(s, Consume(c, t, producers)) <==> s.consumers[c] == Idle)
            && (Enabled(s, ConsumerResume(c, t, producers)) <==> s.consumers[c] == Signalled)
            && Enabled(s, Spurious(producers, consumers))
  {
    hide WellFormed, TokenisedOk, Fifo, PendingOk, NoLostWakeup;
  }

  /** A call returns only once its own message is in the queue, and until then it keeps its request: the step in which a
      producer calls or comes back from a wait either appends exactly the packet that the call asked for, with its
      sender, and ends the call, or leaves everything else as it is and the producer waiting with the same request. */
  lemma RequestIsKept(s: State, a: Action, p: nat)
    requires Inv(s) && Enabled(s, a) && (a.Produce? || a.ProducerResume?) && a.p == p
    ensures var e, q := Apply(s, a), if a.Produce? then a.request else s.pending[p];
            if Full(s.ring) then
              e.producers[p] == Blocked && e.pending[p] == q && e.appended == s.appended && e.ring == s.ring
            else
              e.producers[p] == Idle && e.appended == s.appended + [PacketFor(q)]
  {
    hide WellFormed, Append, Wake;
  }

  /** No other step touches a waiting producer's request, or appends anything. */
  lemma OthersKeepIt(s: State, a: Action, p: nat)
    requires Inv(s) && Enabled(s, a) && p < |s.producers| && s.producers[p] != Idle
    requires !((a.Produce? || a.ProducerResume?) && a.p == p)
    ensures var e := Apply(s, a);
            && |e.producers| == |e.pending| == |s.producers|
            && e.producers[p] != Idle && e.pending[p] == s.pending[p]
            && (!a.Produce? && !a.ProducerResume? ==> e.appended == s.appended)
  {
    hide WellFormed, Append, Pop, PacketOf, Contents;
  }

  /** A consumer that calls q_pop or comes back from a wait either gets the tokens of the front message, which is then
      gone from the queue, and ends its call, or is left waiting with nothing else changed. */
  lemma PopIsServed(s: State, c: nat, t: Tokenised, woken: set<nat>)
    requires Inv(s) && c < |s.consumers| && TokenisedOk(s.ring, t)
    ensures WellFormed(PopStep(s, c, t, woken).ring)
    ensures var e := PopStep(s, c, t, woken);
            if Empty(s.ring) then
              e == s.(consumers := s.consumers[c := Blocked], borrowed := s.borrowed[c := Nothing])
            else
              var front := Contents(s.ring)[0];
              && e.consumers[c] == Idle && e.borrowed[c] == Borrowed(s.ring.head, t.out, front)
              && Contents(e.ring) == Contents(s.ring)[1..] && e.popped == s.popped + [front]
              && Tokens(t.msg, t.out) == Parse(front.text)
  {
    if !Empty(s.ring) {
      HeadReadable(s.ring);
      PopWellFormed(s.ring, t.msg);
      PopIsFifo(s.ring, t.msg);
    }
    hide WellFormed, Pop, Wake, Parse, PacketOf, Fifo, NoLostWakeup, PendingOk;
  }

  /** Both the call and the return from a wait are that. */
  lemma PopsAreServed(s: State, a: Action)
    requires Inv(s) && Enabled(s, a) && (a.Consume? || a.ConsumerResume?)
    ensures Apply(s, a) == PopStep(s, a.c, a.tokenised, a.woken)
  {}

  /** Who is woken: by an append those consumers that its signal chooses, by a pop those producers, by a spurious wakeup
      any it chooses; by anything that is left waiting nobody. */
  lemma WhoWakes(s: State, a: Action, p: nat, c: nat)
    requires Inv(s) && Enabled(s, a) && p < |s.producers| && c < |s.consumers|
    requires (a.Produce? || a.ProducerResume? ==> a.p != p) && (a.Consume? || a.ConsumerResume? ==> a.c != c)
    ensures var e := Apply(s, a);
            var producers := match a
                             case Consume(_, _, woken) => if Empty(s.ring) then {} else woken
                             case ConsumerResume(_, _, woken) => if Empty(s.ring) then {} else woken
                             case Spurious(wp, _) => wp
                             case _ => {};
            var consumers := match a
                             case Produce(_, _, woken) => if Full(s.ring) then {} else woken
                             case ProducerResume(_, woken) => if Full(s.ring) then {} else woken
                             case Spurious(_, wc) => wc
                             case _ => {};
            && |e.producers| == |s.producers| && |e.consumers| == |s.consumers|
            && e.producers[p] == (if p in producers && s.producers[p] == Blocked then Signalled else s.producers[p])
            && e.consumers[c] == (if c in consumers && s.consumers[c] == Blocked then Signalled else s.consumers[c])
            && (a.Spurious? ==> e.(producers := s.producers, consumers := s.consumers) == s)
  {
    hide WellFormed, Append, Pop, PacketOf, Contents;
  }

  // ----- Conservation over runs, packet by packet -----

  function OneIf(b: bool): nat {
    if b then 1 else 0
  }

  /** How many of the producers that wait have asked for the packet x. */
  function WaitingIn(phases: seq<Phase>, pending: seq<Request>, x: Packet): nat
    requires |phases| == |pending|
  {
    if phases == [] then 0
    else
      var n := |phases| - 1;
      WaitingIn(phases[..n], pending[..n], x) + OneIf(phases[n] != Idle && PacketFor(pending[n]) == x)
  }

  function Waiting(s: State, x: Packet): nat
    requires |s.producers| == |s.pending|
  {
    WaitingIn(s.producers, s.pending, x)
  }

  function Appended(s: State, x: Packet): nat {
    multiset(s.appended)[x]
  }

  lemma {:induction false} WaitingUpdate(phases: seq<Phase>, pending: seq<Request>, p: nat, phase: Phase, q: Request,
                                         x: Packet)
    requires |phases| == |pending| && p < |phases|
    ensures WaitingIn(phases[p := phase], pending[p := q], x)
            == WaitingIn(phases, pending, x) - OneIf(phases[p] != Idle && PacketFor(pending[p]) == x)
               + OneIf(phase != Idle && PacketFor(q) == x)
  {
    hide PacketFor;
    var n := |phases| - 1;
    if p == n {
      assert phases[p := phase][..n] == phases[..n] && pending[p := q][..n] == pending[..n];
    } else {
      assert phases[p := phase][..n] == phases[..n][p := phase];
      assert pending[p := q][..n] == pending[..n][p := q];
      WaitingUpdate(phases[..n], pending[..n], p, phase, q, x);
    }
  }

  lemma {:induction false} WaitingSame(phases: seq<Phase>, others: seq<Phase>, pending: seq<Request>, x: Packet)
    requires |phases| == |others| == |pending|
    requires forall i :: 0 <= i < |phases| ==> (phases[i] == Idle <==> others[i] == Idle)
    ensures WaitingIn(phases, pending, x) == WaitingIn(others, pending, x)
  {
    if phases != [] {
      var n := |phases| - 1;
      WaitingSame(phases[..n], others[..n], pending[..n], x);
    }
  }

  lemma WakingKeepsWaiting(phases: seq<Phase>, pending: seq<Request>, woken: set<nat>, x: Packet)
    requires |phases| == |pending|
    ensures |Wake(phases, woken, Blocked, Signalled)| == |pending|
    ensures WaitingIn(Wake(phases, woken, Blocked, Signalled), pending, x) == WaitingIn(phases, pending, x)
  {
    WaitingSame(phases, Wake(phases, woken, Blocked, Signalled), pending, x);
  }

  /** Whether a step is a call that asks for x. */
  function AskedBy(a: Action, x: Packet): nat {
    OneIf(a.Produce? && PacketFor(a.request) == x)
  }

  lemma AppendAsked(s: State, p: nat, q: Request, woken: set<nat>, x: Packet)
    requires Inv(s) && p < |s.producers|
    ensures var e := AppendStep(s, p, q, woken);
            && |e.producers| == |e.pending|
            && Appended(e, x) + Waiting(e, x)
               == Appended(s, x) + Waiting(s, x) + OneIf(PacketFor(q) == x)
                  - OneIf(s.producers[p] != Idle && PacketFor(s.pending[p]) == x)
  {
    if Full(s.ring) {
      WaitingUpdate(s.producers, s.pending, p, Blocked, q, x);
    } else {
      assert s.pending[p := s.pending[p]] == s.pending;
      WaitingUpdate(s.producers, s.pending, p, Idle, s.pending[p], x);
    }
    hide WellFormed, Append, WaitingIn, Wake;
  }

  lemma StepAsks(s: State, a: Action, x: Packet)
    requires Inv(s) && Enabled(s, a)
    ensures |Apply(s, a).producers| == |Apply(s, a).pending|
    ensures Appended(s, x) + Waiting(s, x) + AskedBy(a, x) == Appended(Apply(s, a), x) + Waiting(Apply(s, a), x)
  {
    hide WellFormed, Append, Pop, WaitingIn, Wake, PacketOf, Contents, PacketFor;
    match a {
      case Produce(p, q, woken) => AppendAsked(s, p, q, woken, x);
      case ProducerResume(p, woken) => AppendAsked(s, p, s.pending[p], woken, x);
      case Consume(c, t, woken) => WakingKeepsWaiting(s.producers, s.pending, woken, x);
      case ConsumerResume(c, t, woken) => WakingKeepsWaiting(s.producers, s.pending, woken, x);
      case Spurious(wp, wc) => WakingKeepsWaiting(s.producers, s.pending, wp, x);
    }
  }

  /** How many calls of the run ask for x. */
  ghost function Asked(s: State, run: seq<Action>, x: Packet): nat
    requires Inv(s) && ValidRun(s, run)
    decreases |run|
  {
    if run == [] then 0
    else (StepKeepsInv(s, run[0]); AskedBy(run[0], x) + Asked(Apply(s, run[0]), run[1..], x))
  }

  lemma {:induction false} RequestsAreConserved(s: State, run: seq<Action>, x: Packet)
    requires Inv(s) && ValidRun(s, run)
    ensures Appended(s, x) + Waiting(s, x) + Asked(s, run, x) == Appended(Exec(s, run), x) + Waiting(Exec(s, run), x)
    decreases |run|
  {
    if run != [] {
      StepAsks(s, run[0], x);
      StepKeepsInv(s, run[0]);
      hide Inv, Apply, Enabled, Waiting, AskedBy, Appended;
      RequestsAreConserved(Apply(s, run[0]), run[1..], x);
    }
  }

  lemma {:induction false} NobodyWaits(phases: seq<Phase>, pending: seq<Request>, x: Packet)
    requires |phases| == |pending| && forall i :: 0 <= i < |phases| ==> phases[i] == Idle
    ensures WaitingIn(phases, pending, x) == 0
  {
    if phases != [] {
      NobodyWaits(phases[..|phases| - 1], pending[..|phases| - 1], x);
    }
  }

  /** From the start, every packet has been appended or is still waited with exactly as often as it was asked for: no
      message is lost, made up, changed or given another sender, however long its producer had to wait. */
  lemma NoRequestIsLost(s0: State, run: seq<Action>, x: Packet)
    requires RunFromInit(s0, run)
    ensures Inv(s0) && ValidRun(s0, run)
    ensures Asked(s0, run, x) == Appended(Exec(s0, run), x) + Waiting(Exec(s0, run), x)
  {
    InitInv(s0);
    NobodyWaits(s0.producers, s0.pending, x);
    RequestsAreConserved(s0, run, x);
    hide Inv, ValidRun, Exec, WaitingIn;
  }
}
