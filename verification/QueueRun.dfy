/** N producers and M consumers on one queue, over all runs: waits, signals, barging and spurious wakeups. */
module QueueRun {
  import opened CStrings
  import opened Net
  import opened Ring
  import opened Threads
  import opened Tokeniser

  /** A signalled thread has been woken but has not yet retaken the mutex. */
  datatype Phase = Idle | Blocked | Signalled

  datatype Request = Request(msg: string, from: Option<Addr>)

  /** The tokens a consumer got from its last pop, and the message they came from. */
  datatype Borrowed = Nothing | Borrowed(slot: nat, out: seq<nat>, front: Packet)

  /** `appended` and `popped` record the history; they are not in the source. */
  datatype State = State(
    ring: Ring,
    producers: seq<Phase>, pending: seq<Request>,
    consumers: seq<Phase>, borrowed: seq<Borrowed>,
    appended: seq<Packet>, popped: seq<Packet>)

  /** What tokenising the head message in place leaves: its buffer and the token offsets. */
  datatype Tokenised = Tokenised(msg: seq<char>, out: seq<nat>)

  /** One critical section of the queue's mutex, or a spurious return from a wait. */
  datatype Action =
    | Produce(p: nat, request: Request, woken: set<nat>)
    | ProducerResume(p: nat, woken: set<nat>)
    | Consume(c: nat, tokenised: Tokenised, woken: set<nat>)
    | ConsumerResume(c: nat, tokenised: Tokenised, woken: set<nat>)
    | Spurious(wokenProducers: set<nat>, wokenConsumers: set<nat>)

  /** The state queue_init leaves: whatever the slots hold, they are free. */
  ghost predicate IsInit(s: State) {
    && WellFormed(s.ring) && s.ring.head == s.ring.tail == 0
    && |s.pending| == |s.producers| && |s.borrowed| == |s.consumers|
    && (forall i :: 0 <= i < |s.producers| ==> s.producers[i] == Idle)
    && (forall i :: 0 <= i < |s.consumers| ==> s.consumers[i] == Idle && s.borrowed[i] == Nothing)
    && s.appended == s.popped == []
  }

  predicate Shaped(s: State) {
    WellFormed(s.ring) && |s.pending| == |s.producers| && |s.borrowed| == |s.consumers|
  }

  predicate TokenisedOk(r: Ring, t: Tokenised)
    requires WellFormed(r)
  {
    !Empty(r) ==>
      && |t.msg| == QUEUE_MSG_SIZE
      && (forall i :: 0 <= i < |t.out| ==> t.out[i] <= QUEUE_MSG_SIZE)
      && Tokens(t.msg, t.out) == Parse(PacketOf(r.slots[r.head]).text)
  }

  predicate Enabled(s: State, a: Action)
    requires Shaped(s)
  {
    match a
    case Produce(p, request, woken) =>
      p < |s.producers| && s.producers[p] == Idle && IsCStr(request.msg) && IsSignal(s.consumers, woken, Blocked)
    case ProducerResume(p, woken) =>
      p < |s.producers| && s.producers[p] == Signalled && IsSignal(s.consumers, woken, Blocked)
    case Consume(c, tokenised, woken) =>
      c < |s.consumers| && s.consumers[c] == Idle && TokenisedOk(s.ring, tokenised)
      && IsSignal(s.producers, woken, Blocked)
    case ConsumerResume(c, tokenised, woken) =>
      c < |s.consumers| && s.consumers[c] == Signalled && TokenisedOk(s.ring, tokenised)
      && IsSignal(s.producers, woken, Blocked)
    case Spurious(_, _) => true
  }

  /** q_append from its loop test on: wait, or store and signal nonempty. */
  function AppendStep(s: State, p: nat, request: Request, woken: set<nat>): State
    requires Shaped(s) && p < |s.producers|
  {
    if Full(s.ring) then
      s.(producers := s.producers[p := Blocked], pending := s.pending[p := request])
    else
      s.(ring := Append(s.ring, request.msg, request.from),
         producers := s.producers[p := Idle],
         consumers := Wake(s.consumers, woken, Blocked, Signalled),
         appended := s.appended + [Packet(Clip(request.msg, QUEUE_MSG_SIZE - 1), request.from)])
  }

  /** q_pop from its loop test on: wait, or take the head message and signal nonfull. A consumer that calls
      q_pop has given up the tokens of its last pop. */
  function PopStep(s: State, c: nat, t: Tokenised, woken: set<nat>): State
    requires Shaped(s) && c < |s.consumers|
  {
    if Empty(s.ring) then
      s.(consumers := s.consumers[c := Blocked], borrowed := s.borrowed[c := Nothing])
    else
      var front := PacketOf(s.ring.slots[s.ring.head]);
      s.(ring := Pop(s.ring, t.msg),
         consumers := s.consumers[c := Idle],
         borrowed := s.borrowed[c := Borrowed(s.ring.head, t.out, front)],
         producers := Wake(s.producers, woken, Blocked, Signalled),
         popped := s.popped + [front])
  }

  function Apply(s: State, a: Action): State
    requires Shaped(s) && Enabled(s, a)
  {
    match a
    case Produce(p, request, woken) => AppendStep(s, p, request, woken)
    case ProducerResume(p, woken) => AppendStep(s, p, s.pending[p], woken)
    case Consume(c, t, woken) => PopStep(s, c, t, woken)
    case ConsumerResume(c, t, woken) => PopStep(s, c, t, woken)
    case Spurious(wp, wc) =>
      s.(producers := Wake(s.producers, wp, Blocked, Signalled), consumers := Wake(s.consumers, wc, Blocked, Signalled))
  }

  // ----- What every step keeps -----

  ghost predicate PendingOk(s: State)
    requires Shaped(s)
  {
    forall p :: 0 <= p < |s.producers| && s.producers[p] != Idle ==> IsCStr(s.pending[p].msg)
  }

  ghost predicate Fifo(s: State)
    requires Shaped(s)
  {
    s.appended == s.popped + Contents(s.ring)
  }

  ghost predicate NoLostWakeup(s: State)
    requires Shaped(s)
  {
    && (Count(s.consumers, Blocked) > 0 ==> Count(s.consumers, Signalled) >= s.ring.size)
    && (Count(s.producers, Blocked) > 0 ==> Count(s.producers, Signalled) >= QUEUE_MAX - 1 - s.ring.size)
  }

  ghost predicate Inv(s: State) {
    Shaped(s) && PendingOk(s) && Fifo(s) && NoLostWakeup(s)
  }

  /** With one consumer: its tokens point into the slot behind head, and still read as its message. */
  ghost predicate BorrowOk(s: State)
    requires Shaped(s)
  {
    |s.consumers| == 1 && s.borrowed[0].Borrowed? ==>
      var b := s.borrowed[0];
      && b.slot == Behind(s.ring)
      && (forall i :: 0 <= i < |b.out| ==> b.out[i] <= QUEUE_MSG_SIZE)
      && Tokens(s.ring.slots[b.slot].msg, b.out) == Parse(b.front.text)
      && s.popped != [] && b.front == s.popped[|s.popped| - 1]
  }

  lemma AppendKeepsShape(s: State, p: nat, request: Request, woken: set<nat>)
    requires Inv(s) && p < |s.producers| && IsCStr(request.msg)
    ensures var s' := AppendStep(s, p, request, woken); Shaped(s') && PendingOk(s') && Fifo(s')
  {
    hide WellFormed, Contents, Clip, Append, NoLostWakeup, Wake;
    if !Full(s.ring) {
      AppendIsFifo(s.ring, request.msg, request.from);
      var x := Packet(Clip(request.msg, QUEUE_MSG_SIZE - 1), request.from);
      assert s.popped + Contents(s.ring) + [x] == s.popped + (Contents(s.ring) + [x]);
    }
  }

  lemma AppendKeepsWakeups(s: State, p: nat, request: Request, woken: set<nat>)
    requires Inv(s) && p < |s.producers| && s.producers[p] != Blocked && IsCStr(request.msg)
    requires IsSignal(s.consumers, woken, Blocked)
    ensures Shaped(AppendStep(s, p, request, woken))
    ensures NoLostWakeup(AppendStep(s, p, request, woken))
  {
    AppendKeepsShape(s, p, request, woken);
    SizeDecides(s.ring);
    hide WellFormed;
    CountPositive(s.producers, p);
    CountUpdate(s.producers, p, if Full(s.ring) then Blocked else Idle);
    WakeMoves(s.consumers, woken, Blocked, Signalled);
    SignalEffect(s.consumers, woken, Blocked, Signalled);
  }

  lemma PopKeepsShape(s: State, c: nat, t: Tokenised, woken: set<nat>)
    requires Inv(s) && c < |s.consumers| && TokenisedOk(s.ring, t)
    ensures var s' := PopStep(s, c, t, woken); Shaped(s') && PendingOk(s') && Fifo(s')
  {
    hide WellFormed, Contents, Pop, PacketOf, NoLostWakeup, Tokens, Parse, Wake;
    if !Empty(s.ring) {
      HeadReadable(s.ring);
      PopIsFifo(s.ring, t.msg);
      var x := PacketOf(s.ring.slots[s.ring.head]);
      assert s.popped + ([x] + Contents(Pop(s.ring, t.msg))) == s.popped + [x] + Contents(Pop(s.ring, t.msg));
    }
  }

  lemma PopKeepsWakeups(s: State, c: nat, t: Tokenised, woken: set<nat>)
    requires Inv(s) && c < |s.consumers| && s.consumers[c] != Blocked && TokenisedOk(s.ring, t)
    requires IsSignal(s.producers, woken, Blocked)
    ensures Shaped(PopStep(s, c, t, woken))
    ensures NoLostWakeup(PopStep(s, c, t, woken))
  {
    PopKeepsShape(s, c, t, woken);
    SizeDecides(s.ring);
    hide WellFormed;
    CountPositive(s.consumers, c);
    CountUpdate(s.consumers, c, if Empty(s.ring) then Blocked else Idle);
    WakeMoves(s.producers, woken, Blocked, Signalled);
    SignalEffect(s.producers, woken, Blocked, Signalled);
  }

  lemma StepKeepsInv(s: State, a: Action)
    requires Inv(s) && Enabled(s, a)
    ensures Inv(Apply(s, a))
    ensures |Apply(s, a).consumers| == |s.consumers| && |Apply(s, a).producers| == |s.producers|
  {
    hide WellFormed, Contents;
    match a {
      case Produce(p, request, woken) =>
        AppendKeepsShape(s, p, request, woken);
        AppendKeepsWakeups(s, p, request, woken);
      case ProducerResume(p, woken) =>
        AppendKeepsShape(s, p, s.pending[p], woken);
        AppendKeepsWakeups(s, p, s.pending[p], woken);
      case Consume(c, t, woken) =>
        PopKeepsShape(s, c, t, woken);
        PopKeepsWakeups(s, c, t, woken);
      case ConsumerResume(c, t, woken) =>
        PopKeepsShape(s, c, t, woken);
        PopKeepsWakeups(s, c, t, woken);
      case Spurious(wp, wc) =>
        WakeMoves(s.producers, wp, Blocked, Signalled);
        WakeMoves(s.consumers, wc, Blocked, Signalled);
    }
  }

  lemma AppendKeepsBorrow(s: State, p: nat, request: Request, woken: set<nat>)
    requires Inv(s) && BorrowOk(s) && p < |s.producers| && IsCStr(request.msg)
    ensures Shaped(AppendStep(s, p, request, woken)) && BorrowOk(AppendStep(s, p, request, woken))
  {
    AppendKeepsShape(s, p, request, woken);
    if !Full(s.ring) {
      AppendSparesBehind(s.ring, request.msg, request.from);
    }
    hide WellFormed, Contents, Append, Behind, Parse;
  }

  lemma PopSetsBorrow(s: State, c: nat, t: Tokenised, woken: set<nat>)
    requires Inv(s) && c < |s.consumers| && TokenisedOk(s.ring, t)
    ensures Shaped(PopStep(s, c, t, woken)) && BorrowOk(PopStep(s, c, t, woken))
  {
    PopKeepsShape(s, c, t, woken);
    if !Empty(s.ring) {
      PopFreesBehind(s.ring, t.msg);
      HeadReadable(s.ring);
    }
    hide WellFormed, Contents, Behind, Parse;
  }

  lemma StepKeepsBorrow(s: State, a: Action)
    requires Inv(s) && BorrowOk(s) && Enabled(s, a)
    ensures Shaped(Apply(s, a)) && BorrowOk(Apply(s, a))
  {
    hide WellFormed, Contents, BorrowOk;
    match a {
      case Produce(p, request, woken) => AppendKeepsBorrow(s, p, request, woken);
      case ProducerResume(p, woken) => AppendKeepsBorrow(s, p, s.pending[p], woken);
      case Consume(c, t, woken) => PopSetsBorrow(s, c, t, woken);
      case ConsumerResume(c, t, woken) => PopSetsBorrow(s, c, t, woken);
      case Spurious(wp, wc) => SpuriousKeepsBorrow(s, wp, wc);
    }
  }

  lemma SpuriousKeepsBorrow(s: State, wp: set<nat>, wc: set<nat>)
    requires Shaped(s) && BorrowOk(s)
    ensures Shaped(Apply(s, Spurious(wp, wc))) && BorrowOk(Apply(s, Spurious(wp, wc)))
  {
    hide WellFormed, Behind, Parse;
  }

  // ----- Runs -----

  ghost predicate ValidRun(s: State, run: seq<Action>)
    requires Inv(s)
    decreases |run|
  {
    run == [] || (Enabled(s, run[0]) && (StepKeepsInv(s, run[0]); ValidRun(Apply(s, run[0]), run[1..])))
  }

  ghost function Exec(s: State, run: seq<Action>): (e: State)
    requires Inv(s) && ValidRun(s, run)
    ensures Inv(e)
    decreases |run|
  {
    if run == [] then s else (StepKeepsInv(s, run[0]); Exec(Apply(s, run[0]), run[1..]))
  }

  lemma InitInv(s: State)
    requires IsInit(s)
    ensures Inv(s) && BorrowOk(s)
  {
    CountNone(s.consumers, Blocked);
    CountNone(s.producers, Blocked);
    assert Contents(s.ring) == [];
  }

  lemma {:induction false} RunKeepsBorrow(s: State, run: seq<Action>)
    requires Inv(s) && BorrowOk(s) && ValidRun(s, run)
    ensures BorrowOk(Exec(s, run)) && |Exec(s, run).consumers| == |s.consumers|
    decreases |run|
  {
    if run != [] {
      StepKeepsInv(s, run[0]);
      StepKeepsBorrow(s, run[0]);
      hide Inv, BorrowOk, Apply;
      RunKeepsBorrow(Apply(s, run[0]), run[1..]);
    }
  }
}
