/** The client's two input threads, which share one condition variable and take turns as the connection
    comes and goes, under signals that wake only one thread. */
module Handoff {

  /** Awake covers everything outside the wait, signalled and on its way back included. */
  datatype Phase = Awake | Asleep

  /** `pre` reads input while not connected, `post` while connected. */
  datatype State = State(connected: bool, pre: Phase, post: Phase)

  datatype Thread = Pre | Post

  /** Test is a thread's loop test under the mutex, with the wait it may enter. SetConnected is a server
      response: connection_mutex is held for the assignment and the signal, whose choice `woken` is. */
  datatype Action =
    | Test(t: Thread)
    | SetConnected(value: bool, woken: set<Thread>)
    | Spurious(woken: set<Thread>)

  function PhaseOf(s: State, t: Thread): Phase {
    if t == Pre then s.pre else s.post
  }

  function Sleeping(s: State): set<Thread> {
    (if s.pre == Asleep then {Pre} else {}) + (if s.post == Asleep then {Post} else {})
  }

  function Wake(s: State, woken: set<Thread>): State {
    s.(pre := if Pre in woken then Awake else s.pre, post := if Post in woken then Awake else s.post)
  }

  predicate Enabled(s: State, a: Action) {
    match a
    case Test(t) => PhaseOf(s, t) == Awake
    case SetConnected(_, woken) => woken <= Sleeping(s) && (Sleeping(s) != {} ==> woken != {})
    case Spurious(woken) => woken <= Sleeping(s)
  }

  function Apply(s: State, a: Action): State
    requires Enabled(s, a)
  {
    match a
    case Test(Pre) => if s.connected then s.(pre := Asleep) else s
    case Test(Post) => if !s.connected then s.(post := Asleep) else s
    case SetConnected(value, woken) => Wake(s, woken).(connected := value)
    case Spurious(woken) => Wake(s, woken)
  }

  /** After its test a thread is asleep exactly when it is not its turn; the other thread and the connection are as
      before. */
  lemma TestSleepsIff(s: State, t: Thread)
    requires Enabled(s, Test(t))
    ensures var e, other := Apply(s, Test(t)), if t == Pre then Post else Pre;
            && (PhaseOf(e, t) == Asleep <==> (t == Pre <==> s.connected))
            && PhaseOf(e, other) == PhaseOf(s, other) && e.connected == s.connected
  {}

  /** Any thread that is awake can test, and any response can come at any time, waking all that sleep or fewer. */
  lemma NothingIsHeldUp(s: State, t: Thread, value: bool)
    ensures Enabled(s, Test(t)) <==> PhaseOf(s, t) == Awake
    ensures Enabled(s, SetConnected(value, Sleeping(s))) && Enabled(s, Spurious(Sleeping(s)))
    ensures PhaseOf(s, t) == Asleep ==> Enabled(s, SetConnected(value, {t}))
  {}

  /** A response sets the connection and wakes exactly the threads that its signal chooses among those asleep, at least
      one if one is; a spurious wakeup may wake any of them and changes nothing else. */
  lemma WhoWakes(s: State, a: Action, t: Thread)
    requires Enabled(s, a) && (a.SetConnected? || a.Spurious?)
    ensures var e := Apply(s, a);
            && e.connected == (if a.SetConnected? then a.value else s.connected)
            && (PhaseOf(e, t) == Asleep <==> PhaseOf(s, t) == Asleep && t !in a.woken)
            && (a.SetConnected? && PhaseOf(s, t) == Asleep ==> a.woken != {})
  {}

  function Init(): State {
    State(false, Awake, Awake)
  }

  ghost predicate ValidRun(s: State, run: seq<Action>)
    decreases |run|
  {
    run == [] || (Enabled(s, run[0]) && ValidRun(Apply(s, run[0]), run[1..]))
  }

  ghost function Exec(s: State, run: seq<Action>): State
    requires ValidRun(s, run)
    decreases |run|
  {
    if run == [] then s else Exec(Apply(s, run[0]), run[1..])
  }

  /** The thread whose turn it is does not sleep. */
  predicate TurnAwake(s: State) {
    if s.connected then s.post == Awake else s.pre == Awake
  }

  lemma {:induction false} RunKeepsTurn(s: State, run: seq<Action>)
    requires TurnAwake(s) && ValidRun(s, run)
    ensures TurnAwake(Exec(s, run))
    decreases |run|
  {
    if run != [] {
      RunKeepsTurn(Apply(s, run[0]), run[1..]);
    }
  }

  /** In every run, whatever responses arrive, redundant ones included: the thread whose turn it is is awake,
      so at most one of the two ever sleeps, and one signal is enough to hand over. */
  lemma NoWakeupLost(run: seq<Action>)
    requires ValidRun(Init(), run)
    ensures var s := Exec(Init(), run);
            && (s.connected ==> s.post == Awake) && (!s.connected ==> s.pre == Awake)
            && !(s.pre == Asleep && s.post == Asleep)
  {
    RunKeepsTurn(Init(), run);
  }

  /** It rests on that invariant: from a state where both slept, a connect response may wake the wrong one. */
  lemma BothAsleepLosesIt()
    ensures var s := State(false, Asleep, Asleep);
            && Enabled(s, SetConnected(true, {Pre}))
            && !TurnAwake(Apply(s, SetConnected(true, {Pre})))
  {
    var s := State(false, Asleep, Asleep);
    assert Sleeping(s) == {Pre, Post};
  }
}
