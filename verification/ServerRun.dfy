/** The server's clients over whole runs: connects, activity, renames, kicks and disconnects in their two
    critical sections, and the connection manager's passes in theirs, in any interleaving. */
module ServerRun {
  import opened CStrings
  import opened Net
  import opened Clients
  import opened Sequences

  /** A kick that passed its admin check: who was the head then, and whom to remove. */
  datatype Kick = Kick(admin: nat, target: string)

  /** The connection manager: asleep, or between its scan and what it does about the client it picked, which is
      to record the ping it sends, or to remove it by the name copied in the scan. `at` is the pass's time. */
  datatype Manager = Sleeping | ToPing(id: nat, at: int) | ToEvict(id: nat, name: string, at: int)

  /** `kicks` and `leaves` are the handlers between their two critical sections; a leave is the node that
      disconnect found. `next` counts connections. */
  datatype State = State(clock: int, next: nat, clients: seq<Client>, kicks: seq<Kick>, leaves: seq<nat>,
                         manager: Manager)

  /** Pass is a whole pass of the connection manager, `seconds` after the step before, with nothing in between;
      Elapse, Scan, WritePing and EvictRemove are its parts. A scan goes by the time `now`, read before it. */
  datatype Action =
    | Connect(addr: Addr, name: string)
    | Activity(addr: Addr)
    | RenameTo(addr: Addr, name: string)
    | KickCheck(addr: Addr, target: string)
    | KickRemove(k: nat)
    | DisconnectFind(addr: Addr)
    | DisconnectRemove(k: nat)
    | Pass(seconds: nat)
    | Elapse(seconds: nat)
    | Scan(now: nat)
    | WritePing
    | EvictRemove

  /** The place of a node in the list, or the length when it has gone. */
  function IndexOfId(cs: seq<Client>, id: nat, i: nat := 0): (k: nat)
    requires i <= |cs|
    ensures i <= k <= |cs| && (k < |cs| ==> cs[k].id == id)
    ensures forall j :: i <= j < k ==> cs[j].id != id
    decreases |cs| - i
  {
    if i == |cs| || cs[i].id == id then i else IndexOfId(cs, id, i + 1)
  }

  predicate Listed(s: State, id: nat) {
    IndexOfId(s.clients, id) < |s.clients|
  }

  predicate Enabled(s: State, a: Action) {
    match a
    case RenameTo(addr, _) => IndexOfAddr(s.clients, addr) < |s.clients|
    case KickRemove(k) => k < |s.kicks|
    case DisconnectRemove(k) => k < |s.leaves| && Listed(s, s.leaves[k])
    case Pass(seconds) => seconds > 0 && s.manager.Sleeping?
    case Scan(now) => s.manager.Sleeping? && now <= s.clock
    case WritePing => s.manager.ToPing?
    case EvictRemove => s.manager.ToEvict?
    case _ => true
  }

  /** The name that disconnect removes by is read from the node it found, when it removes. */
  function CurrentName(s: State, id: nat): string
    requires Listed(s, id)
  {
    s.clients[IndexOfId(s.clients, id)].name
  }

  /** What a scan at time `now` leaves to be done. */
  function Picked(cs: seq<Client>, now: int): Manager {
    var k := FirstActionable(cs, now);
    if k == |cs| then Sleeping
    else if cs[k].pingSent == 0 then ToPing(cs[k].id, now)
    else ToEvict(cs[k].id, cs[k].name, now)
  }

  /** The write of ping_sent; to a node that has left the list, it changes no client. */
  function RecordPing(cs: seq<Client>, id: nat, at: int): seq<Client> {
    var k := IndexOfId(cs, id);
    if k < |cs| then cs[k := cs[k].(pingSent := at)] else cs
  }

  function Apply(s: State, a: Action): State
    requires Enabled(s, a)
  {
    match a
    case Connect(addr, name) => s.(clients := Add(s.clients, s.next, addr, name, s.clock), next := s.next + 1)
    case Activity(addr) => s.(clients := Touch(s.clients, addr, s.clock))
    case RenameTo(addr, name) => s.(clients := Rename(s.clients, addr, name))
    case KickCheck(addr, target) =>
      if s.clients != [] && s.clients[0].addr == addr
      then s.(kicks := s.kicks + [Kick(s.clients[0].id, target)])
      else s
    case KickRemove(k) => s.(clients := RemoveByName(s.clients, s.kicks[k].target), kicks := Drop(s.kicks, k))
    case DisconnectFind(addr) =>
      var i := IndexOfAddr(s.clients, addr);
      if i < |s.clients| then s.(leaves := s.leaves + [s.clients[i].id]) else s
    case DisconnectRemove(k) =>
      s.(clients := RemoveByName(s.clients, CurrentName(s, s.leaves[k])), leaves := Drop(s.leaves, k))
    case Pass(seconds) => s.(clock := s.clock + seconds, clients := Tick(s.clients, s.clock + seconds))
    case Elapse(seconds) => s.(clock := s.clock + seconds)
    case Scan(now) => s.(manager := Picked(s.clients, now))
    case WritePing => s.(clients := RecordPing(s.clients, s.manager.id, s.manager.at), manager := Sleeping)
    case EvictRemove => s.(clients := RemoveByName(s.clients, s.manager.name), manager := Sleeping)
  }

  // ----- What every step keeps -----

  /** The list is in order of connection. */
  ghost predicate InOrder(cs: seq<Client>, next: nat) {
    && (forall i, j :: 0 <= i < j < |cs| ==> cs[i].id < cs[j].id)
    && (forall i :: 0 <= i < |cs| ==> cs[i].id < next)
  }

  ghost predicate TimesMakeSense(cs: seq<Client>, clock: int) {
    forall i :: 0 <= i < |cs| ==> 0 <= cs[i].lastActive <= clock && 0 <= cs[i].pingSent <= clock
  }

  /** A client picked has been silent for over three minutes, or heard from since. */
  predicate PickStands(c: Client, m: Manager)
    requires !m.Sleeping?
  {
    && (m.at - c.lastActive > INACTIVITY_THRESHOLD || c.lastActive >= m.at)
    && (m.ToPing? ==> c.pingSent == 0)
  }

  ghost predicate PickMakesSense(s: State) {
    !s.manager.Sleeping? ==>
      && 0 <= s.manager.at <= s.clock && s.manager.id < s.next
      && forall i :: 0 <= i < |s.clients| && s.clients[i].id == s.manager.id ==> PickStands(s.clients[i], s.manager)
  }

  /** Nobody in the list connected before the client that passed a pending kick's admin check. */
  ghost predicate KicksByAdmin(s: State) {
    forall k, i :: 0 <= k < |s.kicks| && 0 <= i < |s.clients| ==> s.kicks[k].admin <= s.clients[i].id
  }

  ghost predicate Inv(s: State) {
    && s.clock >= 0
    && InOrder(s.clients, s.next)
    && TimesMakeSense(s.clients, s.clock)
    && PickMakesSense(s)
    && KicksByAdmin(s)
    && (forall k :: 0 <= k < |s.kicks| ==> s.kicks[k].admin < s.next)
  }

  // ----- The two ways a step can change the list -----

  /** The step takes a client off the list (if the name it removes by is there). */
  predicate Removes(s: State, a: Action)
    requires Enabled(s, a)
  {
    a.KickRemove? || a.DisconnectRemove? || a.EvictRemove? ||
    (a.Pass? && Picked(s.clients, s.clock + a.seconds).ToEvict?)
  }

  /** Which place it takes. */
  function RemovedAt(s: State, a: Action): nat
    requires Enabled(s, a) && Removes(s, a)
  {
    match a
    case KickRemove(k) => IndexOfName(s.clients, s.kicks[k].target)
    case DisconnectRemove(k) => IndexOfName(s.clients, CurrentName(s, s.leaves[k]))
    case Pass(seconds) => IndexOfName(s.clients, Picked(s.clients, s.clock + seconds).name)
    case EvictRemove => IndexOfName(s.clients, s.manager.name)
  }

  lemma RemovalStep(s: State, a: Action)
    requires Enabled(s, a) && Removes(s, a)
    ensures Apply(s, a).clients == Without(s.clients, RemovedAt(s, a)) && Apply(s, a).next == s.next
  {}

  /** Any other step keeps everyone, in place, and may add the next connection at the tail. */
  lemma KeepingStep(s: State, a: Action)
    requires Enabled(s, a) && !Removes(s, a)
    ensures var e := Apply(s, a);
            && |s.clients| <= |e.clients| && s.next <= e.next
            && (forall i :: 0 <= i < |s.clients| ==> e.clients[i].id == s.clients[i].id)
            && (forall i :: |s.clients| <= i < |e.clients| ==> e.clients[i].id == s.next < e.next)
            && (a.Connect? || |e.clients| == |s.clients|)
  {}

  lemma WithoutAt(cs: seq<Client>, k: nat)
    ensures var w := Without(cs, k);
            && |w| == (if k < |cs| then |cs| - 1 else |cs|)
            && forall i :: 0 <= i < |w| ==> w[i] == cs[if i < k then i else i + 1]
  {
    forall i | 0 <= i < |Without(cs, k)| ensures Without(cs, k)[i] == cs[if i < k then i else i + 1] {
      assert i < k ==> Without(cs, k)[i] == cs[i];
    }
  }

  // ----- Invariants -----

  lemma RemovalKeepsInv(s: State, k: nat)
    requires Inv(s)
    ensures Inv(s.(clients := Without(s.clients, k)))
  {
    WithoutAt(s.clients, k);
    hide Without;
  }

  lemma FewerKicksKeepInv(s: State, k: nat)
    requires Inv(s) && k < |s.kicks|
    ensures Inv(s.(kicks := Drop(s.kicks, k)))
  {
    var d := Drop(s.kicks, k);
    assert forall i :: 0 <= i < |d| ==> d[i] == s.kicks[if i < k then i else i + 1];
  }

  lemma LaterKeepsInv(s: State, seconds: nat)
    requires Inv(s)
    ensures Inv(Apply(s, Elapse(seconds)))
  {}

  /** A ping recorded at place k, by a manager that is done with its pass. */
  lemma PingKeepsInv(s: State, k: nat, at: int)
    requires Inv(s) && k < |s.clients| && 0 <= at <= s.clock
    ensures Inv(s.(clients := s.clients[k := s.clients[k].(pingSent := at)], manager := Sleeping))
  {}

  lemma ManagerDone(s: State)
    requires Inv(s)
    ensures Inv(s.(manager := Sleeping))
  {}

  lemma ScanKeepsInv(s: State, now: nat)
    requires Inv(s) && Enabled(s, Scan(now))
    ensures Inv(Apply(s, Scan(now)))
  {
    var k := FirstActionable(s.clients, now);
    hide FirstActionable;
    if k < |s.clients| {
      assert forall i :: 0 <= i < |s.clients| && s.clients[i].id == s.clients[k].id ==> i == k;
    }
  }

  lemma WritePingKeepsInv(s: State)
    requires Inv(s) && Enabled(s, WritePing)
    ensures Inv(Apply(s, WritePing))
  {
    var k := IndexOfId(s.clients, s.manager.id);
    ManagerDone(s);
    if k < |s.clients| {
      PingKeepsInv(s, k, s.manager.at);
    }
    hide InOrder, TimesMakeSense, KicksByAdmin;
  }

  lemma EvictKeepsInv(s: State)
    requires Inv(s) && Enabled(s, EvictRemove)
    ensures Inv(Apply(s, EvictRemove))
  {
    RemovalKeepsInv(s, IndexOfName(s.clients, s.manager.name));
    ManagerDone(s.(clients := RemoveByName(s.clients, s.manager.name)));
    hide Inv, IndexOfName, Without;
  }

  lemma PassIsPicked(cs: seq<Client>, next: nat, now: int)
    requires InOrder(cs, next)
    ensures Tick(cs, now) == match Picked(cs, now)
                             case Sleeping => cs
                             case ToPing(id, at) => RecordPing(cs, id, at)
                             case ToEvict(_, name, _) => RemoveByName(cs, name)
  {
    var k := FirstActionable(cs, now);
    hide FirstActionable;
    if k < |cs| {
      assert IndexOfId(cs, cs[k].id) == k;
    }
  }

  /** What the manager does about the client it picked. */
  function Rest(m: Manager): seq<Action> {
    match m
    case Sleeping => []
    case ToPing(_, _) => [WritePing]
    case ToEvict(_, _, _) => [EvictRemove]
  }

  function Scanned(s: State, seconds: nat): State
    requires s.manager.Sleeping?
  {
    s.(clock := s.clock + seconds, manager := Picked(s.clients, s.clock + seconds))
  }

  lemma PassIsScanned(s: State, seconds: nat)
    requires InOrder(s.clients, s.next) && Enabled(s, Pass(seconds))
    ensures var s2, e := Scanned(s, seconds), Apply(s, Pass(seconds));
            match s2.manager
            case Sleeping => e == s2
            case ToPing(_, _) => e == Apply(s2, WritePing)
            case ToEvict(_, _, _) => e == Apply(s2, EvictRemove)
  {
    hide Tick, Picked, RecordPing, RemoveByName, InOrder;
    PassIsPicked(s.clients, s.next, s.clock + seconds);
    var s2, e := Scanned(s, seconds), Apply(s, Pass(seconds));
    match s2.manager {
      case Sleeping => assert s2.manager == s.manager;
      case ToPing(id, at) => assert Apply(s2, WritePing) == e;
      case ToEvict(id, name, at) => assert Apply(s2, EvictRemove) == e;
    }
  }

  lemma NoSteps(s: State)
    ensures ValidRun(s, []) && Exec(s, []) == s
  {}

  lemma OneStep(s: State, a: Action, run: seq<Action>)
    requires Enabled(s, a) && ValidRun(Apply(s, a), run)
    ensures ValidRun(s, [a] + run) && Exec(s, [a] + run) == Exec(Apply(s, a), run)
  {
    hide Apply, Enabled;
    assert ([a] + run)[1..] == run;
  }

  lemma ScanFollows(s: State, seconds: nat)
    requires s.manager.Sleeping? && s.clock >= 0
    ensures var s1, now := Apply(s, Elapse(seconds)), s.clock + seconds;
            Enabled(s1, Scan(now)) && Scanned(s, seconds) == Apply(s1, Scan(now))
  {
    hide Picked;
  }

  lemma RestFollows(s: State, e: State)
    requires match s.manager
             case Sleeping => e == s
             case ToPing(_, _) => e == Apply(s, WritePing)
             case ToEvict(_, _, _) => e == Apply(s, EvictRemove)
    ensures ValidRun(s, Rest(s.manager)) && Exec(s, Rest(s.manager)) == e
  {
    NoSteps(e);
    hide Apply, ValidRun, Exec;
    var rest := Rest(s.manager);
    if rest != [] {
      OneStep(s, rest[0], []);
      assert [rest[0]] + [] == rest;
    }
  }

  /** A whole pass is its parts with nothing in between. */
  lemma PassIsItsParts(s: State, seconds: nat)
    requires InOrder(s.clients, s.next) && s.clock >= 0 && Enabled(s, Pass(seconds))
    ensures var run := [Elapse(seconds)] + ([Scan(s.clock + seconds)] + Rest(Scanned(s, seconds).manager));
            ValidRun(s, run) && Exec(s, run) == Apply(s, Pass(seconds))
  {
    var s1, s2 := Apply(s, Elapse(seconds)), Scanned(s, seconds);
    hide Apply, Scanned, InOrder, ValidRun, Exec, Rest;
    PassIsScanned(s, seconds);
    ScanFollows(s, seconds);
    RestFollows(s2, Apply(s, Pass(seconds)));
    OneStep(s1, Scan(s.clock + seconds), Rest(s2.manager));
    OneStep(s, Elapse(seconds), [Scan(s.clock + seconds)] + Rest(s2.manager));
  }

  lemma RestKeepsInv(s: State, e: State)
    requires Inv(s)
    requires match s.manager
             case Sleeping => e == s
             case ToPing(_, _) => e == Apply(s, WritePing)
             case ToEvict(_, _, _) => e == Apply(s, EvictRemove)
    ensures Inv(e)
  {
    hide Inv, Apply;
    match s.manager {
      case Sleeping =>
      case ToPing(_, _) => WritePingKeepsInv(s);
      case ToEvict(_, _, _) => EvictKeepsInv(s);
    }
  }

  lemma PassStarts(s: State, seconds: nat)
    requires Inv(s) && Enabled(s, Pass(seconds))
    ensures InOrder(s.clients, s.next) && s.clock >= 0 && s.manager.Sleeping? && Enabled(s, Elapse(seconds))
  {
    hide InOrder, TimesMakeSense, KicksByAdmin, PickMakesSense;
  }

  lemma PassKeepsInv(s: State, seconds: nat)
    requires Inv(s) && Enabled(s, Pass(seconds))
    ensures Inv(Apply(s, Pass(seconds)))
  {
    hide *;
    PassStarts(s, seconds);
    LaterKeepsInv(s, seconds);
    PassIsScanned(s, seconds);
    ScanFollows(s, seconds);
    ScanKeepsInv(Apply(s, Elapse(seconds)), s.clock + seconds);
    RestKeepsInv(Scanned(s, seconds), Apply(s, Pass(seconds)));
  }

  lemma UpdateKeepsInv(s: State, k: nat, c: Client)
    requires Inv(s) && k < |s.clients| && c.id == s.clients[k].id
    requires (c.lastActive == s.clock && c.pingSent == 0)
             || (c.lastActive == s.clients[k].lastActive && c.pingSent == s.clients[k].pingSent)
    ensures Inv(s.(clients := s.clients[k := c]))
  {}

  lemma ConnectKeepsInv(s: State, addr: Addr, name: string)
    requires Inv(s)
    ensures Inv(Apply(s, Connect(addr, name)))
  {}

  lemma CheckKeepsInv(s: State, addr: Addr, target: string)
    requires Inv(s)
    ensures Inv(Apply(s, KickCheck(addr, target)))
  {}

  lemma StepKeepsInv(s: State, a: Action)
    requires Inv(s) && Enabled(s, a)
    ensures Inv(Apply(s, a))
  {
    hide InOrder, TimesMakeSense, PickMakesSense, KicksByAdmin, Tick, Picked, RecordPing, IndexOfName, IndexOfAddr;
    match a {
      case Connect(addr, name) => ConnectKeepsInv(s, addr, name);
      case Activity(addr) =>
        var i := IndexOfAddr(s.clients, addr);
        if i < |s.clients| {
          UpdateKeepsInv(s, i, s.clients[i].(lastActive := s.clock, pingSent := 0));
        }
      case RenameTo(addr, name) =>
        var i := IndexOfAddr(s.clients, addr);
        UpdateKeepsInv(s, i, s.clients[i].(name := name));
      case KickCheck(addr, target) => CheckKeepsInv(s, addr, target);
      case KickRemove(k) =>
        RemovalKeepsInv(s, IndexOfName(s.clients, s.kicks[k].target));
        FewerKicksKeepInv(s.(clients := RemoveByName(s.clients, s.kicks[k].target)), k);
      case DisconnectFind(addr) => LeavesDoNotMatter(s, Apply(s, a).leaves);
      case DisconnectRemove(k) =>
        RemovalKeepsInv(s, IndexOfName(s.clients, CurrentName(s, s.leaves[k])));
        LeavesDoNotMatter(Apply(s, a).(leaves := s.leaves), Apply(s, a).leaves);
      case Pass(seconds) => PassKeepsInv(s, seconds);
      case Elapse(seconds) => LaterKeepsInv(s, seconds);
      case Scan(now) => ScanKeepsInv(s, now);
      case WritePing => WritePingKeepsInv(s);
      case EvictRemove => EvictKeepsInv(s);
    }
  }

  lemma LeavesDoNotMatter(s: State, leaves: seq<nat>)
    requires Inv(s)
    ensures Inv(s.(leaves := leaves))
  {}

  ghost predicate ValidRun(s: State, run: seq<Action>)
    decreases |run|
  {
    run == [] || (Enabled(s, run[0]) && ValidRun(Apply(s, run[0]), run[1..]))
  }

  ghost function Exec(s: State, run: seq<Action>): State
    requires ValidRun(s, run)
    decreases |run|
  {
    if run == [] then s else Exec(Apply(s, run[0]), run[1..])
  }

  function Init(clock: nat): State {
    State(clock, 0, [], [], [], Sleeping)
  }

  ghost predicate Reachable(s: State) {
    exists clock: nat, run: seq<Action> :: ValidRun(Init(clock), run) && Exec(Init(clock), run) == s
  }

  lemma {:induction false} RunConcat(s: State, r1: seq<Action>, r2: seq<Action>)
    requires ValidRun(s, r1) && ValidRun(Exec(s, r1), r2)
    ensures ValidRun(s, r1 + r2) && Exec(s, r1 + r2) == Exec(Exec(s, r1), r2)
    decreases |r1|
  {
    hide Apply, Enabled;
    if r1 == [] {
      assert r1 + r2 == r2;
    } else {
      assert (r1 + r2)[1..] == r1[1..] + r2;
      RunConcat(Apply(s, r1[0]), r1[1..], r2);
    }
  }

  lemma {:induction false} RunKeepsInv(s: State, run: seq<Action>)
    requires Inv(s) && ValidRun(s, run)
    ensures Inv(Exec(s, run))
    decreases |run|
  {
    if run != [] {
      StepKeepsInv(s, run[0]);
      hide Inv;
      RunKeepsInv(Apply(s, run[0]), run[1..]);
    }
  }

  lemma ReachableInv(s: State)
    requires Reachable(s)
    ensures Inv(s)
  {
    var clock: nat, run: seq<Action> :| ValidRun(Init(clock), run) && Exec(Init(clock), run) == s;
    RunKeepsInv(Init(clock), run);
  }

  // ----- Unique names -----

  ghost predicate UniqueNames(cs: seq<Client>) {
    forall i, j :: 0 <= i < j < |cs| ==> cs[i].name != cs[j].name
  }

  predicate NameFree(cs: seq<Client>, name: string, except: nat) {
    forall i :: 0 <= i < |cs| && i != except ==> cs[i].name != name
  }

  /** The assumption of server_interface.c, line 6, which no code enforces: nobody takes a name in use. */
  predicate TakesFreeName(s: State, a: Action) {
    match a
    case Connect(_, name) => NameFree(s.clients, Clip(name, NAME_SIZE - 1), |s.clients|)
    case RenameTo(addr, name) => NameFree(s.clients, name, IndexOfAddr(s.clients, addr))
    case _ => true
  }

  lemma RemovalKeepsUnique(cs: seq<Client>, k: nat)
    requires UniqueNames(cs)
    ensures UniqueNames(Without(cs, k))
  {
    WithoutAt(cs, k);
  }

  lemma StepKeepsUnique(s: State, a: Action)
    requires UniqueNames(s.clients) && Enabled(s, a) && TakesFreeName(s, a)
    ensures UniqueNames(Apply(s, a).clients)
  {
    if Removes(s, a) {
      RemovalStep(s, a);
      RemovalKeepsUnique(s.clients, RemovedAt(s, a));
    }
  }

  /** Every step of the run keeps to that assumption. */
  ghost predicate FreeNames(s: State, run: seq<Action>)
    decreases |run|
  {
    run == [] || (Enabled(s, run[0]) && TakesFreeName(s, run[0]) && FreeNames(Apply(s, run[0]), run[1..]))
  }

  /** In every state that the run goes through, no name is in use twice. */
  ghost predicate UniqueThroughout(s: State, run: seq<Action>)
    requires ValidRun(s, run)
    decreases |run|
  {
    UniqueNames(s.clients) && (run == [] || UniqueThroughout(Apply(s, run[0]), run[1..]))
  }

  /** Under the assumption, names stay unique over whole runs. */
  lemma {:induction false} FreeNamesStayUnique(s: State, run: seq<Action>)
    requires ValidRun(s, run) && UniqueNames(s.clients) && FreeNames(s, run)
    ensures UniqueThroughout(s, run)
    decreases |run|
  {
    hide UniqueNames, Apply, TakesFreeName, Enabled;
    if run != [] {
      StepKeepsUnique(s, run[0]);
      FreeNamesStayUnique(Apply(s, run[0]), run[1..]);
    }
  }

  lemma {:induction false} FreeNamesConcat(s: State, r1: seq<Action>, r2: seq<Action>)
    requires ValidRun(s, r1) && FreeNames(s, r1) && FreeNames(Exec(s, r1), r2)
    ensures FreeNames(s, r1 + r2)
    decreases |r1|
  {
    hide Apply, Enabled, TakesFreeName;
    if r1 == [] {
      assert r1 + r2 == r2;
    } else {
      assert (r1 + r2)[1..] == r1[1..] + r2;
      FreeNamesConcat(Apply(s, r1[0]), r1[1..], r2);
    }
  }

  lemma OneFreeStep(s: State, a: Action, run: seq<Action>)
    requires Enabled(s, a) && TakesFreeName(s, a) && FreeNames(Apply(s, a), run)
    ensures FreeNames(s, [a] + run)
  {
    hide Apply, Enabled, TakesFreeName;
    assert ([a] + run)[1..] == run;
  }
}
