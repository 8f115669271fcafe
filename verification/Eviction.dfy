/** Eviction in time, with the connection manager's pass in its parts: one pass a second, and anything in its gaps but
    a rename of the client it picked for eviction. */
module Eviction {
  import opened CStrings
  import opened Clients
  import opened ServerRun
  import opened Inactivity
  import opened Waiting

  // ----- One pass a second -----

  /** The pass of the second at hand is scanned for, or done whole. */
  predicate ScannedAfter(scanned: bool, a: Action) {
    if a.Scan? || a.Pass? then true else if a.Elapse? then false else scanned
  }

  /** Time goes on by a second when the pass of the second before is over, and each second has one pass, in its parts or
      whole. */
  predicate Punctual(s: State, a: Action, scanned: bool) {
    match a
    case Pass(seconds) => seconds == 1 && scanned
    case Elapse(seconds) => seconds == 1 && scanned && s.manager.Sleeping?
    case Scan(now) => now == s.clock && !scanned
    case _ => true
  }

  /** A client picked for eviction takes another name before it is removed. */
  predicate RenamesPick(s: State, a: Action) {
    s.manager.ToEvict? && a.RenameTo? && a.name != s.manager.name &&
    var i := IndexOfAddr(s.clients, a.addr); i < |s.clients| && s.clients[i].id == s.manager.id
  }

  /** A run with one pass a second and without activity of that node; whether with such renames, `renames` says. */
  ghost predicate SilentRun(s: State, run: seq<Action>, id: nat, scanned: bool, renames: bool)
    decreases |run|
  {
    run == [] ||
    (Enabled(s, run[0]) && Punctual(s, run[0], scanned) && !Touches(s, run[0], id)
     && (renames || !RenamesPick(s, run[0]))
     && SilentRun(Apply(s, run[0]), run[1..], id, ScannedAfter(scanned, run[0]), renames))
  }

  /** Whether the last second's pass has been scanned for. */
  function ScannedIn(run: seq<Action>, scanned: bool): bool {
    if run == [] then scanned else ScannedIn(run[1..], ScannedAfter(scanned, run[0]))
  }

  /** The pass of the second at hand is over. */
  predicate PassOver(s: State, scanned: bool) {
    scanned && s.manager.Sleeping?
  }

  lemma {:induction false} SilentRunIsRun(s: State, run: seq<Action>, id: nat, scanned: bool, renames: bool)
    requires SilentRun(s, run, id, scanned, renames)
    ensures ValidRun(s, run)
    decreases |run|
  {
    if run != [] {
      SilentRunIsRun(Apply(s, run[0]), run[1..], id, ScannedAfter(scanned, run[0]), renames);
    }
  }

  lemma OneSilentStep(s: State, a: Action, run: seq<Action>, id: nat, scanned: bool, renames: bool)
    requires Enabled(s, a) && Punctual(s, a, scanned) && !Touches(s, a, id) && (renames || !RenamesPick(s, a))
    requires SilentRun(Apply(s, a), run, id, ScannedAfter(scanned, a), renames)
    ensures SilentRun(s, [a] + run, id, scanned, renames)
  {
    hide Apply, Enabled, Touches, Punctual, RenamesPick;
    assert ([a] + run)[1..] == run;
  }

  lemma NoSilentSteps(s: State, id: nat, scanned: bool, renames: bool)
    ensures SilentRun(s, [], id, scanned, renames)
  {}

  // ----- What the runs keep -----

  /** The second at hand is paid for: somebody up to the silent client's place was seen to, or none was due. */
  predicate Paid(s: State, id: nat, w: Window) {
    OnTime(s.clients, s.clock, id, w)
  }

  /** It will be: the manager is about to see to the client it picked, up to the silent client's place. */
  predicate Owes(s: State, id: nat) {
    && !s.manager.Sleeping? && s.manager.at == s.clock && s.manager.id <= id
    && Listed(s, id) && Listed(s, s.manager.id)
    && var c := Node(s, s.manager.id);
       if s.manager.ToPing? then c.pingSent == 0 && s.clock - c.lastActive > INACTIVITY_THRESHOLD
       else c.name == s.manager.name
  }

  predicate Standing(s: State, scanned: bool, id: nat, w: Window) {
    Paid(s, id, w) ||
    (OnTime(s.clients, s.clock - 1, id, w) && if scanned then Owes(s, id) else s.manager.Sleeping?)
  }

  lemma PlaceOrder(cs: seq<Client>, next: nat, p: nat, id: nat)
    requires InOrder(cs, next) && p <= id && IndexOfId(cs, p) < |cs| && IndexOfId(cs, id) < |cs|
    ensures IndexOfId(cs, p) <= IndexOfId(cs, id) && (p < id ==> IndexOfId(cs, p) < IndexOfId(cs, id))
  {
    hide IndexOfId;
  }

  // ----- The handlers' steps -----

  /** A step of a handler, which is no part of a pass. */
  predicate OfHandler(a: Action) {
    !a.Pass? && !a.Elapse? && !a.Scan? && !a.WritePing? && !a.EvictRemove?
  }

  lemma HandlerKeeps(s: State, a: Action, clock: int, id: nat, w: Window)
    requires Inv(s) && OnTime(s.clients, clock, id, w) && clock <= s.clock <= clock + 1 && w.Closes() && id < s.next
    requires Enabled(s, a) && OfHandler(a) && !Touches(s, a, id)
    ensures OnTime(Apply(s, a).clients, clock, id, w)
  {
    hide InOrder, TimesMakeSense, PickMakesSense, KicksByAdmin, Window.Closes;
    hide IndexOfName, IndexOfAddr, OnTime, Without, IndexOfId;
    var cs := s.clients;
    match a {
      case Connect(addr, name) =>
        ConnectIsOnTime(cs, clock, Client(s.next, addr, Clip(name, NAME_SIZE - 1), s.clock, 0), id, w);
      case Activity(addr) =>
        if IndexOfAddr(cs, addr) < |cs| {
          ActivityIsOnTime(cs, clock, s.clock, IndexOfAddr(cs, addr), id, w);
        }
      case RenameTo(addr, name) => RenameIsOnTime(cs, clock, IndexOfAddr(cs, addr), name, id, w);
      case KickRemove(k) => RemovalIsOnTime(cs, s.next, clock, IndexOfName(cs, s.kicks[k].target), id, w);
      case DisconnectRemove(k) =>
        RemovalIsOnTime(cs, s.next, clock, IndexOfName(cs, CurrentName(s, s.leaves[k])), id, w);
      case _ =>
    }
  }

  lemma HandlerLeavesManager(s: State, a: Action)
    requires Enabled(s, a) && OfHandler(a)
    ensures Apply(s, a).manager == s.manager && Apply(s, a).clock == s.clock
  {}

  /** A handler changes a node's name only by renaming it. */
  lemma NameStays(s: State, a: Action, id: nat)
    requires Inv(s) && Enabled(s, a) && OfHandler(a) && Listed(s, id) && Listed(Apply(s, a), id) && id < s.next
    ensures Node(Apply(s, a), id).name == Node(s, id).name
            || (a.RenameTo? && s.clients[IndexOfAddr(s.clients, a.addr)].id == id
                && Node(Apply(s, a), id).name == a.name)
  {
    hide TimesMakeSense, PickMakesSense, KicksByAdmin, IndexOfName, IndexOfAddr, Without, IndexOfId;
    var cs := s.clients;
    match a {
      case Connect(addr, name) => AddPlace(cs, Client(s.next, addr, Clip(name, NAME_SIZE - 1), s.clock, 0), id);
      case Activity(addr) =>
        var k := IndexOfAddr(cs, addr);
        if k < |cs| {
          UpdatePlace(cs, k, cs[k].(lastActive := s.clock, pingSent := 0), id);
        }
      case RenameTo(addr, name) =>
        var k := IndexOfAddr(cs, addr);
        UpdatePlace(cs, k, cs[k].(name := name), id);
      case KickRemove(k) => RemovalPlace(cs, s.next, IndexOfName(cs, s.kicks[k].target), id);
      case DisconnectRemove(k) => RemovalPlace(cs, s.next, IndexOfName(cs, CurrentName(s, s.leaves[k])), id);
      case _ =>
    }
  }

  /** If the step takes a node off the list, it is a removal at that node's place. */
  lemma LossIsRemoval(s: State, a: Action, id: nat)
    requires Inv(s) && Enabled(s, a) && Listed(s, id)
    ensures Listed(Apply(s, a), id) || Apply(s, a).clients == Without(s.clients, IndexOfId(s.clients, id))
  {
    var cs, j := s.clients, IndexOfId(s.clients, id);
    if Removes(s, a) {
      RemovalStep(s, a);
      RemovalPlace(cs, s.next, RemovedAt(s, a), id);
    } else {
      KeepingStep(s, a);
      assert Apply(s, a).clients[j].id == id;
    }
    hide Apply, Removes, RemovedAt, Enabled, IndexOfId, Without, TimesMakeSense, KicksByAdmin, PickMakesSense;
  }

  /** Between a scan and what follows it: the second is paid for in another way, or still will be. */
  lemma HandlerInGap(s: State, a: Action, id: nat, w: Window)
    requires Inv(s) && w.Closes() && OnTime(s.clients, s.clock - 1, id, w) && Owes(s, id) && id < s.next
    requires Enabled(s, a) && OfHandler(a) && !Touches(s, a, id) && !RenamesPick(s, a)
    ensures Paid(Apply(s, a), id, w) || Owes(Apply(s, a), id)
  {
    var e, p := Apply(s, a), s.manager.id;
    HandlerLeavesManager(s, a);
    if Listed(e, id) {
      if !Listed(e, p) {
        PickGone(s, a, id, w);
      } else if s.manager.ToPing? && Touches(s, a, p) {
        PickHeard(s, a, id, w);
      } else {
        StepFollows(s, a, p);
        NameStays(s, a, p);
      }
    }
    hide Apply, Inv, Enabled, IndexOfId, IndexOfAddr, OnTime, Window.Closes;
  }

  lemma PickGone(s: State, a: Action, id: nat, w: Window)
    requires Inv(s) && w.Closes() && OnTime(s.clients, s.clock - 1, id, w) && Owes(s, id)
    requires Enabled(s, a) && OfHandler(a) && !Listed(Apply(s, a), s.manager.id)
    ensures Paid(Apply(s, a), id, w)
  {
    LossIsRemoval(s, a, s.manager.id);
    PlaceOrder(s.clients, s.next, s.manager.id, id);
    HandlerLeavesManager(s, a);
    hide Apply, IndexOfId, OnTime, Window.Closes, Without, Enabled;
    EvictionIsOnTime(s.clients, s.next, s.clock - 1, IndexOfId(s.clients, s.manager.id), id, w);
  }

  lemma PickHeard(s: State, a: Action, id: nat, w: Window)
    requires Inv(s) && w.Closes() && OnTime(s.clients, s.clock - 1, id, w) && Owes(s, id) && s.manager.ToPing?
    requires Enabled(s, a) && Touches(s, a, s.manager.id) && !Touches(s, a, id)
    ensures Paid(Apply(s, a), id, w)
  {
    var k := IndexOfAddr(s.clients, a.addr);
    PlaceOrder(s.clients, s.next, s.manager.id, id);
    hide IndexOfId, IndexOfAddr, OnTime, Window.Closes, KicksByAdmin, TimesMakeSense, PickMakesSense;
    assert k == IndexOfId(s.clients, s.manager.id);
    ActivityPays(s.clients, s.clock - 1, k, id, w);
  }

  // ----- The parts of a pass -----

  /** After a scan the second is paid for, because nobody up to the silent client is due, or will be. */
  lemma ScanStands(s: State, id: nat, w: Window)
    requires Inv(s) && w.Closes() && OnTime(s.clients, s.clock - 1, id, w) && s.manager.Sleeping?
    ensures var e := s.(manager := Picked(s.clients, s.clock)); Paid(e, id, w) || Owes(e, id)
  {
    var cs, m := s.clients, Picked(s.clients, s.clock);
    var j, k := IndexOfId(cs, id), FirstActionable(cs, s.clock);
    if k <= j < |cs| {
      PickIsPlace(cs, s.next, s.clock);
      PickTime(s, Elapse(0));
      assert m.id == cs[k].id <= cs[j].id;
      assert m.ToEvict? ==> m.name == cs[k].name;
    } else {
      SecondNotDue(cs, s.clock - 1, id, w);
    }
    hide IndexOfId, FirstActionable, OnTime, Window.Closes, Picked, KicksByAdmin, TimesMakeSense, PickMakesSense;
  }

  /** The ping is recorded, and pays for the second unless something else did. */
  lemma WritePays(s: State, id: nat, w: Window)
    requires Inv(s) && w.Closes() && Enabled(s, WritePing)
    requires Paid(s, id, w) || (OnTime(s.clients, s.clock - 1, id, w) && Owes(s, id))
    ensures Paid(Apply(s, WritePing), id, w)
  {
    var p := s.manager.id;
    hide OnTime, Window.Closes, KicksByAdmin, TimesMakeSense, IndexOfId, RecordPing;
    assert Apply(s, WritePing) == s.(clients := RecordPing(s.clients, p, s.manager.at), manager := Sleeping);
    if Paid(s, id, w) {
      WriteWhenPaid(s, id, w);
    } else {
      PlaceOrder(s.clients, s.next, p, id);
      WriteIsPing(s.clients, p, s.manager.at);
      PingIsOnTime(s.clients, s.clock - 1, IndexOfId(s.clients, p), id, w);
    }
  }

  lemma WriteIsPing(cs: seq<Client>, p: nat, at: int)
    requires IndexOfId(cs, p) < |cs|
    ensures var k := IndexOfId(cs, p); RecordPing(cs, p, at) == cs[k := cs[k].(pingSent := at)]
  {}

  lemma WriteWhenPaid(s: State, id: nat, w: Window)
    requires Inv(s) && s.manager.ToPing? && Paid(s, id, w)
    ensures OnTime(RecordPing(s.clients, s.manager.id, s.manager.at), s.clock, id, w)
  {
    hide OnTime, InOrder, KicksByAdmin, TimesMakeSense;
    var k := IndexOfId(s.clients, s.manager.id);
    if k < |s.clients| {
      LatePingIsOnTime(s.clients, s.clock, k, s.manager.at, id, w);
    }
  }

  /** The removal takes out somebody up to the place of the client picked, which still has the name copied. */
  lemma RemovalPays(s: State, id: nat, w: Window)
    requires Inv(s) && w.Closes() && Enabled(s, EvictRemove)
    requires Paid(s, id, w) || (OnTime(s.clients, s.clock - 1, id, w) && Owes(s, id))
    ensures Paid(Apply(s, EvictRemove), id, w)
  {
    var cs, p := s.clients, s.manager.id;
    var i := IndexOfName(cs, s.manager.name);
    hide OnTime, Window.Closes, KicksByAdmin, TimesMakeSense, IndexOfId, Without, PickMakesSense;
    if Paid(s, id, w) {
      RemovalIsOnTime(cs, s.next, s.clock, i, id, w);
    } else {
      PlaceOrder(cs, s.next, p, id);
      assert i <= IndexOfId(cs, p);
      EvictionIsOnTime(cs, s.next, s.clock - 1, i, id, w);
    }
  }

  lemma StepStands(s: State, a: Action, scanned: bool, id: nat, w: Window)
    requires Inv(s) && w.Closes() && id < s.next && Standing(s, scanned, id, w)
    requires Enabled(s, a) && Punctual(s, a, scanned) && !Touches(s, a, id) && !RenamesPick(s, a)
    ensures Standing(Apply(s, a), ScannedAfter(scanned, a), id, w) && id < Apply(s, a).next
  {
    StepFollows(s, a, id);
    if OfHandler(a) {
      HandlerStands(s, a, scanned, id, w);
    } else if a.WritePing? {
      WritePays(s, id, w);
    } else if a.EvictRemove? {
      RemovalPays(s, id, w);
    } else {
      ClockStands(s, a, scanned, id, w);
    }
    hide *;
  }

  lemma HandlerStands(s: State, a: Action, scanned: bool, id: nat, w: Window)
    requires Inv(s) && w.Closes() && id < s.next && Standing(s, scanned, id, w)
    requires Enabled(s, a) && OfHandler(a) && !Touches(s, a, id) && !RenamesPick(s, a)
    ensures Standing(Apply(s, a), ScannedAfter(scanned, a), id, w)
  {
    hide Apply, Inv, Enabled, Touches, RenamesPick, Owes, OnTime, Window.Closes;
    HandlerLeavesManager(s, a);
    if Paid(s, id, w) {
      HandlerKeeps(s, a, s.clock, id, w);
    } else {
      HandlerKeeps(s, a, s.clock - 1, id, w);
      if scanned {
        HandlerInGap(s, a, id, w);
      }
    }
  }

  lemma ClockStands(s: State, a: Action, scanned: bool, id: nat, w: Window)
    requires Inv(s) && w.Closes() && Standing(s, scanned, id, w)
    requires Enabled(s, a) && Punctual(s, a, scanned) && (a.Elapse? || a.Scan? || a.Pass?)
    ensures Standing(Apply(s, a), ScannedAfter(scanned, a), id, w)
  {
    hide OnTime, Window.Closes, Picked, Tick, InOrder, TimesMakeSense, KicksByAdmin, PickMakesSense;
    match a {
      case Pass(_) => PassIsOnTime(s.clients, s.next, s.clock, id, w);
      case Elapse(_) =>
      case Scan(_) =>
        if !Paid(s, id, w) {
          ScanStands(s, id, w);
        }
    }
  }

  lemma {:induction false} RunStands(s: State, run: seq<Action>, scanned: bool, id: nat, w: Window)
    requires Inv(s) && w.Closes() && id < s.next && Standing(s, scanned, id, w)
    requires SilentRun(s, run, id, scanned, false) && ValidRun(s, run)
    ensures Standing(Exec(s, run), ScannedIn(run, scanned), id, w)
    decreases |run|
  {
    hide Inv, Standing, Apply, Window.Closes, Enabled, Punctual, Touches, RenamesPick;
    if run != [] {
      StepKeepsInv(s, run[0]);
      StepStands(s, run[0], scanned, id, w);
      RunStands(Apply(s, run[0]), run[1..], ScannedAfter(scanned, run[0]), id, w);
    }
  }

  // ----- Bounded eviction -----

  lemma StandingIsGone(s: State, scanned: bool, id: nat, w: Window)
    requires Standing(s, scanned, id, w)
    requires s.clock > w.Until() || (s.clock == w.Until() && PassOver(s, scanned))
    ensures !Listed(s, id)
  {
    hide IndexOfId, Ahead;
    assert w.Until() >= w.since + 192;
    hide Window.Until;
  }

  /** A client silent since L, with `ahead` clients ahead of it, is gone by L + 192 + ahead * (pings + 2), for any
      number of pings that closes the window, whatever falls in the gaps of the passes, but for renames of clients
      picked for eviction, and whatever the others do: connect, talk, rename, kick, leave. */
  lemma EvictedInTime(s: State, run: seq<Action>, scanned: bool, w: Window)
    requires Reachable(s) && w.ahead < |s.clients| && w.since == s.clients[w.ahead].lastActive
    requires s.clock <= w.since + INACTIVITY_THRESHOLD && w.Closes()
    requires SilentRun(s, run, s.clients[w.ahead].id, scanned, false)
    ensures ValidRun(s, run)
    ensures var e := Exec(s, run);
            e.clock > w.Until() || (e.clock == w.Until() && PassOver(e, ScannedIn(run, scanned)))
            ==> !Listed(e, s.clients[w.ahead].id)
  {
    ReachableInv(s);
    var j := w.ahead;
    var id := s.clients[j].id;
    SilentRunIsRun(s, run, id, scanned, false);
    PlaceOfId(s.clients, j, id);
    BudgetsWithin(s.clients[..j], w);
    assert Paid(s, id, w);
    hide *;
    assert Standing(s, scanned, id, w) by {
      StandsAtFirst(s, scanned, id, w);
    }
    RunStands(s, run, scanned, id, w);
    var e := Exec(s, run);
    if e.clock > w.Until() || (e.clock == w.Until() && PassOver(e, ScannedIn(run, scanned))) {
      StandingIsGone(e, ScannedIn(run, scanned), id, w);
    }
  }

  lemma StandsAtFirst(s: State, scanned: bool, id: nat, w: Window)
    requires Paid(s, id, w)
    ensures Standing(s, scanned, id, w)
  {}

  /** With fewer than 85 ahead, it is gone by L + 192 + 2 * ahead, */
  lemma EvictedSoon(s: State, run: seq<Action>, scanned: bool, m: nat)
    requires Reachable(s) && m < 85 && m < |s.clients|
    requires s.clock <= s.clients[m].lastActive + INACTIVITY_THRESHOLD
    requires SilentRun(s, run, s.clients[m].id, scanned, false)
    ensures ValidRun(s, run)
    ensures var e, t := Exec(s, run), s.clients[m].lastActive + 192 + 2 * m;
            e.clock > t || (e.clock == t && PassOver(e, ScannedIn(run, scanned))) ==> !Listed(e, s.clients[m].id)
  {
    EvictedInTime(s, run, scanned, Window(s.clients[m].lastActive, m, 0));
  }

  /** with up to 180 ahead by L + 192 + 194 * ahead. */
  lemma EvictedAtLast(s: State, run: seq<Action>, scanned: bool, m: nat)
    requires Reachable(s) && m <= 180 && m < |s.clients|
    requires s.clock <= s.clients[m].lastActive + INACTIVITY_THRESHOLD
    requires SilentRun(s, run, s.clients[m].id, scanned, false)
    ensures ValidRun(s, run)
    ensures var e, t := Exec(s, run), s.clients[m].lastActive + 192 + 194 * m;
            e.clock > t || (e.clock == t && PassOver(e, ScannedIn(run, scanned))) ==> !Listed(e, s.clients[m].id)
  {
    EvictedInTime(s, run, scanned, Window(s.clients[m].lastActive, m, 192));
  }

  // ----- Whole passes -----

  /** The step leaves passes whole. */
  predicate Whole(a: Action) {
    a.Pass? || OfHandler(a)
  }

  lemma {:induction false} WholePassesAreOver(s: State, run: seq<Action>)
    requires ValidRun(s, run) && forall i :: 0 <= i < |run| ==> Whole(run[i])
    ensures ScannedIn(run, true) && Exec(s, run).manager == s.manager
    ensures s.manager.Sleeping? || Exec(s, run).clock == s.clock
    decreases |run|
  {
    if run != [] {
      WholeStep(s, run[0]);
      hide Apply, Enabled;
      assert forall i :: 0 <= i < |run[1..]| ==> run[1..][i] == run[i + 1];
      WholePassesAreOver(Apply(s, run[0]), run[1..]);
    }
  }

  lemma WholeStep(s: State, a: Action)
    requires Enabled(s, a) && Whole(a)
    ensures Apply(s, a).manager == s.manager && (s.manager.Sleeping? || Apply(s, a).clock == s.clock)
  {}

  lemma {:induction false} WholePassesRenameNobody(s: State, run: seq<Action>, id: nat)
    requires SilentRun(s, run, id, true, true) && s.manager.Sleeping? && forall i :: 0 <= i < |run| ==> Whole(run[i])
    ensures SilentRun(s, run, id, true, false)
    decreases |run|
  {
    if run != [] {
      WholeStep(s, run[0]);
      hide Apply, Enabled, Touches;
      assert forall i :: 0 <= i < |run[1..]| ==> run[1..][i] == run[i + 1];
      WholePassesRenameNobody(Apply(s, run[0]), run[1..], id);
    }
  }

  /** The case of passes with nothing in between, when every rename is harmless. */
  lemma EvictedByWholePasses(s: State, run: seq<Action>, w: Window)
    requires Reachable(s) && w.ahead < |s.clients| && w.since == s.clients[w.ahead].lastActive
    requires s.clock <= w.since + INACTIVITY_THRESHOLD && w.Closes() && s.manager.Sleeping?
    requires SilentRun(s, run, s.clients[w.ahead].id, true, true) && forall i :: 0 <= i < |run| ==> Whole(run[i])
    ensures ValidRun(s, run)
    ensures Exec(s, run).clock >= w.Until() ==> !Listed(Exec(s, run), s.clients[w.ahead].id)
  {
    hide Reachable, SilentRun, ValidRun, Exec, Whole, Window.Until, Window.Closes, Listed;
    WholePassesRenameNobody(s, run, s.clients[w.ahead].id);
    EvictedInTime(s, run, true, w);
    WholePassesAreOver(s, run);
  }
}
