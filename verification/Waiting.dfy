/** How long a silent client may have to wait for its eviction: the passes that the clients ahead of it can still use
    up, and what each change of the list does to them. Names need not be unique. */
module Waiting {
  import opened Clients
  import opened ServerRun
  import opened Inactivity

  const PERIOD := INACTIVITY_THRESHOLD + 1

  /** How long a client silent since `since` may have to wait with `ahead` clients ahead of it, if none of them is
      pinged more than `pings` + 1 times meanwhile. */
  datatype Window = Window(since: int, ahead: nat, pings: nat) {
    function Until(): int {
      since + 192 + ahead * (pings + 2)
    }

    /** The window is too short for more pings than that: they come 181 seconds apart. */
    predicate Closes() {
      ahead * (pings + 2) <= PERIOD * pings + 168
    }
  }

  /** How many pings a client can still cause from second since + 180 to second t. */
  function PingsLeft(c: Client, since: int, t: int): nat {
    var first := if c.lastActive + PERIOD > since + 180 then c.lastActive + PERIOD else since + 180;
    if first > t then 0 else (t - first) / PERIOD + 1
  }

  /** How many passes a client ahead can still use up: those pings, and its removal. */
  function Budget(c: Client, since: int, t: int): nat {
    var n := PingsLeft(c, since, t);
    if c.pingSent != 0 && PingEarned(c) && n > 0 then n else n + 1
  }

  function Budgets(cs: seq<Client>, since: int, t: int): nat {
    if cs == [] then 0 else Budgets(cs[..|cs| - 1], since, t) + Budget(cs[|cs| - 1], since, t)
  }

  lemma BudgetCap(c: Client, w: Window)
    requires w.Closes()
    ensures Budget(c, w.since, w.Until()) <= w.pings + 2
  {}

  lemma {:induction false} BudgetsCap(cs: seq<Client>, w: Window)
    requires w.Closes()
    ensures Budgets(cs, w.since, w.Until()) <= |cs| * (w.pings + 2)
  {
    hide Budget;
    if cs != [] {
      var n, u := |cs| - 1, w.pings + 2;
      BudgetsCap(cs[..n], w);
      BudgetCap(cs[n], w);
      assert |cs| * u == n * u + u;
    }
  }

  lemma BudgetsWithin(cs: seq<Client>, w: Window)
    requires w.Closes() && |cs| <= w.ahead
    ensures Budgets(cs, w.since, w.Until()) <= w.Until() - w.since - 192
  {
    hide Budgets, Window.Closes;
    BudgetsCap(cs, w);
    TimesGrows(|cs|, w.ahead, w.pings + 2);
  }

  lemma {:induction false} TimesGrows(a: nat, b: nat, u: nat)
    requires a <= b
    ensures a * u <= b * u
  {
    if a < b {
      TimesGrows(a, b - 1, u);
      assert b * u == (b - 1) * u + u;
    }
  }

  lemma {:induction false} BudgetsUpdate(cs: seq<Client>, k: nat, c: Client, since: int, t: int)
    requires k < |cs|
    ensures Budgets(cs[k := c], since, t) == Budgets(cs, since, t) - Budget(cs[k], since, t) + Budget(c, since, t)
  {
    hide Budget;
    var n := |cs| - 1;
    if k == n {
      assert cs[k := c][..n] == cs[..n];
    } else {
      assert cs[k := c][..n] == cs[..n][k := c];
      BudgetsUpdate(cs[..n], k, c, since, t);
    }
  }

  lemma {:induction false} BudgetsWithout(cs: seq<Client>, k: nat, since: int, t: int)
    requires k < |cs|
    ensures Budgets(Without(cs, k), since, t) == Budgets(cs, since, t) - Budget(cs[k], since, t)
  {
    hide Budget;
    var n := |cs| - 1;
    if k == n {
      assert Without(cs, k) == cs[..n];
    } else {
      assert Without(cs, k)[..n - 1] == Without(cs[..n], k);
      assert Without(cs, k)[n - 1] == cs[n];
      BudgetsWithout(cs[..n], k, since, t);
    }
  }

  /** What each change of a client ahead does to its budget, within the window. */
  lemma PingCosts(c: Client, now: int, since: int, t: int)
    requires Actionable(c, now) && c.pingSent == 0 && since + 180 <= now <= t && now != 0
    ensures Budget(c.(pingSent := now), since, t) < Budget(c, since, t)
  {}

  lemma PingIsFree(c: Client, at: int, since: int, t: int)
    requires c.pingSent == 0
    ensures Budget(c.(pingSent := at), since, t) <= Budget(c, since, t)
  {}

  lemma ActivityCosts(c: Client, now: int, since: int, t: int)
    requires now - c.lastActive > INACTIVITY_THRESHOLD && c.pingSent == 0 && since + 180 <= now <= t
    ensures Budget(c.(lastActive := now, pingSent := 0), since, t) < Budget(c, since, t)
  {
    var c' := c.(lastActive := now, pingSent := 0);
    assert PingsLeft(c', since, t) + 1 <= PingsLeft(c, since, t);
  }

  lemma ActivityIsFree(c: Client, clock: int, since: int, t: int)
    requires c.lastActive <= clock && c.pingSent <= clock && since + 180 <= clock <= t
    ensures Budget(c.(lastActive := clock, pingSent := 0), since, t) <= Budget(c, since, t)
  {
    var c' := c.(lastActive := clock, pingSent := 0);
    if c.pingSent != 0 && PingEarned(c) {
      assert PingsLeft(c', since, t) + 1 <= PingsLeft(c, since, t);
    }
  }

  // ----- The silent client's place and the budgets ahead of it -----

  function Ahead(cs: seq<Client>, id: nat, w: Window): nat {
    Budgets(cs[..IndexOfId(cs, id)], w.since, w.Until())
  }

  /** The client c, silent since w.since, with budgets b ahead: those and the passes used up so far fit the window. */
  predicate InTime(clock: int, c: Client, b: nat, w: Window) {
    && c.lastActive == w.since && c.pingSent <= clock
    && (clock >= w.since + 180 ==>
          if c.pingSent == 0 then clock + b <= w.Until() - 12
          else clock + b <= w.Until() - 1 && c.pingSent + 10 + b <= w.Until() - 1)
  }

  predicate OnTime(cs: seq<Client>, clock: int, id: nat, w: Window) {
    var j := IndexOfId(cs, id);
    j < |cs| ==> j <= w.ahead && InTime(clock, cs[j], Ahead(cs, id, w), w)
  }

  /** A second in which the client is not due. */
  lemma NotDue(clock: int, c: Client, b: nat, b': nat, w: Window)
    requires InTime(clock, c, b, w) && !Actionable(c, clock + 1)
    requires b' <= w.Until() - w.since - 192 && (clock >= w.since + 180 ==> b' <= b)
    ensures InTime(clock + 1, c, b', w)
  {
    hide Window.Until;
  }

  /** A second that somebody ahead pays for. */
  lemma PaidAhead(clock: int, c: Client, b: nat, b': nat, w: Window)
    requires InTime(clock, c, b, w)
    requires b' <= w.Until() - w.since - 192 && (clock >= w.since + 180 ==> b' < b)
    ensures InTime(clock + 1, c, b', w)
  {
    hide Window.Until;
  }

  /** The second in which the client is pinged. */
  lemma Pinged(clock: int, c: Client, b: nat, w: Window)
    requires InTime(clock, c, b, w) && c.pingSent == 0 && Actionable(c, clock + 1) && clock >= 0
    ensures InTime(clock + 1, c.(pingSent := clock + 1), b, w)
  {
    hide Window.Until;
  }

  lemma AheadWithout(cs: seq<Client>, k: nat, j: nat)
    requires k < j <= |cs|
    ensures Without(cs, k)[..j - 1] == Without(cs[..j], k)
  {}

  /** What removing place k does to the budgets ahead of the node. */
  lemma RemovalAhead(cs: seq<Client>, next: nat, k: nat, id: nat, w: Window)
    requires InOrder(cs, next) && k < |cs| && IndexOfId(Without(cs, k), id) < |Without(cs, k)|
    ensures var j, i := IndexOfId(cs, id), IndexOfId(Without(cs, k), id);
            && j < |cs| && j != k && i == (if k < j then j - 1 else j) && Without(cs, k)[i] == cs[j]
            && Ahead(Without(cs, k), id, w)
               == Ahead(cs, id, w) - if k < j then Budget(cs[k], w.since, w.Until()) else 0
  {
    var j := IndexOfId(cs, id);
    RemovalPlace(cs, next, k, id);
    WithoutAt(cs, k);
    if k < j {
      AheadWithout(cs, k, j);
      BudgetsWithout(cs[..j], k, w.since, w.Until());
    } else {
      assert Without(cs, k)[..j] == cs[..j];
    }
    hide Without, Budgets, Budget, IndexOfId, InOrder;
  }

  lemma UpdateAhead(cs: seq<Client>, k: nat, c: Client, id: nat, w: Window)
    requires k < |cs| && c.id == cs[k].id
    ensures var u, j := cs[k := c], IndexOfId(cs, id);
            && IndexOfId(u, id) == j && (j < |cs| ==> u[j] == if k == j then c else cs[j])
            && Ahead(u, id, w) == Ahead(cs, id, w)
               + if k < j then Budget(c, w.since, w.Until()) - Budget(cs[k], w.since, w.Until()) else 0
  {
    var u, j := cs[k := c], IndexOfId(cs, id);
    UpdatePlace(cs, k, c, id);
    if k < j {
      assert u[..j] == cs[..j][k := c];
      BudgetsUpdate(cs[..j], k, c, w.since, w.Until());
    } else {
      assert u[..j] == cs[..j];
    }
    hide Budgets, Budget, IndexOfId;
  }

  /** A removal that takes no time. */
  lemma RemovalIsOnTime(cs: seq<Client>, next: nat, clock: int, k: nat, id: nat, w: Window)
    requires InOrder(cs, next) && OnTime(cs, clock, id, w)
    ensures OnTime(Without(cs, k), clock, id, w)
  {
    if k < |cs| && IndexOfId(Without(cs, k), id) < |Without(cs, k)| {
      RemovalAhead(cs, next, k, id, w);
    }
    hide Ahead, Budget, IndexOfId, InOrder;
  }

  lemma ConnectIsOnTime(cs: seq<Client>, clock: int, c: Client, id: nat, w: Window)
    requires OnTime(cs, clock, id, w) && c.id != id
    ensures OnTime(cs + [c], clock, id, w)
  {
    var j := IndexOfId(cs, id);
    AddPlace(cs, c, id);
    if j < |cs| {
      assert (cs + [c])[..j] == cs[..j];
    }
    hide Budgets, IndexOfId;
  }

  /** Activity of another client, in the second at hand, which may not be paid for yet. */
  lemma ActivityIsOnTime(cs: seq<Client>, clock: int, now: int, k: nat, id: nat, w: Window)
    requires TimesMakeSense(cs, now) && OnTime(cs, clock, id, w) && w.Closes() && clock <= now <= clock + 1
    requires k < |cs| && cs[k].id != id
    ensures OnTime(cs[k := cs[k].(lastActive := now, pingSent := 0)], clock, id, w)
  {
    var j := IndexOfId(cs, id);
    UpdateAhead(cs, k, cs[k].(lastActive := now, pingSent := 0), id, w);
    if j < |cs| && clock >= w.since + 180 {
      assert now <= w.Until();
      ActivityIsFree(cs[k], now, w.since, w.Until());
    }
    hide Ahead, Budget, IndexOfId, Window.Until;
  }

  /** Activity of a client ahead that was due for a ping in this second pays for it. */
  lemma ActivityPays(cs: seq<Client>, clock: int, k: nat, id: nat, w: Window)
    requires OnTime(cs, clock, id, w) && w.Closes() && k < IndexOfId(cs, id) < |cs|
    requires clock + 1 - cs[k].lastActive > INACTIVITY_THRESHOLD && cs[k].pingSent == 0
    ensures OnTime(cs[k := cs[k].(lastActive := clock + 1, pingSent := 0)], clock + 1, id, w)
  {
    var j, c := IndexOfId(cs, id), cs[k].(lastActive := clock + 1, pingSent := 0);
    UpdateAhead(cs, k, c, id, w);
    BudgetsWithin(cs[k := c][..j], w);
    if clock >= w.since + 180 {
      assert clock + 1 <= w.Until();
      ActivityCosts(cs[k], clock + 1, w.since, w.Until());
    }
    hide Budgets, Budget, IndexOfId, Window.Until, InTime;
    PaidAhead(clock, cs[j], Ahead(cs, id, w), Ahead(cs[k := c], id, w), w);
  }

  lemma RenameIsOnTime(cs: seq<Client>, clock: int, k: nat, name: string, id: nat, w: Window)
    requires OnTime(cs, clock, id, w) && k < |cs|
    ensures OnTime(cs[k := cs[k].(name := name)], clock, id, w)
  {
    UpdateAhead(cs, k, cs[k].(name := name), id, w);
    hide Ahead, IndexOfId, Window.Until;
  }

  // ----- A pass -----

  lemma SecondNotDue(cs: seq<Client>, clock: int, id: nat, w: Window)
    requires OnTime(cs, clock, id, w) && w.Closes()
    requires var j := IndexOfId(cs, id); j < |cs| ==> !Actionable(cs[j], clock + 1)
    ensures OnTime(cs, clock + 1, id, w)
  {
    var j := IndexOfId(cs, id);
    if j < |cs| {
      BudgetsWithin(cs[..j], w);
      NotDue(clock, cs[j], Ahead(cs, id, w), Ahead(cs, id, w), w);
    }
    hide Budgets, IndexOfId, InTime;
  }

  lemma PingIsOnTime(cs: seq<Client>, clock: int, k: nat, id: nat, w: Window)
    requires clock >= 0 && OnTime(cs, clock, id, w) && w.Closes()
    requires k < |cs| && Actionable(cs[k], clock + 1) && cs[k].pingSent == 0 && k <= IndexOfId(cs, id) < |cs|
    ensures OnTime(cs[k := cs[k].(pingSent := clock + 1)], clock + 1, id, w)
  {
    var j, c := IndexOfId(cs, id), cs[k].(pingSent := clock + 1);
    UpdateAhead(cs, k, c, id, w);
    if k == j {
      Pinged(clock, cs[j], Ahead(cs, id, w), w);
    } else {
      BudgetsWithin(cs[k := c][..j], w);
      if clock >= w.since + 180 {
        PingCosts(cs[k], clock + 1, w.since, w.Until());
      }
      PaidAhead(clock, cs[j], Ahead(cs, id, w), Ahead(cs[k := c], id, w), w);
    }
    hide Budgets, Budget, IndexOfId, InTime;
  }

  /** A removal ahead uses up the second in which it is made. */
  lemma EvictionIsOnTime(cs: seq<Client>, next: nat, clock: int, k: nat, id: nat, w: Window)
    requires InOrder(cs, next) && OnTime(cs, clock, id, w) && w.Closes()
    requires k <= IndexOfId(cs, id) < |cs|
    ensures OnTime(Without(cs, k), clock + 1, id, w)
  {
    var j, e := IndexOfId(cs, id), Without(cs, k);
    if IndexOfId(e, id) < |e| {
      RemovalAhead(cs, next, k, id, w);
      BudgetsWithin(e[..IndexOfId(e, id)], w);
      PaidAhead(clock, cs[j], Ahead(cs, id, w), Ahead(e, id, w), w);
    }
    hide Budgets, IndexOfId, InTime, Without, InOrder;
  }

  /** A ping recorded when the second is paid for already: of the silent client, of one behind it, or of one ahead. */
  lemma LatePingIsOnTime(cs: seq<Client>, clock: int, k: nat, at: int, id: nat, w: Window)
    requires OnTime(cs, clock, id, w) && k < |cs| && cs[k].pingSent == 0 && at <= clock
    ensures OnTime(cs[k := cs[k].(pingSent := at)], clock, id, w)
  {
    UpdateAhead(cs, k, cs[k].(pingSent := at), id, w);
    PingIsFree(cs[k], at, w.since, w.Until());
    hide Ahead, Budget, IndexOfId, Window.Until;
  }

  lemma TickIs(cs: seq<Client>, now: int, j: nat)
    ensures var k := FirstActionable(cs, now);
            if k == |cs| then Tick(cs, now) == cs
            else
              Actionable(cs[k], now)
              && if cs[k].pingSent == 0 then Tick(cs, now) == cs[k := cs[k].(pingSent := now)]
                 else Tick(cs, now) == Without(cs, IndexOfName(cs, cs[k].name)) && IndexOfName(cs, cs[k].name) <= k
    ensures j < FirstActionable(cs, now) ==> !Actionable(cs[j], now)
  {
    hide Actionable, Without;
  }

  /** A pass: the silent client is not due, or is pinged, or somebody up to its place is removed, or somebody ahead is
      pinged and pays for the second. */
  lemma PassIsOnTime(cs: seq<Client>, next: nat, clock: int, id: nat, w: Window)
    requires InOrder(cs, next) && clock >= 0 && OnTime(cs, clock, id, w) && w.Closes()
    ensures OnTime(Tick(cs, clock + 1), clock + 1, id, w)
  {
    hide *;
    var j, k := IndexOfId(cs, id), FirstActionable(cs, clock + 1);
    TickIs(cs, clock + 1, j);
    if k <= j < |cs| {
      if cs[k].pingSent == 0 {
        PingIsOnTime(cs, clock, k, id, w);
      } else {
        EvictionIsOnTime(cs, next, clock, IndexOfName(cs, cs[k].name), id, w);
      }
    } else {
      SecondNotDue(cs, clock, id, w);
      if k < |cs| {
        if cs[k].pingSent == 0 {
          LatePingIsOnTime(cs, clock + 1, k, clock + 1, id, w);
        } else {
          RemovalIsOnTime(cs, next, clock + 1, IndexOfName(cs, cs[k].name), id, w);
        }
      }
    }
  }
}
