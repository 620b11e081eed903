/** Period windows over runs of the whole system, and exactly when a window's spend is bounded by the quota. */
module WindowRuns {
  import opened Sums
  import opened Wallets
  import opened Billing
  import opened Accounting
  import opened Charging
  import opened RequestCounting
  import opened Protocol
  import opened Safety
  import opened Lifecycle
  import opened Runs
  import opened Credit
  import opened Windows
  import opened Metered

  // ---- The windows a run opens ----

  /** Either the window stays, or the period was due and a window of the key's length starts now. */
  ghost predicate WindowStaysOrOpens(key: Key, key': Key, now: int)
  {
    || (key'.periodStart == key.periodStart && key'.periodEnd == key.periodEnd)
    || (PeriodDue(key, now) && key'.periodStart == now && key'.periodEnd == now + WindowLength(key))
  }

  lemma RefreshedWindow(key: Key, now: int)
    ensures WindowStaysOrOpens(key, Refreshed(key, now), now)
  {
  }

  lemma InterceptWindow(s: Tables, request: Id, k0: Id, estimate: nat, now: int, k: Id)
    requires Sound(s) && k in s.keys
    ensures var s' := Next(s, Intercept(request, k0, estimate), now);
            k in s'.keys && WindowStaysOrOpens(s.keys[k], s'.keys[k], now)
  {
    RefreshedWindow(s.keys[k], now);
    if k0 in s.keys && request != "" {
      var u := s.keys[k0].owner;
      var e := EnsurePeriod(s, k0, now);
      EnsurePeriodSound(s, k0, now);
      PlacementPlaceable(e, request, k0, u, estimate, now);
      var placed := Placement(e, request, k0, u, estimate, now);
      if placed.Some? {
        PlaceEffect(e, placed.value);
        assert SameTerms(e.keys[k], Place(e, placed.value).keys[k]);
      }
    }
  }

  lemma UsageWindow(s: Tables, rec: UsageRecord, priced: int, pick: Option<nat>, now: int, k: Id)
    requires Sound(s) && k in s.keys && PickOpen(s, rec.key, pick)
    ensures var s' := Charge(s, rec, priced, pick, now);
            k in s'.keys && WindowStaysOrOpens(s.keys[k], s'.keys[k], now)
  {
    RefreshedWindow(s.keys[k], now);
    if rec.key in s.keys && rec.tokens > 0 {
      var e := EnsurePeriod(s, rec.key, now);
      EnsurePeriodSound(s, rec.key, now);
      ChargeSound(e, rec, priced, pick, now);
      assert SameTerms(e.keys[k], ChargeCurrent(e, rec, priced, pick, now).keys[k]);
    }
  }

  /** No step but a hold or a charge that finds the period due changes a key's window. */
  lemma StepWindow(s: Tables, step: Step, now: int, k: Id)
    requires Sound(s) && k in s.keys && !(step.DeleteKey? && step.key == k)
    ensures var s' := Next(s, step, now);
            k in s'.keys && WindowStaysOrOpens(s.keys[k], s'.keys[k], now)
  {
    match step
    case Intercept(request, k0, estimate) => InterceptWindow(s, request, k0, estimate, now, k);
    case UsageEvent(rec, priced, pick) =>
      if PickOpen(s, rec.key, pick) {
        UsageWindow(s, rec, priced, pick, now, k);
      }
    case Complete(_, _) =>
      ReleaseOpens(s, step, now);
      assert SameTerms(s.keys[k], Next(s, step, now).keys[k]);
    case Boot(_) =>
      ReleaseOpens(s, step, now);
      assert SameTerms(s.keys[k], Next(s, step, now).keys[k]);
    case AdminRecharge(_, _, _, _, _, _) => WalletTables(s, step, now);
    case _ =>
  }

  /** A window, and the length its key was set to when it opened. */
  datatype Opening = Opening(window: Window, length: int)

  /** The windows a run opens on k. */
  function WindowsOf(s: Tables, events: seq<Event>, k: Id): seq<Opening>
    decreases |events|
  {
    if events == [] then []
    else
      var s' := Next(s, events[0].step, events[0].now);
      var rest := WindowsOf(s', events[1..], k);
      if k in s.keys && k in s'.keys
         && (s'.keys[k].periodStart != s.keys[k].periodStart || s'.keys[k].periodEnd != s.keys[k].periodEnd)
      then [Opening(Window(s'.keys[k].periodStart, s'.keys[k].periodEnd), WindowLength(s.keys[k]))] + rest
      else rest
  }

  /** The end of the window a key is in, if it is in one. */
  function WindowEnd(key: Key): int
  {
    if key.periodStart > 0 && key.periodEnd > 0 then key.periodEnd else 0
  }

  /** Windows of the lengths set for them, none before a moment, none before the end of an earlier one. */
  ghost predicate InTurn(openings: seq<Opening>, from: int)
  {
    && (forall i :: 0 <= i < |openings| ==>
          var o := openings[i];
          from <= o.window.start && o.length > 0 && o.window.end - o.window.start == o.length)
    && (forall i, j :: 0 <= i < j < |openings| ==> openings[i].window.end <= openings[j].window.start)
  }

  lemma InTurnFront(first: Opening, rest: seq<Opening>, from: int)
    requires from <= first.window.start && first.length > 0 && first.window.end - first.window.start == first.length
    requires InTurn(rest, first.window.end)
    ensures InTurn([first] + rest, from)
  {
  }

  /**
    Over every run of the whole system, scope switches included: each window a key is given has
    the length set for it at that time and starts no earlier than the previous one ended.
   */
  lemma {:induction false} RunWindowsInTurn(s: Tables, events: seq<Event>, k: Id)
    requires Sound(s) && AllAdmissible(s, events) && k in s.keys && NeverDeletes(events, k)
    requires forall i :: 0 <= i < |events| ==> events[i].now > 0
    ensures InTurn(WindowsOf(s, events, k), WindowEnd(s.keys[k]))
    decreases |events|
  {
    if events != [] {
      var step, now := events[0].step, events[0].now;
      var s' := Next(s, step, now);
      StepTables(s, step, now);
      StepWindow(s, step, now, k);
      assert NeverDeletes(events[1..], k);
      RunWindowsInTurn(s', events[1..], k);
      var key, key' := s.keys[k], s'.keys[k];
      if key'.periodStart != key.periodStart || key'.periodEnd != key.periodEnd {
        WindowOpened(key, now);
        InTurnFront(Opening(Window(key'.periodStart, key'.periodEnd), WindowLength(key)),
                    WindowsOf(s', events[1..], k), WindowEnd(key));
      }
    }
  }

  // ---- Overspending a window ----

  /** A run within one window of k. */
  ghost predicate SpendRun(s: Tables, events: seq<Event>, k: Id)
  {
    WindowRun(s, events, k) && AllAdmissible(s, events) && AllCover(s, events)
  }

  ghost predicate Overspends(s: Tables, events: seq<Event>, k: Id)
  {
    SpendRun(s, events, k) && k in RunAll(s, events).keys && RunSpend(s, events, k) > RunAll(s, events).keys[k].amount
  }

  lemma Prepend(s: Tables, step: Step, now: int, rest: seq<Event>, k: Id)
    requires k in s.keys && Admissible(s, step) && StaysInWindow(s, step, now, k) && !step.RenewKey?
    requires SpendRun(Next(s, step, now), rest, k)
    ensures var events := [Event(step, now)] + rest;
            && SpendRun(s, events, k) && RunAll(s, events) == RunAll(Next(s, step, now), rest)
            && RunSpend(s, events, k) == StepSpend(s, step, k) + RunSpend(Next(s, step, now), rest, k)
  {
    var events := [Event(step, now)] + rest;
    assert events[1..] == rest;
    assert Covers(s, step);
  }

  /** A key that can spend in its present window. */
  ghost predicate CanMeter(s: Tables, k: Id, now: int)
  {
    Sound(s) && k in s.keys && !s.keys[k].kind.Unlimited? && !PeriodDue(s.keys[k], now)
  }

  /** One token, one request or one micro-credit, without a request id. */
  function UnitEvent(k: Id): Step
  {
    UsageEvent(UsageRecord(k, "", 1), 1, None)
  }

  lemma UnitSpends(s: Tables, k: Id, now: int)
    requires CanMeter(s, k, now) && s.keys[k].used < s.keys[k].amount
    ensures var s' := Next(s, UnitEvent(k), now);
            && CanMeter(s', k, now) && s'.keys[k] == s.keys[k].(used := s.keys[k].used + 1)
            && s'.reservations == s.reservations && StepSpend(s, UnitEvent(k), k) == 1
  {
    StepTables(s, UnitEvent(k), now);
    assert s.keys == s.keys[k := s.keys[k]];
  }

  function Concat(ids: seq<Id>): Id
  {
    if ids == [] then "x" else ids[0] + Concat(ids[1..])
  }

  lemma {:induction false} LongerThanAll(ids: seq<Id>)
    ensures |Concat(ids)| > 0 && forall i :: 0 <= i < |ids| ==> |Concat(ids)| > |ids[i]|
  {
    if ids != [] {
      LongerThanAll(ids[1..]);
      assert forall i :: 1 <= i < |ids| ==> ids[i] == ids[1..][i - 1];
    }
  }

  /** A request id that no reservation and no usage record has. */
  function UnusedId(s: Tables): Id
  {
    Concat(seq(|s.reservations|, i requires 0 <= i < |s.reservations| => s.reservations[i].id)
           + seq(|s.usage|, i requires 0 <= i < |s.usage| => s.usage[i].request))
  }

  lemma UnusedIdIsUnused(s: Tables)
    ensures UnusedId(s) != ""
    ensures forall i :: 0 <= i < |s.reservations| ==> s.reservations[i].id != UnusedId(s)
    ensures forall i :: 0 <= i < |s.usage| ==> s.usage[i].request != UnusedId(s)
  {
    var held := seq(|s.reservations|, i requires 0 <= i < |s.reservations| => s.reservations[i].id);
    var shown := seq(|s.usage|, i requires 0 <= i < |s.usage| => s.usage[i].request);
    LongerThanAll(held + shown);
    forall i | 0 <= i < |s.reservations|
      ensures s.reservations[i].id != UnusedId(s)
    {
      assert (held + shown)[i] == s.reservations[i].id;
    }
    forall i | 0 <= i < |s.usage|
      ensures s.usage[i].request != UnusedId(s)
    {
      assert (held + shown)[|held| + i] == s.usage[i].request;
    }
  }

  /** One unit for a request that nothing is known of. */
  function StrayEvent(s: Tables, k: Id, p: nat): Step
  {
    UsageEvent(UsageRecord(k, UnusedId(s), 1), 1, Some(p))
  }

  /** It settles an oldest open reservation of the key, and spends a unit of it if it holds quota. */
  lemma StraySettles(s: Tables, k: Id, p: nat, now: int)
    requires CanMeter(s, k, now) && OldestOpen(s, k, Some(p))
    ensures var s' := Next(s, StrayEvent(s, k, p), now); var row := s.reservations[p];
            && CanMeter(s', k, now) && s'.keys[k].amount == s.keys[k].amount
            && s'.reservations == s.reservations[p := row.(status := Closed)]
            && StepSpend(s, StrayEvent(s, k, p), k) >= (if row.source == KeyQuota && row.hold > 0 then 1 else 0)
  {
    var rec := UsageRecord(k, UnusedId(s), 1);
    UnusedIdIsUnused(s);
    assert EnsurePeriod(s, k, now) == s by {
      assert s.keys == s.keys[k := s.keys[k]];
    }
    ChargeSound(s, rec, 1, Some(p), now);
    ChargeRows(s, rec, 1, Some(p), now);
    assert SameTerms(s.keys[k], ChargeCurrent(s, rec, 1, Some(p), now).keys[k]);
    StraySpend(s, rec, p);
  }

  lemma StraySpend(s: Tables, rec: UsageRecord, p: nat)
    requires Sound(s) && rec.key in s.keys && !s.keys[rec.key].kind.Unlimited? && IsOpenOn(s, rec.key, p)
    requires rec.tokens == 1 && rec.request != ""
    requires forall i :: 0 <= i < |s.reservations| ==> s.reservations[i].id != rec.request
    requires forall i :: 0 <= i < |s.usage| ==> s.usage[i].request != rec.request
    ensures var row := s.reservations[p];
            QuotaSpend(s, rec, 1, Some(p)) >= (if row.source == KeyQuota && row.hold > 0 then 1 else 0)
  {
    assert RowSound(s, s.reservations[p]);
    assert !AlreadyBilled(s.usage, rec.key, rec.request) && !WalletFunded(s.reservations, rec.request);
  }

  predicate HoldsQuota(s: Tables, k: Id, i: int)
  {
    IsOpenOn(s, k, i) && s.reservations[i].source == KeyQuota && s.reservations[i].hold > 0
  }

  lemma OpenCount(s: Tables, k: Id, i: nat)
    requires IsOpenOn(s, k, i)
    ensures Sum(s.reservations, OpenOn(k)) >= 1
    ensures Sum(s.reservations[i := s.reservations[i].(status := Closed)], OpenOn(k))
            == Sum(s.reservations, OpenOn(k)) - 1
    ensures Sum(s.reservations, OpenOn(k)) - 1 >= 0
  {
    SumCovers(s.reservations, OpenOn(k));
    SumUpdate(s.reservations, i, s.reservations[i].(status := Closed), OpenOn(k));
  }

  /** Stray records settle the open reservations one by one until one of them spends quota. */
  lemma {:induction false} SettleUntilSpent(s: Tables, k: Id, now: int, i: nat) returns (events: seq<Event>)
    requires CanMeter(s, k, now) && HoldsQuota(s, k, i)
    ensures SpendRun(s, events, k) && RunSpend(s, events, k) >= 1
    ensures k in RunAll(s, events).keys && RunAll(s, events).keys[k].amount == s.keys[k].amount
    decreases Sum(s.reservations, OpenOn(k))
  {
    var p := OldestOther(s, k, |s.reservations|, |s.reservations|);
    var step := StrayEvent(s, k, p);
    var s' := Next(s, step, now);
    assert OldestOpen(s, k, Some(p));
    StraySettles(s, k, p, now);
    OpenCount(s, k, p);
    var rest := [];
    if p != i {
      rest := SettleUntilSpent(s', k, now, i);
    }
    Prepend(s, step, now, rest, k);
    events := [Event(step, now)] + rest;
  }

  /** First spend all the key has left, then settle what is on hold. */
  lemma {:induction false} SpendMoreThanLeft(s: Tables, k: Id, now: int, i: nat) returns (events: seq<Event>)
    requires CanMeter(s, k, now) && HoldsQuota(s, k, i)
    ensures SpendRun(s, events, k) && RunSpend(s, events, k) > s.keys[k].amount - s.keys[k].used
    ensures k in RunAll(s, events).keys && RunAll(s, events).keys[k].amount == s.keys[k].amount
    decreases s.keys[k].amount - s.keys[k].used
  {
    if s.keys[k].used < s.keys[k].amount {
      UnitSpends(s, k, now);
      var rest := SpendMoreThanLeft(Next(s, UnitEvent(k), now), k, now, i);
      Prepend(s, UnitEvent(k), now, rest, k);
      events := [Event(UnitEvent(k), now)] + rest;
    } else {
      events := SettleUntilSpent(s, k, now, i);
    }
  }

  lemma SomeHoldsQuota(s: Tables, k: Id) returns (i: nat)
    requires Sound(s) && HeldOn(s, k) != 0
    ensures HoldsQuota(s, k, i)
  {
    if forall j :: 0 <= j < |s.reservations| ==> OpenQuotaOn(k)(s.reservations[j]) == 0 {
      SumZero(s.reservations, OpenQuotaOn(k));
    }
    i :| 0 <= i < |s.reservations| && OpenQuotaOn(k)(s.reservations[i]) != 0;
    assert RowSound(s, s.reservations[i]);
  }

  /**
    From a reset on, a metered key's spend stays within its quota in every run if and only if no
    quota was on hold across the reset.
   */
  lemma WindowWithinQuotaIff(s: Tables, k: Id, now: int)
    requires Sound(s) && WithinQuota(s) && k in s.keys && !s.keys[k].kind.Unlimited?
    requires now > 0 && PeriodDue(s.keys[k], now)
    ensures (forall events :: !Overspends(EnsurePeriod(s, k, now), events, k)) <==> HeldOn(s, k) == 0
  {
    var e := EnsurePeriod(s, k, now);
    if HeldOn(s, k) == 0 {
      forall events
        ensures !Overspends(e, events, k)
      {
        if SpendRun(e, events, k) {
          WindowSpendBounded(s, now, events, k);
        }
      }
    } else {
      EnsurePeriodSound(s, k, now);
      var i := SomeHoldsQuota(e, k);
      var events := SpendMoreThanLeft(e, k, now, i);
      assert Overspends(e, events, k);
    }
  }

  // A run from the empty database to a due period with quota on hold: one user, one daily request
  // key with a quota of one, one request that is still open a day later.

  const NEW_USER := Event(NewUser("u", "c", ""), 1)
  const NEW_KEY_OF_ONE := Event(NewKey("k", "u", Request, Day, 1, 0, -1), 1)
  const FIRST_REQUEST := Event(Intercept("a", "k", 0), 1)
  const DAY_LATER := 1 + 24 * MILLIS_PER_HOUR

  lemma FirstRequestHolds(s: Tables)
    requires s == Next(Next(EMPTY_TABLES, NEW_USER.step, 1), NEW_KEY_OF_ONE.step, 1)
    ensures NewRequest(s, "a")
    ensures var s' := Next(s, FIRST_REQUEST.step, 1);
            && "k" in s'.keys && s'.keys["k"].kind == Request && s'.keys["k"].scope == Day
            && s'.keys["k"].periodStart == 1 && s'.keys["k"].periodEnd == DAY_LATER
            && s'.reservations == [Reservation("a", "k", "u", 1, KeyQuota, Open, 1)]
  {
    assert "u" in s.wallet.users && s.keys == map["k" := Key("u", Request, Day, 1, 0, 0, 0, 0, false, -1, Active)];
    assert s.reservations == [] && s.wallet.ledger == [];
    assert Refreshed(s.keys["k"], 1).periodEnd == DAY_LATER;
  }

  lemma ThreeSteps(s: Tables, a: Event, b: Event, c: Event)
    requires !a.step.RenewKey? && !b.step.RenewKey? && !c.step.RenewKey?
    requires Admissible(s, a.step)
    requires var s1 := Next(s, a.step, a.now); Admissible(s1, b.step) && Admissible(Next(s1, b.step, b.now), c.step)
    ensures RunAll(s, [a, b, c]) == Next(Next(Next(s, a.step, a.now), b.step, b.now), c.step, c.now)
    ensures AllAdmissible(s, [a, b, c]) && AllCover(s, [a, b, c])
  {
    var s1 := Next(s, a.step, a.now);
    var s2 := Next(s1, b.step, b.now);
    var s3 := Next(s2, c.step, c.now);
    assert [a, b, c][1..] == [b, c] && [b, c][1..] == [c] && [c][1..] == [];
    assert RunAll(s3, []) == s3 && AllAdmissible(s3, []) && AllCover(s3, []);
    assert RunAll(s2, [c]) == s3 && AllAdmissible(s2, [c]) && AllCover(s2, [c]);
    assert RunAll(s1, [b, c]) == s3 && AllAdmissible(s1, [b, c]) && AllCover(s1, [b, c]);
  }

  /** A day later the period is due with quota on hold: overspending a window is reachable. */
  lemma HoldAcrossResetReachable()
    ensures var events := [NEW_USER, NEW_KEY_OF_ONE, FIRST_REQUEST];
            var s := RunAll(EMPTY_TABLES, events);
            && AllAdmissible(EMPTY_TABLES, events)
            && "k" in s.keys && PeriodDue(s.keys["k"], DAY_LATER)
            && exists more :: Overspends(EnsurePeriod(s, "k", DAY_LATER), more, "k")
  {
    var events := [NEW_USER, NEW_KEY_OF_ONE, FIRST_REQUEST];
    var s2 := Next(Next(EMPTY_TABLES, NEW_USER.step, 1), NEW_KEY_OF_ONE.step, 1);
    var s := RunAll(EMPTY_TABLES, events);
    FirstRequestHolds(s2);
    ThreeSteps(EMPTY_TABLES, NEW_USER, NEW_KEY_OF_ONE, FIRST_REQUEST);
    EmptyIsSafe();
    QuotaNeverExceeded(EMPTY_TABLES, events);
    HeldByOne(s);
    WindowWithinQuotaIff(s, "k", DAY_LATER);
  }

  lemma HeldByOne(s: Tables)
    requires s.reservations == [Reservation("a", "k", "u", 1, KeyQuota, Open, 1)]
    ensures HeldOn(s, "k") == 1
  {
    var none: seq<Reservation> := [];
    assert s.reservations == none + [s.reservations[0]];
    SumAppend(none, s.reservations[0], OpenQuotaOn("k"));
  }
}
