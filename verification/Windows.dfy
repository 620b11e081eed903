/** Period windows of cyclic keys (internal/billing/period.go) and what a key can spend in one of them. */
module Windows {
  import opened Sums
  import opened Wallets
  import opened Billing
  import opened Accounting
  import opened Charging
  import opened Protocol
  import opened Safety
  import opened Runs

  /** A key whose window is set encloses a moment. */
  predicate InWindow(key: Key, now: int)
  {
    0 < key.periodStart <= now < key.periodEnd
  }

  /** How long a key's windows are promised to be, in milliseconds. */
  function WindowLength(key: Key): int
  {
    if key.windowHours > 0 then key.windowHours * 3_600_000
    else
      match key.scope
      case Hour => 3_600_000
      case Day => 86_400_000
      case Week => 604_800_000
      case Month => 2_592_000_000
      case Lifetime => 0
  }

  /**
    A reset opens a window of exactly the configured length around now, with nothing used, and
    it starts no earlier than the previous window ended. A key in its window is not touched.
   */
  lemma WindowAfterEnsure(key: Key, now: int)
    requires now > 0 && !key.scope.Lifetime?
    requires key.periodStart > 0 && key.periodEnd > 0 ==> key.periodStart <= now
    ensures var key' := Refreshed(key, now);
            && InWindow(key', now)
            && (PeriodDue(key, now) ==>
                  key'.used == 0 && key'.periodStart == now && key'.periodEnd - key'.periodStart == WindowLength(key)
                  && (key.periodStart > 0 && key.periodEnd > 0 ==> key.periodEnd <= key'.periodStart))
            && (!PeriodDue(key, now) ==> key' == key)
            && !PeriodDue(key', now)
  {
  }

  /** One window of a key's history. */
  datatype Window = Window(start: int, end: int)

  lemma WindowOpened(key: Key, now: int)
    requires now > 0 && !key.scope.Lifetime? && PeriodDue(key, now)
    ensures var key' := Refreshed(key, now);
            && key'.scope == key.scope && WindowLength(key') == WindowLength(key) > 0
            && key'.periodStart == now && key'.periodEnd == now + WindowLength(key)
  {
  }

  /** The step that finds a period due does what it does right after the reset. */
  lemma ResetThenStep(s: Tables, step: Step, now: int, k: Id)
    requires k in s.keys && now > 0
    requires || (step.Intercept? && step.key == k && step.request != "")
             || (step.UsageEvent? && step.rec.key == k && step.rec.tokens > 0 && PickOpen(s, k, step.pick))
    ensures Next(s, step, now) == Next(EnsurePeriod(s, k, now), step, now)
  {
    var e := EnsurePeriod(s, k, now);
    assert !PeriodDue(e.keys[k], now) && Refreshed(e.keys[k], now) == e.keys[k];
    assert e.keys[k := e.keys[k]] == e.keys;
    assert EnsurePeriod(e, k, now) == e;
    if step.Intercept? {
      assert Next(e, step, now) == Hold(e, step.request, k, s.keys[k].owner, step.estimate, now);
    } else {
      assert PickOpen(e, k, step.pick);
      assert Next(s, step, now) == Charge(s, step.rec, step.priced, step.pick, now);
    }
  }

  /** The quota on hold for k. */
  function HeldOn(s: Tables, k: Id): int
  {
    Sum(s.reservations, OpenQuotaOn(k))
  }

  /**
    From a reset on, the quota spent in a window never exceeds the key's quota plus the holds
    that were carried into the window; with no reservation open across the reset it is at most
    the quota.
   */
  lemma WindowSpendBounded(s: Tables, now: int, events: seq<Event>, k: Id)
    requires Sound(s) && WithinQuota(s) && k in s.keys && PeriodDue(s.keys[k], now)
    requires var e := EnsurePeriod(s, k, now);
             WindowRun(e, events, k) && AllAdmissible(e, events) && AllCover(e, events)
    ensures var e := EnsurePeriod(s, k, now); var s' := RunAll(e, events);
            && k in s'.keys
            && RunSpend(e, events, k) <= s'.keys[k].amount + HeldOn(s, k)
            && (HeldOn(s, k) == 0 ==> RunSpend(e, events, k) <= s'.keys[k].amount)
  {
    var e := EnsurePeriod(s, k, now);
    var s' := RunAll(e, events);
    EnsurePeriodSound(s, k, now);
    QuotaNeverExceeded(e, events);
    UsedIsHeldPlusSpent(e, events, k);
    assert k in s'.keys;
    HeldNonNegative(s', k);
  }

  lemma HeldNonNegative(s: Tables, k: Id)
    requires Sound(s)
    ensures HeldOn(s, k) >= 0
  {
    forall i | 0 <= i < |s.reservations|
      ensures OpenQuotaOn(k)(s.reservations[i]) >= 0
    {
      assert RowSound(s, s.reservations[i]);
    }
    SumCovers(s.reservations, OpenQuotaOn(k));
  }
}
