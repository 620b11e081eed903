/**
  Exact quota accounting in the key's own units: on a key that does not overflow to the wallet,
  what is used is the open holds plus, for each usage record, its units if the key could pay all
  beyond the settled hold and otherwise the settled hold.
 */
module Metered {
  import opened Sums
  import opened Wallets
  import opened Billing
  import opened Accounting
  import opened Charging
  import opened Protocol
  import opened Safety
  import opened Runs
  import opened Windows

  /** A key whose open holds are all on its own quota, and stay there. */
  ghost predicate QuotaOnly(s: Tables, k: Id)
  {
    k in s.keys && !s.keys[k].overflow
    && forall i :: IsOpenOn(s, k, i) ==> s.reservations[i].source == KeyQuota
  }

  // ---- Open reservations come from holds only ----

  /** Every open reservation was there before. */
  ghost predicate OpenedNothing(s: Tables, s': Tables)
  {
    forall i :: 0 <= i < |s'.reservations| && s'.reservations[i].status == Open ==> s'.reservations[i] in s.reservations
  }

  lemma QuotaOnlyFrame(s: Tables, s': Tables, k: Id)
    requires QuotaOnly(s, k) && OpenedNothing(s, s') && k in s'.keys && !s'.keys[k].overflow
    ensures QuotaOnly(s', k)
  {
    forall i | IsOpenOn(s', k, i)
      ensures s'.reservations[i].source == KeyQuota
    {
      assert s'.reservations[i] in s.reservations;
      var j :| 0 <= j < |s.reservations| && s.reservations[j] == s'.reservations[i];
      assert IsOpenOn(s, k, j);
    }
  }

  lemma InterceptQuotaOnly(s: Tables, request: Id, k0: Id, estimate: nat, now: int, k: Id)
    requires Sound(s) && NewRequest(s, request) && QuotaOnly(s, k)
    ensures QuotaOnly(Next(s, Intercept(request, k0, estimate), now), k)
  {
    var s' := Next(s, Intercept(request, k0, estimate), now);
    InterceptTables(s, request, k0, estimate, now);
    if k0 in s.keys && request != "" {
      HoldTakes(s, request, k0, s.keys[k0].owner, estimate, now);
      forall i | IsOpenOn(s', k, i)
        ensures s'.reservations[i].source == KeyQuota
      {
        assert i < |s.reservations| ==> IsOpenOn(s, k, i);
      }
    }
  }

  lemma UsageOpens(s: Tables, rec: UsageRecord, priced: int, pick: Option<nat>, now: int)
    requires Sound(s) && PickOpen(s, rec.key, pick)
    ensures OpenedNothing(s, Charge(s, rec, priced, pick, now))
  {
    if rec.key in s.keys && rec.tokens > 0 {
      EnsurePeriodSound(s, rec.key, now);
      ChargeRows(EnsurePeriod(s, rec.key, now), rec, priced, pick, now);
    }
  }

  lemma ReleaseOpens(s: Tables, step: Step, now: int)
    requires Sound(s) && (step.Complete? || step.Boot?)
    ensures var s' := Next(s, step, now); OpenedNothing(s, s') && KeysKept(s, s')
  {
    if step.Complete? {
      ReleaseSound(s, step.request);
      ReleaseRows(s, step.request);
      SomeReleased(s, Release(s, step.request));
    } else {
      var ids := StaleIds(s.reservations, now - step.maxAge);
      ReleaseAllSound(s, ids);
      ReleaseAllRows(s, ids);
      SomeReleased(s, ReleaseAll(s, ids));
    }
  }

  lemma SomeReleased(s: Tables, s': Tables)
    requires |s'.reservations| == |s.reservations|
    requires forall i :: 0 <= i < |s.reservations| ==>
      s'.reservations[i] == AfterRelease(s.reservations[i]) || s'.reservations[i] == s.reservations[i]
    ensures OpenedNothing(s, s')
  {
    forall i | 0 <= i < |s'.reservations| && s'.reservations[i].status == Open
      ensures s'.reservations[i] in s.reservations
    {
      assert s'.reservations[i] == s.reservations[i];
    }
  }

  lemma OtherOpens(s: Tables, step: Step, now: int)
    requires Sound(s) && !RequestStep(step)
    ensures OpenedNothing(s, Next(s, step, now))
  {
    if step.DeleteKey? {
      WithoutKeyMembers(s.reservations, step.key);
    } else if step.AdminRecharge? {
      WalletTables(s, step, now);
    }
  }

  /** Every step keeps such a key one, unless it deletes it, switches it or opens it to overflow. */
  lemma StepQuotaOnly(s: Tables, step: Step, now: int, k: Id)
    requires Sound(s) && Admissible(s, step) && QuotaOnly(s, k)
    requires !(step.DeleteKey? && step.key == k) && !(step.SetOverflow? && step.key == k && step.on)
    ensures QuotaOnly(Next(s, step, now), k)
  {
    var s' := Next(s, step, now);
    match step
    case Intercept(request, k0, estimate) => InterceptQuotaOnly(s, request, k0, estimate, now, k);
    case UsageEvent(rec, priced, pick) =>
      if PickOpen(s, rec.key, pick) {
        ChargeTables(s, rec, priced, pick, now);
        UsageOpens(s, rec, priced, pick, now);
        QuotaOnlyFrame(s, s', k);
      }
    case Complete(_, _) =>
      ReleaseOpens(s, step, now);
      QuotaOnlyFrame(s, s', k);
    case Boot(_) =>
      ReleaseOpens(s, step, now);
      QuotaOnlyFrame(s, s', k);
    case _ =>
      OtherOpens(s, step, now);
      OtherOverflow(s, step, now, k);
      QuotaOnlyFrame(s, s', k);
  }

  lemma OtherOverflow(s: Tables, step: Step, now: int, k: Id)
    requires Sound(s) && !RequestStep(step) && k in s.keys && !s.keys[k].overflow
    requires !(step.DeleteKey? && step.key == k) && !(step.SetOverflow? && step.key == k && step.on)
    ensures var s' := Next(s, step, now); k in s'.keys && !s'.keys[k].overflow
  {
    if step.AdminRecharge? {
      WalletTables(s, step, now);
    }
  }

  // ---- Spend in units ----

  /** The hold a usage record settles. */
  function SettledHold(s: Tables, rec: UsageRecord, pick: Option<nat>): int
    requires PickOpen(s, rec.key, pick)
  {
    if Settles(rec, pick) then s.reservations[pick.value].hold else 0
  }

  /** The units of a record if the key can pay all beyond the settled hold, else that hold. */
  function UnitsOrHold(s: Tables, rec: UsageRecord, priced: int, pick: Option<nat>): int
    requires rec.key in s.keys && PickOpen(s, rec.key, pick)
  {
    var units := Units(s, rec, priced);
    var hold := SettledHold(s, rec, pick);
    if units <= hold || units - hold <= s.keys[rec.key].amount - s.keys[rec.key].used then units else hold
  }

  /** What a step adds to the units spent on k. */
  function StepUnits(s: Tables, step: Step, k: Id): int
    requires k in s.keys
  {
    if step.UsageEvent? && step.rec.key == k && step.rec.tokens > 0 && PickOpen(s, k, step.pick)
    then UnitsOrHold(s, step.rec, step.priced, step.pick) else 0
  }

  lemma UnitsAreSpend(s: Tables, step: Step, k: Id)
    requires Sound(s) && QuotaOnly(s, k) && KnowsItsKey(s, step, k)
    ensures StepUnits(s, step, k) == StepSpend(s, step, k)
  {
    if step.UsageEvent? && step.rec.key == k && step.rec.tokens > 0 && PickOpen(s, k, step.pick) {
      forall i | 0 <= i < |s.reservations| && s.reservations[i].id == step.rec.request
        && s.reservations[i].status == Open
        ensures s.reservations[i].source == KeyQuota
      {
        assert IsOpenOn(s, k, i);
      }
      SpendIsUnitsOrHold(s, step.rec, step.priced, step.pick);
    }
  }

  /** A step that keeps k in its window and on its own quota, with usage records for requests held on k. */
  ghost predicate MeteredStep(s: Tables, step: Step, now: int, k: Id)
    requires k in s.keys
  {
    Admissible(s, step) && KnowsItsKey(s, step, k) && StaysInWindow(s, step, now, k)
    && !(step.SetOverflow? && step.key == k && step.on)
  }

  ghost predicate MeteredRun(s: Tables, events: seq<Event>, k: Id)
    decreases |events|
  {
    k in s.keys
    && (events == []
        || (MeteredStep(s, events[0].step, events[0].now, k)
            && MeteredRun(Next(s, events[0].step, events[0].now), events[1..], k)))
  }

  /** The units spent on k over a run. */
  ghost function RunUnits(s: Tables, events: seq<Event>, k: Id): int
    requires MeteredRun(s, events, k)
    decreases |events|
  {
    if events == [] then 0
    else StepUnits(s, events[0].step, k) + RunUnits(Next(s, events[0].step, events[0].now), events[1..], k)
  }

  /** One step of the law. */
  lemma StepMetered(s: Tables, step: Step, now: int, k: Id)
    requires Sound(s) && QuotaOnly(s, k) && QuotaBook(s, k) >= 0 && MeteredStep(s, step, now, k)
    ensures var s' := Next(s, step, now);
            && Sound(s') && QuotaOnly(s', k)
            && QuotaBook(s', k) == QuotaBook(s, k) + StepUnits(s, step, k) && StepUnits(s, step, k) >= 0
  {
    StepTables(s, step, now);
    StepQuotaOnly(s, step, now, k);
    StepBook(s, step, now, k);
    UnitsAreSpend(s, step, k);
    StepSpendNonNegative(s, step, k);
  }

  /**
    Exact quota accounting over every run, for keys of any kind that do not overflow: what is
    used is the open holds, plus what had been spent before, plus the units or settled hold of
    every usage record, whichever open reservations were settled. So every open hold is covered
    by what is used, and no refund meets the non-negativity CHECK.
   */
  lemma {:induction false} UsedIsHeldPlusUnits(s: Tables, events: seq<Event>, k: Id)
    requires Sound(s) && QuotaOnly(s, k) && QuotaBook(s, k) >= 0 && MeteredRun(s, events, k)
    ensures var s' := RunAll(s, events);
            && QuotaOnly(s', k)
            && s'.keys[k].used == HeldOn(s', k) + QuotaBook(s, k) + RunUnits(s, events, k)
            && forall i :: IsOpenOn(s', k, i) ==> s'.reservations[i].hold <= s'.keys[k].used
    decreases |events|
  {
    if events == [] {
      forall i | IsOpenOn(s, k, i)
        ensures s.reservations[i].hold <= s.keys[k].used
      {
        NothingRejected(s, i, k);
      }
    } else {
      StepMetered(s, events[0].step, events[0].now, k);
      UsedIsHeldPlusUnits(Next(s, events[0].step, events[0].now), events[1..], k);
    }
  }

  /** A newly issued key starts with nothing used and nothing on hold. */
  lemma NewKeyMetered(s: Tables, step: Step, now: int)
    requires Sound(s) && step.NewKey? && step.key !in s.keys && step.owner in s.wallet.users
    ensures var s' := Next(s, step, now); Sound(s') && QuotaOnly(s', step.key) && QuotaBook(s', step.key) == 0
  {
    var s' := Next(s, step, now);
    KeyTables(s, step, now);
    forall i | 0 <= i < |s'.reservations|
      ensures s'.reservations[i].key != step.key
    {
      assert RowSound(s, s.reservations[i]);
    }
    SumZero(s'.reservations, OpenQuotaOn(step.key));
  }

  /** From its issue on, a key's used quota is its open holds plus what its records spent. */
  lemma NewKeyUsedIsHeldPlusUnits(s: Tables, step: Step, now: int, events: seq<Event>)
    requires Sound(s) && step.NewKey? && step.key !in s.keys && step.owner in s.wallet.users
    requires MeteredRun(Next(s, step, now), events, step.key)
    ensures var s' := RunAll(Next(s, step, now), events);
            && step.key in s'.keys
            && s'.keys[step.key].used == HeldOn(s', step.key) + RunUnits(Next(s, step, now), events, step.key)
  {
    NewKeyMetered(s, step, now);
    UsedIsHeldPlusUnits(Next(s, step, now), events, step.key);
  }

  // ---- Lifetime keys ----

  /** The steps such a run excludes for a lifetime key; no clock reading matters. */
  ghost predicate LifetimeRun(s: Tables, events: seq<Event>, k: Id)
    decreases |events|
  {
    events == []
    || (var step := events[0].step;
        && Admissible(s, step) && KnowsItsKey(s, step, k)
        && !(step.DeleteKey? && step.key == k) && !(step.SwitchQuota? && step.key == k)
        && !(step.SetOverflow? && step.key == k && step.on)
        && LifetimeRun(Next(s, step, events[0].now), events[1..], k))
  }

  lemma ScopeKept(s: Tables, step: Step, now: int, k: Id)
    requires Sound(s) && Admissible(s, step) && k in s.keys
    requires !(step.DeleteKey? && step.key == k) && !(step.SwitchQuota? && step.key == k)
    ensures var s' := Next(s, step, now); k in s'.keys && s'.keys[k].scope == s.keys[k].scope
  {
    match step
    case Intercept(request, k0, estimate) => InterceptTables(s, request, k0, estimate, now);
    case UsageEvent(rec, priced, pick) =>
      if PickOpen(s, rec.key, pick) {
        ChargeTables(s, rec, priced, pick, now);
      }
    case Complete(_, _) => ReleaseOpens(s, step, now);
    case Boot(_) => ReleaseOpens(s, step, now);
    case AdminRecharge(_, _, _, _, _, _) => WalletTables(s, step, now);
    case _ =>
  }

  /** A lifetime key never leaves its window, so the law needs no condition on the clock. */
  lemma {:induction false} LifetimeIsMetered(s: Tables, events: seq<Event>, k: Id)
    requires Sound(s) && k in s.keys && s.keys[k].scope.Lifetime? && LifetimeRun(s, events, k)
    ensures MeteredRun(s, events, k)
    decreases |events|
  {
    if events != [] {
      StepTables(s, events[0].step, events[0].now);
      ScopeKept(s, events[0].step, events[0].now, k);
      LifetimeIsMetered(Next(s, events[0].step, events[0].now), events[1..], k);
    }
  }
}
