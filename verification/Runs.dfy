/** The accounting laws over whole runs: request counting, quota spend, available credit. */
module Runs {
  import opened Sums
  import opened Wallets
  import opened Billing
  import opened Accounting
  import opened Charging
  import opened RequestCounting
  import opened Purchase
  import opened Protocol
  import opened Safety

  // ---- Request counting ----

  /** Steps that leave key k a lifetime request key without overflow. */
  predicate KeepsRequestKey(step: Step, k: Id)
  {
    match step
    case DeleteKey(k') => k' != k
    case SwitchQuota(k', _, _, _, _) => k' != k
    case SetOverflow(k', on) => k' != k || !on
    case _ => true
  }

  /** A usage record of key k is for a request that was held on k. */
  ghost predicate KnowsItsKey(s: Tables, step: Step, k: Id)
  {
    step.UsageEvent? && step.rec.key == k ==> OwnReservation(s, step.rec)
  }

  lemma CountedFrame(s: Tables, s': Tables, k: Id)
    requires Counted(s, k) && s'.reservations == s.reservations && s'.usage == s.usage
    requires k in s'.keys && RequestKey(s'.keys[k]) && s'.keys[k].used == s.keys[k].used
    ensures Counted(s', k)
  {
    forall i | IsOpenOn(s', k, i)
      ensures s'.reservations[i].source == KeyQuota && s'.reservations[i].hold == 1
    {
      assert IsOpenOn(s, k, i);
    }
  }

  lemma UsageCounted(s: Tables, rec: UsageRecord, priced: int, pick: Option<nat>, now: int, k: Id)
    requires Sound(s) && Counted(s, k) && PickOpen(s, rec.key, pick) && (rec.key == k ==> OwnReservation(s, rec))
    ensures Counted(Charge(s, rec, priced, pick, now), k)
  {
    if rec.key in s.keys {
      if rec.tokens == 0 {
        UnbilledCounted(s, rec, k);
      } else {
        var e := EnsurePeriod(s, rec.key, now);
        EnsurePeriodSound(s, rec.key, now);
        CountedFrame(s, e, k);
        if rec.key == k {
          assert OwnReservation(e, rec);
          ChargeCounted(e, rec, priced, pick, now);
        } else {
          ChargeElsewhereCounted(e, rec, priced, pick, now, k);
        }
      }
    }
  }

  lemma {:induction false} WithoutKeySum(rows: seq<Reservation>, gone: Id, k: Id)
    requires gone != k
    ensures Sum(WithoutKey(rows, gone), OpenOn(k)) == Sum(rows, OpenOn(k))
  {
    if rows != [] {
      WithoutKeySum(rows[..|rows| - 1], gone, k);
      SumAppend(WithoutKey(rows[..|rows| - 1], gone), rows[|rows| - 1], OpenOn(k));
    }
  }

  lemma DeleteCounted(s: Tables, gone: Id, k: Id)
    requires Counted(s, k) && gone != k
    ensures Counted(Delete(s, gone), k)
  {
    var s' := Delete(s, gone);
    WithoutKeySum(s.reservations, gone, k);
    WithoutKeyMembers(s.reservations, gone);
    forall i | IsOpenOn(s', k, i)
      ensures s'.reservations[i].source == KeyQuota && s'.reservations[i].hold == 1
    {
      assert s'.reservations[i] in s.reservations;
      var j :| 0 <= j < |s.reservations| && s.reservations[j] == s'.reservations[i];
      assert IsOpenOn(s, k, j);
    }
  }

  lemma WalletStepCounted(s: Tables, step: Step, now: int, k: Id)
    requires Sound(s) && Counted(s, k)
    requires step.AdminRecharge? || step.Webhook? || step.NewUser? || step.SetWallet?
    ensures Counted(Next(s, step, now), k)
  {
    WalletTables(s, step, now);
    CountedFrame(s, Next(s, step, now), k);
  }

  lemma KeyStepCounted(s: Tables, step: Step, now: int, k: Id)
    requires Counted(s, k) && KeepsRequestKey(step, k)
    requires step.NewKey? || step.Transfer? || step.SetOverflow? || step.RenewKey? || step.SwitchQuota?
    ensures Counted(Next(s, step, now), k)
  {
    CountedFrame(s, Next(s, step, now), k);
  }

  lemma BuyCounted(s: Tables, req: BuyRequest, newKey: Id, faults: Faults, now: int, k: Id)
    requires Counted(s, k)
    ensures Counted(Buy(s, req, newKey, faults, now).0, k)
  {
    CountedFrame(s, Buy(s, req, newKey, faults, now).0, k);
  }

  lemma StepCounted(s: Tables, step: Step, now: int, k: Id)
    requires Sound(s) && Counted(s, k) && Admissible(s, step) && KeepsRequestKey(step, k) && KnowsItsKey(s, step, k)
    ensures Counted(Next(s, step, now), k)
  {
    match step
    case Intercept(request, k0, estimate) =>
      if k0 in s.keys {
        HoldCounted(s, request, k0, s.keys[k0].owner, estimate, now, k);
      }
    case UsageEvent(rec, priced, pick) =>
      if PickOpen(s, rec.key, pick) {
        UsageCounted(s, rec, priced, pick, now, k);
      }
    case Complete(request, _) => ReleaseCounted(s, request, k);
    case Boot(maxAge) => ReleaseAllCounted(s, StaleIds(s.reservations, now - maxAge), k);
    case DeleteKey(k') => DeleteCounted(s, k', k);
    case BuyPackage(req, newKey, faults) => BuyCounted(s, req, newKey, faults, now, k);
    case _ =>
      if step.AdminRecharge? || step.Webhook? || step.NewUser? || step.SetWallet? {
        WalletStepCounted(s, step, now, k);
      } else {
        KeyStepCounted(s, step, now, k);
      }
  }

  ghost predicate RequestRun(s: Tables, events: seq<Event>, k: Id)
    decreases |events|
  {
    events == []
    || (Admissible(s, events[0].step) && KeepsRequestKey(events[0].step, k) && KnowsItsKey(s, events[0].step, k)
        && RequestRun(Next(s, events[0].step, events[0].now), events[1..], k))
  }

  /**
    Over every run, whatever else happens in the system: the quota used on the key is its open
    holds plus the number of client requests billed on it.
   */
  lemma {:induction false} RequestsCountedOnce(s: Tables, events: seq<Event>, k: Id)
    requires Sound(s) && Counted(s, k) && RequestRun(s, events, k)
    ensures Counted(RunAll(s, events), k)
    decreases |events|
  {
    if events != [] {
      StepCounted(s, events[0].step, events[0].now, k);
      StepTables(s, events[0].step, events[0].now);
      RequestsCountedOnce(Next(s, events[0].step, events[0].now), events[1..], k);
    }
  }

  /** A newly issued request key starts counted, if its identifier was never used. */
  lemma NewKeyCounted(s: Tables, k: Id, owner: Id, quota: nat, windowHours: nat, expiresAt: int, now: int)
    requires Sound(s) && k !in s.keys && owner in s.wallet.users
    requires forall i :: 0 <= i < |s.usage| ==> s.usage[i].key != k
    ensures Counted(Next(s, NewKey(k, owner, Request, Lifetime, quota, windowHours, expiresAt), now), k)
  {
    var s' := Next(s, NewKey(k, owner, Request, Lifetime, quota, windowHours, expiresAt), now);
    forall i | 0 <= i < |s'.reservations|
      ensures s'.reservations[i].key != k
    {
      assert RowSound(s, s.reservations[i]);
    }
    SumZero(s'.reservations, OpenOn(k));
    SumZero(s'.usage, AnonymousOn(k));
    assert BilledRequests(s'.usage, k) == {};
  }

  // ---- Quota spend ----

  /** Steps under which key k stays in its window: no reset, no switch, no deletion. */
  ghost predicate StaysInWindow(s: Tables, step: Step, now: int, k: Id)
    requires k in s.keys
  {
    match step
    case Intercept(request, k', _) => k' == k && request != "" ==> !PeriodDue(s.keys[k], now)
    case UsageEvent(rec, _, _) => rec.key == k && rec.tokens > 0 ==> !PeriodDue(s.keys[k], now)
    case DeleteKey(k') => k' != k
    case SwitchQuota(k', _, _, _, _) => k' != k
    case _ => true
  }

  /** The quota a step spends on key k for good. */
  ghost function StepSpend(s: Tables, step: Step, k: Id): int
    requires k in s.keys
  {
    if step.UsageEvent? && step.rec.key == k && step.rec.tokens > 0 && PickOpen(s, k, step.pick)
    then QuotaSpend(s, step.rec, step.priced, step.pick) else 0
  }

  /** The quota book of k went up by the amount, exactly if no refund can have been rejected. */
  ghost predicate BookMoved(s: Tables, s': Tables, k: Id, amount: int)
    requires k in s.keys
  {
    && k in s'.keys && QuotaBook(s', k) >= QuotaBook(s, k) + amount
    && (QuotaBook(s, k) >= 0 ==> QuotaBook(s', k) == QuotaBook(s, k) + amount)
  }

  lemma InterceptBook(s: Tables, request: Id, k0: Id, estimate: nat, now: int, k: Id)
    requires Sound(s) && k in s.keys && NewRequest(s, request)
    requires StaysInWindow(s, Intercept(request, k0, estimate), now, k)
    ensures BookMoved(s, Next(s, Intercept(request, k0, estimate), now), k, 0)
  {
    if k0 in s.keys && request != "" {
      var u := s.keys[k0].owner;
      HoldLaw(s, request, k0, u, estimate, now, k, u);
      DisplacedNothing(s, request, k, u);
    }
  }

  lemma UsageBook(s: Tables, rec: UsageRecord, priced: int, pick: Option<nat>, now: int, k: Id)
    requires Sound(s) && k in s.keys && PickOpen(s, rec.key, pick)
    requires StaysInWindow(s, UsageEvent(rec, priced, pick), now, k)
    ensures BookMoved(s, Charge(s, rec, priced, pick, now), k, StepSpend(s, UsageEvent(rec, priced, pick), k))
  {
    if rec.key in s.keys && rec.tokens > 0 {
      var e := EnsurePeriod(s, rec.key, now);
      EnsurePeriodSound(s, rec.key, now);
      ChargeLaw(e, rec, priced, pick, now, k, s.keys[k].owner);
      if rec.key == k {
        assert e == s by {
          assert e.keys == s.keys;
        }
        if QuotaBook(s, k) >= 0 && Settles(rec, pick) {
          NothingRejected(s, pick.value, k);
        }
      }
    }
  }

  lemma {:induction false} WithoutKeyQuota(rows: seq<Reservation>, gone: Id, k: Id)
    requires gone != k
    ensures Sum(WithoutKey(rows, gone), OpenQuotaOn(k)) == Sum(rows, OpenQuotaOn(k))
  {
    if rows != [] {
      WithoutKeyQuota(rows[..|rows| - 1], gone, k);
      SumAppend(WithoutKey(rows[..|rows| - 1], gone), rows[|rows| - 1], OpenQuotaOn(k));
    }
  }

  lemma WalletStepBook(s: Tables, step: Step, now: int, k: Id)
    requires Sound(s) && k in s.keys
    requires step.AdminRecharge? || step.Webhook? || step.NewUser? || step.SetWallet?
    ensures BookMoved(s, Next(s, step, now), k, 0)
  {
    WalletTables(s, step, now);
  }

  lemma KeyStepBook(s: Tables, step: Step, now: int, k: Id)
    requires k in s.keys && StaysInWindow(s, step, now, k)
    requires step.NewKey? || step.DeleteKey? || step.Transfer? || step.SetOverflow? || step.RenewKey?
             || step.SwitchQuota? || step.BuyPackage?
    ensures BookMoved(s, Next(s, step, now), k, 0)
  {
    if step.DeleteKey? {
      WithoutKeyQuota(s.reservations, step.key, k);
    }
  }

  lemma RequestStepBook(s: Tables, step: Step, now: int, k: Id)
    requires Sound(s) && Admissible(s, step) && k in s.keys && StaysInWindow(s, step, now, k) && RequestStep(step)
    ensures BookMoved(s, Next(s, step, now), k, StepSpend(s, step, k))
  {
    match step
    case Intercept(request, k0, estimate) => InterceptBook(s, request, k0, estimate, now, k);
    case UsageEvent(rec, priced, pick) =>
      if PickOpen(s, rec.key, pick) {
        UsageBook(s, rec, priced, pick, now, k);
      }
    case Complete(_, _) => ReleaseStepBook(s, step, now, k);
    case Boot(_) => ReleaseStepBook(s, step, now, k);
  }

  lemma ReleaseStepBook(s: Tables, step: Step, now: int, k: Id)
    requires Sound(s) && k in s.keys && (step.Complete? || step.Boot?)
    ensures BookMoved(s, Next(s, step, now), k, 0)
  {
    if step.Complete? {
      ReleaseLaw(s, step.request, k, s.keys[k].owner);
    } else {
      ReleaseAllLaw(s, StaleIds(s.reservations, now - step.maxAge), k, s.keys[k].owner);
    }
  }

  /** One step of the quota law, for every step of the system. */
  lemma StepBook(s: Tables, step: Step, now: int, k: Id)
    requires Sound(s) && Admissible(s, step) && k in s.keys && StaysInWindow(s, step, now, k)
    ensures BookMoved(s, Next(s, step, now), k, StepSpend(s, step, k))
  {
    if RequestStep(step) {
      RequestStepBook(s, step, now, k);
    } else if step.AdminRecharge? || step.Webhook? || step.NewUser? || step.SetWallet? {
      WalletStepBook(s, step, now, k);
    } else {
      KeyStepBook(s, step, now, k);
    }
  }

  ghost predicate WindowRun(s: Tables, events: seq<Event>, k: Id)
    decreases |events|
  {
    k in s.keys
    && (events == []
        || (Admissible(s, events[0].step) && StaysInWindow(s, events[0].step, events[0].now, k)
            && WindowRun(Next(s, events[0].step, events[0].now), events[1..], k)))
  }

  ghost function RunSpend(s: Tables, events: seq<Event>, k: Id): int
    requires WindowRun(s, events, k)
    decreases |events|
  {
    if events == [] then 0
    else StepSpend(s, events[0].step, k) + RunSpend(Next(s, events[0].step, events[0].now), events[1..], k)
  }

  /**
    Exact quota accounting over every run: what is used is the open holds plus what the usage
    records spent, whichever open reservations Settle picked. So no refund is rejected.
   */
  lemma {:induction false} UsedIsHeldPlusSpent(s: Tables, events: seq<Event>, k: Id)
    requires Sound(s) && WindowRun(s, events, k)
    ensures var s' := RunAll(s, events);
            BookMoved(s, s', k, RunSpend(s, events, k))
    decreases |events|
  {
    if events != [] {
      StepBook(s, events[0].step, events[0].now, k);
      StepTables(s, events[0].step, events[0].now);
      StepSpendNonNegative(s, events[0].step, k);
      UsedIsHeldPlusSpent(Next(s, events[0].step, events[0].now), events[1..], k);
    }
  }

  lemma StepSpendNonNegative(s: Tables, step: Step, k: Id)
    requires Sound(s) && k in s.keys
    ensures StepSpend(s, step, k) >= 0
  {
    if step.UsageEvent? && step.rec.key == k && step.rec.tokens > 0 && PickOpen(s, k, step.pick) {
      ActualPositive(s, step.rec, step.priced);
      if step.pick.Some? {
        assert RowSound(s, s.reservations[step.pick.value]);
      }
    }
  }

  /**
    What a record asks of its key: micro-credit, tokens, or one unit for a client request that was
    not billed yet.
   */
  function Units(s: Tables, rec: UsageRecord, priced: int): int
    requires rec.key in s.keys
  {
    match s.keys[rec.key].kind
    case Credit => if priced > 0 then priced else rec.tokens
    case Token => rec.tokens
    case Request => if rec.request in BilledRequests(s.usage, rec.key) then 0 else 1
    case Unlimited => 0
  }

  /** On a key whose holds are all its own quota: the units if the key can pay them, else the hold. */
  lemma SpendIsUnitsOrHold(s: Tables, rec: UsageRecord, priced: int, pick: Option<nat>)
    requires Sound(s) && rec.key in s.keys && rec.tokens > 0 && PickOpen(s, rec.key, pick)
    requires !WalletFunded(s.reservations, rec.request)
    requires Settles(rec, pick) ==> s.reservations[pick.value].source == KeyQuota
    ensures var key := s.keys[rec.key];
            var units := Units(s, rec, priced);
            var hold := if Settles(rec, pick) then s.reservations[pick.value].hold else 0;
            QuotaSpend(s, rec, priced, pick)
            == if units <= hold || units - hold <= key.amount - key.used then units else hold
  {
    ActualPositive(s, rec, priced);
    if Settles(rec, pick) {
      assert RowSound(s, s.reservations[pick.value]);
    }
  }
}
