/**
  What each step of the system may write to the ledger, and what follows over whole runs: debits
  and orders stay in step unless a purchase fails after its debit, and available credit moves by
  recharges, rewards and purchases and falls by usage.
 */
module Conservation {
  import opened Sums
  import opened Wallets
  import opened Billing
  import opened Accounting
  import opened Charging
  import opened Referral
  import opened Purchase
  import opened Protocol
  import opened Safety
  import opened Credit

  // ---- Ledger rows by step ----

  /** References of the request protocol. */
  predicate RequestRef(ref: Ref)
  {
    ref.HoldOf? || ref.SettleOf? || ref.ReleaseOf? || ref.UsageAt?
  }

  /** The ledger rows a step may write: reference, reason, channel and direction. */
  predicate Writes(step: Step, now: int, row: LedgerRow)
  {
    match step
    case Intercept(request, _, _) =>
      row.ref == HoldOf(request) && row.reason == Held && row.channel == "system" && row.delta <= 0
    case UsageEvent(_, _, _) =>
      && row.channel == "system"
      && ((row.ref.SettleOf? && row.reason == Refund && row.delta > 0)
          || (row.ref == UsageAt(now) && row.reason == Usage && row.delta < 0))
    case Complete(request, _) =>
      row.ref == ReleaseOf(request) && row.reason == Refund && row.channel == "system" && row.delta > 0
    case Boot(_) => row.ref.ReleaseOf? && row.reason == Refund && row.channel == "system" && row.delta > 0
    case AdminRecharge(u, amount, reason, text, channel, _) =>
      || (row.user == u && row.delta == amount && row.reason == reason && row.channel == channel
          && row.ref == Stored(Given(text)))
      || IsReward(row, Given(text))
    case Webhook(u, amount, tx) =>
      && row.user == u && row.delta == amount > 0 && row.reason == Recharge && row.channel == "telegram"
      && row.ref == Stored(Given(tx))
    case BuyPackage(req, _, _) =>
      && req.package.Some? && row.user == req.user && row.delta == -(req.package.value.price as int)
      && row.reason == Reason.Purchase && row.channel == "portal"
      && row.ref == OrderAt(req.package.value.id, now)
    case _ => false
  }

  /** The credit of a referral reward. */
  predicate IsReward(row: LedgerRow, recharge: Ref)
  {
    row.ref == BonusFor(recharge) && row.reason == ReferralBonus && row.channel == "system" && row.delta > 0
  }

  ghost predicate Appends(step: Step, now: int, ledger: seq<LedgerRow>, ledger': seq<LedgerRow>)
  {
    ledger <= ledger' && forall i :: |ledger| <= i < |ledger'| ==> Writes(step, now, ledger'[i])
  }

  lemma AppendsTrans(step: Step, now: int, l: seq<LedgerRow>, l1: seq<LedgerRow>, l2: seq<LedgerRow>)
    requires Appends(step, now, l, l1) && Appends(step, now, l1, l2)
    ensures Appends(step, now, l, l2)
  {
  }

  lemma ReleaseAppends(step: Step, now: int, s: Tables, request: Id)
    requires step == Complete(request, false) || step.Boot?
    ensures Appends(step, now, s.wallet.ledger, Release(s, request).wallet.ledger)
  {
  }

  lemma {:induction false} ReleaseAllAppends(step: Step, now: int, s: Tables, ids: seq<Id>)
    requires step.Boot?
    ensures Appends(step, now, s.wallet.ledger, ReleaseAll(s, ids).wallet.ledger)
  {
    if ids != [] {
      var front := ReleaseAll(s, ids[..|ids| - 1]);
      ReleaseAllAppends(step, now, s, ids[..|ids| - 1]);
      ReleaseAppends(step, now, front, ids[|ids| - 1]);
      AppendsTrans(step, now, s.wallet.ledger, front.wallet.ledger, ReleaseAll(s, ids).wallet.ledger);
    }
  }

  lemma ChargeAppends(step: Step, s: Tables, rec: UsageRecord, priced: int, pick: Option<nat>, now: int)
    requires step.UsageEvent? && rec.tokens > 0 && rec.key in s.keys && PickOpen(s, rec.key, pick)
    ensures Appends(step, now, s.wallet.ledger, ChargeCurrent(s, rec, priced, pick, now).wallet.ledger)
  {
    var key := s.keys[rec.key];
    var cost := Cost(rec, priced);
    if Settles(rec, pick) {
      var row := s.reservations[pick.value];
      var actual := Actual(s, rec, priced);
      var mid := SettleAt(s, pick.value, actual);
      assert Appends(step, now, s.wallet.ledger, mid.wallet.ledger);
      PayAppendsRows(step, mid, key, rec, Max(0, actual - row.hold), cost, now);
      AppendsTrans(step, now, s.wallet.ledger, mid.wallet.ledger,
                   ChargeCurrent(s, rec, priced, pick, now).wallet.ledger);
    } else {
      PayAppendsRows(step, s, key, rec, UnitSpend(s, rec, priced), cost, now);
    }
  }

  lemma PayAppendsRows(step: Step, s: Tables, key: Key, rec: UsageRecord, extra: int, cost: int, now: int)
    requires step.UsageEvent? && cost > 0
    ensures Appends(step, now, s.wallet.ledger, Pay(s, key, rec, extra, cost, now).wallet.ledger)
    ensures Appends(step, now, s.wallet.ledger, PayFromWallet(s, key, rec, extra, cost, now).wallet.ledger)
  {
  }

  lemma {:induction false} PercentWalkAppends(step: Step, now: int, s: Tables, from: Id, upline: Id, seen: set<Id>,
                                              tiers: seq<int>, tier: int, amount: int, ref: Ref)
    requires step.AdminRecharge? && ref == Given(step.text)
    ensures Appends(step, now, s.wallet.ledger,
                    PercentWalk(s, from, upline, seen, tiers, tier, amount, ref).wallet.ledger)
    decreases |tiers|
  {
    if tiers != [] && upline != "" && upline !in seen {
      var row := Earning(upline, from, tier, Percent, amount, amount * tiers[0] / 100);
      var s' := if tiers[0] > 0 && row.reward > 0 then Grant(s, row, ref) else s;
      assert Appends(step, now, s.wallet.ledger, s'.wallet.ledger);
      PercentWalkAppends(step, now, s', from, ParentOf(s'.wallet.users, upline), seen + {upline}, tiers[1..], tier + 1,
                         amount, ref);
      AppendsTrans(step, now, s.wallet.ledger, s'.wallet.ledger,
                   PercentWalk(s, from, upline, seen, tiers, tier, amount, ref).wallet.ledger);
    }
  }

  lemma RechargeAppends(s: Tables, step: Step, now: int)
    requires step.AdminRecharge?
    ensures Appends(step, now, s.wallet.ledger, Next(s, step, now).wallet.ledger)
  {
    var ref := Given(step.text);
    var r := Adjust(s.wallet, step.user, step.amount, step.reason, ref, step.channel);
    if r.Adjusted? {
      var s1 := s.(wallet := r.wallet);
      assert Appends(step, now, s.wallet.ledger, s1.wallet.ledger);
      if step.cfg.mode.PercentMode? {
        PercentWalkAppends(step, now, s1, step.user, ParentOf(s1.wallet.users, step.user), {step.user},
                           step.cfg.tiers, 1, step.amount, ref);
      }
      assert Appends(step, now, s1.wallet.ledger, OnRecharge(s1, step.user, step.amount, ref, step.cfg).wallet.ledger);
    }
  }

  lemma InterceptAppends(s: Tables, step: Step, now: int)
    requires step.Intercept?
    ensures Appends(step, now, s.wallet.ledger, Next(s, step, now).wallet.ledger)
  {
  }

  lemma BuyAppends(s: Tables, step: Step, now: int)
    requires step.BuyPackage?
    ensures Appends(step, now, s.wallet.ledger, Next(s, step, now).wallet.ledger)
  {
  }

  /** Every step appends ledger rows of its own kind only, and changes none. */
  lemma StepWrites(s: Tables, step: Step, now: int)
    ensures Appends(step, now, s.wallet.ledger, Next(s, step, now).wallet.ledger)
  {
    match step
    case UsageEvent(rec, priced, pick) =>
      if rec.key in s.keys && rec.tokens > 0 && PickOpen(s, rec.key, pick) {
        ChargeAppends(step, EnsurePeriod(s, rec.key, now), rec, priced, pick, now);
      }
    case Complete(request, _) => ReleaseAppends(Complete(request, false), now, s, request);
    case Boot(maxAge) => ReleaseAllAppends(step, now, s, StaleIds(s.reservations, now - maxAge));
    case AdminRecharge(_, _, _, _, _, _) => RechargeAppends(s, step, now);
    case Intercept(_, _, _) => InterceptAppends(s, step, now);
    case BuyPackage(_, _, _) => BuyAppends(s, step, now);
    case _ =>
  }

  // ---- Debits and orders ----

  lemma {:induction false} NoPurchaseRows(step: Step, now: int, ledger: seq<LedgerRow>, ledger': seq<LedgerRow>, u: Id)
    requires Appends(step, now, ledger, ledger') && !step.BuyPackage?
    ensures Sum(ledger', PurchaseDebitOf(u)) == Sum(ledger, PurchaseDebitOf(u))
    decreases |ledger'|
  {
    if |ledger'| == |ledger| {
      assert ledger' == ledger;
    } else {
      assert Writes(step, now, ledger'[|ledger'| - 1]);
      NoPurchaseRows(step, now, ledger, ledger'[..|ledger'| - 1], u);
    }
  }

  /** What a step debits from u for a purchase that leaves no order. */
  function StepLost(s: Tables, step: Step, u: Id): nat
  {
    if step.BuyPackage? then Lost(s, step.req, step.newKey, step.faults, u) else 0
  }

  lemma StepOrders(s: Tables, step: Step, now: int, u: Id)
    requires Sound(s)
    ensures Unordered(Next(s, step, now), u) == Unordered(s, u) + StepLost(s, step, u)
  {
    if step.BuyPackage? {
      BuyConserves(s, step.req, step.newKey, step.faults, now, u);
    } else {
      StepWrites(s, step, now);
      NoPurchaseRows(step, now, s.wallet.ledger, Next(s, step, now).wallet.ledger, u);
      OrdersStay(s, step, now);
    }
  }

  lemma OrdersStay(s: Tables, step: Step, now: int)
    requires Sound(s) && !step.BuyPackage?
    ensures Next(s, step, now).orders == s.orders
  {
    if Hook(step) {
      HookPlain(s, step, now);
    } else if step.AdminRecharge? {
      var r := Adjust(s.wallet, step.user, step.amount, step.reason, Given(step.text), step.channel);
      if r.Adjusted? {
        OnRechargeElsewhere(s.(wallet := r.wallet), step.user, step.amount, Given(step.text), step.cfg);
      }
    }
  }

  function RunLost(s: Tables, events: seq<Event>, u: Id): nat
    decreases |events|
  {
    if events == [] then 0
    else StepLost(s, events[0].step, u) + RunLost(Next(s, events[0].step, events[0].now), events[1..], u)
  }

  /** Over every run, purchases debit what they leave orders for, and what failed after its debit. */
  lemma {:induction false} DebitsAreOrdersPlusLost(s: Tables, events: seq<Event>, u: Id)
    requires Sound(s) && AllAdmissible(s, events)
    ensures Unordered(RunAll(s, events), u) == Unordered(s, u) + RunLost(s, events, u)
    decreases |events|
  {
    if events != [] {
      StepOrders(s, events[0].step, events[0].now, u);
      StepTables(s, events[0].step, events[0].now);
      DebitsAreOrdersPlusLost(Next(s, events[0].step, events[0].now), events[1..], u);
    }
  }

  /** Whether no purchase of u in the run fails after debiting a price. */
  predicate NoneMisfires(s: Tables, events: seq<Event>, u: Id)
    decreases |events|
  {
    events == []
    || (var step := events[0].step;
        && (step.BuyPackage? && step.req.user == u && Debited(s, step.req) && step.req.package.value.price > 0 ==>
              !Misfires(s, step.req, step.newKey, step.faults))
        && NoneMisfires(Next(s, step, events[0].now), events[1..], u))
  }

  lemma {:induction false} NothingLostIff(s: Tables, events: seq<Event>, u: Id)
    ensures RunLost(s, events, u) == 0 <==> NoneMisfires(s, events, u)
    decreases |events|
  {
    if events != [] {
      NothingLostIff(Next(s, events[0].step, events[0].now), events[1..], u);
    }
  }

  /**
    Over every run from the empty database, what purchases debited from a user equals the orders
    he has if and only if none of his purchases failed after debiting a price.
   */
  lemma OrdersMatchDebitsIff(events: seq<Event>, u: Id)
    requires AllAdmissible(EMPTY_TABLES, events)
    ensures var s' := RunAll(EMPTY_TABLES, events);
            Sum(s'.wallet.ledger, PurchaseDebitOf(u)) == Sum(s'.orders, PaidBy(u))
            <==> NoneMisfires(EMPTY_TABLES, events, u)
  {
    EmptyIsSafe();
    DebitsAreOrdersPlusLost(EMPTY_TABLES, events, u);
    NothingLostIff(EMPTY_TABLES, events, u);
    assert Sum(EMPTY_TABLES.wallet.ledger, PurchaseDebitOf(u)) == 0 && Sum(EMPTY_TABLES.orders, PaidBy(u)) == 0;
  }

  // ---- Available credit over whole-system runs ----

  /** A movement of the wallet of u outside the request protocol: recharge, reward, purchase, adjustment. */
  function IncomeOf(u: Id): LedgerRow -> int
  {
    (row: LedgerRow) => if row.user == u && !RequestRef(row.ref) then row.delta else 0
  }

  /** Request steps write no income, and the other steps nothing else. */
  lemma {:induction false} IncomeRows(step: Step, now: int, ledger: seq<LedgerRow>, ledger': seq<LedgerRow>, u: Id)
    requires Appends(step, now, ledger, ledger')
    ensures Sum(ledger', IncomeOf(u)) - Sum(ledger, IncomeOf(u))
            == if RequestStep(step) then 0 else Sum(ledger', DeltaOf(u)) - Sum(ledger, DeltaOf(u))
    decreases |ledger'|
  {
    if |ledger'| == |ledger| {
      assert ledger' == ledger;
    } else {
      assert Writes(step, now, ledger'[|ledger'| - 1]);
      IncomeRows(step, now, ledger, ledger'[..|ledger'| - 1], u);
    }
  }

  function Income(s: Tables, u: Id): int
  {
    Sum(s.wallet.ledger, IncomeOf(u))
  }

  /** The credit a step costs u for good: usage, and holds that go with a deleted key. */
  function StepDrain(s: Tables, step: Step, now: int, u: Id): int
  {
    if step.DeleteKey? then (if HasOrder(s, step.key) then 0 else Sum(s.reservations, CreditOn(step.key, u)))
    else StepCost(s, step, now, u)
  }

  lemma StepCredit(s: Tables, step: Step, now: int, u: Id)
    requires Sound(s) && Books(s) && Admissible(s, step) && u in s.wallet.users
    ensures var s' := Next(s, step, now);
            && u in s'.wallet.users
            && Available(s', u) == Available(s, u) - StepDrain(s, step, now, u) + Income(s', u) - Income(s, u)
  {
    var s' := Next(s, step, now);
    StepWrites(s, step, now);
    IncomeRows(step, now, s.wallet.ledger, s'.wallet.ledger, u);
    if RequestStep(step) {
      StepAvailable(s, step, now, u);
    } else if step.DeleteKey? {
      DeleteCredit(s, step.key, u);
    } else {
      OtherCredit(s, step, now, u);
    }
  }

  lemma DeleteCredit(s: Tables, k: Id, u: Id)
    requires u in s.wallet.users
    ensures Available(Delete(s, k), u)
            == Available(s, u) - (if HasOrder(s, k) then 0 else Sum(s.reservations, CreditOn(k, u)))
  {
    WithoutKeyCredit(s.reservations, k, u);
  }

  /** Outside requests and deletions, available credit moves as the ledger does. */
  lemma OtherCredit(s: Tables, step: Step, now: int, u: Id)
    requires Sound(s) && Books(s) && Admissible(s, step) && u in s.wallet.users
    requires !RequestStep(step) && !step.DeleteKey?
    ensures var s' := Next(s, step, now);
            && u in s'.wallet.users
            && Available(s', u) - Available(s, u)
               == Sum(s'.wallet.ledger, DeltaOf(u)) - Sum(s.wallet.ledger, DeltaOf(u))
  {
    StepBooks(s, step, now);
    OtherRows(s, step, now, u);
  }

  lemma OtherRows(s: Tables, step: Step, now: int, u: Id)
    requires Sound(s) && !RequestStep(step) && !step.DeleteKey? && u in s.wallet.users
    ensures var s' := Next(s, step, now); s'.reservations == s.reservations && u in s'.wallet.users
  {
    if step.AdminRecharge? {
      var r := Adjust(s.wallet, step.user, step.amount, step.reason, Given(step.text), step.channel);
      if r.Adjusted? {
        OnRechargeElsewhere(s.(wallet := r.wallet), step.user, step.amount, Given(step.text), step.cfg);
      }
    }
  }

  function RunDrain(s: Tables, events: seq<Event>, u: Id): int
    decreases |events|
  {
    if events == [] then 0
    else
      StepDrain(s, events[0].step, events[0].now, u)
      + RunDrain(Next(s, events[0].step, events[0].now), events[1..], u)
  }

  /**
    Conservation of credit over every run of the whole system: what a user has available grows by
    the recharges, rewards, purchases and adjustments in his ledger, and falls by what usage
    records cost and by holds lost with a deleted key.
   */
  lemma {:induction false} CreditConserved(s: Tables, events: seq<Event>, u: Id)
    requires Sound(s) && Books(s) && AllAdmissible(s, events) && u in s.wallet.users
    ensures var s' := RunAll(s, events);
            && u in s'.wallet.users
            && Available(s', u) == Available(s, u) - RunDrain(s, events, u) + Income(s', u) - Income(s, u)
    decreases |events|
  {
    if events != [] {
      StepCredit(s, events[0].step, events[0].now, u);
      StepTables(s, events[0].step, events[0].now);
      StepBooks(s, events[0].step, events[0].now);
      CreditConserved(Next(s, events[0].step, events[0].now), events[1..], u);
    }
  }
}
