/** What every step of the system keeps, and therefore every run. */
module Safety {
  import opened Sums
  import opened Wallets
  import opened Billing
  import opened Accounting
  import opened Charging
  import opened Referral
  import opened Purchase
  import opened Protocol

  /**
    The ledger explains every balance, no telegram transaction counts twice, the referral graph
    has no cycle, every reward is booked once, and orders are paid for.
   */
  ghost predicate Books(s: Tables)
  {
    && Balanced(s.wallet) && OncePerTransaction(s.wallet.ledger)
    && Acyclic(s.wallet.users)
    && RewardsBooked(s) && FixedOnce(s.earnings)
    && OrdersPaid(s)
  }

  // ---- The tables ----

  lemma ChargeTables(s: Tables, rec: UsageRecord, priced: int, pick: Option<nat>, now: int)
    requires Sound(s) && PickOpen(s, rec.key, pick)
    ensures var s' := Charge(s, rec, priced, pick, now);
            && Sound(s') && KeyTermsKept(s, s')
            && (Funded(s) ==> Funded(s'))
            && (WithinQuota(s) ==> WithinQuota(s'))
  {
    if rec.key in s.keys {
      if rec.tokens == 0 {
        UsageOnly(s, RecordUsage(s, s.keys[rec.key], rec, 0, None, false));
      } else {
        var e := EnsurePeriod(s, rec.key, now);
        EnsurePeriodSound(s, rec.key, now);
        ChargeSound(e, rec, priced, pick, now);
      }
    }
  }

  lemma UsageOnly(s: Tables, s': Tables)
    requires Sound(s) && s' == s.(usage := s'.usage)
    ensures Sound(s') && (Funded(s) ==> Funded(s')) && (WithinQuota(s) ==> WithinQuota(s'))
  {
    SameKeysSound(s, s');
  }

  /** Steps that leave keys and reservations alone. */
  lemma SameKeysSound(s: Tables, s': Tables)
    requires Sound(s) && s'.keys == s.keys && s'.reservations == s.reservations
    requires s.wallet.users.Keys <= s'.wallet.users.Keys
    ensures Sound(s') && (Funded(s) ==> Funded(s')) && (WithinQuota(s) ==> WithinQuota(s'))
  {
    forall i | 0 <= i < |s'.reservations|
      ensures RowSound(s', s'.reservations[i])
    {
      assert RowSound(s, s.reservations[i]);
    }
  }

  /** Writing one key's row, without changing its owner under an open reservation. */
  lemma SetKeySound(s: Tables, s': Tables, k: Id, key: Key)
    requires Sound(s) && s'.keys == s.keys[k := key] && s'.reservations == s.reservations
    requires s.wallet.users.Keys <= s'.wallet.users.Keys
    requires key.owner in s'.wallet.users && key.used >= 0 && key.amount >= 0
    requires k in s.keys && key.owner != s.keys[k].owner ==> !HasOpen(s, k)
    ensures Sound(s') && (Funded(s) ==> Funded(s'))
    ensures WithinQuota(s) && key.used <= key.amount ==> WithinQuota(s')
  {
    forall i | 0 <= i < |s'.reservations|
      ensures RowSound(s', s'.reservations[i])
    {
      assert RowSound(s, s.reservations[i]);
    }
    if Funded(s) {
      forall i | 0 <= i < |s'.reservations| && s'.reservations[i].status == Open
        ensures s'.reservations[i].key in s'.keys && s'.keys[s'.reservations[i].key].owner == s'.reservations[i].user
      {
        assert RowSound(s, s.reservations[i]);
        assert s.reservations[i].key == k ==> IsOpenOn(s, k, i);
      }
    }
  }

  lemma {:induction false} WithoutKeyMembers(rows: seq<Reservation>, k: Id)
    ensures forall r :: r in WithoutKey(rows, k) <==> r in rows && r.key != k
    ensures UniqueIds(rows) ==> UniqueIds(WithoutKey(rows, k))
  {
    if rows != [] {
      var front := rows[..|rows| - 1];
      WithoutKeyMembers(front, k);
      assert rows == front + [rows[|rows| - 1]];
      if UniqueIds(rows) {
        assert UniqueIds(front);
        forall r | r in WithoutKey(front, k)
          ensures r.id != rows[|rows| - 1].id
        {
          assert r in front;
        }
      }
    }
  }

  /** Deleting a key takes its reservations along. */
  lemma DeleteSound(s: Tables, k: Id)
    requires Sound(s)
    ensures Sound(Delete(s, k)) && (Funded(s) ==> Funded(Delete(s, k)))
    ensures WithinQuota(s) ==> WithinQuota(Delete(s, k))
  {
    var s' := Delete(s, k);
    WithoutKeyMembers(s.reservations, k);
    forall i | 0 <= i < |s'.reservations|
      ensures s'.reservations[i] in s.reservations && RowSound(s', s'.reservations[i])
    {
      assert s'.reservations[i] in s'.reservations;
      var j :| 0 <= j < |s.reservations| && s.reservations[j] == s'.reservations[i];
      assert RowSound(s, s.reservations[j]);
    }
  }

  /** An admin renewal may lower a quota; it must not lower it below what is used. */
  predicate Covers(s: Tables, step: Step)
  {
    step.RenewKey? && step.key in s.keys && s.keys[step.key].amount + step.add >= 0
    ==> s.keys[step.key].used <= s.keys[step.key].amount + step.add
  }

  lemma InterceptTables(s: Tables, request: Id, k: Id, estimate: nat, now: int)
    requires Sound(s)
    ensures var s' := Next(s, Intercept(request, k, estimate), now);
            && Sound(s') && KeyTermsKept(s, s')
            && (Funded(s) ==> Funded(s')) && (WithinQuota(s) ==> WithinQuota(s'))
  {
    if k in s.keys {
      HoldSound(s, request, k, s.keys[k].owner, estimate, now);
    }
  }

  lemma WalletTables(s: Tables, step: Step, now: int)
    requires Sound(s) && (step.AdminRecharge? || step.Webhook? || step.NewUser? || step.SetWallet?)
    ensures var s' := Next(s, step, now);
            && Sound(s') && s'.keys == s.keys && s'.reservations == s.reservations && s'.usage == s.usage
            && (Funded(s) ==> Funded(s')) && (WithinQuota(s) ==> WithinQuota(s'))
  {
    if step.AdminRecharge? {
      var r := Adjust(s.wallet, step.user, step.amount, step.reason, Given(step.text), step.channel);
      if r.Adjusted? {
        OnRechargeElsewhere(s.(wallet := r.wallet), step.user, step.amount, Given(step.text), step.cfg);
      }
    }
    SameKeysSound(s, Next(s, step, now));
  }

  lemma GrantElsewhere(s: Tables, row: Earning, ref: Ref)
    ensures var s' := Grant(s, row, ref);
            && s'.keys == s.keys && s'.reservations == s.reservations && s'.orders == s.orders && s'.usage == s.usage
            && SameParents(s.wallet.users, s'.wallet.users)
  {
  }

  lemma {:induction false} PercentWalkElsewhere(s: Tables, from: Id, upline: Id, seen: set<Id>, tiers: seq<int>,
                                                tier: int, amount: int, ref: Ref)
    ensures var s' := PercentWalk(s, from, upline, seen, tiers, tier, amount, ref);
            && s'.keys == s.keys && s'.reservations == s.reservations && s'.orders == s.orders && s'.usage == s.usage
            && SameParents(s.wallet.users, s'.wallet.users)
    decreases |tiers|
  {
    if tiers != [] && upline != "" && upline !in seen {
      var row := Earning(upline, from, tier, Percent, amount, amount * tiers[0] / 100);
      var s' := if tiers[0] > 0 && row.reward > 0 then Grant(s, row, ref) else s;
      GrantElsewhere(s, row, ref);
      PercentWalkElsewhere(s', from, ParentOf(s'.wallet.users, upline), seen + {upline}, tiers[1..], tier + 1, amount,
                           ref);
    }
  }

  lemma OnRechargeElsewhere(s: Tables, u: Id, amount: int, ref: Ref, cfg: ReferralConfig)
    ensures var s' := OnRecharge(s, u, amount, ref, cfg);
            && s'.keys == s.keys && s'.reservations == s.reservations && s'.orders == s.orders && s'.usage == s.usage
            && SameParents(s.wallet.users, s'.wallet.users)
  {
    if cfg.mode.PercentMode? {
      PercentWalkElsewhere(s, u, ParentOf(s.wallet.users, u), {u}, cfg.tiers, 1, amount, ref);
    } else {
      GrantElsewhere(s, Earning(ParentOf(s.wallet.users, u), u, 1, Fixed, 0, cfg.fixed), ref);
    }
  }

  lemma KeyTables(s: Tables, step: Step, now: int)
    requires Sound(s)
    requires step.NewKey? || step.DeleteKey? || step.Transfer? || step.SetOverflow? || step.RenewKey?
             || step.SwitchQuota?
    ensures var s' := Next(s, step, now);
            && Sound(s') && s'.wallet == s.wallet && s'.earnings == s.earnings && s'.orders == s.orders
            && (Funded(s) ==> Funded(s')) && (WithinQuota(s) && Covers(s, step) ==> WithinQuota(s'))
  {
    var s' := Next(s, step, now);
    if step.DeleteKey? {
      DeleteSound(s, step.key);
    } else if s' != s {
      SetKeySound(s, s', step.key, s'.keys[step.key]);
    }
  }

  lemma BuyTables(s: Tables, req: BuyRequest, newKey: Id, faults: Faults, now: int)
    requires Sound(s)
    ensures var s' := Buy(s, req, newKey, faults, now).0;
            Sound(s') && (Funded(s) ==> Funded(s')) && (WithinQuota(s) ==> WithinQuota(s'))
  {
    var s' := Buy(s, req, newKey, faults, now).0;
    if s'.keys == s.keys {
      SameKeysSound(s, s');
    } else {
      var k := if req.kind == RENEW then req.renewKey else newKey;
      SetKeySound(s, s', k, s'.keys[k]);
    }
  }

  lemma UsageTables(s: Tables, rec: UsageRecord, priced: int, pick: Option<nat>, now: int)
    requires Sound(s)
    ensures var s' := Next(s, UsageEvent(rec, priced, pick), now);
            Sound(s') && (Funded(s) ==> Funded(s')) && (WithinQuota(s) ==> WithinQuota(s'))
  {
    if PickOpen(s, rec.key, pick) {
      ChargeTables(s, rec, priced, pick, now);
    }
  }

  lemma ReleaseTables(s: Tables, step: Step, now: int)
    requires Sound(s) && (step.Complete? || step.Boot?)
    ensures var s' := Next(s, step, now);
            Sound(s') && (Funded(s) ==> Funded(s')) && (WithinQuota(s) ==> WithinQuota(s'))
  {
    if step.Complete? {
      ReleaseSound(s, step.request);
    } else {
      ReleaseAllSound(s, StaleIds(s.reservations, now - step.maxAge));
    }
  }

  /** Every step keeps the schema, the funding of open holds and, with Covers, the quota bound. */
  lemma StepTables(s: Tables, step: Step, now: int)
    requires Sound(s) && Admissible(s, step)
    ensures var s' := Next(s, step, now);
            && Sound(s') && (Funded(s) ==> Funded(s')) && (WithinQuota(s) && Covers(s, step) ==> WithinQuota(s'))
  {
    if step.Intercept? {
      InterceptTables(s, step.request, step.key, step.estimate, now);
    } else if step.UsageEvent? {
      UsageTables(s, step.rec, step.priced, step.pick, now);
    } else if step.Complete? || step.Boot? {
      ReleaseTables(s, step, now);
    } else if step.AdminRecharge? || step.Webhook? || step.NewUser? || step.SetWallet? {
      WalletTables(s, step, now);
    } else if step.BuyPackage? {
      BuyTables(s, step.req, step.newKey, step.faults, now);
    } else {
      KeyTables(s, step, now);
    }
  }

  // ---- The quota bound ----

  /** A renewal keeps every key within its quota exactly when it covers what is used. */
  lemma RenewalWithinQuotaIff(s: Tables, k: Id, add: int, extendDays: int, setExpires: int, now: int)
    requires Sound(s) && WithinQuota(s)
    ensures WithinQuota(Next(s, RenewKey(k, add, extendDays, setExpires), now))
            <==> Covers(s, RenewKey(k, add, extendDays, setExpires))
  {
    var s' := Next(s, RenewKey(k, add, extendDays, setExpires), now);
    if Covers(s, RenewKey(k, add, extendDays, setExpires)) {
      KeyTables(s, RenewKey(k, add, extendDays, setExpires), now);
    } else {
      assert k in s'.keys && s'.keys[k].used > s'.keys[k].amount;
    }
  }

  ghost predicate AllCover(s: Tables, events: seq<Event>)
    decreases |events|
  {
    events == []
    || (Covers(s, events[0].step) && AllCover(Next(s, events[0].step, events[0].now), events[1..]))
  }

  /**
    No key ever uses more than its quota, over every run: holds, settlements, extras, releases,
    period resets, switches, purchases and renewals that cover what is used.
   */
  lemma {:induction false} QuotaNeverExceeded(s: Tables, events: seq<Event>)
    requires Sound(s) && WithinQuota(s) && AllAdmissible(s, events) && AllCover(s, events)
    ensures Sound(RunAll(s, events)) && WithinQuota(RunAll(s, events))
    decreases |events|
  {
    if events != [] {
      StepTables(s, events[0].step, events[0].now);
      QuotaNeverExceeded(Next(s, events[0].step, events[0].now), events[1..]);
    }
  }

  // ---- The books ----

  lemma HookBooks(s: Tables, step: Step, now: int)
    requires Books(s) && Hook(step)
    ensures Books(Next(s, step, now))
  {
    var s' := Next(s, step, now);
    HookPlain(s, step, now);
    PlainBooks(s, s');
  }

  lemma PlainBooks(s: Tables, s': Tables)
    requires Books(s) && PlainReach(s.wallet, s'.wallet) && s'.earnings == s.earnings && s'.orders == s.orders
    ensures Books(s')
  {
    var ops :| Plain(ops) && s'.wallet == Run(s.wallet, ops);
    LedgerAgrees(s.wallet, ops);
    PlainKeeps(s.wallet, ops, "");
    SameParentsAcyclic(s.wallet.users, s'.wallet.users);
    forall u: Id
      ensures Sum(s'.wallet.ledger, BonusOf(u)) == Sum(s'.earnings, RewardOf(u))
      ensures Unordered(s', u) >= 0
    {
      PlainKeeps(s.wallet, ops, u);
      assert Sum(s.wallet.ledger, BonusOf(u)) == Sum(s.earnings, RewardOf(u));
      assert PaidBy(u) == PaidBy(u) && Unordered(s, u) >= 0;
    }
  }

  lemma GrantBooks(s: Tables, row: Earning, ref: Ref)
    requires Books(s) && row.reward > 0
    ensures Books(Grant(s, row, ref))
  {
    var s' := Grant(s, row, ref);
    if s' != s {
      GrantBooked(s, row, ref);
      MoveBalanced(s.wallet, row.user, row.reward, ReferralBonus, BonusFor(ref), SYSTEM);
      ApplyOnce(s.wallet, Move(row.user, row.reward, ReferralBonus, BonusFor(ref), SYSTEM));
      GrantParents(s, row, ref);
      SameParentsAcyclic(s.wallet.users, s'.wallet.users);
      forall u: Id
        ensures Unordered(s', u) >= 0
      {
        assert s'.wallet.ledger == s.wallet.ledger + [s'.wallet.ledger[|s.wallet.ledger|]];
        SumAppend(s.wallet.ledger, s'.wallet.ledger[|s.wallet.ledger|], PurchaseDebitOf(u));
        assert PaidBy(u) == PaidBy(u) && Unordered(s, u) >= 0;
      }
    }
  }

  lemma {:induction false} PercentWalkBooks(s: Tables, from: Id, upline: Id, seen: set<Id>, tiers: seq<int>,
                                            tier: int, amount: int, ref: Ref)
    requires Books(s)
    ensures Books(PercentWalk(s, from, upline, seen, tiers, tier, amount, ref))
    decreases |tiers|
  {
    if tiers != [] && upline != "" && upline !in seen {
      var row := Earning(upline, from, tier, Percent, amount, amount * tiers[0] / 100);
      var s' := if tiers[0] > 0 && row.reward > 0 then Grant(s, row, ref) else s;
      if row.reward > 0 {
        GrantBooks(s, row, ref);
      }
      PercentWalkBooks(s', from, ParentOf(s'.wallet.users, upline), seen + {upline}, tiers[1..], tier + 1, amount, ref);
    }
  }

  lemma OnRechargeBooks(s: Tables, u: Id, amount: int, ref: Ref, cfg: ReferralConfig)
    requires Books(s)
    ensures Books(OnRecharge(s, u, amount, ref, cfg))
  {
    if cfg.mode.PercentMode? {
      PercentWalkBooks(s, u, ParentOf(s.wallet.users, u), {u}, cfg.tiers, 1, amount, ref);
    } else if cfg.fixed > 0 {
      GrantBooks(s, Earning(ParentOf(s.wallet.users, u), u, 1, Fixed, 0, cfg.fixed), ref);
    }
  }

  lemma PlainMoveBooks(s: Tables, u: Id, amount: int, reason: Reason, ref: Ref, channel: string)
    requires Books(s) && ref.Given?
    ensures Books(s.(wallet := AfterAdjust(s.wallet, Adjust(s.wallet, u, amount, reason, ref, channel))))
  {
    PlainOne(s.wallet, Move(u, amount, reason, ref, channel));
    PlainBooks(s, s.(wallet := AfterAdjust(s.wallet, Adjust(s.wallet, u, amount, reason, ref, channel))));
  }

  lemma RechargeBooks(s: Tables, u: Id, amount: int, reason: Reason, text: string, channel: string,
                      cfg: ReferralConfig, now: int)
    requires Books(s)
    ensures Books(Next(s, AdminRecharge(u, amount, reason, text, channel, cfg), now))
  {
    var r := Adjust(s.wallet, u, amount, reason, Given(text), channel);
    if r.Adjusted? {
      PlainMoveBooks(s, u, amount, reason, Given(text), channel);
      OnRechargeBooks(s.(wallet := r.wallet), u, amount, Given(text), cfg);
    }
  }

  lemma SignUpBalanced(w: Wallet, u: Id, code: string, referrer: Id)
    requires Balanced(w)
    ensures Balanced(SignUp(w, u, code, referrer)) && SignUp(w, u, code, referrer).ledger == w.ledger
  {
    ApplyBalanced(w, Create(u, code));
    ApplyBalanced(Apply(w, Create(u, code)), Attach(u, referrer));
  }

  lemma NewUserBooks(s: Tables, u: Id, code: string, referrer: Id)
    requires Books(s) && u != ""
    ensures Books(s.(wallet := SignUp(s.wallet, u, code, referrer)))
  {
    SignUpAcyclic(s.wallet, u, code, referrer);
    SignUpBalanced(s.wallet, u, code, referrer);
    SameBooks(s, s.(wallet := SignUp(s.wallet, u, code, referrer)));
  }

  /** Rewards and orders depend on the ledger, the earnings and the orders only. */
  lemma SameBooks(s: Tables, s': Tables)
    requires Books(s) && Balanced(s'.wallet) && Acyclic(s'.wallet.users)
    requires s'.wallet.ledger == s.wallet.ledger && s'.earnings == s.earnings && s'.orders == s.orders
    ensures Books(s')
  {
    forall u: Id
      ensures Sum(s'.wallet.ledger, BonusOf(u)) == Sum(s'.earnings, RewardOf(u)) && Unordered(s', u) >= 0
    {
      assert Sum(s.wallet.ledger, BonusOf(u)) == Sum(s.earnings, RewardOf(u));
      assert PaidBy(u) == PaidBy(u) && Unordered(s, u) >= 0;
    }
  }

  lemma DebitNoBonus(w: Wallet, op: WalletOp, u: Id)
    requires op.Move? && op.ref.OrderAt?
    ensures Sum(Apply(w, op).ledger, BonusOf(u)) == Sum(w.ledger, BonusOf(u))
    ensures SameParents(w.users, Apply(w, op).users)
  {
    var w' := Apply(w, op);
    if w'.ledger != w.ledger {
      assert w'.ledger == w.ledger + [w'.ledger[|w.ledger|]];
      SumAppend(w.ledger, w'.ledger[|w.ledger|], BonusOf(u));
    }
  }

  /** The debit of a purchase: a movement under an order reference. */
  lemma DebitBooks(w: Wallet, op: WalletOp, u: Id)
    requires Balanced(w) && OncePerTransaction(w.ledger) && Acyclic(w.users) && op.Move? && op.ref.OrderAt?
    ensures var w' := Apply(w, op);
            && Balanced(w') && OncePerTransaction(w'.ledger) && Acyclic(w'.users)
            && Sum(w'.ledger, BonusOf(u)) == Sum(w.ledger, BonusOf(u))
  {
    var w' := Apply(w, op);
    ApplyBalanced(w, op);
    ApplyOnce(w, op);
    DebitNoBonus(w, op, u);
    SameParentsAcyclic(w.users, w'.users);
  }

  lemma BuyWallet(s: Tables, req: BuyRequest, newKey: Id, faults: Faults, now: int)
    ensures var s' := Buy(s, req, newKey, faults, now).0;
            && s'.earnings == s.earnings
            && (s'.wallet == s.wallet
                || (req.package.Some? && s'.wallet == Apply(s.wallet, DebitOp(req.user, req.package.value, now))))
  {
  }

  function DebitOp(u: Id, pkg: Package, now: int): WalletOp
  {
    Move(u, -(pkg.price as int), Reason.Purchase, OrderAt(pkg.id, now), PORTAL)
  }

  lemma BuyBooks(s: Tables, req: BuyRequest, newKey: Id, faults: Faults, now: int)
    requires Books(s)
    ensures Books(Buy(s, req, newKey, faults, now).0)
  {
    var s' := Buy(s, req, newKey, faults, now).0;
    BuyWallet(s, req, newKey, faults, now);
    if s'.wallet != s.wallet {
      DebitBooks(s.wallet, DebitOp(req.user, req.package.value, now), "");
    }
    forall u: Id
      ensures Sum(s'.wallet.ledger, BonusOf(u)) == Sum(s'.earnings, RewardOf(u))
      ensures Unordered(s', u) >= 0
    {
      if s'.wallet != s.wallet {
        DebitBooks(s.wallet, DebitOp(req.user, req.package.value, now), u);
      }
      assert Sum(s.wallet.ledger, BonusOf(u)) == Sum(s.earnings, RewardOf(u));
      BuyConserves(s, req, newKey, faults, now, u);
      assert PaidBy(u) == PaidBy(u) && Unordered(s, u) >= 0;
    }
  }

  lemma SetUserBalanced(w: Wallet, u: Id, mode: Option<WalletMode>, limit: Option<int>)
    requires Balanced(w)
    ensures var w' := SetUser(w, u, mode, limit);
            Balanced(w') && w'.ledger == w.ledger && SameParents(w.users, w'.users)
  {
    var moded := if mode.Some? then Apply(w, SetMode(u, mode.value)) else w;
    if mode.Some? {
      ApplyBalanced(w, SetMode(u, mode.value));
    }
    if limit.Some? {
      ApplyBalanced(moded, SetLimit(u, limit.value));
    }
  }

  lemma SetWalletBooks(s: Tables, u: Id, mode: Option<WalletMode>, limit: Option<int>)
    requires Books(s)
    ensures Books(s.(wallet := SetUser(s.wallet, u, mode, limit)))
  {
    SetUserBalanced(s.wallet, u, mode, limit);
    SameParentsAcyclic(s.wallet.users, SetUser(s.wallet, u, mode, limit).users);
    SameBooks(s, s.(wallet := SetUser(s.wallet, u, mode, limit)));
  }

  lemma StepBooks(s: Tables, step: Step, now: int)
    requires Sound(s) && Books(s) && Admissible(s, step)
    ensures Books(Next(s, step, now))
  {
    match step
    case AdminRecharge(u, amount, reason, text, channel, cfg) =>
      RechargeBooks(s, u, amount, reason, text, channel, cfg, now);
    case NewUser(u, code, referrer) => NewUserBooks(s, u, code, referrer);
    case SetWallet(u, mode, limit) => SetWalletBooks(s, u, mode, limit);
    case BuyPackage(req, newKey, faults) => BuyBooks(s, req, newKey, faults, now);
    case _ =>
      if Hook(step) {
        HookBooks(s, step, now);
      } else {
        KeyTables(s, step, now);
        SameBooks(s, Next(s, step, now));
      }
  }

  const EMPTY_TABLES := Tables(EMPTY, map[], [], [], [], [])

  /**
    Every run from the empty database: the schema holds, every open hold is funded by the wallet
    of the key's present owner, and all the books agree.
   */
  lemma {:induction false} EveryRunIsSafe(s: Tables, events: seq<Event>)
    requires Sound(s) && Funded(s) && Books(s) && AllAdmissible(s, events)
    ensures Sound(RunAll(s, events)) && Funded(RunAll(s, events)) && Books(RunAll(s, events))
    decreases |events|
  {
    if events != [] {
      StepTables(s, events[0].step, events[0].now);
      StepBooks(s, events[0].step, events[0].now);
      EveryRunIsSafe(Next(s, events[0].step, events[0].now), events[1..]);
    }
  }

  lemma EmptyIsSafe()
    ensures Sound(EMPTY_TABLES) && Funded(EMPTY_TABLES) && WithinQuota(EMPTY_TABLES) && Books(EMPTY_TABLES)
  {
    var rank: map<Id, nat> := map[];
    assert Ranked(EMPTY.users, rank);
    forall u: Id
      ensures Unordered(EMPTY_TABLES, u) == 0
    {
      assert Sum(EMPTY_TABLES.wallet.ledger, PurchaseDebitOf(u)) == 0 && Sum(EMPTY_TABLES.orders, PaidBy(u)) == 0;
    }
  }
}
