/** Balances over runs of the whole system: the wallet floor, and recharges delivered again. */
module Floors {
  import opened Sums
  import opened Wallets
  import opened Billing
  import opened Referral
  import opened Purchase
  import opened Protocol

  /** Operations that leave every floor as it is. */
  predicate SteadyOp(op: WalletOp)
  {
    !op.SetMode? && !op.SetLimit?
  }

  ghost predicate Steady(ops: seq<WalletOp>)
  {
    forall i :: 0 <= i < |ops| ==> SteadyOp(ops[i])
  }

  ghost predicate SteadyReach(w: Wallet, w': Wallet)
  {
    exists ops :: Steady(ops) && w' == Run(w, ops)
  }

  lemma SteadySelf(w: Wallet)
    ensures SteadyReach(w, w)
  {
    assert w == Run(w, []);
  }

  lemma SteadyOne(w: Wallet, op: WalletOp)
    requires SteadyOp(op)
    ensures SteadyReach(w, Apply(w, op))
  {
    assert Run(w, [op]) == Apply(w, op) by {
      assert [op][1..] == [];
    }
    assert Steady([op]);
  }

  lemma SteadyTrans(w: Wallet, w1: Wallet, w2: Wallet)
    requires SteadyReach(w, w1) && SteadyReach(w1, w2)
    ensures SteadyReach(w, w2)
  {
    var ops :| Steady(ops) && w1 == Run(w, ops);
    var ops' :| Steady(ops') && w2 == Run(w1, ops');
    RunConcat(w, ops, ops');
    assert Steady(ops + ops');
  }

  lemma PlainIsSteady(w: Wallet, w': Wallet)
    requires PlainReach(w, w')
    ensures SteadyReach(w, w')
  {
    var ops :| Plain(ops) && w' == Run(w, ops);
    assert Steady(ops) by {
      forall i | 0 <= i < |ops|
        ensures SteadyOp(ops[i])
      {
        assert PlainOp(ops[i]);
      }
    }
  }

  lemma GrantSteady(s: Tables, row: Earning, ref: Ref)
    ensures SteadyReach(s.wallet, Grant(s, row, ref).wallet)
  {
    SteadySelf(s.wallet);
    SteadyOne(s.wallet, Move(row.user, row.reward, ReferralBonus, BonusFor(ref), SYSTEM));
  }

  lemma {:induction false} PercentWalkSteady(s: Tables, from: Id, upline: Id, seen: set<Id>, tiers: seq<int>,
                                             tier: int, amount: int, ref: Ref)
    ensures SteadyReach(s.wallet, PercentWalk(s, from, upline, seen, tiers, tier, amount, ref).wallet)
    decreases |tiers|
  {
    SteadySelf(s.wallet);
    if tiers != [] && upline != "" && upline !in seen {
      var row := Earning(upline, from, tier, Percent, amount, amount * tiers[0] / 100);
      var s' := if tiers[0] > 0 && row.reward > 0 then Grant(s, row, ref) else s;
      GrantSteady(s, row, ref);
      PercentWalkSteady(s', from, ParentOf(s'.wallet.users, upline), seen + {upline}, tiers[1..], tier + 1, amount,
                        ref);
      SteadyTrans(s.wallet, s'.wallet, PercentWalk(s, from, upline, seen, tiers, tier, amount, ref).wallet);
    }
  }

  lemma OnRechargeSteady(s: Tables, u: Id, amount: int, ref: Ref, cfg: ReferralConfig)
    ensures SteadyReach(s.wallet, OnRecharge(s, u, amount, ref, cfg).wallet)
  {
    SteadySelf(s.wallet);
    if cfg.mode.PercentMode? {
      PercentWalkSteady(s, u, ParentOf(s.wallet.users, u), {u}, cfg.tiers, 1, amount, ref);
    } else {
      GrantSteady(s, Earning(ParentOf(s.wallet.users, u), u, 1, Fixed, 0, cfg.fixed), ref);
    }
  }

  lemma RechargeSteady(s: Tables, step: Step, now: int)
    requires step.AdminRecharge?
    ensures SteadyReach(s.wallet, Next(s, step, now).wallet)
  {
    SteadySelf(s.wallet);
    var r := Adjust(s.wallet, step.user, step.amount, step.reason, Given(step.text), step.channel);
    if r.Adjusted? {
      var s1 := s.(wallet := r.wallet);
      SteadyOne(s.wallet, Move(step.user, step.amount, step.reason, Given(step.text), step.channel));
      OnRechargeSteady(s1, step.user, step.amount, Given(step.text), step.cfg);
      SteadyTrans(s.wallet, s1.wallet, OnRecharge(s1, step.user, step.amount, Given(step.text), step.cfg).wallet);
    }
  }

  lemma SignUpSteady(w: Wallet, u: Id, code: string, referrer: Id)
    ensures SteadyReach(w, SignUp(w, u, code, referrer))
  {
    var w1 := Apply(w, Create(u, code));
    SteadySelf(w);
    SteadyOne(w, Create(u, code));
    SteadyOne(w1, Attach(u, referrer));
    SteadyTrans(w, w1, Apply(w1, Attach(u, referrer)));
  }

  lemma BuySteady(s: Tables, req: BuyRequest, newKey: Id, faults: Faults, now: int)
    ensures SteadyReach(s.wallet, Buy(s, req, newKey, faults, now).0.wallet)
  {
    SteadySelf(s.wallet);
    if req.package.Some? {
      var pkg := req.package.value;
      SteadyOne(s.wallet, Move(req.user, -(pkg.price as int), Reason.Purchase, OrderAt(pkg.id, now), PORTAL));
    }
  }

  /** Every step but a change of wallet settings moves wallets by operations that respect the floor. */
  lemma StepSteady(s: Tables, step: Step, now: int)
    requires !step.SetWallet?
    ensures SteadyReach(s.wallet, Next(s, step, now).wallet)
  {
    match step
    case AdminRecharge(_, _, _, _, _, _) => RechargeSteady(s, step, now);
    case NewUser(u, code, referrer) => SignUpSteady(s.wallet, u, code, referrer);
    case BuyPackage(req, newKey, faults) => BuySteady(s, req, newKey, faults, now);
    case _ =>
      if Hook(step) {
        HookPlain(s, step, now);
        PlainIsSteady(s.wallet, Next(s, step, now).wallet);
      } else {
        SteadySelf(s.wallet);
      }
  }

  /** While floors stay, a balance only falls as far as the floor. */
  lemma {:induction false} SteadyKeepsFloor(w: Wallet, ops: seq<WalletOp>, u: Id)
    requires Steady(ops)
    ensures var w' := Run(w, ops);
            && FloorOf(w', u) == FloorOf(w, u)
            && (u in w.users ==> u in w'.users && w'.users[u].balance >= Min(w.users[u].balance, FloorOf(w, u)))
            && (u !in w.users && u in w'.users ==> w'.users[u].balance >= 0)
    decreases |ops|
  {
    if ops != [] {
      SteadyKeepsFloor(Apply(w, ops[0]), ops[1..], u);
    }
  }

  /** The lowest floor in force for u at any moment of a run of the system. */
  function LowestFloorSeen(s: Tables, events: seq<Event>, u: Id): int
    decreases |events|
  {
    if events == [] then FloorOf(s.wallet, u)
    else Min(FloorOf(s.wallet, u), LowestFloorSeen(Next(s, events[0].step, events[0].now), events[1..], u))
  }

  /**
    Over every run of holds, charges, purchases, recharges, rewards and changes of wallet mode
    and limit: nobody's balance falls below both where it started and the lowest floor that was
    ever in force for him. From the empty database b is 0.
   */
  lemma {:induction false} NobodyBelowLowestFloor(s: Tables, events: seq<Event>, u: Id, b: int)
    requires u in s.wallet.users ==> s.wallet.users[u].balance >= b
    requires u !in s.wallet.users ==> b <= 0
    ensures var s' := RunAll(s, events);
            u in s'.wallet.users ==> s'.wallet.users[u].balance >= Min(b, LowestFloorSeen(s, events, u))
    decreases |events|
  {
    if events != [] {
      var s1 := Next(s, events[0].step, events[0].now);
      if events[0].step.SetWallet? {
        SetWalletKeepsBalances(s.wallet, events[0].step.user, events[0].step.mode, events[0].step.limit, u);
      } else {
        StepSteady(s, events[0].step, events[0].now);
        var ops :| Steady(ops) && s1.wallet == Run(s.wallet, ops);
        SteadyKeepsFloor(s.wallet, ops, u);
      }
      NobodyBelowLowestFloor(s1, events[1..], u, Min(b, FloorOf(s.wallet, u)));
    }
  }

  lemma SetWalletKeepsBalances(w: Wallet, v: Id, mode: Option<WalletMode>, limit: Option<int>, u: Id)
    ensures var w' := SetUser(w, v, mode, limit);
            && w'.users.Keys == w.users.Keys
            && (u in w.users ==> w'.users[u].balance == w.users[u].balance)
  {
  }

  // ---- Replays ----

  /** No step ever removes or rewrites a ledger row. */
  lemma {:induction false} LedgerOnlyGrows(s: Tables, events: seq<Event>)
    ensures s.wallet.ledger <= RunAll(s, events).wallet.ledger
    decreases |events|
  {
    if events != [] {
      var s1 := Next(s, events[0].step, events[0].now);
      if !events[0].step.SetWallet? {
        StepSteady(s, events[0].step, events[0].now);
        var ops :| Steady(ops) && s1.wallet == Run(s.wallet, ops);
        LedgerGrows(s.wallet, ops);
      }
      LedgerOnlyGrows(s1, events[1..]);
    }
  }

  /** A recharge that carries the transaction over the telegram channel, from the webhook or from an admin. */
  predicate Carries(step: Step, tx: string)
  {
    (step.Webhook? && step.tx == tx) || (step.AdminRecharge? && step.text == tx && step.channel == TELEGRAM)
  }

  /**
    Once a transaction with a non-blank id was credited, delivering it again, to whatever user and
    after whatever run, leaves the whole database as it is.
   */
  lemma ReplayLeavesEverything(s: Tables, u: Id, amount: int, tx: string, now: int, events: seq<Event>, again: Step,
                               later: int)
    requires amount > 0 && u in s.wallet.users && !Taken(s.wallet.ledger, Stored(Given(tx)), TELEGRAM)
    requires !Blank(tx) && Carries(again, tx)
    ensures var credited := Next(s, Webhook(u, amount, tx), now);
            && u in credited.wallet.users
            && credited.wallet.users[u].balance == s.wallet.users[u].balance + amount
            && Next(RunAll(credited, events), again, later) == RunAll(credited, events)
  {
    var credited := Next(s, Webhook(u, amount, tx), now);
    var end := RunAll(credited, events);
    LedgerOnlyGrows(credited, events);
    var i := |s.wallet.ledger|;
    assert credited.wallet.ledger[i].channel == TELEGRAM && credited.wallet.ledger[i].ref == Given(tx);
    assert end.wallet.ledger[i] == credited.wallet.ledger[i];
    assert Taken(end.wallet.ledger, Stored(Given(tx)), TELEGRAM);
  }
}
