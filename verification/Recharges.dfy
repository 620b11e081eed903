/**
  What a user has recharged, counted from the recharges themselves, and the rewards that depend
  on it.
 */
module Recharges {
  import opened Sums
  import opened Wallets
  import opened Billing
  import opened Referral
  import opened Protocol
  import opened Safety
  import opened Conservation

  // ---- The total of accepted recharges ----

  /** What a step recharges for u: the amount of an admin's or the webhook's recharge of u, if accepted. */
  function StepRecharged(s: Tables, step: Step, u: Id): int
  {
    match step
    case AdminRecharge(v, amount, reason, text, channel, _) =>
      if v == u && reason == Recharge && amount > 0
         && Adjust(s.wallet, u, amount, reason, Given(text), channel).Adjusted?
      then amount else 0
    case Webhook(v, amount, tx) =>
      if v == u && amount > 0 && Adjust(s.wallet, u, amount, Recharge, Given(tx), "telegram").Adjusted?
      then amount else 0
    case _ => 0
  }

  function RunRecharged(s: Tables, events: seq<Event>, u: Id): int
    decreases |events|
  {
    if events == [] then 0
    else
      StepRecharged(s, events[0].step, u)
      + RunRecharged(Next(s, events[0].step, events[0].now), events[1..], u)
  }

  /** The total that decides whether a user qualifies. */
  function Recharged(s: Tables, u: Id): int
  {
    Sum(s.wallet.ledger, RechargeOf(u))
  }

  /** Ledger rows that are no recharge leave every total as it is. */
  lemma {:induction false} NoRecharge(ledger: seq<LedgerRow>, ledger': seq<LedgerRow>, u: Id)
    requires ledger <= ledger' && forall i :: |ledger| <= i < |ledger'| ==> ledger'[i].reason != Recharge
    ensures Sum(ledger', RechargeOf(u)) == Sum(ledger, RechargeOf(u))
    decreases |ledger'|
  {
    if |ledger'| == |ledger| {
      assert ledger' == ledger;
    } else {
      NoRecharge(ledger, ledger'[..|ledger'| - 1], u);
    }
  }

  lemma {:induction false} PercentWalkRewards(s: Tables, from: Id, upline: Id, seen: set<Id>,
                                              tiers: seq<int>, tier: int, amount: int, ref: Ref, step: Step)
    requires step.AdminRecharge? && ref == Given(step.text)
    ensures var ledger' := PercentWalk(s, from, upline, seen, tiers, tier, amount, ref).wallet.ledger;
            && s.wallet.ledger <= ledger'
            && forall i :: |s.wallet.ledger| <= i < |ledger'| ==> IsReward(ledger'[i], ref)
    decreases |tiers|
  {
    if tiers != [] && upline != "" && upline !in seen {
      var row := Earning(upline, from, tier, Percent, amount, amount * tiers[0] / 100);
      var s' := if tiers[0] > 0 && row.reward > 0 then Grant(s, row, ref) else s;
      PercentWalkRewards(s', from, ParentOf(s'.wallet.users, upline), seen + {upline}, tiers[1..], tier + 1, amount,
                         ref, step);
    }
  }

  /** Rewards are no recharges. */
  lemma RewardsKeepTotals(s: Tables, u: Id, amount: int, text: string, cfg: ReferralConfig, v: Id)
    ensures Recharged(OnRecharge(s, u, amount, Given(text), cfg), v) == Recharged(s, v)
  {
    var step := AdminRecharge(u, amount, Recharge, text, "", cfg);
    if cfg.mode.PercentMode? {
      PercentWalkRewards(s, u, ParentOf(s.wallet.users, u), {u}, cfg.tiers, 1, amount, Given(text), step);
    }
    NoRecharge(s.wallet.ledger, OnRecharge(s, u, amount, Given(text), cfg).wallet.ledger, v);
  }

  lemma MoveTotal(w: Wallet, v: Id, amount: int, reason: Reason, ref: Ref, channel: string, u: Id)
    requires Adjust(w, v, amount, reason, ref, channel).Adjusted?
    ensures Sum(Adjust(w, v, amount, reason, ref, channel).wallet.ledger, RechargeOf(u))
            == Sum(w.ledger, RechargeOf(u)) + (if v == u && reason == Recharge && amount > 0 then amount else 0)
  {
    var row := Adjust(w, v, amount, reason, ref, channel).wallet.ledger[|w.ledger|];
    SumAppend(w.ledger, row, RechargeOf(u));
  }

  lemma AdminRechargeTotal(s: Tables, step: Step, now: int, u: Id)
    requires step.AdminRecharge?
    ensures Recharged(Next(s, step, now), u) == Recharged(s, u) + StepRecharged(s, step, u)
  {
    var r := Adjust(s.wallet, step.user, step.amount, step.reason, Given(step.text), step.channel);
    if step.amount != 0 && r.Adjusted? {
      MoveTotal(s.wallet, step.user, step.amount, step.reason, Given(step.text), step.channel, u);
      RewardsKeepTotals(s.(wallet := r.wallet), step.user, step.amount, step.text, step.cfg, u);
    }
  }

  /**
    An accepted recharge raises the total of the recharged user by its amount and nobody else's;
    holds, refunds, usage, purchases, rewards, debits and other adjustments change no total.
   */
  lemma StepTotal(s: Tables, step: Step, now: int, u: Id)
    ensures Recharged(Next(s, step, now), u) == Recharged(s, u) + StepRecharged(s, step, u)
  {
    if step.AdminRecharge? {
      AdminRechargeTotal(s, step, now, u);
    } else if step.Webhook? {
      if step.amount > 0 && Adjust(s.wallet, step.user, step.amount, Recharge, Given(step.tx), "telegram").Adjusted? {
        MoveTotal(s.wallet, step.user, step.amount, Recharge, Given(step.tx), "telegram", u);
      }
    } else {
      StepWrites(s, step, now);
      NoRecharge(s.wallet.ledger, Next(s, step, now).wallet.ledger, u);
    }
  }

  lemma {:induction false} RunTotal(s: Tables, events: seq<Event>, u: Id)
    ensures Recharged(RunAll(s, events), u) == Recharged(s, u) + RunRecharged(s, events, u)
    decreases |events|
  {
    if events != [] {
      StepTotal(s, events[0].step, events[0].now, u);
      RunTotal(Next(s, events[0].step, events[0].now), events[1..], u);
    }
  }

  /** From the empty database a user's total is the sum of his accepted recharges. */
  lemma TotalIsRecharges(events: seq<Event>, u: Id)
    ensures Recharged(RunAll(EMPTY_TABLES, events), u) == RunRecharged(EMPTY_TABLES, events, u)
  {
    RunTotal(EMPTY_TABLES, events, u);
  }

  // ---- Rewards of a recharge ----

  /** An admin's recharge that is accepted. */
  predicate Accepted(s: Tables, step: Step)
  {
    step.AdminRecharge? && step.amount != 0
    && Adjust(s.wallet, step.user, step.amount, step.reason, Given(step.text), step.channel).Adjusted?
  }

  /** Whether the upline of u has a fixed earning from u. */
  predicate FixedEarned(s: Tables, upline: Id, u: Id)
  {
    exists i :: 0 <= i < |s.earnings| && s.earnings[i].mode == Fixed && s.earnings[i].user == upline
                && s.earnings[i].from == u
  }

  /** Whether a recharge earns the upline the fixed reward, when the user has recharged the total, this one included. */
  predicate FixedDue(s: Tables, step: Step, upline: Id, total: int)
    requires step.AdminRecharge?
  {
    && step.reason == Recharge && step.amount > 0 && step.cfg.fixed > 0
    && !FixedEarned(s, upline, step.user)
    && (step.cfg.qualify > 0 ==> total >= step.cfg.qualify)
  }

  /** The recharge is credited, and the upline earns the fixed reward if it is due. */
  predicate PaysFixed(s: Tables, s': Tables, step: Step, upline: Id, due: bool)
    requires step.AdminRecharge?
  {
    && step.user in s.wallet.users && upline in s.wallet.users && upline != step.user
    && s'.earnings == s.earnings + (if due then [Earning(upline, step.user, 1, Fixed, 0, step.cfg.fixed)] else [])
    && s'.wallet.users == s.wallet.users[step.user := s.wallet.users[step.user].(
         balance := s.wallet.users[step.user].balance + step.amount)][upline := s.wallet.users[upline].(
         balance := s.wallet.users[upline].balance + (if due then step.cfg.fixed else 0))]
  }

  /** At any state, with the total read from the ledger. */
  lemma FixedReward(s: Tables, step: Step, now: int)
    requires Accepted(s, step) && step.cfg.mode.FixedMode? && "" !in s.wallet.users
    requires step.user in s.wallet.users && s.wallet.users[step.user].referredBy in s.wallet.users
    requires s.wallet.users[step.user].referredBy != step.user
    ensures var upline := s.wallet.users[step.user].referredBy;
            var paid := Adjust(s.wallet, step.user, step.amount, step.reason, Given(step.text), step.channel).wallet;
            PaysFixed(s, Next(s, step, now), step, upline,
                      FixedDue(s, step, upline, Sum(paid.ledger, RechargeOf(step.user))))
  {
    var upline := s.wallet.users[step.user].referredBy;
    var paid := Adjust(s.wallet, step.user, step.amount, step.reason, Given(step.text), step.channel).wallet;
    assert paid.users == paid.users[upline := paid.users[upline]];
    assert paid.users[upline] == s.wallet.users[upline];
  }

  lemma UplineKnown(events: seq<Event>, u: Id)
    requires AllAdmissible(EMPTY_TABLES, events)
    ensures var users := RunAll(EMPTY_TABLES, events).wallet.users;
            && "" !in users
            && (u in users && users[u].referredBy != "" ==> users[u].referredBy in users && users[u].referredBy != u)
  {
    EmptyIsSafe();
    EveryRunIsSafe(EMPTY_TABLES, events);
    var rank :| Ranked(RunAll(EMPTY_TABLES, events).wallet.users, rank);
  }

  /**
    After any run from the empty database: a recharge earns the upline the fixed reward if and
    only if it is a positive recharge, the upline has no fixed earning from this user yet, and the
    user's accepted recharges, this one included, reach the threshold.
   */
  lemma FixedRewardIff(events: seq<Event>, step: Step, now: int)
    requires AllAdmissible(EMPTY_TABLES, events) && Accepted(RunAll(EMPTY_TABLES, events), step)
    requires step.cfg.mode.FixedMode?
    requires var users := RunAll(EMPTY_TABLES, events).wallet.users;
             step.user in users && users[step.user].referredBy != ""
    ensures var s := RunAll(EMPTY_TABLES, events);
            var upline := s.wallet.users[step.user].referredBy;
            var total := RunRecharged(EMPTY_TABLES, events, step.user) + step.amount;
            PaysFixed(s, Next(s, step, now), step, upline, FixedDue(s, step, upline, total))
  {
    var s := RunAll(EMPTY_TABLES, events);
    UplineKnown(events, step.user);
    TotalIsRecharges(events, step.user);
    FixedRewardAt(s, step, now, RunRecharged(EMPTY_TABLES, events, step.user) + step.amount);
  }

  lemma FixedRewardAt(s: Tables, step: Step, now: int, total: int)
    requires Accepted(s, step) && step.cfg.mode.FixedMode? && "" !in s.wallet.users
    requires step.user in s.wallet.users && s.wallet.users[step.user].referredBy in s.wallet.users
    requires s.wallet.users[step.user].referredBy != step.user && total == Recharged(s, step.user) + step.amount
    ensures var upline := s.wallet.users[step.user].referredBy;
            PaysFixed(s, Next(s, step, now), step, upline, FixedDue(s, step, upline, total))
  {
    var upline := s.wallet.users[step.user].referredBy;
    var paid := Adjust(s.wallet, step.user, step.amount, step.reason, Given(step.text), step.channel).wallet;
    FixedReward(s, step, now);
    MoveTotal(s.wallet, step.user, step.amount, step.reason, Given(step.text), step.channel, step.user);
    assert FixedDue(s, step, upline, total) == FixedDue(s, step, upline, Sum(paid.ledger, RechargeOf(step.user)));
  }

  // ---- Percent rewards ----

  /** The earning of the i-th payee: his tier's percentage of the amount, rounded down. */
  predicate EarnsShare(e: Earning, payees: seq<Id>, u: Id, tiers: seq<int>, tier: int, amount: int, i: int)
    requires |payees| <= |tiers|
  {
    && 0 <= i < |payees| && tiers[i] > 0 && e.reward == amount * tiers[i] / 100 > 0
    && e.user == payees[i] && e.from == u && e.tier == tier + i && e.mode == Percent && e.base == amount
  }

  lemma EarnsShareLater(e: Earning, payees: seq<Id>, u: Id, tiers: seq<int>, tier: int, amount: int, i: int)
    requires 0 < |payees| <= |tiers| && i >= 0
    ensures EarnsShare(e, payees[1..], u, tiers[1..], tier + 1, amount, i)
            <==> EarnsShare(e, payees, u, tiers, tier, amount, i + 1)
  {
  }

  /** Every earning of a walk is the share of some payee. */
  lemma {:induction false} RowsAreShares(payees: seq<Id>, u: Id, tiers: seq<int>, tier: int, amount: int, e: Earning)
      returns (i: nat)
    requires |payees| <= |tiers| && e in RewardRows(payees, u, tiers, tier, amount)
    ensures EarnsShare(e, payees, u, tiers, tier, amount, i)
    decreases |payees|
  {
    if e in RewardRows(payees[1..], u, tiers[1..], tier + 1, amount) {
      i := RowsAreShares(payees[1..], u, tiers[1..], tier + 1, amount, e);
      EarnsShareLater(e, payees, u, tiers, tier, amount, i);
      i := i + 1;
    } else {
      i := 0;
    }
  }

  /** Every payee's share that is not zero is an earning of the walk. */
  lemma {:induction false} SharesAreRows(payees: seq<Id>, u: Id, tiers: seq<int>, tier: int, amount: int,
                                         e: Earning, i: nat)
    requires |payees| <= |tiers| && EarnsShare(e, payees, u, tiers, tier, amount, i)
    ensures e in RewardRows(payees, u, tiers, tier, amount)
    decreases |payees|
  {
    if i > 0 {
      EarnsShareLater(e, payees, u, tiers, tier, amount, i - 1);
      SharesAreRows(payees[1..], u, tiers[1..], tier + 1, amount, e, i - 1);
    }
  }

  /** The nearest ancestors of u, one for each tier as far as the chain of uplines goes. */
  ghost predicate Nearest(users: Users, u: Id, tiers: seq<int>, payees: seq<Id>)
  {
    && |payees| <= |tiers|
    && (forall i :: 0 <= i < |payees| ==> payees[i] == Ancestor(users, u, i + 1) && payees[i] != "")
    && (|payees| < |tiers| ==> Ancestor(users, u, |payees| + 1) == "")
  }

  lemma {:induction false} UplinesAreNearest(users: Users, u: Id, tiers: seq<int>, n: nat)
    ensures var uplines := Uplines(users, Ancestor(users, u, n), |tiers|);
            && |uplines| <= |tiers|
            && (forall i :: 0 <= i < |uplines| ==> uplines[i] == Ancestor(users, u, n + i + 1) && uplines[i] != "")
            && (|uplines| < |tiers| ==> Ancestor(users, u, n + |uplines| + 1) == "")
    decreases |tiers|
  {
    if tiers != [] && ParentOf(users, Ancestor(users, u, n)) != "" {
      UplinesAreNearest(users, u, tiers[1..], n + 1);
    }
  }

  lemma AcyclicUplines(users: Users, u: Id, tiers: seq<int>)
    requires Acyclic(users) && u in users
    ensures Referral.Closed(users) && Nearest(users, u, tiers, Payees(users, ParentOf(users, u), {u}, tiers))
  {
    var rank :| Ranked(users, rank);
    GuardedWalkIsPlainWalk(users, u, tiers);
    UplinesAreNearest(users, u, tiers, 0);
    assert Ancestor(users, u, 0) == u;
  }

  /** The rows a percent recharge appends, and that other recharges append none. */
  lemma EarningsAppended(s: Tables, step: Step, now: int, payees: seq<Id>)
    requires Accepted(s, step) && Referral.Closed(s.wallet.users) && |payees| <= |step.cfg.tiers|
    requires payees == Payees(s.wallet.users, ParentOf(s.wallet.users, step.user), {step.user}, step.cfg.tiers)
    ensures step.reason == Recharge && step.amount > 0 && step.cfg.mode.PercentMode? ==>
              Next(s, step, now).earnings
              == s.earnings + RewardRows(payees, step.user, step.cfg.tiers, 1, step.amount)
    ensures step.reason != Recharge || step.amount <= 0 || step.cfg.mode.NoRewards? ==>
              Next(s, step, now).earnings == s.earnings
  {
    if step.reason == Recharge && step.amount > 0 && step.cfg.mode.PercentMode? {
      var r := Adjust(s.wallet, step.user, step.amount, step.reason, Given(step.text), step.channel);
      CreditedEarnings(s.(wallet := r.wallet), step, s.wallet.users, payees, Given(step.text));
    }
  }

  lemma CreditedEarnings(s: Tables, step: Step, users: Users, payees: seq<Id>, ref: Ref)
    requires step.AdminRecharge? && step.cfg.mode.PercentMode? && step.amount > 0 && step.user in s.wallet.users
    requires Referral.Closed(s.wallet.users) && SameParents(users, s.wallet.users)
    requires payees == Payees(users, ParentOf(users, step.user), {step.user}, step.cfg.tiers)
    requires |payees| <= |step.cfg.tiers|
    ensures OnRecharge(s, step.user, step.amount, ref, step.cfg).earnings
            == s.earnings + RewardRows(payees, step.user, step.cfg.tiers, 1, step.amount)
  {
    PayeesSame(users, s.wallet.users, ParentOf(users, step.user), {step.user}, step.cfg.tiers);
    PercentIsGrants(s, step.user, step.amount, ref, step.cfg);
    GrantAllCredits(s, RewardRows(payees, step.user, step.cfg.tiers, 1, step.amount), ref, step.user);
  }

  /** What a recharge earns, when these are the nearest ancestors. */
  ghost predicate EarnsShares(earned: seq<Earning>, payees: seq<Id>, step: Step)
    requires step.AdminRecharge? && |payees| <= |step.cfg.tiers|
  {
    forall e :: e in earned <==> exists i :: EarnsShare(e, payees, step.user, step.cfg.tiers, 1, step.amount, i)
  }

  lemma RowsEarnShares(payees: seq<Id>, step: Step)
    requires step.AdminRecharge? && |payees| <= |step.cfg.tiers|
    ensures EarnsShares(RewardRows(payees, step.user, step.cfg.tiers, 1, step.amount), payees, step)
  {
    var rows := RewardRows(payees, step.user, step.cfg.tiers, 1, step.amount);
    forall e
      ensures e in rows <==> exists i :: EarnsShare(e, payees, step.user, step.cfg.tiers, 1, step.amount, i)
    {
      if e in rows {
        var i := RowsAreShares(payees, step.user, step.cfg.tiers, 1, step.amount, e);
      }
      if i :| EarnsShare(e, payees, step.user, step.cfg.tiers, 1, step.amount, i) {
        SharesAreRows(payees, step.user, step.cfg.tiers, 1, step.amount, e, i);
      }
    }
  }

  /**
    After any run from the empty database: a recharge in percent mode earns each of the nearest
    ancestors his tier's percentage of the amount, rounded down, and nobody anything else; a
    recharge for another reason, or with rewards switched off, earns nobody anything.
   */
  lemma PercentRewards(events: seq<Event>, step: Step, now: int) returns (payees: seq<Id>, earned: seq<Earning>)
    requires AllAdmissible(EMPTY_TABLES, events) && Accepted(RunAll(EMPTY_TABLES, events), step)
    ensures var s := RunAll(EMPTY_TABLES, events);
            && Nearest(s.wallet.users, step.user, step.cfg.tiers, payees)
            && EarnsShares(earned, payees, step)
            && (step.reason == Recharge && step.amount > 0 && step.cfg.mode.PercentMode? ==>
                  Next(s, step, now).earnings == s.earnings + earned)
            && (step.reason != Recharge || step.amount <= 0 || step.cfg.mode.NoRewards? ==>
                  Next(s, step, now).earnings == s.earnings)
  {
    var s := RunAll(EMPTY_TABLES, events);
    EmptyIsSafe();
    EveryRunIsSafe(EMPTY_TABLES, events);
    AcyclicUplines(s.wallet.users, step.user, step.cfg.tiers);
    payees := Payees(s.wallet.users, ParentOf(s.wallet.users, step.user), {step.user}, step.cfg.tiers);
    earned := RewardRows(payees, step.user, step.cfg.tiers, 1, step.amount);
    EarningsAppended(s, step, now, payees);
    RowsEarnShares(payees, step);
  }
}
