/** Referral rewards on recharges (internal/referral/referral.go) and the graph of uplines they walk. */
module Referral {
  import opened Sums
  import opened Wallets
  import opened Billing

  datatype ReferralMode = NoRewards | PercentMode | FixedMode

  /** The admin's settings: percent tiers, the fixed reward and the recharges that qualify for it. */
  datatype ReferralConfig = ReferralConfig(mode: ReferralMode, tiers: seq<int>, qualify: int, fixed: int)

  type Users = map<Id, User>

  function ParentOf(users: Users, u: Id): Id
  {
    if u in users then users[u].referredBy else ""
  }

  predicate AlreadyRewarded(earnings: seq<Earning>, u: Id, from: Id)
  {
    exists i :: 0 <= i < |earnings| && earnings[i].mode == Fixed && earnings[i].user == u && earnings[i].from == from
  }

  /** grant: record the earning, unless the fixed reward of this pair exists, and credit the upline. */
  function Grant(s: Tables, row: Earning, ref: Ref): Tables
  {
    if row.user !in s.wallet.users || row.from !in s.wallet.users then s
    else if row.mode == Fixed && AlreadyRewarded(s.earnings, row.user, row.from) then s
    else MoveWallet(s.(earnings := s.earnings + [row]), row.user, row.reward, ReferralBonus, BonusFor(ref))
  }

  /** payPercent from one upline on; tier numbers the first remaining percentage. */
  function PercentWalk(s: Tables, from: Id, upline: Id, seen: set<Id>, tiers: seq<int>, tier: int, amount: int,
                       ref: Ref): Tables
    decreases |tiers|
  {
    if tiers == [] || upline == "" || upline in seen then s
    else
      var reward := amount * tiers[0] / 100;
      var s' :=
        if tiers[0] > 0 && reward > 0 then Grant(s, Earning(upline, from, tier, Percent, amount, reward), ref) else s;
      PercentWalk(s', from, ParentOf(s'.wallet.users, upline), seen + {upline}, tiers[1..], tier + 1, amount, ref)
  }

  /** What a user has recharged in all. */
  function RechargeOf(u: Id): LedgerRow -> int
  {
    (row: LedgerRow) => if row.user == u && row.reason == Recharge && row.delta > 0 then row.delta else 0
  }

  function PayFixed(s: Tables, u: Id, cfg: ReferralConfig, ref: Ref): Tables
  {
    var total := Sum(s.wallet.ledger, RechargeOf(u));
    if (cfg.qualify > 0 && total < cfg.qualify) || cfg.fixed <= 0 || ParentOf(s.wallet.users, u) == "" then s
    else Grant(s, Earning(ParentOf(s.wallet.users, u), u, 1, Fixed, 0, cfg.fixed), ref)
  }

  function OnRecharge(s: Tables, u: Id, amount: int, ref: Ref, cfg: ReferralConfig): Tables
  {
    if amount <= 0 || ParentOf(s.wallet.users, u) == "" then s
    else
      match cfg.mode
      case NoRewards => s
      case PercentMode => PercentWalk(s, u, ParentOf(s.wallet.users, u), {u}, cfg.tiers, 1, amount, ref)
      case FixedMode => PayFixed(s, u, cfg, ref)
  }

  // ---- Who is paid ----

  /** The n-th ancestor in the graph of uplines, or "" past its end. */
  function Ancestor(users: Users, u: Id, n: nat): Id
  {
    if n == 0 then u else ParentOf(users, Ancestor(users, u, n - 1))
  }

  /** The uplines the guarded walk visits, nearest first. */
  function Payees(users: Users, upline: Id, seen: set<Id>, tiers: seq<int>): seq<Id>
    decreases |tiers|
  {
    if tiers == [] || upline == "" || upline in seen then []
    else [upline] + Payees(users, ParentOf(users, upline), seen + {upline}, tiers[1..])
  }

  /**
    On any graph, cycles included: tier i + 1 is paid to the (i+1)-th ancestor, nobody is visited
    twice, nobody already seen is, and the walk only stops early at the end of the
    chain or at someone it has seen.
   */
  lemma {:induction false} PayeesAreAncestors(users: Users, u: Id, n: nat, seen: set<Id>, tiers: seq<int>)
    ensures var payees := Payees(users, Ancestor(users, u, n), seen, tiers);
            && |payees| <= |tiers|
            && (forall i :: 0 <= i < |payees| ==> payees[i] == Ancestor(users, u, n + i) && payees[i] != "")
            && (forall i :: 0 <= i < |payees| ==> payees[i] !in seen)
            && (forall i, j :: 0 <= i < j < |payees| ==> payees[i] != payees[j])
            && (|payees| < |tiers| ==>
                  var next := Ancestor(users, u, n + |payees|);
                  next == "" || next in seen || next in payees)
    decreases |tiers|
  {
    var upline := Ancestor(users, u, n);
    if tiers != [] && upline != "" && upline !in seen {
      PayeesAreAncestors(users, u, n + 1, seen + {upline}, tiers[1..]);
      var rest := Payees(users, Ancestor(users, u, n + 1), seen + {upline}, tiers[1..]);
      var payees := Payees(users, upline, seen, tiers);
      assert payees == [upline] + rest;
      forall i | 0 <= i < |payees|
        ensures payees[i] == Ancestor(users, u, n + i)
      {
        if i > 0 {
          assert payees[i] == rest[i - 1];
        }
      }
    }
  }

  /** The earnings of a walk: one per visited upline whose share of the amount is not zero. */
  function RewardRows(payees: seq<Id>, from: Id, tiers: seq<int>, tier: int, amount: int): seq<Earning>
    requires |payees| <= |tiers|
    decreases |payees|
  {
    if payees == [] then []
    else
      var reward := amount * tiers[0] / 100;
      (if tiers[0] > 0 && reward > 0 then [Earning(payees[0], from, tier, Percent, amount, reward)] else [])
      + RewardRows(payees[1..], from, tiers[1..], tier + 1, amount)
  }

  function GrantAll(s: Tables, rows: seq<Earning>, ref: Ref): Tables
    decreases |rows|
  {
    if rows == [] then s else GrantAll(Grant(s, rows[0], ref), rows[1..], ref)
  }

  ghost predicate SameParents(users: Users, users': Users)
  {
    users'.Keys == users.Keys && forall u :: u in users ==> users'[u].referredBy == users[u].referredBy
  }

  lemma GrantParents(s: Tables, row: Earning, ref: Ref)
    ensures SameParents(s.wallet.users, Grant(s, row, ref).wallet.users)
  {
  }

  lemma {:induction false} PayeesSame(users: Users, users': Users, upline: Id, seen: set<Id>, tiers: seq<int>)
    requires SameParents(users, users')
    ensures Payees(users, upline, seen, tiers) == Payees(users', upline, seen, tiers)
    decreases |tiers|
  {
    if tiers != [] && upline != "" && upline !in seen {
      PayeesSame(users, users', ParentOf(users, upline), seen + {upline}, tiers[1..]);
    }
  }

  /** The walk, which reads the users table while it credits wallets, grants exactly these rows. */
  lemma {:induction false} PercentWalkGrants(s: Tables, from: Id, upline: Id, seen: set<Id>, tiers: seq<int>,
                                             tier: int, amount: int, ref: Ref)
    ensures var payees := Payees(s.wallet.users, upline, seen, tiers);
            && |payees| <= |tiers|
            && PercentWalk(s, from, upline, seen, tiers, tier, amount, ref)
               == GrantAll(s, RewardRows(payees, from, tiers, tier, amount), ref)
    decreases |tiers|
  {
    if tiers != [] && upline != "" && upline !in seen {
      var reward := amount * tiers[0] / 100;
      var row := Earning(upline, from, tier, Percent, amount, reward);
      var s' := if tiers[0] > 0 && reward > 0 then Grant(s, row, ref) else s;
      GrantParents(s, row, ref);
      PercentWalkGrants(s', from, ParentOf(s'.wallet.users, upline), seen + {upline}, tiers[1..], tier + 1, amount,
                        ref);
      PayeesSame(s.wallet.users, s'.wallet.users, ParentOf(s.wallet.users, upline), seen + {upline}, tiers[1..]);
      var rest := Payees(s.wallet.users, ParentOf(s.wallet.users, upline), seen + {upline}, tiers[1..]);
      var payees := Payees(s.wallet.users, upline, seen, tiers);
      assert payees[1..] == rest;
      var more := RewardRows(rest, from, tiers[1..], tier + 1, amount);
      if tiers[0] > 0 && reward > 0 {
        assert ([row] + more)[1..] == more;
      } else {
        assert [] + more == more;
      }
    }
  }

  // ---- How much is paid ----

  function RewardOf(u: Id): Earning -> int
  {
    (row: Earning) => if row.user == u then row.reward else 0
  }

  function Reward(): Earning -> int
  {
    (row: Earning) => row.reward
  }

  function PositiveTotal(tiers: seq<int>): int
  {
    if tiers == [] then 0 else Max(0, tiers[0]) + PositiveTotal(tiers[1..])
  }

  lemma FloorDivision(amount: int, pct: int)
    requires amount >= 0 && pct > 0
    ensures 0 <= amount * pct / 100 && amount * pct / 100 * 100 <= amount * pct
  {
    assert amount * pct >= 0;
  }

  /** All tiers together never pay more than the positive percentages of the recharge, rounded down. */
  lemma RewardsBounded(payees: seq<Id>, from: Id, tiers: seq<int>, tier: int, amount: int)
    requires |payees| <= |tiers| && amount >= 0
    ensures 0 <= Sum(RewardRows(payees, from, tiers, tier, amount), Reward()) <= amount * PositiveTotal(tiers) / 100
  {
    RewardsBoundedScaled(payees, from, tiers, tier, amount);
  }

  lemma {:induction false} PositiveTotalNonNegative(tiers: seq<int>)
    ensures PositiveTotal(tiers) >= 0
  {
    if tiers != [] {
      PositiveTotalNonNegative(tiers[1..]);
    }
  }

  lemma {:induction false} RewardsBoundedScaled(payees: seq<Id>, from: Id, tiers: seq<int>, tier: int, amount: int)
    requires |payees| <= |tiers| && amount >= 0
    ensures var total := Sum(RewardRows(payees, from, tiers, tier, amount), Reward());
            total >= 0 && total * 100 <= amount * PositiveTotal(tiers)
    decreases |payees|
  {
    PositiveTotalNonNegative(tiers);
    if payees == [] {
      assert amount * PositiveTotal(tiers) >= 0;
    } else {
      RewardsBoundedScaled(payees[1..], from, tiers[1..], tier + 1, amount);
      var reward := amount * tiers[0] / 100;
      var more := RewardRows(payees[1..], from, tiers[1..], tier + 1, amount);
      var p := Max(0, tiers[0]);
      var q := PositiveTotal(tiers[1..]);
      assert amount * (p + q) == amount * p + amount * q;
      if tiers[0] > 0 {
        FloorDivision(amount, tiers[0]);
      }
      if tiers[0] > 0 && reward > 0 {
        SumPrepend(Earning(payees[0], from, tier, Percent, amount, reward), more, Reward());
      } else {
        assert [] + more == more;
        assert amount * p >= 0;
      }
    }
  }

  /** One tier's reward: the percentage of the amount, rounded down. */
  function Share(amount: int, pct: int): int
  {
    if pct > 0 then amount * pct / 100 else 0
  }

  predicate Distinct(payees: seq<Id>)
  {
    forall i, j :: 0 <= i < j < |payees| ==> payees[i] != payees[j]
  }

  /** Each visited upline earns its own tier's share, and nobody else earns anything. */
  lemma {:induction false} SharePerUpline(payees: seq<Id>, from: Id, tiers: seq<int>, tier: int, amount: int, v: Id)
    requires |payees| <= |tiers| && amount >= 0 && Distinct(payees)
    ensures var earned := Sum(RewardRows(payees, from, tiers, tier, amount), RewardOf(v));
            && (forall i :: 0 <= i < |payees| && payees[i] == v ==> earned == Share(amount, tiers[i]))
            && (v !in payees ==> earned == 0)
    decreases |payees|
  {
    if payees != [] {
      SharePerUpline(payees[1..], from, tiers[1..], tier + 1, amount, v);
      var reward := amount * tiers[0] / 100;
      var more := RewardRows(payees[1..], from, tiers[1..], tier + 1, amount);
      if tiers[0] > 0 {
        FloorDivision(amount, tiers[0]);
      }
      if tiers[0] > 0 && reward > 0 {
        SumPrepend(Earning(payees[0], from, tier, Percent, amount, reward), more, RewardOf(v));
      } else {
        assert [] + more == more;
      }
      forall i | 0 <= i < |payees| && payees[i] == v
        ensures Sum(RewardRows(payees, from, tiers, tier, amount), RewardOf(v)) == Share(amount, tiers[i])
      {
        if i > 0 {
          assert payees[1..][i - 1] == v && tiers[1..][i - 1] == tiers[i];
          assert payees[0] != v;
        } else {
          assert v !in payees[1..];
        }
      }
    }
  }

  /** Rows that the foreign keys accept and that no unique index concerns. */
  ghost predicate Payable(users: Users, rows: seq<Earning>)
  {
    forall i :: 0 <= i < |rows| ==>
      rows[i].user in users && rows[i].from in users && rows[i].mode == Percent && rows[i].reward > 0
  }

  lemma GrantCredits(s: Tables, row: Earning, ref: Ref, v: Id)
    requires Payable(s.wallet.users, [row]) && v in s.wallet.users
    ensures var s' := Grant(s, row, ref);
            && s'.earnings == s.earnings + [row] && s'.wallet.users.Keys == s.wallet.users.Keys
            && s'.wallet.users[v].balance == s.wallet.users[v].balance + RewardOf(v)(row)
  {
    assert [row][0] == row;
  }

  lemma {:induction false} GrantAllCredits(s: Tables, rows: seq<Earning>, ref: Ref, v: Id)
    requires Payable(s.wallet.users, rows) && v in s.wallet.users
    ensures var s' := GrantAll(s, rows, ref);
            && s'.earnings == s.earnings + rows && s'.wallet.users.Keys == s.wallet.users.Keys
            && s'.wallet.users[v].balance == s.wallet.users[v].balance + Sum(rows, RewardOf(v))
    decreases |rows|
  {
    if rows == [] {
      assert s.earnings + rows == s.earnings;
    } else {
      var s1 := Grant(s, rows[0], ref);
      GrantCredits(s, rows[0], ref, v);
      assert Payable(s1.wallet.users, rows[1..]);
      GrantAllCredits(s1, rows[1..], ref, v);
      assert s.earnings + [rows[0]] + rows[1..] == s.earnings + rows;
      assert [rows[0]] + rows[1..] == rows;
      SumPrepend(rows[0], rows[1..], RewardOf(v));
    }
  }

  /** The foreign key on referred_by. */
  ghost predicate Closed(users: Users)
  {
    "" !in users && forall u :: u in users ==> users[u].referredBy == "" || users[u].referredBy in users
  }

  lemma {:induction false} RewardRowsPayable(users: Users, payees: seq<Id>, from: Id, tiers: seq<int>, tier: int,
                                             amount: int)
    requires |payees| <= |tiers| && from in users
    requires forall i :: 0 <= i < |payees| ==> payees[i] in users
    ensures Payable(users, RewardRows(payees, from, tiers, tier, amount))
    decreases |payees|
  {
    if payees != [] {
      RewardRowsPayable(users, payees[1..], from, tiers[1..], tier + 1, amount);
    }
  }

  lemma {:induction false} AncestorKnown(users: Users, u: Id, n: nat)
    requires Closed(users) && u in users
    ensures Ancestor(users, u, n) == "" || Ancestor(users, u, n) in users
  {
    if n > 0 {
      AncestorKnown(users, u, n - 1);
    }
  }

  /** The uplines a percent recharge by u visits. */
  function PercentPayees(users: Users, u: Id, cfg: ReferralConfig): seq<Id>
  {
    Payees(users, ParentOf(users, u), {u}, cfg.tiers)
  }

  /** Who they are: the i-th tier's payee is the i-th ancestor, and nobody is paid twice or pays himself. */
  lemma PercentPayeesAre(users: Users, u: Id, cfg: ReferralConfig)
    requires Closed(users) && u in users
    ensures var payees := PercentPayees(users, u, cfg);
            && |payees| <= |cfg.tiers| && Distinct(payees)
            && (forall i :: 0 <= i < |payees| ==>
                  payees[i] == Ancestor(users, u, i + 1) && payees[i] in users && payees[i] != u)
            && (|payees| < |cfg.tiers| ==>
                  var next := Ancestor(users, u, |payees| + 1);
                  next == "" || next == u || next in payees)
  {
    var payees := PercentPayees(users, u, cfg);
    assert Ancestor(users, u, 1) == ParentOf(users, Ancestor(users, u, 0));
    PayeesAreAncestors(users, u, 1, {u}, cfg.tiers);
    forall i | 0 <= i < |payees|
      ensures payees[i] in users
    {
      AncestorKnown(users, u, i + 1);
    }
  }

  function PercentRows(users: Users, u: Id, amount: int, cfg: ReferralConfig): (rows: seq<Earning>)
    requires |PercentPayees(users, u, cfg)| <= |cfg.tiers|
  {
    RewardRows(PercentPayees(users, u, cfg), u, cfg.tiers, 1, amount)
  }

  lemma PercentIsGrants(s: Tables, u: Id, amount: int, ref: Ref, cfg: ReferralConfig)
    requires Closed(s.wallet.users) && u in s.wallet.users && amount > 0 && cfg.mode.PercentMode?
    ensures |PercentPayees(s.wallet.users, u, cfg)| <= |cfg.tiers|
    ensures OnRecharge(s, u, amount, ref, cfg) == GrantAll(s, PercentRows(s.wallet.users, u, amount, cfg), ref)
    ensures Payable(s.wallet.users, PercentRows(s.wallet.users, u, amount, cfg))
  {
    var users := s.wallet.users;
    PercentPayeesAre(users, u, cfg);
    PercentWalkGrants(s, u, ParentOf(users, u), {u}, cfg.tiers, 1, amount, ref);
    RewardRowsPayable(users, PercentPayees(users, u, cfg), u, cfg.tiers, 1, amount);
  }

  lemma PercentRechargeShares(s: Tables, u: Id, amount: int, ref: Ref, cfg: ReferralConfig, v: Id)
    requires Closed(s.wallet.users) && u in s.wallet.users && amount > 0 && cfg.mode.PercentMode?
    requires v in s.wallet.users
    ensures var s' := OnRecharge(s, u, amount, ref, cfg);
            var payees := PercentPayees(s.wallet.users, u, cfg);
            && |payees| <= |cfg.tiers| && v in s'.wallet.users
            && (forall i :: 0 <= i < |payees| && payees[i] == v ==>
                  s'.wallet.users[v].balance == s.wallet.users[v].balance + Share(amount, cfg.tiers[i]))
            && (v !in payees ==> s'.wallet.users[v].balance == s.wallet.users[v].balance)
            && |s'.earnings| >= |s.earnings|
            && Sum(s'.earnings[|s.earnings|..], Reward()) <= amount * PositiveTotal(cfg.tiers) / 100
  {
    var users := s.wallet.users;
    var payees := PercentPayees(users, u, cfg);
    PercentPayeesAre(users, u, cfg);
    PercentIsGrants(s, u, amount, ref, cfg);
    var rows := PercentRows(users, u, amount, cfg);
    GrantAllCredits(s, rows, ref, v);
    SharePerUpline(payees, u, cfg.tiers, 1, amount, v);
    RewardsBounded(payees, u, cfg.tiers, 1, amount);
    assert (s.earnings + rows)[|s.earnings|..] == rows;
  }

  /**
    A percent recharge on an arbitrary graph: the payee of each tier gets that share of the
    amount, rounded down; the recharger and everybody beyond the walk get nothing; and the
    whole payout stays within the positive percentages of the amount.
   */
  lemma PercentRechargePays(s: Tables, u: Id, amount: int, ref: Ref, cfg: ReferralConfig, v: Id)
    requires Closed(s.wallet.users) && u in s.wallet.users && amount > 0 && cfg.mode.PercentMode?
    requires v in s.wallet.users
    ensures var s' := OnRecharge(s, u, amount, ref, cfg);
            var payees := PercentPayees(s.wallet.users, u, cfg);
            && |payees| <= |cfg.tiers| && v in s'.wallet.users
            && (forall i :: 0 <= i < |payees| && payees[i] == v ==>
                  s'.wallet.users[v].balance == s.wallet.users[v].balance + Max(0, amount * cfg.tiers[i] / 100))
            && (v !in payees ==> s'.wallet.users[v].balance == s.wallet.users[v].balance)
            && |s'.earnings| >= |s.earnings|
            && Sum(s'.earnings[|s.earnings|..], Reward()) <= amount * PositiveTotal(cfg.tiers) / 100
  {
    PercentRechargeShares(s, u, amount, ref, cfg, v);
    var payees := PercentPayees(s.wallet.users, u, cfg);
    forall i | 0 <= i < |payees|
      ensures Share(amount, cfg.tiers[i]) == Max(0, amount * cfg.tiers[i] / 100)
    {
      ShareIs(amount, cfg.tiers[i]);
    }
  }

  lemma ShareIs(amount: int, pct: int)
    requires amount >= 0
    ensures Share(amount, pct) == Max(0, amount * pct / 100)
  {
    if pct > 0 {
      FloorDivision(amount, pct);
    } else {
      assert amount * pct <= 0;
    }
  }

  // ---- The reachable graph ----

  /** Every upline is an existing user of lower rank. */
  ghost predicate Ranked(users: Users, rank: map<Id, nat>)
  {
    && "" !in users
    && (forall u :: u in users ==> u in rank)
    && (forall u :: u in users && users[u].referredBy != "" ==>
          users[u].referredBy in users && rank[users[u].referredBy] < rank[u])
  }

  ghost predicate Acyclic(users: Users)
  {
    exists rank :: Ranked(users, rank)
  }

  /** The first n uplines, without any guard. */
  function Uplines(users: Users, u: Id, n: nat): seq<Id>
    decreases n
  {
    if n == 0 || ParentOf(users, u) == "" then []
    else [ParentOf(users, u)] + Uplines(users, ParentOf(users, u), n - 1)
  }

  lemma {:induction false} GuardNeverFires(users: Users, rank: map<Id, nat>, u: Id, seen: set<Id>, tiers: seq<int>)
    requires Ranked(users, rank) && u in users
    requires forall v :: v in seen ==> v in users && rank[v] >= rank[u]
    ensures Payees(users, ParentOf(users, u), seen, tiers) == Uplines(users, u, |tiers|)
    decreases |tiers|
  {
    var upline := ParentOf(users, u);
    if tiers != [] && upline != "" {
      GuardNeverFires(users, rank, upline, seen + {upline}, tiers[1..]);
    }
  }

  /** On an acyclic graph the cycle guard changes nothing. */
  lemma GuardedWalkIsPlainWalk(users: Users, u: Id, tiers: seq<int>)
    requires Acyclic(users) && u in users
    ensures Payees(users, ParentOf(users, u), {u}, tiers) == Uplines(users, u, |tiers|)
  {
    var rank :| Ranked(users, rank);
    GuardNeverFires(users, rank, u, {u}, tiers);
  }

  /** The telegram sign-up: a new account, and its upline if the referral code names another user. */
  function SignUp(w: Wallet, u: Id, code: string, referrer: Id): Wallet
  {
    if u in w.users || CodeInUse(w, code) then w
    else Apply(Apply(w, Create(u, code)), Attach(u, referrer))
  }

  /** Uplines are written once, to a user that already exists, so the graph never closes a cycle. */
  lemma SignUpAcyclic(w: Wallet, u: Id, code: string, referrer: Id)
    requires Acyclic(w.users) && u != ""
    ensures Acyclic(SignUp(w, u, code, referrer).users)
  {
    if !(u in w.users || CodeInUse(w, code)) {
      var rank :| Ranked(w.users, rank);
      var w' := SignUp(w, u, code, referrer);
      var rank' := rank[u := if referrer in w.users then rank[referrer] + 1 else 0];
      assert Ranked(w'.users, rank');
    }
  }

  lemma SameParentsAcyclic(users: Users, users': Users)
    requires Acyclic(users) && SameParents(users, users')
    ensures Acyclic(users')
  {
    var rank :| Ranked(users, rank);
    assert Ranked(users', rank);
  }

  // ---- Bookkeeping of rewards ----

  /** The credits that grant wrote for u. */
  function BonusOf(u: Id): LedgerRow -> int
  {
    (row: LedgerRow) => if row.user == u && row.ref.BonusFor? then row.delta else 0
  }

  /** Every earning has been credited, and nothing else has under that reference. */
  ghost predicate RewardsBooked(s: Tables)
  {
    forall u: Id {:trigger RewardOf(u)} :: Sum(s.wallet.ledger, BonusOf(u)) == Sum(s.earnings, RewardOf(u))
  }

  /** A fixed reward is credited at most once per upline and invitee. */
  ghost predicate FixedOnce(earnings: seq<Earning>)
  {
    forall i, j :: 0 <= i < j < |earnings| && earnings[i].mode == Fixed && earnings[j].mode == Fixed ==>
      earnings[i].user != earnings[j].user || earnings[i].from != earnings[j].from
  }

  lemma GrantBooked(s: Tables, row: Earning, ref: Ref)
    requires RewardsBooked(s) && FixedOnce(s.earnings) && row.reward > 0
    ensures RewardsBooked(Grant(s, row, ref)) && FixedOnce(Grant(s, row, ref).earnings)
  {
    var s' := Grant(s, row, ref);
    if s' != s {
      assert s'.earnings == s.earnings + [row];
      assert s'.wallet.ledger == s.wallet.ledger + [s'.wallet.ledger[|s.wallet.ledger|]];
      forall u: Id
        ensures Sum(s'.wallet.ledger, BonusOf(u)) == Sum(s'.earnings, RewardOf(u))
      {
        SumAppend(s.earnings, row, RewardOf(u));
        SumAppend(s.wallet.ledger, s'.wallet.ledger[|s.wallet.ledger|], BonusOf(u));
        assert Sum(s.wallet.ledger, BonusOf(u)) == Sum(s.earnings, RewardOf(u));
      }
    }
  }

  /** A fixed reward goes out exactly when the invitee qualifies and the pair was not rewarded yet. */
  lemma FixedPaidIff(s: Tables, u: Id, amount: int, ref: Ref, cfg: ReferralConfig)
    requires cfg.mode.FixedMode? && u in s.wallet.users && s.wallet.users[u].referredBy in s.wallet.users
    requires "" !in s.wallet.users
    ensures var upline := s.wallet.users[u].referredBy;
            var s' := OnRecharge(s, u, amount, ref, cfg);
            var due := amount > 0 && cfg.fixed > 0 && !AlreadyRewarded(s.earnings, upline, u)
                       && (cfg.qualify <= 0 || Sum(s.wallet.ledger, RechargeOf(u)) >= cfg.qualify);
            && (s'.earnings != s.earnings <==> due)
            && s'.wallet.users[upline].balance == s.wallet.users[upline].balance + (if due then cfg.fixed else 0)
  {
  }
}
