/**
  Where the promises that the code does not keep fail: each lemma below shows one failing at a
  state that a run from the empty database reaches.
 */
module Reachability {
  import opened Wallets
  import opened Billing
  import opened Accounting
  import opened Charging
  import opened Referral
  import opened Purchase
  import opened Protocol
  import opened Safety
  import opened Credit

  ghost predicate Reachable(s: Tables)
  {
    exists events :: AllAdmissible(EMPTY_TABLES, events) && RunAll(EMPTY_TABLES, events) == s
  }

  lemma {:induction false} RunOneMore(s: Tables, events: seq<Event>, last: Event)
    requires AllAdmissible(s, events) && Admissible(RunAll(s, events), last.step)
    ensures AllAdmissible(s, events + [last])
    ensures RunAll(s, events + [last]) == Next(RunAll(s, events), last.step, last.now)
    decreases |events|
  {
    if events == [] {
      assert [last][1..] == [] && events + [last] == [last];
      assert AllAdmissible(Next(s, last.step, last.now), []);
    } else {
      RunOneMore(Next(s, events[0].step, events[0].now), events[1..], last);
      assert (events + [last])[1..] == events[1..] + [last];
    }
  }

  lemma EmptyReachable()
    ensures Reachable(EMPTY_TABLES)
  {
    assert AllAdmissible(EMPTY_TABLES, []) && RunAll(EMPTY_TABLES, []) == EMPTY_TABLES;
  }

  lemma NextReachable(s: Tables, step: Step, now: int)
    requires Reachable(s) && Admissible(s, step)
    ensures Reachable(Next(s, step, now))
  {
    var events :| AllAdmissible(EMPTY_TABLES, events) && RunAll(EMPTY_TABLES, events) == s;
    RunOneMore(EMPTY_TABLES, events, Event(step, now));
  }

  lemma ReachableIsSafe(s: Tables)
    requires Reachable(s)
    ensures Sound(s) && Funded(s) && Books(s)
  {
    var events :| AllAdmissible(EMPTY_TABLES, events) && RunAll(EMPTY_TABLES, events) == s;
    EmptyIsSafe();
    EveryRunIsSafe(EMPTY_TABLES, events);
  }

  // ---- One user with five credits and one key with a small quota that overflows to the wallet ----

  const NO_REFERRALS := ReferralConfig(NoRewards, [], 0, 0)
  const RECHARGED := LedgerRow("u", 5, Recharge, NoRef, SYSTEM, 5)
  const FIVE := Wallet(map["u" := User(5, Prepaid, 0, "c", "")], [RECHARGED])

  function KeyOf(kind: QuotaKind, amount: nat, used: nat): Key
  {
    Key("u", kind, Lifetime, amount, used, 0, 0, 0, true, -1, Active)
  }

  function WithKey(key: Key, rows: seq<Reservation>): Tables
  {
    Tables(FIVE, map["k" := key], rows, [], [], [])
  }

  lemma RechargedReachable()
    ensures Reachable(Tables(FIVE, map[], [], [], [], []))
  {
    var s1 := Tables(Wallet(map["u" := User(0, Prepaid, 0, "c", "")], []), map[], [], [], [], []);
    var recharge := AdminRecharge("u", 5, Recharge, "", SYSTEM, NO_REFERRALS);
    EmptyReachable();
    NextReachable(EMPTY_TABLES, NewUser("u", "c", ""), 1);
    assert Next(EMPTY_TABLES, NewUser("u", "c", ""), 1) == s1;
    NextReachable(s1, recharge, 1);
    assert Adjust(s1.wallet, "u", 5, Recharge, Given(""), SYSTEM) == Adjusted(FIVE, 5);
    assert Next(s1, recharge, 1) == s1.(wallet := FIVE);
  }

  lemma KeyReachable(kind: QuotaKind, amount: nat)
    ensures Reachable(WithKey(KeyOf(kind, amount, 0), []))
  {
    var s1 := Tables(FIVE, map[], [], [], [], []);
    var s2 := WithKey(KeyOf(kind, amount, 0).(overflow := false), []);
    RechargedReachable();
    NextReachable(s1, NewKey("k", "u", kind, Lifetime, amount, 0, -1), 1);
    assert Next(s1, NewKey("k", "u", kind, Lifetime, amount, 0, -1), 1) == s2;
    NextReachable(s2, SetOverflow("k", true), 1);
    assert Next(s2, SetOverflow("k", true), 1) == WithKey(KeyOf(kind, amount, 0), []);
  }

  /** The key's whole quota, on hold for request a. */
  function HeldA(amount: nat): Reservation
  {
    Reservation("a", "k", "u", amount, KeyQuota, Open, 1)
  }

  function QuotaHeld(kind: QuotaKind, amount: nat): Tables
  {
    WithKey(KeyOf(kind, amount, amount), [HeldA(amount)])
  }

  lemma QuotaHeldReachable(kind: QuotaKind, amount: nat)
    requires kind != Unlimited && 0 < amount <= HoldAmount(kind, 5)
    ensures Reachable(QuotaHeld(kind, amount))
  {
    var s := WithKey(KeyOf(kind, amount, 0), []);
    KeyReachable(kind, amount);
    NextReachable(s, Intercept("a", "k", 5), 1);
    assert s.keys["k" := s.keys["k"]] == s.keys;
    assert Placement(s, "a", "k", "u", 5, 1) == Some(HeldA(amount));
    assert Place(s, HeldA(amount)) == QuotaHeld(kind, amount);
  }

  /** A request key of one: request a holds the unit, request b the wallet's five credits. */
  const HELD_B := Reservation("b", "k", "u", 5, UserWallet, Open, 2)
  const DEBITED := LedgerRow("u", -5, Held, HoldOf("b"), SYSTEM, 0)
  const OVERLAP :=
    Tables(Wallet(map["u" := User(0, Prepaid, 0, "c", "")], [RECHARGED, DEBITED]),
           map["k" := KeyOf(Request, 1, 1)], [HeldA(1), HELD_B], [], [], [])

  lemma OverlapReachable()
    ensures Reachable(OVERLAP)
  {
    var s := QuotaHeld(Request, 1);
    QuotaHeldReachable(Request, 1);
    assert NewRequest(s, "b") by {
      assert s.wallet.ledger == [RECHARGED] && s.reservations == [HeldA(1)];
    }
    NextReachable(s, Intercept("b", "k", 5), 2);
    assert s.keys["k" := s.keys["k"]] == s.keys;
    assert Placement(s, "b", "k", "u", 5, 2) == Some(HELD_B);
    assert MoveWallet(s, "u", -5, Held, HoldOf("b")).wallet == OVERLAP.wallet;
    assert [HeldA(1)][..0] == [] && Without([HeldA(1)], "b") == [HeldA(1)];
    assert Place(s, HELD_B) == OVERLAP;
  }

  // ---- What fails there ----

  lemma OverlapOldest()
    ensures IsOpenOn(OVERLAP, "k", 0) && IsOpenOn(OVERLAP, "k", 1) && OldestOpen(OVERLAP, "k", Some(0))
  {
    assert OVERLAP.reservations[0] == HeldA(1) && OVERLAP.reservations[1] == HELD_B;
  }

  /**
    Charging b settles a: b's record shows five credits from the wallet, which b's own hold
    covers, and the wallet pays nothing.
   */
  lemma OverlapMisleads()
    ensures var step := UsageEvent(UsageRecord("k", "b", 5), 5, Some(0));
            var s' := ChargeCurrent(OVERLAP, step.rec, 5, Some(0), 3);
            && Reachable(OVERLAP) && Admissible(OVERLAP, step) && |s'.usage| == 1 && "u" in s'.wallet.users
            && s'.usage[0].source == Some(UserWallet)
            && s'.usage[0].cost != Available(OVERLAP, "u") - Available(s', "u")
  {
    var rec := UsageRecord("k", "b", 5);
    OverlapReachable();
    OverlapOldest();
    ReachableIsSafe(OVERLAP);
    assert OVERLAP.reservations[1] == HELD_B;
    assert WalletFunded(OVERLAP.reservations, "b");
    RecordAppended(OVERLAP, rec, 5, Some(0), 3);
    RecordShowsDebitIff(OVERLAP, rec, 5, Some(0), 3);
  }

  /** A charge of b is not certain to settle b's reservation. */
  lemma OverlapSettlesAnother()
    ensures Reachable(OVERLAP) && IsOpenOn(OVERLAP, "k", 1)
    ensures exists pick :: OldestOpen(OVERLAP, "k", pick) && pick != Some(1)
  {
    OverlapReachable();
    OverlapOldest();
  }

  /** Deleting the key loses the five credits on hold. */
  lemma DeletionLosesCredit()
    ensures Reachable(OVERLAP)
    ensures exists u :: u in OVERLAP.wallet.users && Available(Delete(OVERLAP, "k"), u) != Available(OVERLAP, u)
  {
    OverlapReachable();
    OverlapOldest();
    ReachableIsSafe(OVERLAP);
    assert OVERLAP.reservations[1] == HELD_B;
    assert HoldsCredit(OVERLAP, "k");
    DeleteKeepsCreditIff(OVERLAP, "k");
  }

  /** A renewal by minus one leaves the key over its quota. */
  lemma RenewalOverQuota()
    ensures var s := QuotaHeld(Request, 1);
            Reachable(s) && WithinQuota(s) && !WithinQuota(Next(s, RenewKey("k", -1, 0, 0), 2))
  {
    QuotaHeldReachable(Request, 1);
    var s' := Next(QuotaHeld(Request, 1), RenewKey("k", -1, 0, 0), 2);
    assert "k" in s'.keys && s'.keys["k"].used == 1 && s'.keys["k"].amount == 0;
  }

  /** A switch under the hold: the release then gives nothing back. */
  lemma SwitchLosesRefund()
    ensures var s := Next(QuotaHeld(Request, 1), SwitchQuota("k", None, None, 0, 0), 2);
            && Reachable(s) && Releasable(s, "a") && Release(s, "a").keys == s.keys
            && HeldA(1) in s.reservations
  {
    var s0 := QuotaHeld(Request, 1);
    var s := Next(s0, SwitchQuota("k", None, None, 0, 0), 2);
    QuotaHeldReachable(Request, 1);
    NextReachable(s0, SwitchQuota("k", None, None, 0, 0), 2);
    ReachableIsSafe(s);
    assert s.reservations[0] == HeldA(1);
    assert Find(s.reservations, "a") == Some(0);
    ReleaseRefundsIff(s, "a", "k");
  }

  /** Holding request a again replaces its row: the unit it held is neither on hold nor given back. */
  lemma HoldAgainLosesHold()
    ensures var s := QuotaHeld(Request, 1);
            Reachable(s) && !BooksKept(EnsurePeriod(s, "k", 2), Hold(s, "a", "k", "u", 5, 2))
  {
    var s := QuotaHeld(Request, 1);
    QuotaHeldReachable(Request, 1);
    ReachableIsSafe(s);
    assert s.reservations[0] == HeldA(1);
    HoldConservesIff(s, "a", "k", "u", 5, 2);
  }

  const PACKAGE := Package("p", Request, Lifetime, 1, 0, 0, 3)
  const PURCHASE := BuyRequest("u", Some(PACKAGE), NEW_KEY, "")

  /** A purchase that cannot store its key keeps the three credits it debited. */
  lemma PurchaseLosesPrice()
    ensures var s := Tables(FIVE, map[], [], [], [], []);
            var s' := Next(s, BuyPackage(PURCHASE, "k", Faults(true, false)), 2);
            && Reachable(s) && s'.orders == s.orders && s'.keys == s.keys
            && "u" in s'.wallet.users && s'.wallet.users["u"].balance == 2
  {
    RechargedReachable();
  }

  /** Two tokens of quota stay consumed, and the wallet pays for all five tokens. */
  lemma TokensPaidTwice()
    ensures var s := QuotaHeld(Token, 2);
            var rec := UsageRecord("k", "a", 5);
            && Reachable(s) && OldestOpen(s, "k", Some(0)) && "k" in s.keys && "u" in s.wallet.users
            && QuotaSpend(s, rec, 5, Some(0)) == 2 && WalletSpend(s, rec, 5, Some(0), "u") == 5 == Cost(rec, 5)
  {
    var s := QuotaHeld(Token, 2);
    QuotaHeldReachable(Token, 2);
    assert s.reservations[0] == HeldA(2) && IsOpenOn(s, "k", 0);
    assert !WalletFunded(s.reservations, "a");
  }
}
