/** Available credit over runs of the request protocol, and what one request costs its owner. */
module Credit {
  import opened Sums
  import opened Wallets
  import opened Billing
  import opened Accounting
  import opened Charging
  import opened Protocol
  import opened Safety

  /** The credit a step costs the wallet of u for good. */
  function StepCost(s: Tables, step: Step, now: int, u: Id): int
  {
    if step.UsageEvent? && step.rec.key in s.keys && s.keys[step.rec.key].owner in s.wallet.users
       && step.rec.tokens > 0 && PickOpen(s, step.rec.key, step.pick)
    then WalletSpend(EnsurePeriod(s, step.rec.key, now), step.rec, step.priced, step.pick, u) else 0
  }

  lemma InterceptAvailable(s: Tables, request: Id, k: Id, estimate: nat, now: int, u: Id)
    requires Sound(s) && NewRequest(s, request) && u in s.wallet.users
    ensures var s' := Next(s, Intercept(request, k, estimate), now);
            u in s'.wallet.users && Available(s', u) == Available(s, u)
  {
    if k in s.keys && request != "" {
      HoldLaw(s, request, k, s.keys[k].owner, estimate, now, k, u);
      DisplacedNothing(s, request, k, u);
    }
  }

  lemma UsageAvailable(s: Tables, rec: UsageRecord, priced: int, pick: Option<nat>, now: int, u: Id)
    requires Sound(s) && u in s.wallet.users
    ensures var step := UsageEvent(rec, priced, pick); var s' := Next(s, step, now);
            u in s'.wallet.users && Available(s', u) == Available(s, u) - StepCost(s, step, now, u)
  {
    if rec.key in s.keys && rec.tokens > 0 && PickOpen(s, rec.key, pick) {
      EnsurePeriodSound(s, rec.key, now);
      ChargeLaw(EnsurePeriod(s, rec.key, now), rec, priced, pick, now, rec.key, u);
    }
  }

  lemma StepAvailable(s: Tables, step: Step, now: int, u: Id)
    requires Sound(s) && Admissible(s, step) && RequestStep(step) && u in s.wallet.users
    ensures var s' := Next(s, step, now);
            u in s'.wallet.users && Available(s', u) == Available(s, u) - StepCost(s, step, now, u)
  {
    match step
    case Intercept(request, k, estimate) => InterceptAvailable(s, request, k, estimate, now, u);
    case UsageEvent(rec, priced, pick) => UsageAvailable(s, rec, priced, pick, now, u);
    case Complete(_, _) => ReleaseStepAvailable(s, step, now, u);
    case Boot(_) => ReleaseStepAvailable(s, step, now, u);
  }

  lemma ReleaseStepAvailable(s: Tables, step: Step, now: int, u: Id)
    requires Sound(s) && (step.Complete? || step.Boot?) && u in s.wallet.users
    ensures var s' := Next(s, step, now);
            u in s'.wallet.users && Available(s', u) == Available(s, u)
  {
    if step.Complete? {
      ReleaseAvailable(s, [step.request], u);
    } else {
      ReleaseAvailable(s, StaleIds(s.reservations, now - step.maxAge), u);
    }
  }

  lemma {:induction false} ReleaseAvailable(s: Tables, ids: seq<Id>, u: Id)
    requires Sound(s) && u in s.wallet.users
    ensures u in ReleaseAll(s, ids).wallet.users && Available(ReleaseAll(s, ids), u) == Available(s, u)
    ensures |ids| == 1 ==> ReleaseAll(s, ids) == Release(s, ids[0])
  {
    if ids != [] {
      var front := ReleaseAll(s, ids[..|ids| - 1]);
      ReleaseAvailable(s, ids[..|ids| - 1], u);
      ReleaseAllSound(s, ids[..|ids| - 1]);
      if Releasable(front, ids[|ids| - 1]) {
        var i := Find(front.reservations, ids[|ids| - 1]).value;
        assert RowSound(front, front.reservations[i]);
        ReleaseLaw(front, ids[|ids| - 1], front.reservations[i].key, u);
      }
    }
  }

  function RunCost(s: Tables, events: seq<Event>, u: Id): int
    decreases |events|
  {
    if events == [] then 0
    else
      StepCost(s, events[0].step, events[0].now, u)
      + RunCost(Next(s, events[0].step, events[0].now), events[1..], u)
  }

  /**
    Wallet conservation over every run of requests: balance plus open holds falls by what the
    usage records cost and by nothing else; holds, releases and crash recovery are free.
   */
  lemma {:induction false} AvailableFallsByCost(s: Tables, events: seq<Event>, u: Id)
    requires Sound(s) && AllAdmissible(s, events) && u in s.wallet.users
    requires forall i :: 0 <= i < |events| ==> RequestStep(events[i].step)
    ensures var s' := RunAll(s, events);
            u in s'.wallet.users && Available(s', u) == Available(s, u) - RunCost(s, events, u)
    decreases |events|
  {
    if events != [] {
      StepAvailable(s, events[0].step, events[0].now, u);
      StepTables(s, events[0].step, events[0].now);
      AvailableFallsByCost(Next(s, events[0].step, events[0].now), events[1..], u);
    }
  }

  // ---- Deleting a key ----

  /** An open reservation of the key with wallet credit on hold. */
  ghost predicate HoldsCredit(s: Tables, k: Id)
  {
    exists i :: IsOpenOn(s, k, i) && s.reservations[i].source == UserWallet && s.reservations[i].hold > 0
  }

  /** The wallet credit of u on hold for key k. */
  function CreditOn(k: Id, u: Id): Reservation -> int
  {
    (r: Reservation) => if r.key == k then OpenWalletOf(u)(r) else 0
  }

  lemma {:induction false} WithoutKeyCredit(rows: seq<Reservation>, k: Id, u: Id)
    ensures Sum(WithoutKey(rows, k), OpenWalletOf(u)) == Sum(rows, OpenWalletOf(u)) - Sum(rows, CreditOn(k, u))
  {
    if rows != [] {
      WithoutKeyCredit(rows[..|rows| - 1], k, u);
      SumAppend(WithoutKey(rows[..|rows| - 1], k), rows[|rows| - 1], OpenWalletOf(u));
    }
  }

  /**
    Deleting a key cascades to its reservations, so credit on hold for it is lost: everybody
    keeps what he has available exactly when no wallet credit is on hold for the key, or an
    order keeps it from being deleted.
   */
  lemma DeleteKeepsCreditIff(s: Tables, k: Id)
    requires Sound(s)
    ensures (forall u :: u in s.wallet.users ==> Available(Delete(s, k), u) == Available(s, u))
            <==> (!HoldsCredit(s, k) || HasOrder(s, k))
  {
    if !HasOrder(s, k) {
      forall u | u in s.wallet.users
        ensures Available(Delete(s, k), u) == Available(s, u) - Sum(s.reservations, CreditOn(k, u))
        ensures !HoldsCredit(s, k) ==> Sum(s.reservations, CreditOn(k, u)) == 0
      {
        WithoutKeyCredit(s.reservations, k, u);
        if !HoldsCredit(s, k) {
          NoCreditOn(s, k, u);
        }
      }
      if HoldsCredit(s, k) {
        var i :| IsOpenOn(s, k, i) && s.reservations[i].source == UserWallet && s.reservations[i].hold > 0;
        var u := s.reservations[i].user;
        assert RowSound(s, s.reservations[i]);
        forall j | 0 <= j < |s.reservations|
          ensures CreditOn(k, u)(s.reservations[j]) >= 0
        {
          assert RowSound(s, s.reservations[j]);
        }
        SumCovers(s.reservations, CreditOn(k, u));
        assert CreditOn(k, u)(s.reservations[i]) > 0;
      }
    }
  }

  lemma NoCreditOn(s: Tables, k: Id, u: Id)
    requires Sound(s) && !HoldsCredit(s, k)
    ensures Sum(s.reservations, CreditOn(k, u)) == 0
  {
    forall j | 0 <= j < |s.reservations|
      ensures CreditOn(k, u)(s.reservations[j]) == 0
    {
      var row := s.reservations[j];
      assert RowSound(s, row);
      if IsOpenOn(s, k, j) && row.source == UserWallet {
        assert row.hold == 0;
      }
      assert OpenWalletOf(u)(row) == 0 || row.key != k;
    }
    SumZero(s.reservations, CreditOn(k, u));
  }

  // ---- One request ----

  /** Events that are records of failed attempts: no tokens, so nothing is charged. */
  predicate Attempts(events: seq<Event>)
  {
    forall i :: 0 <= i < |events| ==> events[i].step.UsageEvent? && events[i].step.rec.tokens == 0
  }

  lemma {:induction false} AttemptsOnlyLog(s: Tables, events: seq<Event>)
    requires Attempts(events)
    ensures RunAll(s, events) == s.(usage := RunAll(s, events).usage)
    decreases |events|
  {
    if events != [] {
      AttemptsOnlyLog(Next(s, events[0].step, events[0].now), events[1..]);
    }
  }

  /**
    A failed request is free: a hold, any number of attempts without tokens and a completion
    that did not succeed leave every balance and every key as they were, apart from the period
    reset the hold may have made.
   */
  lemma FailedRequestIsFree(s: Tables, request: Id, k: Id, estimate: nat, now: int, attempts: seq<Event>, later: int)
    requires Sound(s) && NewRequest(s, request) && request != "" && k in s.keys && Attempts(attempts)
    ensures var held := Next(s, Intercept(request, k, estimate), now);
            var s' := Next(RunAll(held, attempts), Complete(request, false), later);
            && s'.keys == EnsurePeriod(s, k, now).keys
            && s'.wallet.users == s.wallet.users
  {
    var e := EnsurePeriod(s, k, now);
    var u := s.keys[k].owner;
    var held := Next(s, Intercept(request, k, estimate), now);
    var tried := RunAll(held, attempts);
    EnsurePeriodSound(s, k, now);
    AttemptsOnlyLog(held, attempts);
    PlacementPlaceable(e, request, k, u, estimate, now);
    var placed := Placement(e, request, k, u, estimate, now);
    if placed.None? {
      NotFound(s.reservations, request);
    } else {
      PlaceThenRelease(e, placed.value, tried);
    }
  }

  lemma NotFound(rows: seq<Reservation>, id: Id)
    requires forall i :: 0 <= i < |rows| ==> rows[i].id != id
    ensures Find(rows, id).None?
  {
  }

  /** Releasing a hold right after it was placed gives back exactly what was taken. */
  lemma PlaceThenRelease(s: Tables, row: Reservation, tried: Tables)
    requires Sound(s) && Placeable(s, row) && NewRequest(s, row.id)
    requires tried == Place(s, row).(usage := tried.usage)
    ensures Release(tried, row.id).keys == s.keys
    ensures Release(tried, row.id).wallet.users == s.wallet.users
  {
    PlaceEffect(s, row);
    PlaceSound(s, row);
    WithoutFresh(s.reservations, row.id);
    UsageOnly(Place(s, row), tried);
    GiveAllBack(s, row, tried);
  }

  lemma GiveAllBack(s: Tables, row: Reservation, tried: Tables)
    requires Sound(s) && RowSound(s, row) && row.status == Open && Sound(tried)
    requires tried.reservations == s.reservations + [row]
    requires KeysKept(s, tried) && tried.wallet.users.Keys == s.wallet.users.Keys
    requires forall k :: k in s.keys ==> tried.keys[k].used == s.keys[k].used + OnQuota(row, k, row.hold)
    requires forall u :: u in s.wallet.users ==> UserMoved(s, tried, u, -OnWallet(row, u, row.hold))
    ensures Release(tried, row.id).keys == s.keys
    ensures Release(tried, row.id).wallet.users == s.wallet.users
  {
    var i := |s.reservations|;
    assert Find(tried.reservations, row.id) == Some(i);
    if row.hold > 0 {
      assert Release(tried, row.id) == CloseAt(tried, i, row.hold, ReleaseOf(row.id), Released);
      CloseEffect(tried, i, row.hold, ReleaseOf(row.id), Released);
      TakenAndReturned(s, tried, CloseAt(tried, i, row.hold, ReleaseOf(row.id), Released), row);
    } else {
      TakenAndReturned(s, tried, tried, row);
    }
  }

  lemma TakenAndReturned(s: Tables, taken: Tables, back: Tables, row: Reservation)
    requires Sound(s) && RowSound(s, row) && KeysKept(s, taken) && KeysKept(taken, back)
    requires taken.wallet.users.Keys == s.wallet.users.Keys == back.wallet.users.Keys
    requires forall k :: k in s.keys ==> taken.keys[k].used == s.keys[k].used + OnQuota(row, k, row.hold)
    requires forall k :: k in taken.keys ==> back.keys[k].used == taken.keys[k].used - OnQuota(row, k, row.hold)
    requires forall u :: u in s.wallet.users ==> UserMoved(s, taken, u, -OnWallet(row, u, row.hold))
    requires forall u :: u in taken.wallet.users ==> UserMoved(taken, back, u, OnWallet(row, u, row.hold))
    ensures back.keys == s.keys && back.wallet.users == s.wallet.users
  {
    forall k | k in s.keys
      ensures k in back.keys && back.keys[k] == s.keys[k]
    {
      assert SameTerms(s.keys[k], taken.keys[k]) && SameTerms(taken.keys[k], back.keys[k]);
    }
    forall u | u in s.wallet.users
      ensures u in back.wallet.users && back.wallet.users[u] == s.wallet.users[u]
    {
      assert UserMoved(s, taken, u, -OnWallet(row, u, row.hold))
        && UserMoved(taken, back, u, OnWallet(row, u, row.hold));
    }
  }

  /** What a request held on the wallet costs when its own reservation is the one settled. */
  lemma WalletRequestCost(s: Tables, rec: UsageRecord, priced: int, i: nat)
    requires Sound(s) && Funded(s) && rec.key in s.keys && rec.tokens > 0 && IsOpenOn(s, rec.key, i)
    requires s.reservations[i].id == rec.request != "" && s.reservations[i].source == UserWallet
    ensures var owner := s.keys[rec.key].owner;
            var hold := s.reservations[i].hold;
            var cost := Cost(rec, priced);
            && owner in s.wallet.users
            && WalletSpend(s, rec, priced, Some(i), owner)
               == (if cost <= hold || CanSpend(s.wallet.users[owner], cost - hold) then cost else hold)
            && 0 <= WalletSpend(s, rec, priced, Some(i), owner) <= cost
            && QuotaSpend(s, rec, priced, Some(i)) == 0
  {
    var row := s.reservations[i];
    assert RowSound(s, row) && row.status == Open;
    assert WalletFunded(s.reservations, rec.request);
    ActualPositive(s, rec, priced);
  }

  /** A spent key whose owner's wallet takes the hold. */
  predicate WalletTakesHold(s: Tables, k: Id, estimate: nat, now: int)
    requires k in s.keys
  {
    var key := Refreshed(s.keys[k], now);
    Spent(key) && key.overflow && key.owner in s.wallet.users && CanSpend(s.wallet.users[key.owner], estimate)
  }

  /** Holding on the wallet, with no other open reservation of the key. */
  lemma HeldOnWallet(s: Tables, request: Id, k: Id, estimate: nat, now: int)
    requires Sound(s) && Funded(s) && NewRequest(s, request) && request != "" && k in s.keys && !HasOpen(s, k)
    requires WalletTakesHold(s, k, estimate, now)
    ensures var held := Next(s, Intercept(request, k, estimate), now);
            var owner := s.keys[k].owner;
            && Sound(held) && Funded(held) && owner in held.wallet.users
            && held.reservations == s.reservations + [Reservation(request, k, owner, estimate, UserWallet, Open, now)]
            && k in held.keys && held.keys[k].owner == owner && held.keys[k].used == Refreshed(s.keys[k], now).used
            && held.wallet.users[owner] == s.wallet.users[owner].(balance := s.wallet.users[owner].balance - estimate)
  {
    var owner := s.keys[k].owner;
    HoldSound(s, request, k, owner, estimate, now);
    HoldTakes(s, request, k, owner, estimate, now);
  }

  /** The only open reservation of the key is the one Settle selects. */
  lemma OnlyOpenIsPicked(s: Tables, held: Tables, row: Reservation, pick: Option<nat>)
    requires !HasOpen(s, row.key) && row.status == Open && held.reservations == s.reservations + [row]
    requires OldestOpen(held, row.key, pick)
    ensures pick == Some(|s.reservations|)
  {
    assert IsOpenOn(held, row.key, |s.reservations|);
    assert pick.Some?;
    if pick.value < |s.reservations| {
      assert IsOpenOn(s, row.key, pick.value);
    }
  }

  /**
    A serial request held on the wallet, from hold to charge: it settles its own reservation,
    costs the owner its cost if the wallet covers that and otherwise the hold, and leaves the
    key's quota as the period refresh left it.
   */
  lemma SerialWalletRequest(s: Tables, rec: UsageRecord, estimate: nat, now: int, priced: int, pick: Option<nat>,
                            later: int)
    requires Sound(s) && Funded(s) && NewRequest(s, rec.request) && rec.request != "" && rec.tokens > 0
    requires rec.key in s.keys && !HasOpen(s, rec.key) && WalletTakesHold(s, rec.key, estimate, now)
    requires var held := Next(s, Intercept(rec.request, rec.key, estimate), now);
             && OldestOpen(held, rec.key, pick) && rec.key in held.keys && !PeriodDue(held.keys[rec.key], later)
    ensures var owner := s.keys[rec.key].owner;
            var cost := Cost(rec, priced);
            var s' := Next(Next(s, Intercept(rec.request, rec.key, estimate), now), UsageEvent(rec, priced, pick),
                           later);
            && owner in s.wallet.users && owner in s'.wallet.users && rec.key in s'.keys
            && s'.reservations
               == s.reservations + [Reservation(rec.request, rec.key, owner, estimate, UserWallet, Closed, now)]
            && s.wallet.users[owner].balance - s'.wallet.users[owner].balance
               == (if cost <= estimate || CanSpend(s.wallet.users[owner], cost) then cost else estimate)
            && s'.keys[rec.key].used == Refreshed(s.keys[rec.key], now).used
  {
    var k := rec.key;
    var held := Next(s, Intercept(rec.request, k, estimate), now);
    HeldOnWallet(s, rec.request, k, estimate, now);
    OnlyOpenIsPicked(s, held, held.reservations[|s.reservations|], pick);
    assert EnsurePeriod(held, k, later) == held by {
      assert held.keys == held.keys[k := held.keys[k]];
    }
    var s' := ChargeCurrent(held, rec, priced, pick, later);
    ChargeOwnWalletHold(held, rec, priced, pick.value, later);
    assert Next(held, UsageEvent(rec, priced, pick), later) == s';
    assert s'.reservations
        == s.reservations + [Reservation(rec.request, k, s.keys[k].owner, estimate, UserWallet, Closed, now)];
  }

  /** Charging a request that settles its own wallet hold. */
  lemma ChargeOwnWalletHold(s: Tables, rec: UsageRecord, priced: int, i: nat, now: int)
    requires Sound(s) && Funded(s) && rec.key in s.keys && rec.tokens > 0 && IsOpenOn(s, rec.key, i)
    requires s.reservations[i].id == rec.request && s.reservations[i].source == UserWallet
    ensures var s' := ChargeCurrent(s, rec, priced, Some(i), now);
            var owner := s.keys[rec.key].owner;
            var hold := s.reservations[i].hold;
            var cost := Cost(rec, priced);
            && s'.reservations == s.reservations[i := s.reservations[i].(status := Closed)]
            && owner in s.wallet.users && owner in s'.wallet.users && rec.key in s'.keys
            && s.wallet.users[owner].balance + hold - s'.wallet.users[owner].balance
               == (if cost <= hold || CanSpend(s.wallet.users[owner], cost - hold) then cost else hold)
            && s'.keys[rec.key].used == s.keys[rec.key].used
  {
    var row := s.reservations[i];
    var row' := row.(status := Closed);
    var owner := s.keys[rec.key].owner;
    assert RowSound(s, row);
    WalletRequestCost(s, rec, priced, i);
    ChargeRows(s, rec, priced, Some(i), now);
    ChargeLaw(s, rec, priced, Some(i), now, rec.key, owner);
    SumUpdate(s.reservations, i, row', OpenWalletOf(owner));
    SumUpdate(s.reservations, i, row', OpenQuotaOn(rec.key));
  }

  // ---- What the usage record shows ----

  /** What a charge owes beyond the settled hold. */
  function Owed(s: Tables, rec: UsageRecord, priced: int, pick: Option<nat>): int
    requires rec.key in s.keys && PickOpen(s, rec.key, pick)
  {
    if Settles(rec, pick) then Actual(s, rec, priced) - s.reservations[pick.value].hold else UnitSpend(s, rec, priced)
  }

  /** Whether the wallet pays for the record: its request is held there, or it overflows. */
  predicate ViaWallet(s: Tables, rec: UsageRecord, priced: int, pick: Option<nat>)
    requires rec.key in s.keys && s.keys[rec.key].owner in s.wallet.users && PickOpen(s, rec.key, pick)
  {
    (Settles(rec, pick) && WalletFunded(s.reservations, rec.request))
    || Overflowed(s, s.keys[rec.key], Owed(s, rec, priced, pick), Cost(rec, priced)) > 0
  }

  lemma PayAppends(s: Tables, key: Key, rec: UsageRecord, extra: int, cost: int, now: int)
    requires key.owner in s.wallet.users && cost > 0
    ensures var s' := Pay(s, key, rec, extra, cost, now);
            && |s'.usage| == |s.usage| + 1 && s'.usage[..|s.usage|] == s.usage
            && var shown := s'.usage[|s.usage|];
            && shown.key == rec.key && shown.user == key.owner && shown.request == rec.request
            && shown.cost == (if shown.billed then cost else 0) && (shown.billed <==> shown.source.Some?)
            && (shown.source == Some(UserWallet) <==> Overflowed(s, key, extra, cost) > 0)
            && (shown.source == Some(KeyQuota) <==>
                  key.kind.Unlimited? || extra <= 0 || extra <= key.amount - key.used)
  {
  }

  /** The record every charge appends. */
  lemma RecordAppended(s: Tables, rec: UsageRecord, priced: int, pick: Option<nat>, now: int)
    requires Sound(s) && rec.key in s.keys && rec.tokens > 0 && PickOpen(s, rec.key, pick)
    ensures var key := s.keys[rec.key];
            var s' := ChargeCurrent(s, rec, priced, pick, now);
            && key.owner in s.wallet.users
            && |s'.usage| == |s.usage| + 1 && s'.usage[..|s.usage|] == s.usage
            && var shown := s'.usage[|s.usage|];
            && shown.key == rec.key && shown.user == key.owner && shown.request == rec.request
            && shown.cost == (if shown.billed then Cost(rec, priced) else 0) && (shown.billed <==> shown.source.Some?)
            && (shown.source == Some(UserWallet) <==> ViaWallet(s, rec, priced, pick))
            && (shown.source == Some(KeyQuota) <==>
                  !(Settles(rec, pick) && WalletFunded(s.reservations, rec.request))
                  && (Owed(s, rec, priced, pick) <= 0 || Owed(s, rec, priced, pick) <= key.amount - key.used))
  {
    var key := s.keys[rec.key];
    var cost := Cost(rec, priced);
    ActualPositive(s, rec, priced);
    if Settles(rec, pick) {
      SettledTables(s, rec, priced, pick.value);
      PayAppends(SettleAt(s, pick.value, Actual(s, rec, priced)), key, rec, Max(0, Owed(s, rec, priced, pick)), cost,
                 now);
    } else {
      PayAppends(s, key, rec, UnitSpend(s, rec, priced), cost, now);
    }
  }

  /** The request already counts, or its key never does: the record asks nothing of the key. */
  predicate AsksNothing(s: Tables, rec: UsageRecord)
    requires rec.key in s.keys
  {
    s.keys[rec.key].kind.Unlimited?
    || (s.keys[rec.key].kind.Request? && rec.request != "" && AlreadyBilled(s.usage, rec.key, rec.request))
  }

  /**
    When a record tells what the wallet paid, by the row that is settled, its own or another
    request's, and what was known before the charge.
   */
  predicate TellsWallet(s: Tables, rec: UsageRecord, priced: int, pick: Option<nat>)
    requires rec.key in s.keys && s.keys[rec.key].owner in s.wallet.users && PickOpen(s, rec.key, pick)
  {
    Settles(rec, pick) ==>
      var settled := s.reservations[pick.value];
      var owner := s.wallet.users[s.keys[rec.key].owner];
      var cost := Cost(rec, priced);
      if !WalletFunded(s.reservations, rec.request) then
        settled.source == KeyQuota || settled.hold == 0 || AsksNothing(s, rec)
      else if settled.source == UserWallet then
        cost <= settled.hold || CanSpend(owner, cost - settled.hold)
      else
        settled.hold == 0 && CanSpend(owner, cost)
  }

  /**
    The record shows the full cost if it was billed and nothing otherwise. What it shows for the
    wallet is what the wallet paid if and only if TellsWallet, whichever open row of the key the
    charge settles: a request held on the wallet must settle a wallet hold that covers the cost or
    leaves the wallet able to pay the rest, and any other request must not settle a wallet hold.
   */
  lemma RecordShowsDebitIff(s: Tables, rec: UsageRecord, priced: int, pick: Option<nat>, now: int)
    requires Sound(s) && Funded(s) && rec.key in s.keys && rec.tokens > 0 && PickOpen(s, rec.key, pick)
    ensures var owner := s.keys[rec.key].owner;
            var s' := ChargeCurrent(s, rec, priced, pick, now);
            && |s'.usage| == |s.usage| + 1 && s'.usage[..|s.usage|] == s.usage
            && owner in s.wallet.users && owner in s'.wallet.users
            && var shown := s'.usage[|s.usage|];
            && var paid := Available(s, owner) - Available(s', owner);
            && shown.key == rec.key && shown.user == owner && shown.request == rec.request
            && shown.cost == (if shown.billed then Cost(rec, priced) else 0) && (shown.billed <==> shown.source.Some?)
            && (paid == (if shown.source == Some(UserWallet) then shown.cost else 0)
                <==> TellsWallet(s, rec, priced, pick))
  {
    var owner := s.keys[rec.key].owner;
    ActualPositive(s, rec, priced);
    RecordAppended(s, rec, priced, pick, now);
    ChargeLaw(s, rec, priced, pick, now, rec.key, owner);
    SpendTellsWallet(s, rec, priced, pick);
  }

  lemma SpendTellsWallet(s: Tables, rec: UsageRecord, priced: int, pick: Option<nat>)
    requires Sound(s) && Funded(s) && rec.key in s.keys && rec.tokens > 0 && PickOpen(s, rec.key, pick)
    ensures var owner := s.keys[rec.key].owner;
            owner in s.wallet.users
            && (WalletSpend(s, rec, priced, pick, owner)
                  == (if ViaWallet(s, rec, priced, pick) then Cost(rec, priced) else 0)
                <==> TellsWallet(s, rec, priced, pick))
  {
    ActualPositive(s, rec, priced);
    if Settles(rec, pick) {
      assert RowSound(s, s.reservations[pick.value]);
    }
  }

  // ---- What is paid twice ----

  /**
    A settled quota hold too small for the units, with too little quota left for the rest, stays
    consumed while the wallet pays the full cost; and another request's wallet hold of just the
    cost may be settled while the key pays the rest of the units.
   */
  predicate PaysTwice(s: Tables, rec: UsageRecord, priced: int, pick: Option<nat>)
    requires rec.key in s.keys && s.keys[rec.key].owner in s.wallet.users && PickOpen(s, rec.key, pick)
  {
    && Settles(rec, pick) && !WalletFunded(s.reservations, rec.request)
    && var key := s.keys[rec.key];
    var settled := s.reservations[pick.value];
    var owed := UnitSpend(s, rec, priced) - settled.hold;
    && settled.hold > 0 && owed > 0
    && (if settled.source == KeyQuota then
          owed > key.amount - key.used && key.overflow && CanSpend(s.wallet.users[key.owner], Cost(rec, priced))
        else
          owed <= key.amount - key.used && settled.hold == Cost(rec, priced))
  }

  /**
    A record takes quota of its key for good and also costs the owner's wallet the full cost if
    and only if PaysTwice; the tables then show both.
   */
  lemma PaidTwiceIff(s: Tables, rec: UsageRecord, priced: int, pick: Option<nat>, now: int)
    requires Sound(s) && Funded(s) && rec.key in s.keys && rec.tokens > 0 && PickOpen(s, rec.key, pick)
    ensures var k := rec.key;
            var owner := s.keys[k].owner;
            var cost := Cost(rec, priced);
            var s' := ChargeCurrent(s, rec, priced, pick, now);
            && owner in s.wallet.users && owner in s'.wallet.users && k in s'.keys
            && (PaysTwice(s, rec, priced, pick) <==>
                  QuotaSpend(s, rec, priced, pick) > 0 && WalletSpend(s, rec, priced, pick, owner) == cost)
            && (PaysTwice(s, rec, priced, pick) ==>
                  QuotaBook(s', k) > QuotaBook(s, k) && Available(s', owner) == Available(s, owner) - cost)
  {
    ActualPositive(s, rec, priced);
    ChargeLaw(s, rec, priced, pick, now, rec.key, s.keys[rec.key].owner);
    SpendsTwice(s, rec, priced, pick);
  }

  lemma SpendsTwice(s: Tables, rec: UsageRecord, priced: int, pick: Option<nat>)
    requires Sound(s) && Funded(s) && rec.key in s.keys && rec.tokens > 0 && PickOpen(s, rec.key, pick)
    ensures var owner := s.keys[rec.key].owner;
            && owner in s.wallet.users
            && (PaysTwice(s, rec, priced, pick) <==>
                  QuotaSpend(s, rec, priced, pick) > 0
                  && WalletSpend(s, rec, priced, pick, owner) == Cost(rec, priced))
            && (PaysTwice(s, rec, priced, pick) ==> ChargeRejected(s, rec, priced, pick) == 0)
  {
    ActualPositive(s, rec, priced);
    if Settles(rec, pick) {
      assert RowSound(s, s.reservations[pick.value]);
    }
  }

  // ---- Whose reservation is settled ----

  /** An oldest one among the open rows of a key other than row i. */
  lemma {:induction false} OldestOther(s: Tables, k: Id, i: nat, n: nat) returns (p: nat)
    requires n <= |s.reservations| && exists j :: 0 <= j < n && j != i && IsOpenOn(s, k, j)
    ensures p < n && p != i && IsOpenOn(s, k, p)
    ensures forall j :: 0 <= j < n && j != i && IsOpenOn(s, k, j) ==>
              s.reservations[p].createdAt <= s.reservations[j].createdAt
  {
    var last := n - 1;
    if exists j :: 0 <= j < last && j != i && IsOpenOn(s, k, j) {
      p := OldestOther(s, k, i, last);
      if last != i && IsOpenOn(s, k, last) && s.reservations[last].createdAt < s.reservations[p].createdAt {
        p := last;
      }
    } else {
      p := last;
    }
  }

  /**
    Settle selects by key and age, not by request: a usage record is certain to settle its own
    reservation exactly when every other open reservation of the key is younger.
   */
  lemma SettlesOwnIff(s: Tables, k: Id, i: nat)
    requires IsOpenOn(s, k, i)
    ensures (forall pick :: OldestOpen(s, k, pick) ==> pick == Some(i))
            <==> (forall j :: IsOpenOn(s, k, j) && j != i ==> s.reservations[i].createdAt < s.reservations[j].createdAt)
  {
    if j :| IsOpenOn(s, k, j) && j != i && s.reservations[j].createdAt <= s.reservations[i].createdAt {
      var p := OldestOther(s, k, i, |s.reservations|);
      assert OldestOpen(s, k, Some(p));
    }
  }
}
