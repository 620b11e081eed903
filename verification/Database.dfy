/**
  The database handle and the functions that work on it, in the step-by-step form of the source:
  each method changes the tables one statement after the other and is proved to leave exactly
  the tables its specification function describes.
 */
module Database {
  import opened Sums
  import opened Wallets
  import opened Billing
  import opened Accounting

  class DB {
    var users: map<Id, User>
    var ledger: seq<LedgerRow>
    var keys: map<Id, Key>
    var reservations: seq<Reservation>
    var usage: seq<UsageRow>
    var earnings: seq<Earning>
    var orders: seq<Order>

    function Rows(): Tables
      reads this
    {
      Tables(Wallet(users, ledger), keys, reservations, usage, earnings, orders)
    }

    constructor ()
      ensures Rows() == Tables(EMPTY, map[], [], [], [], [])
    {
      users, ledger, keys, reservations, usage, earnings, orders := map[], [], map[], [], [], [], [];
    }

    // ---- internal/store ----

    /** One transaction: the balance and its ledger row are written together or not at all. */
    method AdjustBalance(u: Id, delta: int, reason: Reason, ref: Ref, channel: string)
      returns (after: int, error: Option<StoreError>)
      modifies this
      ensures var r := Adjust(old(Rows()).wallet, u, delta, reason, ref, channel);
              && Rows() == old(Rows()).(wallet := AfterAdjust(old(Rows()).wallet, r))
              && (r.Adjusted? ==> error == None && after == r.after)
              && (r.Refused? ==> error == Some(r.error))
    {
      after := 0;
      if u !in users {
        return 0, Some(NotFound);
      }
      var before := users;
      var next := users[u].balance + delta;
      var floor := 0;
      if users[u].mode.Postpaid? {
        floor := -users[u].creditLimit;
      }
      if delta < 0 && next < floor {
        return 0, Some(InsufficientBalance);
      }
      users := users[u := users[u].(balance := next)];
      if Taken(ledger, Stored(ref), channel) {
        users := before;
        return 0, Some(Duplicate);
      }
      ledger := ledger + [LedgerRow(u, delta, reason, Stored(ref), channel, next)];
      return next, None;
    }

    method ConsumeQuota(k: Id, delta: int) returns (ok: bool)
      modifies this`keys
      ensures Rows() == Billing.ConsumeQuota(old(Rows()), k, delta) && ok == Consumable(old(Rows()), k, delta)
    {
      if k !in keys || keys[k].used + delta < 0 {
        return false;
      }
      keys := keys[k := keys[k].(used := keys[k].used + delta)];
      return true;
    }

    method ResetPeriod(k: Id, start: int, end: int)
      requires k in keys
      modifies this`keys
      ensures keys == old(keys)[k := old(keys)[k].(used := 0, periodStart := start, periodEnd := end)]
    {
      keys := keys[k := keys[k].(used := 0, periodStart := start, periodEnd := end)];
    }

    // ---- internal/billing ----

    /** Returns the refreshed in-memory key, which equals the row. */
    method EnsurePeriod(k: Id, now: int) returns (key: Key)
      requires k in keys
      modifies this`keys
      ensures Rows() == Billing.EnsurePeriod(old(Rows()), k, now)
      ensures k in keys && key == keys[k]
    {
      key := keys[k];
      assert keys == keys[k := keys[k]];
      if key.scope.Lifetime? {
        return;
      }
      var hours := WindowHours(key.scope, key.windowHours);
      if hours <= 0 {
        return;
      }
      if key.periodStart <= 0 || key.periodEnd <= 0 || now >= key.periodEnd {
        var end := now + hours * 3600 * 1000;
        ResetPeriod(k, now, end);
        key := key.(periodStart := now, periodEnd := end, used := 0);
      }
    }

    method InsertReservation(row: Reservation)
      modifies this`reservations
      ensures Rows() == Reserve(old(Rows()), row)
    {
      if row.key in keys && row.user in users {
        reservations := Without(reservations, row.id) + [row];
      }
    }

    method Hold(request: Id, k: Id, u: Id, estimate: nat, now: int)
      requires Sound(Rows())
      modifies this
      ensures Rows() == Billing.Hold(old(Rows()), request, k, u, estimate, now)
    {
      if request == "" || k !in keys {
        return;
      }
      var key := EnsurePeriod(k, now);
      var hold := HoldAmount(key.kind, estimate);
      var source := KeyQuota;
      var amount: int := 0;
      if key.kind.Unlimited? {
        amount := 0;
      } else if HasQuota(key) {
        amount := hold;
        if QuotaRemaining(key) < amount {
          amount := QuotaRemaining(key);
        }
        if amount > 0 {
          var ok := ConsumeQuota(k, amount);
          if !ok {
            return;
          }
        }
      } else if key.overflow {
        if u !in users || !CanSpend(users[u], estimate) {
          return;
        }
        var _, error := AdjustBalance(u, -(estimate as int), Held, HoldOf(request), SYSTEM);
        if error.Some? {
          return;
        }
        source, amount := UserWallet, estimate;
      } else {
        return;
      }
      InsertReservation(Reservation(request, k, u, amount, source, Open, now));
    }

    /** The oldest open reservation of the key, the first of them when several are equally old. */
    method QueryOldestOpen(k: Id) returns (pick: Option<nat>)
      ensures OldestOpen(Rows(), k, pick)
    {
      pick := None;
      for i := 0 to |reservations|
        invariant pick.Some? ==> pick.value < i && IsOpenOn(Rows(), k, pick.value)
        invariant forall j :: 0 <= j < i && IsOpenOn(Rows(), k, j) ==>
          pick.Some? && reservations[pick.value].createdAt <= reservations[j].createdAt
      {
        if reservations[i].status == Open && reservations[i].key == k
           && (pick.None? || reservations[i].createdAt < reservations[pick.value].createdAt) {
          pick := Some(i);
        }
      }
    }

    method Settle(k: Id, actual: int) returns (extra: int, settled: bool, pick: Option<nat>)
      modifies this
      ensures OldestOpen(old(Rows()), k, pick) && settled == pick.Some?
      ensures pick.None? ==> Rows() == old(Rows()) && extra == actual
      ensures pick.Some? ==> Rows() == SettleAt(old(Rows()), pick.value, actual)
                             && extra == Max(0, actual - old(reservations)[pick.value].hold)
    {
      pick := QueryOldestOpen(k);
      if pick.None? {
        return actual, false, pick;
      }
      var row := reservations[pick.value];
      extra := actual - row.hold;
      if extra < 0 {
        extra := 0;
      }
      var refund := row.hold - actual;
      if refund < 0 {
        refund := 0;
      }
      match row.source {
        case UserWallet =>
          if refund > 0 {
            var _, _ := AdjustBalance(row.user, refund, Refund, SettleOf(row.id), SYSTEM);
          }
        case KeyQuota =>
          if refund > 0 {
            var _ := ConsumeQuota(k, -refund);
          }
      }
      reservations := reservations[pick.value := row.(status := Closed)];
      settled := true;
    }

    method Release(request: Id)
      modifies this
      ensures Rows() == Billing.Release(old(Rows()), request)
    {
      if request == "" {
        return;
      }
      var found := Find(reservations, request);
      if found.None? {
        return;
      }
      var row := reservations[found.value];
      if row.status != Open || row.hold <= 0 {
        return;
      }
      match row.source {
        case UserWallet => var _, _ := AdjustBalance(row.user, row.hold, Refund, ReleaseOf(request), SYSTEM);
        case KeyQuota => var _ := ConsumeQuota(row.key, -row.hold);
      }
      reservations := reservations[found.value := row.(status := Released)];
    }

    /** The ids of the open reservations placed before the cutoff. */
    method QueryStale(cutoff: int) returns (ids: seq<Id>)
      ensures ids == StaleIds(reservations, cutoff)
    {
      ids := [];
      for i := 0 to |reservations|
        invariant ids == StaleIds(reservations[..i], cutoff)
      {
        assert reservations[..i + 1][..i] == reservations[..i];
        if reservations[i].status == Open && reservations[i].createdAt < cutoff {
          ids := ids + [reservations[i].id];
        }
      }
      assert reservations[..|reservations|] == reservations;
    }

    method ReleaseStale(maxAge: int, now: int)
      modifies this
      ensures Rows() == Billing.ReleaseStale(old(Rows()), now - maxAge)
    {
      var ids := QueryStale(now - maxAge);
      ghost var before := Rows();
      for i := 0 to |ids|
        invariant Rows() == ReleaseAll(before, ids[..i])
      {
        assert ids[..i + 1][..i] == ids[..i];
        Release(ids[i]);
      }
      assert ids[..|ids|] == ids;
    }

    method AppendUsage(key: Key, rec: UsageRecord, cost: int, source: Option<Source>, billed: bool)
      modifies this`usage
      ensures Rows() == RecordUsage(old(Rows()), key, rec, cost, source, billed)
    {
      usage := usage + [UsageRow(rec.key, key.owner, rec.request, cost, source, billed)];
    }

    /** The last switch of Charge: quota, wallet or unbilled. */
    method PayExtra(key: Key, rec: UsageRecord, extra: int, cost: int, now: int) returns (charged: int)
      requires rec.key in keys && cost > 0
      requires extra > 0 ==> keys[rec.key] == key
      requires keys[rec.key].used >= 0
      modifies this
      ensures Rows() == Pay(old(Rows()), key, rec, extra, cost, now)
      ensures charged == if |usage| > |old(usage)| then usage[|usage| - 1].cost else 0
    {
      var source: Option<Source> := None;
      var billed := true;
      charged := 0;
      if key.kind.Unlimited? {
        source, charged := Some(KeyQuota), cost;
      } else if extra <= 0 {
        source, charged := Some(KeyQuota), cost;
      } else if HasQuota(key) && QuotaRemaining(key) >= extra {
        var ok := ConsumeQuota(rec.key, extra);
        if !ok {
          return;
        }
        source, charged := Some(KeyQuota), cost;
      } else if key.overflow {
        if key.owner !in users {
          return;
        }
        if !CanSpend(users[key.owner], cost) {
          billed := false;
        } else {
          var _, error := AdjustBalance(key.owner, -cost, Usage, UsageAt(now), SYSTEM);
          if error.Some? {
            return;
          }
          source, charged := Some(UserWallet), cost;
        }
      } else {
        billed := false;
      }
      AppendUsage(key, rec, charged, source, billed);
    }

    /** A request held on the wallet: debit the extra if the wallet can pay it. */
    method PayWalletExtra(key: Key, rec: UsageRecord, extra: int, cost: int, now: int)
      modifies this
      ensures Rows() == PayFromWallet(old(Rows()), key, rec, extra, cost, now)
      ensures |usage| == |old(usage)| + 1 && usage[|usage| - 1].cost == cost
    {
      if extra > 0 && key.owner in users && CanSpend(users[key.owner], extra) {
        var _, _ := AdjustBalance(key.owner, -extra, Usage, UsageAt(now), SYSTEM);
      }
      AppendUsage(key, rec, cost, Some(UserWallet), true);
    }

    /** The spend in the key's quota unit. */
    method CountUnits(key: Key, rec: UsageRecord, cost: int, ghost priced: int) returns (unit: int)
      requires rec.key in keys && keys[rec.key] == key && cost == Cost(rec, priced)
      ensures unit == UnitSpend(Rows(), rec, priced)
    {
      unit := cost;
      match key.kind {
        case Credit =>
        case Token => unit := rec.tokens;
        case Request => unit := if rec.request != "" && AlreadyBilled(usage, rec.key, rec.request) then 0 else 1;
        case Unlimited => unit := 0;
      }
    }

    /** Charge once the key is known and its period is current. */
    method ChargeKey(key: Key, rec: UsageRecord, cost: int, now: int, ghost priced: int)
      returns (charged: int, pick: Option<nat>)
      requires Sound(Rows()) && rec.key in keys && keys[rec.key] == key && rec.tokens > 0 && cost == Cost(rec, priced)
      modifies this
      ensures pick.Some? ==> pick.value < |old(reservations)|
      ensures rec.request != "" ==> OldestOpen(old(Rows()), rec.key, pick)
      ensures Rows() == ChargeCurrent(old(Rows()), rec, priced, pick, now)
      ensures charged == if |usage| > |old(usage)| then usage[|usage| - 1].cost else 0
    {
      pick := None;
      var unit := CountUnits(key, rec, cost, priced);
      var extra := unit;
      if rec.request != "" {
        var viaWallet := WalletFunded(reservations, rec.request);
        var actual := if viaWallet then cost else unit;
        var refundOrExtra, settled;
        refundOrExtra, settled, pick := Settle(rec.key, actual);
        if settled {
          assert usage == old(usage) by {
            assert Rows() == SettleAt(old(Rows()), pick.value, actual);
          }
          extra := refundOrExtra;
          if viaWallet {
            PayWalletExtra(key, rec, extra, cost, now);
            return cost, pick;
          }
        }
      }
      charged := PayExtra(key, rec, extra, cost, now);
    }

    /** Charges one usage record; charged is the cost the appended record shows. */
    method Charge(rec: UsageRecord, priced: int, now: int) returns (charged: int, pick: Option<nat>)
      requires Sound(Rows())
      modifies this
      ensures pick.Some? ==> pick.value < |old(reservations)|
      ensures Rows() == Billing.Charge(old(Rows()), rec, priced, pick, now)
      ensures rec.request != "" && rec.tokens > 0 && rec.key in old(keys) ==> OldestOpen(old(Rows()), rec.key, pick)
      ensures charged == if |usage| > |old(usage)| then usage[|usage| - 1].cost else 0
      ensures rec.tokens == 0 || rec.key !in old(keys) ==> charged == 0
    {
      charged, pick := 0, None;
      if rec.key !in keys {
        return;
      }
      if rec.tokens == 0 {
        AppendUsage(keys[rec.key], rec, 0, None, false);
        return;
      }
      EnsurePeriodSound(Rows(), rec.key, now);
      var key := EnsurePeriod(rec.key, now);
      ghost var e := Rows();
      var cost := priced;
      if cost <= 0 {
        cost := rec.tokens;
      }
      charged, pick := ChargeKey(key, rec, cost, now, priced);
      assert forall i :: IsOpenOn(e, rec.key, i) <==> IsOpenOn(old(Rows()), rec.key, i);
    }
  }
}
