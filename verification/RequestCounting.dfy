/**
  Request quota counts client requests, not attempts: on a lifetime request key that does not
  overflow to the wallet, what is used beyond the open holds is the number of client requests
  that were billed, however usage records, retries and releases interleave and whichever open
  reservation each settlement closes.
 */
module RequestCounting {
  import opened Sums
  import opened Wallets
  import opened Billing
  import opened Accounting
  import opened Charging

  predicate RequestKey(key: Key)
  {
    key.kind.Request? && key.scope.Lifetime? && !key.overflow
  }

  /** The client requests with a billed record on the key. */
  function BilledRequests(usage: seq<UsageRow>, k: Id): set<Id>
  {
    set i | 0 <= i < |usage| && usage[i].key == k && usage[i].billed && usage[i].request != "" :: usage[i].request
  }

  /** A billed record without a request id stands for a request of its own. */
  function AnonymousOn(k: Id): UsageRow -> int
  {
    (row: UsageRow) => if row.key == k && row.billed && row.request == "" then 1 else 0
  }

  function BilledCount(usage: seq<UsageRow>, k: Id): int
  {
    |BilledRequests(usage, k)| + Sum(usage, AnonymousOn(k))
  }

  /** One for each open reservation of the key. */
  function OpenOn(k: Id): Reservation -> int
  {
    (r: Reservation) => if r.status == Open && r.key == k then 1 else 0
  }

  ghost predicate UnitHolds(s: Tables, k: Id)
  {
    forall i :: IsOpenOn(s, k, i) ==> s.reservations[i].source == KeyQuota && s.reservations[i].hold == 1
  }

  /** The promise: used == open holds + billed client requests. */
  ghost predicate Counted(s: Tables, k: Id)
  {
    && k in s.keys && RequestKey(s.keys[k]) && UnitHolds(s, k)
    && s.keys[k].used == Sum(s.reservations, OpenOn(k)) + BilledCount(s.usage, k)
  }

  /** On such a key the open holds and the open reservations are the same number. */
  lemma OpenIsHeld(s: Tables, k: Id)
    requires UnitHolds(s, k)
    ensures Sum(s.reservations, OpenOn(k)) == Sum(s.reservations, OpenQuotaOn(k))
  {
    forall i | 0 <= i < |s.reservations|
      ensures OpenOn(k)(s.reservations[i]) == OpenQuotaOn(k)(s.reservations[i])
    {
      assert IsOpenOn(s, k, i) ==> s.reservations[i].source == KeyQuota && s.reservations[i].hold == 1;
    }
    SumCongruent(s.reservations, s.reservations, OpenOn(k), OpenQuotaOn(k));
  }

  lemma CountedBook(s: Tables, k: Id)
    requires k in s.keys && RequestKey(s.keys[k]) && UnitHolds(s, k)
    ensures Counted(s, k) <==> QuotaBook(s, k) == BilledCount(s.usage, k)
  {
    OpenIsHeld(s, k);
  }

  lemma BilledCountNonNegative(usage: seq<UsageRow>, k: Id)
    ensures BilledCount(usage, k) >= 0
  {
    SumCovers(usage, AnonymousOn(k));
  }

  /** A record counts once per client request, and only when it is billed. */
  lemma BilledCountAppend(usage: seq<UsageRow>, row: UsageRow, k: Id)
    ensures BilledCount(usage + [row], k) == BilledCount(usage, k)
              + (if row.key == k && row.billed && (row.request == "" || !AlreadyBilled(usage, k, row.request))
                 then 1 else 0)
  {
    var usage' := usage + [row];
    var added := if row.key == k && row.billed && row.request != "" then {row.request} else {};
    SumAppend(usage, row, AnonymousOn(k));
    forall id
      ensures id in BilledRequests(usage', k) <==> id in BilledRequests(usage, k) + added
    {
      if id in BilledRequests(usage, k) {
        var i :| 0 <= i < |usage| && usage[i].key == k && usage[i].billed && usage[i].request == id && id != "";
        assert usage'[i] == usage[i];
      }
      if id in added {
        assert usage'[|usage|] == row;
      }
    }
    assert BilledRequests(usage', k) == BilledRequests(usage, k) + added;
    if row.key == k && row.billed && row.request != "" && !AlreadyBilled(usage, k, row.request) {
      assert row.request !in BilledRequests(usage, k);
    }
  }

  // ---- Charge ----

  /** The request's own reservation, while it is open, is on the key the usage is for. */
  ghost predicate OwnReservation(s: Tables, rec: UsageRecord)
  {
    forall i :: 0 <= i < |s.reservations| && s.reservations[i].id == rec.request && s.reservations[i].status == Open ==>
      s.reservations[i].key == rec.key
  }

  /** Whether the usage record of a request key is billed. */
  predicate Bills(s: Tables, rec: UsageRecord, pick: Option<nat>)
    requires rec.key in s.keys
  {
    var key := s.keys[rec.key];
    Settles(rec, pick) || UnitSpend(s, rec, 0) == 0 || key.used < key.amount
  }

  lemma RequestRecord(s: Tables, rec: UsageRecord, priced: int, pick: Option<nat>, now: int)
    requires Sound(s) && rec.tokens > 0 && rec.key in s.keys && RequestKey(s.keys[rec.key]) && UnitHolds(s, rec.key)
    requires OwnReservation(s, rec) && PickOpen(s, rec.key, pick)
    ensures var s' := ChargeCurrent(s, rec, priced, pick, now);
            && |s'.usage| == |s.usage| + 1 && s'.usage[..|s.usage|] == s.usage
            && var row := s'.usage[|s.usage|];
               row.key == rec.key && row.request == rec.request && row.billed == Bills(s, rec, pick)
  {
    assert !WalletFunded(s.reservations, rec.request) by {
      forall i | 0 <= i < |s.reservations| && s.reservations[i].id == rec.request && s.reservations[i].status == Open
        ensures s.reservations[i].source == KeyQuota
      {
        assert IsOpenOn(s, rec.key, i);
      }
    }
    if Settles(rec, pick) {
      CloseEffect(s, pick.value, Max(0, 1 - UnitSpend(s, rec, priced)), SettleOf(s.reservations[pick.value].id),
                  Closed);
    }
  }

  lemma RequestSpend(s: Tables, rec: UsageRecord, priced: int, pick: Option<nat>)
    requires Sound(s) && rec.tokens > 0 && rec.key in s.keys && RequestKey(s.keys[rec.key]) && UnitHolds(s, rec.key)
    requires OwnReservation(s, rec) && PickOpen(s, rec.key, pick)
    ensures QuotaSpend(s, rec, priced, pick) == if Bills(s, rec, pick) then UnitSpend(s, rec, priced) else 0
  {
    assert !WalletFunded(s.reservations, rec.request) by {
      forall i | 0 <= i < |s.reservations| && s.reservations[i].id == rec.request && s.reservations[i].status == Open
        ensures s.reservations[i].source == KeyQuota
      {
        assert IsOpenOn(s, rec.key, i);
      }
    }
  }

  lemma ChargeKeepsUnitHolds(s: Tables, rec: UsageRecord, priced: int, pick: Option<nat>, now: int, k: Id)
    requires Sound(s) && rec.tokens > 0 && rec.key in s.keys && PickOpen(s, rec.key, pick) && UnitHolds(s, k)
    ensures UnitHolds(ChargeCurrent(s, rec, priced, pick, now), k)
  {
    var s' := ChargeCurrent(s, rec, priced, pick, now);
    ChargeRows(s, rec, priced, pick, now);
    forall i | IsOpenOn(s', k, i)
      ensures s'.reservations[i].source == KeyQuota && s'.reservations[i].hold == 1
    {
      assert IsOpenOn(s, k, i);
    }
  }

  /** The book of the key grows by one exactly when one more request is billed. */
  lemma ChargeBook(s: Tables, rec: UsageRecord, priced: int, pick: Option<nat>, now: int)
    requires Sound(s) && rec.tokens > 0 && rec.key in s.keys && RequestKey(s.keys[rec.key]) && UnitHolds(s, rec.key)
    requires QuotaBook(s, rec.key) >= 0 && OwnReservation(s, rec) && PickOpen(s, rec.key, pick)
    ensures var s' := ChargeCurrent(s, rec, priced, pick, now);
            && rec.key in s'.keys
            && QuotaBook(s', rec.key) == QuotaBook(s, rec.key)
                 + (if Bills(s, rec, pick) then UnitSpend(s, rec, priced) else 0)
  {
    assert s.keys[rec.key].owner in s.wallet.users;
    ChargeLaw(s, rec, priced, pick, now, rec.key, s.keys[rec.key].owner);
    RequestSpend(s, rec, priced, pick);
    if Settles(rec, pick) {
      NothingRejected(s, pick.value, rec.key);
    }
  }

  lemma ChargeBilled(s: Tables, rec: UsageRecord, priced: int, pick: Option<nat>, now: int)
    requires Sound(s) && rec.tokens > 0 && rec.key in s.keys && RequestKey(s.keys[rec.key]) && UnitHolds(s, rec.key)
    requires OwnReservation(s, rec) && PickOpen(s, rec.key, pick)
    ensures BilledCount(ChargeCurrent(s, rec, priced, pick, now).usage, rec.key) == BilledCount(s.usage, rec.key)
              + (if Bills(s, rec, pick) then UnitSpend(s, rec, priced) else 0)
  {
    var s' := ChargeCurrent(s, rec, priced, pick, now);
    RequestRecord(s, rec, priced, pick, now);
    assert s'.usage == s.usage + [s'.usage[|s.usage|]];
    BilledCountAppend(s.usage, s'.usage[|s.usage|], rec.key);
  }

  /** One more charge of the key itself keeps the count. */
  lemma ChargeCounted(s: Tables, rec: UsageRecord, priced: int, pick: Option<nat>, now: int)
    requires Sound(s) && rec.tokens > 0 && Counted(s, rec.key)
    requires OwnReservation(s, rec) && PickOpen(s, rec.key, pick)
    ensures Counted(ChargeCurrent(s, rec, priced, pick, now), rec.key)
  {
    CountedBook(s, rec.key);
    BilledCountNonNegative(s.usage, rec.key);
    ChargeBook(s, rec, priced, pick, now);
    ChargeBilled(s, rec, priced, pick, now);
    ChargeSound(s, rec, priced, pick, now);
    ChargeKeepsUnitHolds(s, rec, priced, pick, now, rec.key);
    CountedBook(ChargeCurrent(s, rec, priced, pick, now), rec.key);
  }

  // ---- The other steps of the request protocol ----

  /** A charge of another key appends nothing to this key's records. */
  lemma ChargeElsewhereCounted(s: Tables, rec: UsageRecord, priced: int, pick: Option<nat>, now: int, k: Id)
    requires Sound(s) && rec.tokens > 0 && Counted(s, k) && rec.key in s.keys && rec.key != k
    requires PickOpen(s, rec.key, pick)
    ensures Counted(ChargeCurrent(s, rec, priced, pick, now), k)
  {
    var s' := ChargeCurrent(s, rec, priced, pick, now);
    CountedBook(s, k);
    assert s.keys[k].owner in s.wallet.users;
    ChargeLaw(s, rec, priced, pick, now, k, s.keys[k].owner);
    ChargeSound(s, rec, priced, pick, now);
    ChargeKeepsUnitHolds(s, rec, priced, pick, now, k);
    UsageGrows(s, rec, priced, pick, now);
    if s'.usage != s.usage {
      assert s'.usage == s.usage + [s'.usage[|s.usage|]];
      BilledCountAppend(s.usage, s'.usage[|s.usage|], k);
    }
    CountedBook(s', k);
  }

  /** Paying appends at most one record, on the record's own key. */
  ghost predicate Grows(usage: seq<UsageRow>, usage': seq<UsageRow>, k: Id)
  {
    usage' == usage || (|usage'| == |usage| + 1 && usage'[..|usage|] == usage && usage'[|usage|].key == k)
  }

  lemma PayGrows(s: Tables, key: Key, rec: UsageRecord, extra: int, cost: int, now: int)
    ensures Grows(s.usage, Pay(s, key, rec, extra, cost, now).usage, rec.key)
    ensures Grows(s.usage, PayFromWallet(s, key, rec, extra, cost, now).usage, rec.key)
  {
  }

  lemma UsageGrows(s: Tables, rec: UsageRecord, priced: int, pick: Option<nat>, now: int)
    requires Sound(s) && rec.key in s.keys && PickOpen(s, rec.key, pick)
    ensures Grows(s.usage, ChargeCurrent(s, rec, priced, pick, now).usage, rec.key)
  {
    var key := s.keys[rec.key];
    if Settles(rec, pick) {
      var row := s.reservations[pick.value];
      var actual := Actual(s, rec, priced);
      CloseEffect(s, pick.value, Max(0, row.hold - actual), SettleOf(row.id), Closed);
      PayGrows(SettleAt(s, pick.value, actual), key, rec, Max(0, actual - row.hold), Cost(rec, priced), now);
    } else {
      PayGrows(s, key, rec, UnitSpend(s, rec, priced), Cost(rec, priced), now);
    }
  }

  lemma UnbilledCounted(s: Tables, rec: UsageRecord, k: Id)
    requires Counted(s, k) && rec.key in s.keys
    ensures Counted(RecordUsage(s, s.keys[rec.key], rec, 0, None, false), k)
  {
    BilledCountAppend(s.usage, UsageRow(rec.key, s.keys[rec.key].owner, rec.request, 0, None, false), k);
  }

  lemma HoldCounted(s: Tables, request: Id, k0: Id, u: Id, estimate: nat, now: int, k: Id)
    requires Sound(s) && Counted(s, k) && u in s.wallet.users && !HeldOpen(s, request)
    ensures Counted(Hold(s, request, k0, u, estimate, now), k)
  {
    if request != "" && k0 in s.keys {
      var s' := Hold(s, request, k0, u, estimate, now);
      CountedBook(s, k);
      HoldSound(s, request, k0, u, estimate, now);
      HoldLaw(s, request, k0, u, estimate, now, k, u);
      DisplacedNothing(s, request, k, u);
      HoldKeepsUnitHolds(s, request, k0, u, estimate, now, k);
      CountedBook(s', k);
    }
  }

  lemma HoldKeepsUnitHolds(s: Tables, request: Id, k0: Id, u: Id, estimate: nat, now: int, k: Id)
    requires Sound(s) && u in s.wallet.users && request != "" && k0 in s.keys
    requires k in s.keys && RequestKey(s.keys[k]) && UnitHolds(s, k)
    ensures UnitHolds(Hold(s, request, k0, u, estimate, now), k)
  {
    var e := EnsurePeriod(s, k0, now);
    EnsurePeriodSound(s, k0, now);
    PlacementPlaceable(e, request, k0, u, estimate, now);
    var placed := Placement(e, request, k0, u, estimate, now);
    forall i | IsOpenOn(e, k, i)
      ensures e.reservations[i].source == KeyQuota && e.reservations[i].hold == 1
    {
      assert IsOpenOn(s, k, i);
    }
    if placed.Some? {
      PlaceKeepsUnitHolds(e, placed.value, k);
    }
  }

  lemma PlaceKeepsUnitHolds(s: Tables, row: Reservation, k: Id)
    requires Sound(s) && Placeable(s, row) && UnitHolds(s, k)
    requires row.key == k ==> row.source == KeyQuota && row.hold == 1
    ensures UnitHolds(Place(s, row), k)
  {
    var s' := Place(s, row);
    var kept := Without(s.reservations, row.id);
    PlaceEffect(s, row);
    WithoutMembers(s.reservations, row.id);
    forall i | IsOpenOn(s', k, i)
      ensures s'.reservations[i].source == KeyQuota && s'.reservations[i].hold == 1
    {
      if i < |kept| {
        assert kept[i] in s.reservations;
        var j :| 0 <= j < |s.reservations| && s.reservations[j] == kept[i];
        assert IsOpenOn(s, k, j);
      }
    }
  }

  lemma ReleaseCounted(s: Tables, request: Id, k: Id)
    requires Sound(s) && Counted(s, k)
    ensures Counted(Release(s, request), k)
  {
    var s' := Release(s, request);
    CountedBook(s, k);
    BilledCountNonNegative(s.usage, k);
    ReleaseSound(s, request);
    ReleaseRows(s, request);
    assert s.keys[k].owner in s.wallet.users;
    ReleaseLaw(s, request, k, s.keys[k].owner);
    forall i | IsOpenOn(s', k, i)
      ensures s'.reservations[i].source == KeyQuota && s'.reservations[i].hold == 1
    {
      assert IsOpenOn(s, k, i);
    }
    CountedBook(s', k);
  }

  lemma {:induction false} ReleaseAllCounted(s: Tables, ids: seq<Id>, k: Id)
    requires Sound(s) && Counted(s, k)
    ensures Counted(ReleaseAll(s, ids), k)
  {
    if ids != [] {
      ReleaseAllCounted(s, ids[..|ids| - 1], k);
      ReleaseAllSound(s, ids[..|ids| - 1]);
      ReleaseCounted(ReleaseAll(s, ids[..|ids| - 1]), ids[|ids| - 1], k);
    }
  }
}
