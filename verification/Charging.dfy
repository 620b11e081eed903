/** The accounting laws of whole calls to Release, ReleaseStale and Charge. */
module Charging {
  import opened Sums
  import opened Wallets
  import opened Billing
  import opened Accounting

  // ---- Release ----

  /** The row a release would close. */
  predicate Releasable(s: Tables, request: Id)
  {
    var found := Find(s.reservations, request);
    request != "" && found.Some?
    && s.reservations[found.value].status == Open && s.reservations[found.value].hold > 0
  }

  /** Release gives the whole hold back: nothing is spent, nobody's available credit changes. */
  lemma ReleaseLaw(s: Tables, request: Id, k: Id, u: Id)
    requires Sound(s) && k in s.keys && u in s.wallet.users
    ensures var s' := Release(s, request);
            && k in s'.keys && u in s'.wallet.users
            && Available(s', u) == Available(s, u)
            && QuotaBook(s', k) >= QuotaBook(s, k)
            && (QuotaBook(s, k) >= 0 ==> QuotaBook(s', k) == QuotaBook(s, k))
  {
    if Releasable(s, request) {
      var i := Find(s.reservations, request).value;
      assert RowSound(s, s.reservations[i]);
      CloseLaw(s, i, s.reservations[i].hold, ReleaseOf(request), Released, k, u);
      if QuotaBook(s, k) >= 0 {
        NothingRejected(s, i, k);
      }
    }
  }

  /** While a key's spend is not negative, its open holds are all covered by what is used. */
  lemma NothingRejected(s: Tables, i: nat, k: Id)
    requires Sound(s) && i < |s.reservations| && s.reservations[i].status == Open
    requires k in s.keys && QuotaBook(s, k) >= 0
    ensures s.reservations[i].source == KeyQuota && s.reservations[i].key == k ==>
              s.reservations[i].hold <= s.keys[k].used
  {
    forall j | 0 <= j < |s.reservations|
      ensures OpenQuotaOn(k)(s.reservations[j]) >= 0
    {
      assert RowSound(s, s.reservations[j]);
    }
    SumCovers(s.reservations, OpenQuotaOn(k));
  }

  /**
    A released quota hold comes back whole exactly when that much is still counted as used; after
    a reset or a switch under the hold it may not be, and then the key gets nothing back.
   */
  lemma ReleaseRefundsIff(s: Tables, request: Id, k: Id)
    requires Sound(s) && Releasable(s, request) && s.reservations[Find(s.reservations, request).value].key == k
    requires s.reservations[Find(s.reservations, request).value].source == KeyQuota
    ensures var row := s.reservations[Find(s.reservations, request).value];
            var s' := Release(s, request);
            && k in s.keys && k in s'.keys
            && (s'.keys[k].used == s.keys[k].used - row.hold <==> row.hold <= s.keys[k].used)
            && (row.hold > s.keys[k].used ==> s'.keys == s.keys)
            && s'.wallet == s.wallet
  {
    var i := Find(s.reservations, request).value;
    CloseQuotaEffect(s, i, s.reservations[i].hold, ReleaseOf(request), Released);
  }

  lemma ReleaseSound(s: Tables, request: Id)
    requires Sound(s)
    ensures var s' := Release(s, request);
            && Sound(s') && KeysKept(s, s') && s'.wallet.users.Keys == s.wallet.users.Keys && s'.usage == s.usage
            && (Funded(s) ==> Funded(s')) && (WithinQuota(s) ==> WithinQuota(s'))
  {
    if Releasable(s, request) {
      var i := Find(s.reservations, request).value;
      assert RowSound(s, s.reservations[i]);
      CloseEffect(s, i, s.reservations[i].hold, ReleaseOf(request), Released);
      CloseSound(s, i, s.reservations[i].hold, ReleaseOf(request), Released);
    }
  }

  /** The reservation row after its id was released. */
  function AfterRelease(row: Reservation): Reservation
  {
    if row.status == Open && row.hold > 0 then row.(status := Released) else row
  }

  lemma FindUnique(rows: seq<Reservation>, i: nat)
    requires UniqueIds(rows) && i < |rows|
    ensures Find(rows, rows[i].id) == Some(i)
  {
    var j := Find(rows, rows[i].id);
    assert j.Some? && rows[j.value].id == rows[i].id;
  }

  lemma ReleaseRows(s: Tables, request: Id)
    requires Sound(s)
    ensures var s' := Release(s, request);
            && |s'.reservations| == |s.reservations|
            && forall i :: 0 <= i < |s.reservations| ==>
              s'.reservations[i] == if request != "" && s.reservations[i].id == request
                                    then AfterRelease(s.reservations[i]) else s.reservations[i]
  {
    var found := Find(s.reservations, request);
    if found.Some? {
      FindUnique(s.reservations, found.value);
      forall i | 0 <= i < |s.reservations| && i != found.value
        ensures s.reservations[i].id != request
      {
        if i < found.value { assert s.reservations[i].id != s.reservations[found.value].id; }
      }
    }
  }

  // ---- ReleaseStale ----

  lemma {:induction false} StaleIdsMembers(rows: seq<Reservation>, cutoff: int)
    ensures forall id :: id in StaleIds(rows, cutoff) <==>
              exists i :: 0 <= i < |rows| && rows[i].id == id && rows[i].status == Open && rows[i].createdAt < cutoff
  {
    if rows != [] {
      var last := |rows| - 1;
      StaleIdsMembers(rows[..last], cutoff);
      forall id
        ensures id in StaleIds(rows, cutoff) <==>
                exists i :: 0 <= i < |rows| && rows[i].id == id && rows[i].status == Open && rows[i].createdAt < cutoff
      {
        if id in StaleIds(rows[..last], cutoff) {
          var i :| 0 <= i < last && rows[..last][i].id == id && rows[..last][i].status == Open
            && rows[..last][i].createdAt < cutoff;
          assert rows[i] == rows[..last][i];
        }
        if i :| 0 <= i < |rows| && rows[i].id == id && rows[i].status == Open && rows[i].createdAt < cutoff {
          if i < last {
            assert rows[..last][i] == rows[i];
          }
        }
      }
    }
  }

  lemma {:induction false} ReleaseAllSound(s: Tables, ids: seq<Id>)
    requires Sound(s)
    ensures var s' := ReleaseAll(s, ids);
            && Sound(s') && KeysKept(s, s') && s'.wallet.users.Keys == s.wallet.users.Keys && s'.usage == s.usage
            && (Funded(s) ==> Funded(s')) && (WithinQuota(s) ==> WithinQuota(s'))
  {
    if ids != [] {
      ReleaseAllSound(s, ids[..|ids| - 1]);
      ReleaseSound(ReleaseAll(s, ids[..|ids| - 1]), ids[|ids| - 1]);
    }
  }

  lemma {:induction false} ReleaseAllLaw(s: Tables, ids: seq<Id>, k: Id, u: Id)
    requires Sound(s) && k in s.keys && u in s.wallet.users
    ensures var s' := ReleaseAll(s, ids);
            && k in s'.keys && u in s'.wallet.users
            && Available(s', u) == Available(s, u)
            && QuotaBook(s', k) >= QuotaBook(s, k)
            && (QuotaBook(s, k) >= 0 ==> QuotaBook(s', k) == QuotaBook(s, k))
  {
    if ids != [] {
      ReleaseAllSound(s, ids[..|ids| - 1]);
      ReleaseAllLaw(s, ids[..|ids| - 1], k, u);
      ReleaseLaw(ReleaseAll(s, ids[..|ids| - 1]), ids[|ids| - 1], k, u);
    }
  }

  lemma {:induction false} ReleaseAllRows(s: Tables, ids: seq<Id>)
    requires Sound(s)
    ensures var s' := ReleaseAll(s, ids);
            && |s'.reservations| == |s.reservations|
            && forall i :: 0 <= i < |s.reservations| ==>
              s'.reservations[i] == if s.reservations[i].id != "" && s.reservations[i].id in ids
                                    then AfterRelease(s.reservations[i]) else s.reservations[i]
  {
    if ids != [] {
      var front := ids[..|ids| - 1];
      ReleaseAllRows(s, front);
      ReleaseAllSound(s, front);
      ReleaseRows(ReleaseAll(s, front), ids[|ids| - 1]);
      assert ids == front + [ids[|ids| - 1]];
    }
  }

  /**
    Recovery at boot: a reservation is released exactly when it was open, had something on hold
    and is older than the cutoff; so no positive hold older than that stays open, and every
    other row is untouched.
   */
  lemma ReleaseStaleRows(s: Tables, cutoff: int, i: nat)
    requires Sound(s) && i < |s.reservations|
    ensures var s' := ReleaseStale(s, cutoff); var row := s.reservations[i];
            && |s'.reservations| == |s.reservations|
            && s'.reservations[i] == (if row.status == Open && row.hold > 0 && row.createdAt < cutoff
                                      then row.(status := Released) else row)
            && (s'.reservations[i].status == Open && s'.reservations[i].createdAt < cutoff ==>
                  s'.reservations[i].hold == 0)
  {
    var row := s.reservations[i];
    assert RowSound(s, row);
    StaleIdsMembers(s.reservations, cutoff);
    ReleaseAllRows(s, StaleIds(s.reservations, cutoff));
    if row.id in StaleIds(s.reservations, cutoff) {
      var j :| 0 <= j < |s.reservations| && s.reservations[j].id == row.id
        && s.reservations[j].status == Open && s.reservations[j].createdAt < cutoff;
      FindUnique(s.reservations, i);
      FindUnique(s.reservations, j);
    }
  }

  // ---- Charge ----

  /** The part of an amount beyond the hold that the key's own quota pays: all of it or nothing. */
  function Affordable(key: Key, extra: int): int
  {
    if !key.kind.Unlimited? && 0 < extra <= key.amount - key.used then extra else 0
  }

  /** The micro-credit an exhausted key sends to its owner's wallet: the full cost or nothing. */
  function Overflowed(s: Tables, key: Key, extra: int, cost: int): int
    requires key.owner in s.wallet.users
  {
    if !key.kind.Unlimited? && extra > 0 && extra > key.amount - key.used && key.overflow
       && CanSpend(s.wallet.users[key.owner], cost)
    then cost else 0
  }

  /** What Settle compares with the hold: micro-credit for a request held on the wallet. */
  function Actual(s: Tables, rec: UsageRecord, priced: int): int
    requires rec.key in s.keys
  {
    if WalletFunded(s.reservations, rec.request) then Cost(rec, priced) else UnitSpend(s, rec, priced)
  }

  predicate Settles(rec: UsageRecord, pick: Option<nat>)
  {
    rec.request != "" && pick.Some?
  }

  /** What is paid beyond the settled hold, from the key's quota and from its owner's wallet. */
  function ExtraQuota(s: Tables, rec: UsageRecord, priced: int, i: nat): int
    requires rec.key in s.keys && i < |s.reservations|
  {
    if WalletFunded(s.reservations, rec.request) then 0
    else Affordable(s.keys[rec.key], Actual(s, rec, priced) - s.reservations[i].hold)
  }

  function ExtraCredit(s: Tables, rec: UsageRecord, priced: int, i: nat): int
    requires rec.key in s.keys && s.keys[rec.key].owner in s.wallet.users && i < |s.reservations|
  {
    var key := s.keys[rec.key];
    var extra := Actual(s, rec, priced) - s.reservations[i].hold;
    if !WalletFunded(s.reservations, rec.request) then Overflowed(s, key, extra, Cost(rec, priced))
    else if extra > 0 && CanSpend(s.wallet.users[key.owner], extra) then extra
    else 0
  }

  /**
    The quota a usage record spends on its key: what the settled hold covers, and what is
    beyond it if the key can pay all of that.
   */
  function QuotaSpend(s: Tables, rec: UsageRecord, priced: int, pick: Option<nat>): int
    requires rec.key in s.keys
    requires pick.Some? ==> pick.value < |s.reservations|
  {
    var key := s.keys[rec.key];
    if !Settles(rec, pick) then Affordable(key, UnitSpend(s, rec, priced))
    else
      var row := s.reservations[pick.value];
      OnQuota(row, rec.key, Min(row.hold, Actual(s, rec, priced))) + ExtraQuota(s, rec, priced, pick.value)
  }

  /** The credit a usage record costs the wallet of u. */
  function WalletSpend(s: Tables, rec: UsageRecord, priced: int, pick: Option<nat>, u: Id): int
    requires rec.key in s.keys && s.keys[rec.key].owner in s.wallet.users
    requires pick.Some? ==> pick.value < |s.reservations|
  {
    var key := s.keys[rec.key];
    if !Settles(rec, pick) then
      if key.owner == u then Overflowed(s, key, UnitSpend(s, rec, priced), Cost(rec, priced)) else 0
    else
      var row := s.reservations[pick.value];
      OnWallet(row, u, Min(row.hold, Actual(s, rec, priced)))
      + (if key.owner == u then ExtraCredit(s, rec, priced, pick.value) else 0)
  }

  /** Everything but the row of key k, the wallet of u and the usage records stays. */
  ghost predicate PaidFrom(s: Tables, s': Tables, k: Id, used: int, u: Id, debit: int)
    requires k in s.keys && u in s.wallet.users
  {
    && s'.reservations == s.reservations
    && s'.keys == s.keys[k := s.keys[k].(used := s.keys[k].used + used)]
    && s'.wallet.users == s.wallet.users[u := s.wallet.users[u].(balance := s.wallet.users[u].balance - debit)]
  }

  lemma PayEffect(s: Tables, key: Key, rec: UsageRecord, extra: int, cost: int, now: int)
    requires rec.key in s.keys && key.owner in s.wallet.users && cost > 0
    requires extra > 0 ==> s.keys[rec.key] == key
    requires Sound(s)
    ensures PaidFrom(s, Pay(s, key, rec, extra, cost, now), rec.key, Affordable(key, extra), key.owner,
                     Overflowed(s, key, extra, cost))
  {
    var s' := Pay(s, key, rec, extra, cost, now);
    assert s.keys == s.keys[rec.key := s.keys[rec.key]];
    assert s.wallet.users == s.wallet.users[key.owner := s.wallet.users[key.owner]];
  }

  lemma PayFromWalletEffect(s: Tables, key: Key, rec: UsageRecord, extra: int, cost: int, now: int)
    requires rec.key in s.keys && key.owner in s.wallet.users
    ensures PaidFrom(s, PayFromWallet(s, key, rec, extra, cost, now), rec.key, 0, key.owner,
                     if extra > 0 && CanSpend(s.wallet.users[key.owner], extra) then extra else 0)
  {
    assert s.keys == s.keys[rec.key := s.keys[rec.key]];
    assert s.wallet.users == s.wallet.users[key.owner := s.wallet.users[key.owner]];
  }

  /**
    Settle never reports an extra together with a refund: when something is still owed, the key
    and the wallet are as they were, so the snapshot Charge tests afterwards is exact.
   */
  lemma SnapshotExact(s: Tables, i: nat, actual: int)
    requires i < |s.reservations| && actual > s.reservations[i].hold
    ensures SettleAt(s, i, actual).keys == s.keys && SettleAt(s, i, actual).wallet == s.wallet
  {
  }

  lemma ActualPositive(s: Tables, rec: UsageRecord, priced: int)
    requires rec.key in s.keys && rec.tokens > 0
    ensures UnitSpend(s, rec, priced) >= 0 && Actual(s, rec, priced) >= 0 && Cost(rec, priced) > 0
  {
  }

  /** The row Settle selects, if any, is an open one of this key. */
  predicate PickOpen(s: Tables, k: Id, pick: Option<nat>)
  {
    pick.Some? ==> IsOpenOn(s, k, pick.value)
  }

  /** A quota refund of this charge that the CHECK constraint turns down. */
  function ChargeRejected(s: Tables, rec: UsageRecord, priced: int, pick: Option<nat>): int
    requires rec.key in s.keys && PickOpen(s, rec.key, pick)
  {
    if !Settles(rec, pick) then 0
    else
      var row := s.reservations[pick.value];
      RejectedRefund(s, row, Max(0, row.hold - Actual(s, rec, priced)))
  }

  /**
    The law of one charge: the key's spend grows by QuotaSpend, and the available credit of
    every user falls by WalletSpend, whichever open reservation of the key Settle selects.
   */
  lemma ChargeLaw(s: Tables, rec: UsageRecord, priced: int, pick: Option<nat>, now: int, k: Id, u: Id)
    requires Sound(s) && rec.key in s.keys && rec.tokens > 0 && PickOpen(s, rec.key, pick)
    requires k in s.keys && u in s.wallet.users
    ensures var s' := ChargeCurrent(s, rec, priced, pick, now);
            && k in s'.keys && u in s'.wallet.users
            && QuotaBook(s', k) == QuotaBook(s, k)
                 + (if k == rec.key then QuotaSpend(s, rec, priced, pick) + ChargeRejected(s, rec, priced, pick) else 0)
            && Available(s', u) == Available(s, u) - WalletSpend(s, rec, priced, pick, u)
  {
    var key := s.keys[rec.key];
    var cost := Cost(rec, priced);
    ActualPositive(s, rec, priced);
    if !Settles(rec, pick) {
      PayEffect(s, key, rec, UnitSpend(s, rec, priced), cost, now);
    } else {
      SettleThenPayLaw(s, rec, priced, pick.value, now, k, u);
    }
  }

  lemma PaidFromLaw(s: Tables, s': Tables, k0: Id, used: int, u0: Id, debit: int, k: Id, u: Id)
    requires k0 in s.keys && u0 in s.wallet.users && PaidFrom(s, s', k0, used, u0, debit)
    requires k in s.keys && u in s.wallet.users
    ensures k in s'.keys && u in s'.wallet.users
    ensures QuotaBook(s', k) == QuotaBook(s, k) + (if k == k0 then used else 0)
    ensures Available(s', u) == Available(s, u) - (if u == u0 then debit else 0)
  {
  }

  /** Paying on tables that a settlement left as they were whenever something is still owed. */
  lemma PayOn(s: Tables, mid: Tables, rec: UsageRecord, priced: int, i: nat, now: int)
    requires Sound(mid) && rec.key in s.keys && rec.tokens > 0 && i < |s.reservations|
    requires rec.key in mid.keys && s.keys[rec.key].owner in s.wallet.users && s.keys[rec.key].owner in mid.wallet.users
    requires Actual(s, rec, priced) > s.reservations[i].hold ==> mid.keys == s.keys && mid.wallet == s.wallet
    ensures var key := s.keys[rec.key];
            var extra := Max(0, Actual(s, rec, priced) - s.reservations[i].hold);
            var end := if WalletFunded(s.reservations, rec.request)
                       then PayFromWallet(mid, key, rec, extra, Cost(rec, priced), now)
                       else Pay(mid, key, rec, extra, Cost(rec, priced), now);
            PaidFrom(mid, end, rec.key, ExtraQuota(s, rec, priced, i), key.owner, ExtraCredit(s, rec, priced, i))
  {
    var key := s.keys[rec.key];
    var extra := Max(0, Actual(s, rec, priced) - s.reservations[i].hold);
    ActualPositive(s, rec, priced);
    if WalletFunded(s.reservations, rec.request) {
      PayFromWalletEffect(mid, key, rec, extra, Cost(rec, priced), now);
    } else {
      PayEffect(mid, key, rec, extra, Cost(rec, priced), now);
    }
  }

  lemma SettledTables(s: Tables, rec: UsageRecord, priced: int, i: nat)
    requires Sound(s) && rec.key in s.keys && rec.tokens > 0 && IsOpenOn(s, rec.key, i)
    ensures var mid := SettleAt(s, i, Actual(s, rec, priced)); var owner := s.keys[rec.key].owner;
            && Sound(mid) && rec.key in mid.keys && owner in mid.wallet.users && owner in s.wallet.users
            && (Actual(s, rec, priced) > s.reservations[i].hold ==> mid.keys == s.keys && mid.wallet == s.wallet)
  {
    var row := s.reservations[i];
    var actual := Actual(s, rec, priced);
    ActualPositive(s, rec, priced);
    CloseSound(s, i, Max(0, row.hold - actual), SettleOf(row.id), Closed);
    CloseEffect(s, i, Max(0, row.hold - actual), SettleOf(row.id), Closed);
    if actual > row.hold {
      SnapshotExact(s, i, actual);
    }
  }

  lemma PayAfterSettle(s: Tables, rec: UsageRecord, priced: int, i: nat, now: int)
    requires Sound(s) && rec.key in s.keys && rec.tokens > 0 && IsOpenOn(s, rec.key, i) && rec.request != ""
    ensures var mid := SettleAt(s, i, Actual(s, rec, priced)); var owner := s.keys[rec.key].owner;
            && Sound(mid) && rec.key in mid.keys && owner in mid.wallet.users && owner in s.wallet.users
            && PaidFrom(mid, ChargeCurrent(s, rec, priced, Some(i), now), rec.key,
                        ExtraQuota(s, rec, priced, i), owner, ExtraCredit(s, rec, priced, i))
  {
    SettledTables(s, rec, priced, i);
    PayOn(s, SettleAt(s, i, Actual(s, rec, priced)), rec, priced, i, now);
  }

  /** The settled hold and what is paid beyond it make up the spend. */
  lemma SpendSplit(s: Tables, rec: UsageRecord, priced: int, i: nat, k: Id, u: Id)
    requires rec.key in s.keys && s.keys[rec.key].owner in s.wallet.users
    requires IsOpenOn(s, rec.key, i) && rec.request != ""
    ensures var row := s.reservations[i]; var refund := Max(0, row.hold - Actual(s, rec, priced));
            && OnQuota(row, k, row.hold - refund + RejectedRefund(s, row, refund))
                 + (if k == rec.key then ExtraQuota(s, rec, priced, i) else 0)
               == (if k == rec.key
                   then QuotaSpend(s, rec, priced, Some(i)) + ChargeRejected(s, rec, priced, Some(i)) else 0)
            && OnWallet(row, u, row.hold - refund)
                 + (if u == s.keys[rec.key].owner then ExtraCredit(s, rec, priced, i) else 0)
               == WalletSpend(s, rec, priced, Some(i), u)
  {
  }

  /** Two steps of the books, one after the other. */
  lemma SettleThenPayLaw(s: Tables, rec: UsageRecord, priced: int, i: nat, now: int, k: Id, u: Id)
    requires Sound(s) && rec.key in s.keys && rec.tokens > 0 && IsOpenOn(s, rec.key, i) && rec.request != ""
    requires k in s.keys && u in s.wallet.users
    ensures var s' := ChargeCurrent(s, rec, priced, Some(i), now);
            && k in s'.keys && u in s'.wallet.users
            && QuotaBook(s', k) == QuotaBook(s, k)
                 + (if k == rec.key
                    then QuotaSpend(s, rec, priced, Some(i)) + ChargeRejected(s, rec, priced, Some(i)) else 0)
            && Available(s', u) == Available(s, u) - WalletSpend(s, rec, priced, Some(i), u)
  {
    var row := s.reservations[i];
    var actual := Actual(s, rec, priced);
    PayAfterSettle(s, rec, priced, i, now);
    CloseLaw(s, i, Max(0, row.hold - actual), SettleOf(row.id), Closed, k, u);
    BooksAfterPaying(s, SettleAt(s, i, actual), ChargeCurrent(s, rec, priced, Some(i), now), rec, priced, i, k, u);
  }

  lemma BooksAfterPaying(s: Tables, mid: Tables, end: Tables, rec: UsageRecord, priced: int, i: nat, k: Id, u: Id)
    requires rec.key in s.keys && s.keys[rec.key].owner in s.wallet.users
    requires IsOpenOn(s, rec.key, i) && rec.request != "" && k in s.keys && u in s.wallet.users
    requires rec.key in mid.keys && s.keys[rec.key].owner in mid.wallet.users && k in mid.keys && u in mid.wallet.users
    requires PaidFrom(mid, end, rec.key, ExtraQuota(s, rec, priced, i), s.keys[rec.key].owner,
                      ExtraCredit(s, rec, priced, i))
    requires var row := s.reservations[i]; var refund := Max(0, row.hold - Actual(s, rec, priced));
             && QuotaBook(mid, k)
                == QuotaBook(s, k) + OnQuota(row, k, row.hold - refund + RejectedRefund(s, row, refund))
             && Available(mid, u) == Available(s, u) - OnWallet(row, u, row.hold - refund)
    ensures k in end.keys && u in end.wallet.users
    ensures QuotaBook(end, k) == QuotaBook(s, k)
              + (if k == rec.key
                 then QuotaSpend(s, rec, priced, Some(i)) + ChargeRejected(s, rec, priced, Some(i)) else 0)
    ensures Available(end, u) == Available(s, u) - WalletSpend(s, rec, priced, Some(i), u)
  {
    PaidFromLaw(mid, end, rec.key, ExtraQuota(s, rec, priced, i), s.keys[rec.key].owner,
                ExtraCredit(s, rec, priced, i), k, u);
    SpendSplit(s, rec, priced, i, k, u);
  }

  lemma PaidFromSound(s: Tables, s': Tables, k: Id, used: int, u: Id, debit: int)
    requires k in s.keys && u in s.wallet.users && PaidFrom(s, s', k, used, u, debit)
    requires Sound(s) && used >= 0
    ensures Sound(s') && KeysKept(s, s') && s'.wallet.users.Keys == s.wallet.users.Keys
    ensures Funded(s) ==> Funded(s')
    ensures WithinQuota(s) && (used > 0 ==> s.keys[k].used + used <= s.keys[k].amount) ==> WithinQuota(s')
  {
    forall i | 0 <= i < |s'.reservations|
      ensures RowSound(s', s'.reservations[i])
    {
      assert RowSound(s, s.reservations[i]);
    }
  }

  /** A charge closes the row it settles and leaves every other reservation as it is. */
  lemma ChargeRows(s: Tables, rec: UsageRecord, priced: int, pick: Option<nat>, now: int)
    requires Sound(s) && rec.key in s.keys && rec.tokens > 0 && PickOpen(s, rec.key, pick)
    ensures ChargeCurrent(s, rec, priced, pick, now).reservations
            == if Settles(rec, pick)
               then s.reservations[pick.value := s.reservations[pick.value].(status := Closed)]
               else s.reservations
  {
    ActualPositive(s, rec, priced);
    if Settles(rec, pick) {
      PayAfterSettle(s, rec, priced, pick.value, now);
    } else {
      PayEffect(s, s.keys[rec.key], rec, UnitSpend(s, rec, priced), Cost(rec, priced), now);
    }
  }

  /** A charge respects the schema, the funding of open holds and the key's quota. */
  lemma ChargeSound(s: Tables, rec: UsageRecord, priced: int, pick: Option<nat>, now: int)
    requires Sound(s) && rec.key in s.keys && rec.tokens > 0 && PickOpen(s, rec.key, pick)
    ensures var s' := ChargeCurrent(s, rec, priced, pick, now);
            && Sound(s') && KeysKept(s, s') && s'.wallet.users.Keys == s.wallet.users.Keys
            && (Funded(s) ==> Funded(s'))
            && (WithinQuota(s) ==> WithinQuota(s'))
  {
    var key := s.keys[rec.key];
    ActualPositive(s, rec, priced);
    if !Settles(rec, pick) {
      var unit := UnitSpend(s, rec, priced);
      PayEffect(s, key, rec, unit, Cost(rec, priced), now);
      PaidFromSound(s, ChargeCurrent(s, rec, priced, pick, now), rec.key, Affordable(key, unit), key.owner,
                    Overflowed(s, key, unit, Cost(rec, priced)));
    } else {
      SettleThenPaySound(s, rec, priced, pick.value, now);
    }
  }

  lemma SettleThenPaySound(s: Tables, rec: UsageRecord, priced: int, i: nat, now: int)
    requires Sound(s) && rec.key in s.keys && rec.tokens > 0 && IsOpenOn(s, rec.key, i) && rec.request != ""
    ensures var s' := ChargeCurrent(s, rec, priced, Some(i), now);
            && Sound(s') && KeysKept(s, s') && s'.wallet.users.Keys == s.wallet.users.Keys
            && (Funded(s) ==> Funded(s'))
            && (WithinQuota(s) ==> WithinQuota(s'))
  {
    var row := s.reservations[i];
    var actual := Actual(s, rec, priced);
    var mid := SettleAt(s, i, actual);
    ActualPositive(s, rec, priced);
    PayAfterSettle(s, rec, priced, i, now);
    CloseSound(s, i, Max(0, row.hold - actual), SettleOf(row.id), Closed);
    CloseEffect(s, i, Max(0, row.hold - actual), SettleOf(row.id), Closed);
    if actual > row.hold {
      SnapshotExact(s, i, actual);
    }
    PaidFromSound(mid, ChargeCurrent(s, rec, priced, Some(i), now), rec.key, ExtraQuota(s, rec, priced, i),
                  s.keys[rec.key].owner, ExtraCredit(s, rec, priced, i));
  }
}
