/** A failed request is free, whatever else the system does between its hold and its completion. */
module FailedRequests {
  import opened Sums
  import opened Wallets
  import opened Billing
  import opened Accounting
  import opened Charging
  import opened Protocol
  import opened Safety

  /** The row of key k, the row of user u and the open reservations of k are as they were. */
  ghost predicate LeavesAlone(s: Tables, s': Tables, k: Id, u: Id)
  {
    && k in s.keys && k in s'.keys && s'.keys[k] == s.keys[k]
    && u in s.wallet.users && u in s'.wallet.users && s'.wallet.users[u] == s.wallet.users[u]
    && forall i :: IsOpenOn(s, k, i) ==> s.reservations[i] in s'.reservations
  }

  /** A run of which every step leaves k and u alone. */
  ghost predicate AloneRun(s: Tables, events: seq<Event>, k: Id, u: Id)
    decreases |events|
  {
    events == []
    || (var s' := Next(s, events[0].step, events[0].now);
        Admissible(s, events[0].step) && LeavesAlone(s, s', k, u) && AloneRun(s', events[1..], k, u))
  }

  lemma {:induction false} AloneRunKeeps(s: Tables, events: seq<Event>, k: Id, u: Id, row: Reservation)
    requires Sound(s) && k in s.keys && u in s.wallet.users && AloneRun(s, events, k, u)
    requires row in s.reservations && row.key == k && row.status == Open
    ensures var s' := RunAll(s, events);
            && Sound(s') && k in s'.keys && s'.keys[k] == s.keys[k]
            && u in s'.wallet.users && s'.wallet.users[u] == s.wallet.users[u] && row in s'.reservations
    decreases |events|
  {
    if events != [] {
      var i :| 0 <= i < |s.reservations| && s.reservations[i] == row;
      assert IsOpenOn(s, k, i);
      StepTables(s, events[0].step, events[0].now);
      AloneRunKeeps(Next(s, events[0].step, events[0].now), events[1..], k, u, row);
    }
  }

  // ---- Steps that do ----

  /** Holds, usage records and completions of other owners' keys, and records without tokens. */
  predicate AboutOthers(s: Tables, step: Step, k: Id, u: Id)
  {
    match step
    case Intercept(_, k', _) => k' != k && (k' in s.keys ==> s.keys[k'].owner != u)
    case UsageEvent(rec, _, _) =>
      rec.tokens == 0 || (rec.key != k && (rec.key in s.keys ==> s.keys[rec.key].owner != u))
    case Complete(request, _) =>
      forall i :: 0 <= i < |s.reservations| && s.reservations[i].id == request ==>
        s.reservations[i].key != k && s.reservations[i].user != u
    case _ => false
  }

  lemma InterceptLeavesAlone(s: Tables, request: Id, k': Id, estimate: nat, now: int, k: Id, u: Id)
    requires Sound(s) && NewRequest(s, request) && k in s.keys && u in s.wallet.users
    requires AboutOthers(s, Intercept(request, k', estimate), k, u)
    ensures LeavesAlone(s, Next(s, Intercept(request, k', estimate), now), k, u)
  {
    if k' in s.keys && request != "" {
      var e := EnsurePeriod(s, k', now);
      var owner := s.keys[k'].owner;
      EnsurePeriodSound(s, k', now);
      PlacementPlaceable(e, request, k', owner, estimate, now);
      var placed := Placement(e, request, k', owner, estimate, now);
      WithoutFresh(s.reservations, request);
      if placed.Some? {
        PlaceEffect(e, placed.value);
        assert SameTerms(e.keys[k], Place(e, placed.value).keys[k]);
        assert UserMoved(e, Place(e, placed.value), u, 0);
      }
    }
  }

  lemma UsageLeavesAlone(s: Tables, rec: UsageRecord, priced: int, pick: Option<nat>, now: int, k: Id, u: Id)
    requires Sound(s) && Funded(s) && PickOpen(s, rec.key, pick) && k in s.keys && u in s.wallet.users
    requires rec.tokens > 0 && rec.key in s.keys && rec.key != k && s.keys[rec.key].owner != u
    ensures LeavesAlone(s, ChargeCurrent(s, rec, priced, pick, now), k, u)
  {
    var key := s.keys[rec.key];
    ActualPositive(s, rec, priced);
    ChargeRows(s, rec, priced, pick, now);
    if Settles(rec, pick) {
      var row := s.reservations[pick.value];
      var refund := Max(0, row.hold - Actual(s, rec, priced));
      var mid := SettleAt(s, pick.value, Actual(s, rec, priced));
      PayAfterSettle(s, rec, priced, pick.value, now);
      CloseEffect(s, pick.value, refund, SettleOf(row.id), Closed);
      assert SameTerms(s.keys[k], mid.keys[k]) && UserMoved(s, mid, u, 0);
    } else {
      PayEffect(s, key, rec, UnitSpend(s, rec, priced), Cost(rec, priced), now);
    }
    RowsKept(s, ChargeCurrent(s, rec, priced, pick, now), rec, pick, k);
  }

  lemma RowsKept(s: Tables, s': Tables, rec: UsageRecord, pick: Option<nat>, k: Id)
    requires PickOpen(s, rec.key, pick) && rec.key != k
    requires s'.reservations == if Settles(rec, pick)
                                then s.reservations[pick.value := s.reservations[pick.value].(status := Closed)]
                                else s.reservations
    ensures forall i :: IsOpenOn(s, k, i) ==> s.reservations[i] in s'.reservations
  {
    forall i | IsOpenOn(s, k, i)
      ensures s.reservations[i] in s'.reservations
    {
      assert s'.reservations[i] == s.reservations[i];
    }
  }

  lemma CompleteLeavesAlone(s: Tables, request: Id, k: Id, u: Id)
    requires Sound(s) && k in s.keys && u in s.wallet.users && AboutOthers(s, Complete(request, false), k, u)
    ensures LeavesAlone(s, Release(s, request), k, u)
  {
    var s' := Release(s, request);
    ReleaseRows(s, request);
    if Releasable(s, request) {
      var i := Find(s.reservations, request).value;
      var row := s.reservations[i];
      assert RowSound(s, row);
      CloseEffect(s, i, row.hold, ReleaseOf(request), Released);
      assert SameTerms(s.keys[k], s'.keys[k]) && UserMoved(s, s', u, 0);
    }
    forall j | IsOpenOn(s, k, j)
      ensures s.reservations[j] in s'.reservations
    {
      assert s'.reservations[j] == s.reservations[j];
    }
  }

  /** The hooks of other owners' keys leave this key and its owner alone. */
  lemma OthersLeaveAlone(s: Tables, step: Step, now: int, k: Id, u: Id)
    requires Sound(s) && Funded(s) && Admissible(s, step) && k in s.keys && u in s.wallet.users
    requires AboutOthers(s, step, k, u)
    ensures LeavesAlone(s, Next(s, step, now), k, u)
  {
    match step
    case Intercept(request, k', estimate) => InterceptLeavesAlone(s, request, k', estimate, now, k, u);
    case UsageEvent(rec, priced, pick) =>
      if PickOpen(s, rec.key, pick) && rec.key in s.keys && rec.tokens > 0 {
        var e := EnsurePeriod(s, rec.key, now);
        EnsurePeriodSound(s, rec.key, now);
        UsageLeavesAlone(e, rec, priced, pick, now, k, u);
        assert forall i :: IsOpenOn(s, k, i) <==> IsOpenOn(e, k, i);
      }
    case Complete(request, succeeded) => CompleteLeavesAlone(s, request, k, u);
  }

  // ---- The failed request ----

  /** The row a hold places, and what it took from the key and its owner. */
  lemma PlacedRow(s: Tables, request: Id, k: Id, estimate: nat, now: int) returns (row: Reservation)
    requires Sound(s) && NewRequest(s, request) && request != "" && k in s.keys
    requires Placement(EnsurePeriod(s, k, now), request, k, s.keys[k].owner, estimate, now).Some?
    ensures var held := Next(s, Intercept(request, k, estimate), now);
            var u := s.keys[k].owner;
            var key := Refreshed(s.keys[k], now);
            && Sound(held) && row in held.reservations && row.id == request && row.status == Open
            && row.key == k && row.user == u && row.hold >= 0 && u in s.wallet.users && u in held.wallet.users
            && k in held.keys && held.keys[k] == key.(used := key.used + OnQuota(row, k, row.hold)) && key.used >= 0
            && held.wallet.users[u]
               == s.wallet.users[u].(balance := s.wallet.users[u].balance - OnWallet(row, u, row.hold))
  {
    var u := s.keys[k].owner;
    var e := EnsurePeriod(s, k, now);
    EnsurePeriodSound(s, k, now);
    PlacementPlaceable(e, request, k, u, estimate, now);
    row := Placement(e, request, k, u, estimate, now).value;
    PlaceEffect(e, row);
    PlaceSound(e, row);
    assert SameTerms(e.keys[k], Place(e, row).keys[k]) && UserMoved(e, Place(e, row), u, -OnWallet(row, u, row.hold));
    assert Place(e, row).reservations[|Place(e, row).reservations| - 1] == row;
  }

  /**
    A hold, any run of the system that leaves the key and its owner alone, and a completion that
    did not succeed: the key is as the period refresh at the hold left it, its owner as before,
    and nobody else's row is touched by the completion.
   */
  lemma FailedRequestIsFreeAmid(s: Tables, request: Id, k: Id, estimate: nat, now: int, events: seq<Event>, later: int)
    requires Sound(s) && NewRequest(s, request) && request != "" && k in s.keys
    requires Placement(EnsurePeriod(s, k, now), request, k, s.keys[k].owner, estimate, now).Some?
    requires AloneRun(Next(s, Intercept(request, k, estimate), now), events, k, s.keys[k].owner)
    ensures var u := s.keys[k].owner;
            var amid := RunAll(Next(s, Intercept(request, k, estimate), now), events);
            var s' := Next(amid, Complete(request, false), later);
            && u in s.wallet.users
            && s'.keys == amid.keys[k := Refreshed(s.keys[k], now)]
            && s'.wallet.users == amid.wallet.users[u := s.wallet.users[u]]
  {
    var held := Next(s, Intercept(request, k, estimate), now);
    var row := PlacedRow(s, request, k, estimate, now);
    AloneRunKeeps(held, events, k, s.keys[k].owner, row);
    TakenBack(RunAll(held, events), row, Refreshed(s.keys[k], now), s.wallet.users[s.keys[k].owner]);
  }

  /** What a hold took from a key and a user, given back. */
  lemma TakenBack(s: Tables, row: Reservation, key: Key, user: User)
    requires Sound(s) && row in s.reservations && row.status == Open && key.used >= 0
    requires row.key in s.keys && s.keys[row.key] == key.(used := key.used + OnQuota(row, row.key, row.hold))
    requires row.user in s.wallet.users
    requires s.wallet.users[row.user] == user.(balance := user.balance - OnWallet(row, row.user, row.hold))
    ensures Release(s, row.id).keys == s.keys[row.key := key]
    ensures Release(s, row.id).wallet.users == s.wallet.users[row.user := user]
  {
    ReleaseReturns(s, row);
  }

  /** Releasing a reservation whose quota is still counted as used gives all of it back. */
  lemma ReleaseReturns(s: Tables, row: Reservation)
    requires Sound(s) && row in s.reservations && row.status == Open
    requires row.source == KeyQuota && row.key in s.keys ==> row.hold <= s.keys[row.key].used
    ensures var s' := Release(s, row.id);
            && row.key in s.keys && row.user in s.wallet.users
            && s'.keys == s.keys[row.key := s.keys[row.key].(
                 used := s.keys[row.key].used - OnQuota(row, row.key, row.hold))]
            && s'.wallet.users == s.wallet.users[row.user := s.wallet.users[row.user].(
                 balance := s.wallet.users[row.user].balance + OnWallet(row, row.user, row.hold))]
  {
    var i :| 0 <= i < |s.reservations| && s.reservations[i] == row;
    assert RowSound(s, row);
    FindUnique(s.reservations, i);
    assert s.keys == s.keys[row.key := s.keys[row.key]];
    assert s.wallet.users == s.wallet.users[row.user := s.wallet.users[row.user]];
    if row.source == KeyQuota {
      CloseQuotaEffect(s, i, row.hold, ReleaseOf(row.id), Released);
    } else {
      CloseWalletEffect(s, i, row.hold, ReleaseOf(row.id), Released);
    }
  }
}
