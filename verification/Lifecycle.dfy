/** The life of a reservation over whole runs: finalised at most once, and its credit flows never exceed its hold. */
module Lifecycle {
  import opened Sums
  import opened Wallets
  import opened Billing
  import opened Accounting
  import opened Charging
  import opened Referral
  import opened Protocol
  import opened Safety

  /** A later state of a reservation row: only an open one changes, and only its status. */
  ghost predicate Evolves(row: Reservation, row': Reservation)
  {
    row' == row.(status := row'.status) && (row.status != Open ==> row' == row)
  }

  ghost predicate Survives(row: Reservation, s: Tables)
  {
    exists i :: 0 <= i < |s.reservations| && Evolves(row, s.reservations[i])
  }

  predicate IsFlowOf(id: Id, ref: Ref)
  {
    ref == HoldOf(id) || ref == SettleOf(id) || ref == ReleaseOf(id)
  }

  /** What a ledger row moves on behalf of a request's reservation. */
  function FlowOf(id: Id): LedgerRow -> int
  {
    (row: LedgerRow) => if IsFlowOf(id, row.ref) then row.delta else 0
  }

  /** The debit of an open wallet hold, undone when released, partly refunded when settled. */
  ghost predicate FlowFits(row: Reservation, flow: int)
  {
    match (row.source, row.status)
    case (KeyQuota, _) => flow == 0
    case (UserWallet, Open) => flow == -row.hold
    case (UserWallet, Released) => flow == 0
    case (UserWallet, Closed) => -row.hold <= flow <= 0
  }

  ghost predicate FlowsFit(s: Tables)
  {
    forall i :: 0 <= i < |s.reservations| ==>
      FlowFits(s.reservations[i], Sum(s.wallet.ledger, FlowOf(s.reservations[i].id)))
  }

  /** New ledger rows that belong to no reservation. */
  ghost predicate Foreign(ledger: seq<LedgerRow>, ledger': seq<LedgerRow>)
  {
    && ledger <= ledger'
    && forall i :: |ledger| <= i < |ledger'| ==>
      !ledger'[i].ref.HoldOf? && !ledger'[i].ref.SettleOf? && !ledger'[i].ref.ReleaseOf?
  }

  lemma {:induction false} ForeignFlow(ledger: seq<LedgerRow>, ledger': seq<LedgerRow>, id: Id)
    requires Foreign(ledger, ledger')
    ensures Sum(ledger', FlowOf(id)) == Sum(ledger, FlowOf(id))
    decreases |ledger'|
  {
    if |ledger'| == |ledger| {
      assert ledger' == ledger;
    } else {
      ForeignFlow(ledger, ledger'[..|ledger'| - 1], id);
    }
  }

  /** A step that keeps the rows and writes foreign ledger rows only. */
  lemma ForeignStep(s: Tables, s': Tables)
    requires FlowsFit(s) && s'.reservations == s.reservations && Foreign(s.wallet.ledger, s'.wallet.ledger)
    ensures FlowsFit(s')
  {
    forall i | 0 <= i < |s'.reservations|
      ensures FlowFits(s'.reservations[i], Sum(s'.wallet.ledger, FlowOf(s'.reservations[i].id)))
    {
      ForeignFlow(s.wallet.ledger, s'.wallet.ledger, s'.reservations[i].id);
    }
  }

  // ---- Hold ----

  lemma PlaceFlow(s: Tables, row: Reservation, id: Id)
    requires Sound(s) && Placeable(s, row)
    ensures Sum(Place(s, row).wallet.ledger, FlowOf(id)) == Sum(s.wallet.ledger, FlowOf(id))
              - (if row.source == UserWallet && row.id == id then row.hold else 0)
  {
    var s' := Place(s, row);
    if row.source == UserWallet {
      assert s'.wallet.ledger == s.wallet.ledger + [s'.wallet.ledger[|s.wallet.ledger|]];
      SumAppend(s.wallet.ledger, s'.wallet.ledger[|s.wallet.ledger|], FlowOf(id));
    }
  }

  lemma PlaceFlows(s: Tables, row: Reservation)
    requires Sound(s) && FlowsFit(s) && Placeable(s, row) && NewRequest(s, row.id)
    ensures FlowsFit(Place(s, row))
    ensures Place(s, row).reservations == s.reservations + [row]
  {
    var s' := Place(s, row);
    PlaceEffect(s, row);
    WithoutFresh(s.reservations, row.id);
    SumZero(s.wallet.ledger, FlowOf(row.id));
    forall i | 0 <= i < |s'.reservations|
      ensures FlowFits(s'.reservations[i], Sum(s'.wallet.ledger, FlowOf(s'.reservations[i].id)))
    {
      PlaceFlow(s, row, s'.reservations[i].id);
    }
  }

  lemma InterceptFlows(s: Tables, request: Id, k: Id, estimate: nat, now: int)
    requires Sound(s) && FlowsFit(s) && NewRequest(s, request)
    ensures var s' := Next(s, Intercept(request, k, estimate), now);
            FlowsFit(s') && s.reservations <= s'.reservations
  {
    if k in s.keys && request != "" {
      var e := EnsurePeriod(s, k, now);
      var u := s.keys[k].owner;
      EnsurePeriodSound(s, k, now);
      PlacementPlaceable(e, request, k, u, estimate, now);
      var placed := Placement(e, request, k, u, estimate, now);
      ForeignStep(s, e);
      if placed.Some? {
        PlaceFlows(e, placed.value);
      }
    }
  }

  // ---- Settle and Release ----

  lemma CloseFlows(s: Tables, i: nat, refund: int, ref: Ref, status: ReservationStatus)
    requires Sound(s) && FlowsFit(s) && i < |s.reservations| && s.reservations[i].status == Open
    requires 0 <= refund <= s.reservations[i].hold
    requires (status == Closed && ref == SettleOf(s.reservations[i].id))
             || (status == Released && ref == ReleaseOf(s.reservations[i].id) && refund == s.reservations[i].hold)
    ensures FlowsFit(CloseAt(s, i, refund, ref, status))
  {
    var row := s.reservations[i];
    var s' := CloseAt(s, i, refund, ref, status);
    assert RowSound(s, row);
    forall j | 0 <= j < |s'.reservations|
      ensures FlowFits(s'.reservations[j], Sum(s'.wallet.ledger, FlowOf(s'.reservations[j].id)))
    {
      var id := s.reservations[j].id;
      assert j != i ==> id != row.id;
      if s'.wallet.ledger != s.wallet.ledger {
        assert s'.wallet.ledger == s.wallet.ledger + [s'.wallet.ledger[|s.wallet.ledger|]];
        SumAppend(s.wallet.ledger, s'.wallet.ledger[|s.wallet.ledger|], FlowOf(id));
      }
    }
  }

  lemma ReleaseFlows(s: Tables, request: Id)
    requires Sound(s) && FlowsFit(s)
    ensures FlowsFit(Release(s, request))
  {
    if Releasable(s, request) {
      var i := Find(s.reservations, request).value;
      CloseFlows(s, i, s.reservations[i].hold, ReleaseOf(request), Released);
    }
  }

  lemma {:induction false} ReleaseAllFlows(s: Tables, ids: seq<Id>)
    requires Sound(s) && FlowsFit(s)
    ensures FlowsFit(ReleaseAll(s, ids))
  {
    if ids != [] {
      ReleaseAllSound(s, ids[..|ids| - 1]);
      ReleaseAllFlows(s, ids[..|ids| - 1]);
      ReleaseFlows(ReleaseAll(s, ids[..|ids| - 1]), ids[|ids| - 1]);
    }
  }

  lemma PayForeign(s: Tables, key: Key, rec: UsageRecord, extra: int, cost: int, now: int)
    ensures var s' := Pay(s, key, rec, extra, cost, now);
            Foreign(s.wallet.ledger, s'.wallet.ledger) && s'.reservations == s.reservations
    ensures var s' := PayFromWallet(s, key, rec, extra, cost, now);
            Foreign(s.wallet.ledger, s'.wallet.ledger) && s'.reservations == s.reservations
  {
  }

  lemma ChargeFlows(s: Tables, rec: UsageRecord, priced: int, pick: Option<nat>, now: int)
    requires Sound(s) && FlowsFit(s) && rec.key in s.keys && rec.tokens > 0 && PickOpen(s, rec.key, pick)
    ensures var s' := ChargeCurrent(s, rec, priced, pick, now);
            && FlowsFit(s')
            && s'.reservations == if Settles(rec, pick)
                                  then s.reservations[pick.value := s.reservations[pick.value].(status := Closed)]
                                  else s.reservations
  {
    var key := s.keys[rec.key];
    var s' := ChargeCurrent(s, rec, priced, pick, now);
    if Settles(rec, pick) {
      var row := s.reservations[pick.value];
      var actual := Actual(s, rec, priced);
      var mid := SettleAt(s, pick.value, actual);
      ActualPositive(s, rec, priced);
      assert RowSound(s, row);
      CloseFlows(s, pick.value, Max(0, row.hold - actual), SettleOf(row.id), Closed);
      PayForeign(mid, key, rec, Max(0, actual - row.hold), Cost(rec, priced), now);
      ForeignStep(mid, s');
    } else {
      PayForeign(s, key, rec, UnitSpend(s, rec, priced), Cost(rec, priced), now);
      ForeignStep(s, s');
    }
  }

  lemma UsageFlows(s: Tables, rec: UsageRecord, priced: int, pick: Option<nat>, now: int)
    requires Sound(s) && FlowsFit(s) && PickOpen(s, rec.key, pick)
    ensures FlowsFit(Charge(s, rec, priced, pick, now))
    ensures forall row :: row in s.reservations ==> Survives(row, Charge(s, rec, priced, pick, now))
  {
    var s' := Charge(s, rec, priced, pick, now);
    if rec.key in s.keys {
      if rec.tokens == 0 {
        ForeignStep(s, s');
      } else {
        var e := EnsurePeriod(s, rec.key, now);
        EnsurePeriodSound(s, rec.key, now);
        ForeignStep(s, e);
        ChargeFlows(e, rec, priced, pick, now);
      }
    }
    SameIndexSurvives(s, s');
  }

  /** Rows that evolve in place survive. */
  lemma SameIndexSurvives(s: Tables, s': Tables)
    requires |s.reservations| <= |s'.reservations|
    requires forall i :: 0 <= i < |s.reservations| ==> Evolves(s.reservations[i], s'.reservations[i])
    ensures forall row :: row in s.reservations ==> Survives(row, s')
  {
    forall row | row in s.reservations
      ensures Survives(row, s')
    {
      var i :| 0 <= i < |s.reservations| && s.reservations[i] == row;
      assert Evolves(row, s'.reservations[i]);
    }
  }

  // ---- Every step ----

  lemma DeleteFlows(s: Tables, k: Id)
    requires FlowsFit(s)
    ensures FlowsFit(Delete(s, k))
    ensures forall row :: row in s.reservations && row.key != k ==> Survives(row, Delete(s, k))
  {
    var s' := Delete(s, k);
    WithoutKeyMembers(s.reservations, k);
    forall i | 0 <= i < |s'.reservations|
      ensures FlowFits(s'.reservations[i], Sum(s'.wallet.ledger, FlowOf(s'.reservations[i].id)))
    {
      assert s'.reservations[i] in s'.reservations;
      var j :| 0 <= j < |s.reservations| && s.reservations[j] == s'.reservations[i];
    }
    forall row | row in s.reservations && row.key != k
      ensures Survives(row, s')
    {
      assert row in s'.reservations;
      var i :| 0 <= i < |s'.reservations| && s'.reservations[i] == row;
      assert Evolves(row, s'.reservations[i]);
    }
  }

  lemma {:induction false} PercentWalkForeign(s: Tables, from: Id, upline: Id, seen: set<Id>, tiers: seq<int>,
                                              tier: int, amount: int, ref: Ref)
    ensures Foreign(s.wallet.ledger, PercentWalk(s, from, upline, seen, tiers, tier, amount, ref).wallet.ledger)
    decreases |tiers|
  {
    if tiers != [] && upline != "" && upline !in seen {
      var row := Earning(upline, from, tier, Percent, amount, amount * tiers[0] / 100);
      var s' := if tiers[0] > 0 && row.reward > 0 then Grant(s, row, ref) else s;
      GrantForeign(s, row, ref);
      PercentWalkForeign(s', from, ParentOf(s'.wallet.users, upline), seen + {upline}, tiers[1..], tier + 1, amount,
                         ref);
    }
  }

  lemma GrantForeign(s: Tables, row: Earning, ref: Ref)
    ensures Foreign(s.wallet.ledger, Grant(s, row, ref).wallet.ledger)
  {
  }

  lemma OnRechargeForeign(s: Tables, u: Id, amount: int, ref: Ref, cfg: ReferralConfig)
    ensures Foreign(s.wallet.ledger, OnRecharge(s, u, amount, ref, cfg).wallet.ledger)
  {
    if cfg.mode.PercentMode? {
      PercentWalkForeign(s, u, ParentOf(s.wallet.users, u), {u}, cfg.tiers, 1, amount, ref);
    } else {
      GrantForeign(s, Earning(ParentOf(s.wallet.users, u), u, 1, Fixed, 0, cfg.fixed), ref);
    }
  }

  /** Steps outside the request protocol write no hold, settlement or release. */
  lemma OtherForeign(s: Tables, step: Step, now: int)
    requires !step.Intercept? && !step.UsageEvent? && !step.Complete? && !step.Boot? && !step.DeleteKey?
    ensures var s' := Next(s, step, now);
            s'.reservations == s.reservations && Foreign(s.wallet.ledger, s'.wallet.ledger)
  {
    if step.AdminRecharge? {
      var r := Adjust(s.wallet, step.user, step.amount, step.reason, Given(step.text), step.channel);
      if r.Adjusted? {
        OnRechargeElsewhere(s.(wallet := r.wallet), step.user, step.amount, Given(step.text), step.cfg);
        OnRechargeForeign(s.(wallet := r.wallet), step.user, step.amount, Given(step.text), step.cfg);
      }
    }
  }

  lemma ReleaseSurvives(s: Tables, ids: seq<Id>, request: Id)
    requires Sound(s)
    ensures forall row :: row in s.reservations ==> Survives(row, Release(s, request))
    ensures forall row :: row in s.reservations ==> Survives(row, ReleaseAll(s, ids))
  {
    ReleaseRows(s, request);
    SameIndexSurvives(s, Release(s, request));
    ReleaseAllRows(s, ids);
    SameIndexSurvives(s, ReleaseAll(s, ids));
  }

  lemma StepFlows(s: Tables, step: Step, now: int)
    requires Sound(s) && FlowsFit(s) && Admissible(s, step)
    ensures FlowsFit(Next(s, step, now))
  {
    match step
    case Intercept(request, k, estimate) => InterceptFlows(s, request, k, estimate, now);
    case UsageEvent(rec, priced, pick) =>
      if PickOpen(s, rec.key, pick) {
        UsageFlows(s, rec, priced, pick, now);
      }
    case Complete(request, succeeded) => ReleaseFlows(s, request);
    case Boot(maxAge) => ReleaseAllFlows(s, StaleIds(s.reservations, now - maxAge));
    case DeleteKey(k) => DeleteFlows(s, k);
    case _ =>
      OtherForeign(s, step, now);
      ForeignStep(s, Next(s, step, now));
  }

  lemma RequestSurvives(s: Tables, step: Step, now: int, row: Reservation)
    requires Sound(s) && FlowsFit(s) && Admissible(s, step) && RequestStep(step) && row in s.reservations
    ensures Survives(row, Next(s, step, now))
  {
    SameIndexSurvives(s, s);
    match step
    case Intercept(request, k, estimate) =>
      InterceptFlows(s, request, k, estimate, now);
      SameIndexSurvives(s, Next(s, step, now));
    case UsageEvent(rec, priced, pick) =>
      if PickOpen(s, rec.key, pick) {
        UsageFlows(s, rec, priced, pick, now);
      }
    case Complete(request, succeeded) => ReleaseSurvives(s, [], request);
    case Boot(maxAge) => ReleaseSurvives(s, StaleIds(s.reservations, now - maxAge), "");
  }

  lemma StepSurvives(s: Tables, step: Step, now: int, row: Reservation)
    requires Sound(s) && FlowsFit(s) && Admissible(s, step)
    requires row in s.reservations && !(step.DeleteKey? && step.key == row.key)
    ensures Survives(row, Next(s, step, now))
  {
    if RequestStep(step) {
      RequestSurvives(s, step, now, row);
    } else if step.DeleteKey? {
      DeleteFlows(s, step.key);
    } else {
      OtherForeign(s, step, now);
      SameIndexSurvives(s, Next(s, step, now));
    }
  }

  /** The row is still there, evolved at most, and its ledger rows fit its status. */
  ghost predicate Accounted(row: Reservation, s: Tables)
  {
    exists i :: 0 <= i < |s.reservations| && Evolves(row, s.reservations[i])
      && FlowFits(s.reservations[i], Sum(s.wallet.ledger, FlowOf(row.id)))
  }

  predicate NeverDeletes(events: seq<Event>, k: Id)
  {
    forall i :: 0 <= i < |events| ==> !(events[i].step.DeleteKey? && events[i].step.key == k)
  }

  /**
    Over every run: a reservation keeps its hold, source and owner; once settled or released it
    never changes again; and the ledger rows written for it add up to minus the hold while it is
    open, to nothing once released, and to no more than the hold once settled.
   */
  lemma {:induction false} FinalisedAtMostOnce(s: Tables, events: seq<Event>, row: Reservation)
    requires Sound(s) && FlowsFit(s) && AllAdmissible(s, events) && row in s.reservations
    requires NeverDeletes(events, row.key)
    ensures Accounted(row, RunAll(s, events))
    decreases |events|
  {
    if events == [] {
      var i :| 0 <= i < |s.reservations| && s.reservations[i] == row;
      assert Evolves(row, s.reservations[i]);
    } else {
      var s1 := Next(s, events[0].step, events[0].now);
      StepTables(s, events[0].step, events[0].now);
      StepFlows(s, events[0].step, events[0].now);
      StepSurvives(s, events[0].step, events[0].now, row);
      var j :| 0 <= j < |s1.reservations| && Evolves(row, s1.reservations[j]);
      FinalisedAtMostOnce(s1, events[1..], s1.reservations[j]);
      EvolvesOn(row, s1.reservations[j], RunAll(s, events));
    }
  }

  lemma EvolvesOn(row: Reservation, row1: Reservation, s: Tables)
    requires Evolves(row, row1) && Accounted(row1, s)
    ensures Accounted(row, s)
  {
    var i :| 0 <= i < |s.reservations| && Evolves(row1, s.reservations[i])
      && FlowFits(s.reservations[i], Sum(s.wallet.ledger, FlowOf(row1.id)));
    assert Evolves(row, s.reservations[i]);
  }

  /** The ledger rows of every reservation fit its status over every run. */
  lemma {:induction false} RunFlows(s: Tables, events: seq<Event>)
    requires Sound(s) && FlowsFit(s) && AllAdmissible(s, events)
    ensures FlowsFit(RunAll(s, events))
    decreases |events|
  {
    if events != [] {
      StepTables(s, events[0].step, events[0].now);
      StepFlows(s, events[0].step, events[0].now);
      RunFlows(Next(s, events[0].step, events[0].now), events[1..]);
    }
  }

  /**
    From the empty database on: at every moment the ledger rows of every reservation fit its
    status, and whatever follows finalises it at most once, as long as its key is not deleted.
   */
  lemma EveryReservationAccounted(before: seq<Event>, after: seq<Event>, row: Reservation)
    requires AllAdmissible(EMPTY_TABLES, before)
    requires var s := RunAll(EMPTY_TABLES, before);
             AllAdmissible(s, after) && row in s.reservations && NeverDeletes(after, row.key)
    ensures FlowsFit(RunAll(EMPTY_TABLES, before))
    ensures Accounted(row, RunAll(RunAll(EMPTY_TABLES, before), after))
  {
    EmptyIsSafe();
    RunFlows(EMPTY_TABLES, before);
    EveryRunIsSafe(EMPTY_TABLES, before);
    FinalisedAtMostOnce(RunAll(EMPTY_TABLES, before), after, row);
  }
}
