/**
  The steps of the running system: the plugin hooks (internal/plugin/hooks.go), the admin
  actions (management.go, mgmt_extra.go), the portal's sign-up, recharge and purchase, and what
  every one of them keeps, over whole runs. A hook is one step.
 */
module Protocol {
  import opened Sums
  import opened Wallets
  import opened Billing
  import opened Charging
  import opened Referral
  import opened Purchase

  datatype Step =
    | Intercept(request: Id, key: Id, estimate: nat)
    | UsageEvent(rec: UsageRecord, priced: int, pick: Option<nat>)
    | Complete(request: Id, succeeded: bool)
    | Boot(maxAge: int)
    | AdminRecharge(user: Id, amount: int, reason: Reason, text: string, channel: string, cfg: ReferralConfig)
    | Webhook(user: Id, amount: int, tx: string)
    | NewUser(user: Id, code: string, referrer: Id)
    | SetWallet(user: Id, mode: Option<WalletMode>, limit: Option<int>)
    | NewKey(key: Id, owner: Id, newKind: QuotaKind, newScope: QuotaScope, quota: nat, windowHours: nat, expiresAt: int)
    | DeleteKey(key: Id)
    | Transfer(key: Id, user: Id)
    | SetOverflow(key: Id, on: bool)
    | RenewKey(key: Id, add: int, extendDays: int, setExpires: int)
    | SwitchQuota(key: Id, kind: Option<QuotaKind>, scope: Option<QuotaScope>, amount: int, expiresAt: int)
    | BuyPackage(req: BuyRequest, newKey: Id, faults: Faults)

  datatype Event = Event(step: Step, now: int)

  function OrElse<T>(value: Option<T>, default: T): T
  {
    if value.Some? then value.value else default
  }

  predicate HasOpen(s: Tables, k: Id)
  {
    exists i :: 0 <= i < |s.reservations| && IsOpenOn(s, k, i)
  }

  predicate HasOrder(s: Tables, k: Id)
  {
    exists i :: 0 <= i < |s.orders| && s.orders[i].key == k
  }

  /** Deleting a key deletes its reservations; an order that names the key forbids it. */
  function Delete(s: Tables, k: Id): Tables
  {
    if HasOrder(s, k) then s
    else s.(keys := s.keys - {k}, reservations := WithoutKey(s.reservations, k))
  }

  function WithoutKey(rows: seq<Reservation>, k: Id): seq<Reservation>
  {
    if rows == [] then []
    else
      var front := WithoutKey(rows[..|rows| - 1], k);
      if rows[|rows| - 1].key == k then front else front + [rows[|rows| - 1]]
  }

  function AdminExpiry(key: Key, extendDays: int, setExpires: int, now: int): int
  {
    if setExpires != 0 then setExpires
    else if extendDays > 0 then
      (if key.expiresAt < 0 || key.expiresAt < now then now else key.expiresAt) + extendDays * MILLIS_PER_DAY
    else key.expiresAt
  }

  function SetKey(s: Tables, k: Id, key: Key): Tables
  {
    s.(keys := s.keys[k := key])
  }

  function SetUser(w: Wallet, u: Id, mode: Option<WalletMode>, limit: Option<int>): Wallet
  {
    var moded := if mode.Some? then Apply(w, SetMode(u, mode.value)) else w;
    if limit.Some? then Apply(moded, SetLimit(u, limit.value)) else moded
  }

  function Next(s: Tables, step: Step, now: int): Tables
  {
    match step
    case Intercept(request, k, estimate) =>
      if k in s.keys then Hold(s, request, k, s.keys[k].owner, estimate, now) else s
    case UsageEvent(rec, priced, pick) =>
      if PickOpen(s, rec.key, pick) then Charge(s, rec, priced, pick, now) else s
    case Complete(request, succeeded) => if succeeded then s else Release(s, request)
    case Boot(maxAge) => ReleaseStale(s, now - maxAge)
    case AdminRecharge(u, amount, reason, text, channel, cfg) =>
      var r := Adjust(s.wallet, u, amount, reason, Given(text), channel);
      if amount == 0 || r.Refused? then s
      else
        var s' := s.(wallet := r.wallet);
        if reason == Recharge && amount > 0 then OnRecharge(s', u, amount, Given(text), cfg) else s'
    case Webhook(u, amount, tx) =>
      if amount <= 0 then s
      else s.(wallet := AfterAdjust(s.wallet, Adjust(s.wallet, u, amount, Recharge, Given(tx), TELEGRAM)))
    case NewUser(u, code, referrer) => s.(wallet := SignUp(s.wallet, u, code, referrer))
    case SetWallet(u, mode, limit) => s.(wallet := SetUser(s.wallet, u, mode, limit))
    case NewKey(k, owner, kind, scope, amount, windowHours, expiresAt) =>
      if k in s.keys || owner !in s.wallet.users then s
      else SetKey(s, k, Key(owner, kind, scope, amount, 0, 0, 0, windowHours, false, expiresAt, Active))
    case DeleteKey(k) => Delete(s, k)
    case Transfer(k, u) =>
      if k in s.keys && u in s.wallet.users && !HasOpen(s, k) then SetKey(s, k, s.keys[k].(owner := u)) else s
    case SetOverflow(k, on) => if k in s.keys then SetKey(s, k, s.keys[k].(overflow := on)) else s
    case RenewKey(k, add, extendDays, setExpires) =>
      if k !in s.keys || s.keys[k].amount + add < 0 then s
      else
        SetKey(s, k, s.keys[k].(amount := s.keys[k].amount + add, status := Active,
                                expiresAt := AdminExpiry(s.keys[k], extendDays, setExpires, now)))
    case SwitchQuota(k, kind, scope, amount, expiresAt) =>
      if k !in s.keys then s
      else
        var key := s.keys[k];
        SetKey(s, k, key.(kind := OrElse(kind, key.kind), scope := OrElse(scope, key.scope), used := 0,
                          amount := if amount <= 0 then key.amount else amount,
                          expiresAt := if expiresAt == 0 then key.expiresAt else expiresAt))
    case BuyPackage(req, newKey, faults) => Buy(s, req, newKey, faults, now).0
  }

  function RunAll(s: Tables, events: seq<Event>): Tables
    decreases |events|
  {
    if events == [] then s else RunAll(Next(s, events[0].step, events[0].now), events[1..])
  }

  /** No reservation and no ledger row is about this request yet. */
  ghost predicate NewRequest(s: Tables, request: Id)
  {
    && (forall i :: 0 <= i < |s.reservations| ==> s.reservations[i].id != request)
    && (forall i :: 0 <= i < |s.wallet.ledger| ==>
          s.wallet.ledger[i].ref !in {HoldOf(request), SettleOf(request), ReleaseOf(request)})
  }

  /**
    What the host and the program's random identifiers guarantee: intercept_before runs once per
    client request, Settle selects an oldest open reservation, identifiers are not empty.
   */
  ghost predicate Admissible(s: Tables, step: Step)
  {
    match step
    case Intercept(request, _, _) => NewRequest(s, request)
    case UsageEvent(rec, _, pick) =>
      rec.request != "" && rec.tokens > 0 && rec.key in s.keys ==> OldestOpen(s, rec.key, pick)
    case NewUser(u, _, _) => u != ""
    case _ => true
  }

  ghost predicate AllAdmissible(s: Tables, events: seq<Event>)
    decreases |events|
  {
    events == []
    || (Admissible(s, events[0].step) && AllAdmissible(Next(s, events[0].step, events[0].now), events[1..]))
  }

  // ---- Every step moves wallets through the wallet operations only ----

  /** Movements that write neither a reward nor a purchase. */
  predicate PlainOp(op: WalletOp)
  {
    op.Move? && !op.ref.BonusFor? && !op.ref.OrderAt?
  }

  ghost predicate Plain(ops: seq<WalletOp>)
  {
    forall i :: 0 <= i < |ops| ==> PlainOp(ops[i])
  }

  ghost predicate PlainReach(w: Wallet, w': Wallet)
  {
    exists ops :: Plain(ops) && w' == Run(w, ops)
  }

  lemma PlainSelf(w: Wallet)
    ensures PlainReach(w, w)
  {
    assert w == Run(w, []);
  }

  lemma PlainOne(w: Wallet, op: WalletOp)
    requires PlainOp(op)
    ensures PlainReach(w, Apply(w, op))
  {
    assert Run(w, [op]) == Apply(w, op) by {
      assert [op][1..] == [];
    }
    assert Plain([op]);
  }

  lemma PlainTrans(w: Wallet, w1: Wallet, w2: Wallet)
    requires PlainReach(w, w1) && PlainReach(w1, w2)
    ensures PlainReach(w, w2)
  {
    var ops :| Plain(ops) && w1 == Run(w, ops);
    var ops' :| Plain(ops') && w2 == Run(w1, ops');
    RunConcat(w, ops, ops');
    assert Plain(ops + ops');
  }

  lemma PlainMove(s: Tables, u: Id, delta: int, reason: Reason, ref: Ref)
    requires !ref.BonusFor? && !ref.OrderAt?
    ensures PlainReach(s.wallet, MoveWallet(s, u, delta, reason, ref).wallet)
  {
    PlainOne(s.wallet, Move(u, delta, reason, ref, SYSTEM));
  }

  lemma HoldPlain(s: Tables, request: Id, k: Id, u: Id, estimate: nat, now: int)
    ensures PlainReach(s.wallet, Hold(s, request, k, u, estimate, now).wallet)
  {
    PlainSelf(s.wallet);
    PlainMove(s, u, -(estimate as int), Held, HoldOf(request));
  }

  lemma ClosePlain(s: Tables, i: nat, refund: int, ref: Ref, status: ReservationStatus)
    requires i < |s.reservations| && !ref.BonusFor? && !ref.OrderAt?
    ensures PlainReach(s.wallet, CloseAt(s, i, refund, ref, status).wallet)
  {
    PlainSelf(s.wallet);
    PlainMove(s, s.reservations[i].user, refund, Refund, ref);
  }

  lemma {:induction false} ReleaseAllPlain(s: Tables, ids: seq<Id>)
    ensures PlainReach(s.wallet, ReleaseAll(s, ids).wallet)
  {
    PlainSelf(s.wallet);
    if ids != [] {
      var front := ReleaseAll(s, ids[..|ids| - 1]);
      ReleaseAllPlain(s, ids[..|ids| - 1]);
      ReleasePlain(front, ids[|ids| - 1]);
      PlainTrans(s.wallet, front.wallet, ReleaseAll(s, ids).wallet);
    }
  }

  lemma ReleasePlain(s: Tables, request: Id)
    ensures PlainReach(s.wallet, Release(s, request).wallet)
  {
    PlainSelf(s.wallet);
    if Releasable(s, request) {
      var i := Find(s.reservations, request).value;
      ClosePlain(s, i, s.reservations[i].hold, ReleaseOf(request), Released);
    }
  }

  lemma PayPlain(s: Tables, key: Key, rec: UsageRecord, extra: int, cost: int, now: int)
    ensures PlainReach(s.wallet, Pay(s, key, rec, extra, cost, now).wallet)
    ensures PlainReach(s.wallet, PayFromWallet(s, key, rec, extra, cost, now).wallet)
  {
    PlainSelf(s.wallet);
    PlainMove(s, key.owner, -cost, Usage, UsageAt(now));
    PlainMove(s, key.owner, -extra, Usage, UsageAt(now));
  }

  lemma ChargePlain(s: Tables, rec: UsageRecord, priced: int, pick: Option<nat>, now: int)
    requires pick.Some? ==> pick.value < |s.reservations|
    ensures PlainReach(s.wallet, Charge(s, rec, priced, pick, now).wallet)
  {
    PlainSelf(s.wallet);
    if rec.key in s.keys && rec.tokens > 0 {
      var e := EnsurePeriod(s, rec.key, now);
      var key := e.keys[rec.key];
      var cost := Cost(rec, priced);
      if !Settles(rec, pick) {
        PayPlain(e, key, rec, UnitSpend(e, rec, priced), cost, now);
      } else {
        var row := e.reservations[pick.value];
        var actual := Actual(e, rec, priced);
        var mid := SettleAt(e, pick.value, actual);
        ClosePlain(e, pick.value, Max(0, row.hold - actual), SettleOf(row.id), Closed);
        PayPlain(mid, key, rec, Max(0, actual - row.hold), cost, now);
        PlainTrans(s.wallet, mid.wallet, Charge(s, rec, priced, pick, now).wallet);
      }
    }
  }

  /** The steps of the request protocol and its recovery at boot. */
  predicate RequestStep(step: Step)
  {
    step.Intercept? || step.UsageEvent? || step.Complete? || step.Boot?
  }

  predicate Hook(step: Step)
  {
    RequestStep(step) || step.Webhook?
  }

  /** The hooks and the webhook: earnings and orders stay, wallets move plainly. */
  lemma HookPlain(s: Tables, step: Step, now: int)
    requires Hook(step)
    ensures var s' := Next(s, step, now);
            && PlainReach(s.wallet, s'.wallet) && s'.earnings == s.earnings && s'.orders == s.orders
  {
    PlainSelf(s.wallet);
    match step
    case Intercept(request, k, estimate) =>
      if k in s.keys {
        HoldPlain(s, request, k, s.keys[k].owner, estimate, now);
      }
    case UsageEvent(rec, priced, pick) =>
      if PickOpen(s, rec.key, pick) {
        ChargePlain(s, rec, priced, pick, now);
        ChargeElsewhere(s, rec, priced, pick, now);
      }
    case Complete(request, succeeded) => ReleasePlain(s, request);
    case Boot(maxAge) =>
      ReleaseAllPlain(s, StaleIds(s.reservations, now - maxAge));
      ReleaseAllElsewhere(s, StaleIds(s.reservations, now - maxAge));
    case Webhook(u, amount, tx) => PlainOne(s.wallet, Move(u, amount, Recharge, Given(tx), TELEGRAM));
  }

  lemma ChargeElsewhere(s: Tables, rec: UsageRecord, priced: int, pick: Option<nat>, now: int)
    requires pick.Some? ==> pick.value < |s.reservations|
    ensures Charge(s, rec, priced, pick, now).earnings == s.earnings
            && Charge(s, rec, priced, pick, now).orders == s.orders
  {
  }

  lemma {:induction false} ReleaseAllElsewhere(s: Tables, ids: seq<Id>)
    ensures ReleaseAll(s, ids).earnings == s.earnings && ReleaseAll(s, ids).orders == s.orders
  {
    if ids != [] {
      ReleaseAllElsewhere(s, ids[..|ids| - 1]);
    }
  }

  /** What plain operations leave alone. */
  lemma {:induction false} PlainKeeps(w: Wallet, ops: seq<WalletOp>, u: Id)
    requires Plain(ops)
    ensures var w' := Run(w, ops);
            && SameParents(w.users, w'.users)
            && Sum(w'.ledger, BonusOf(u)) == Sum(w.ledger, BonusOf(u))
            && Sum(w'.ledger, PurchaseDebitOf(u)) == Sum(w.ledger, PurchaseDebitOf(u))
    decreases |ops|
  {
    if ops != [] {
      var w1 := Apply(w, ops[0]);
      if w1.ledger != w.ledger {
        assert w1.ledger == w.ledger + [w1.ledger[|w.ledger|]];
        SumAppend(w.ledger, w1.ledger[|w.ledger|], BonusOf(u));
        SumAppend(w.ledger, w1.ledger[|w.ledger|], PurchaseDebitOf(u));
      }
      PlainKeeps(w1, ops[1..], u);
    }
  }
}
