/** What single steps leave in the tables, in the terms of the rows a caller can look at. */
module Outcomes {
  import opened Sums
  import opened Wallets
  import opened Billing
  import opened Accounting
  import opened Charging
  import opened Protocol
  import opened Safety
  import opened Runs
  import opened Credit
  import opened Floors

  // ---- The hooks ----

  /** A request held before its key was spent, or on the wallet, or not at all; always for the key's owner. */
  lemma InterceptOutcome(s: Tables, request: Id, k: Id, estimate: nat, now: int)
    requires Sound(s) && NewRequest(s, request)
    ensures var s' := Next(s, Intercept(request, k, estimate), now);
            && (request == "" || k !in s.keys ==> s' == s)
            && (request != "" && k in s.keys ==>
                  var key := Refreshed(s.keys[k], now);
                  var owner := s.keys[k].owner;
                  var e := s.(keys := s.keys[k := key]);
                  var pays := owner in s.wallet.users && key.overflow && CanSpend(s.wallet.users[owner], estimate);
                  && s'.keys.Keys == s.keys.Keys && s'.usage == s.usage
                  && (Spent(key) && !pays ==> s' == e)
                  && (Spent(key) && pays ==>
                        TakenFor(e, s', Reservation(request, k, owner, estimate, UserWallet, Open, now)))
                  && (!Spent(key) ==>
                        var taken := if key.kind.Unlimited? then 0
                                     else Min(Wanted(key.kind, estimate), key.amount - key.used);
                        TakenFor(e, s', Reservation(request, k, owner, taken, KeyQuota, Open, now))))
  {
    if request != "" && k in s.keys {
      HoldTakes(s, request, k, s.keys[k].owner, estimate, now);
      HoldSound(s, request, k, s.keys[k].owner, estimate, now);
    }
  }

  /** The request's own reservation is open and on the wallet. */
  predicate OwnWalletHold(s: Tables, request: Id)
  {
    exists i :: 0 <= i < |s.reservations| && s.reservations[i].id == request && s.reservations[i].status == Open
                && s.reservations[i].source == UserWallet
  }

  /** Who pays for a record with tokens: nobody if it is not billed. */
  function Payer(s: Tables, rec: UsageRecord, priced: int, pick: Option<nat>, now: int): Option<Source>
    requires rec.key in s.keys && s.keys[rec.key].owner in s.wallet.users && PickOpen(s, rec.key, pick)
  {
    var key := Refreshed(s.keys[rec.key], now);
    var settles := rec.request != "" && pick.Some?;
    var owed := Units(s, rec, priced) - (if settles then s.reservations[pick.value].hold else 0);
    var cost := if priced > 0 then priced else rec.tokens;
    if settles && OwnWalletHold(s, rec.request) then Some(UserWallet)
    else if owed <= 0 || owed <= key.amount - key.used then Some(KeyQuota)
    else if key.overflow && CanSpend(s.wallet.users[key.owner], cost) then Some(UserWallet)
    else None
  }

  /**
    What every usage event leaves in the usage table. An unknown key: nothing. A record without
    tokens: one unbilled row of no cost and no source, and no other change. Otherwise one row with
    the payer, billed if there is one, at full cost or none.
   */
  lemma UsageOutcome(s: Tables, rec: UsageRecord, priced: int, pick: Option<nat>, now: int)
    requires Sound(s) && PickOpen(s, rec.key, pick)
    ensures var s' := Next(s, UsageEvent(rec, priced, pick), now);
            && (rec.key !in s.keys ==> s' == s)
            && (rec.key in s.keys ==>
                  var owner := s.keys[rec.key].owner;
                  && owner in s.wallet.users
                  && (rec.tokens == 0 ==>
                        s' == s.(usage := s.usage + [UsageRow(rec.key, owner, rec.request, 0, None, false)]))
                  && (rec.tokens > 0 ==>
                        var payer := Payer(s, rec, priced, pick, now);
                        var cost := if payer.None? then 0 else if priced > 0 then priced else rec.tokens;
                        s'.usage == s.usage + [UsageRow(rec.key, owner, rec.request, cost, payer, payer.Some?)]))
  {
    if rec.key in s.keys && rec.tokens > 0 {
      var e := EnsurePeriod(s, rec.key, now);
      EnsurePeriodSound(s, rec.key, now);
      RecordAppended(e, rec, priced, pick, now);
      UnitsAgree(s, e, rec, priced);
      PayerAgrees(s, e, rec, priced, pick, now);
      var s' := ChargeCurrent(e, rec, priced, pick, now);
      assert s'.usage == s.usage + [s'.usage[|s.usage|]];
    }
  }

  lemma UnitsAgree(s: Tables, e: Tables, rec: UsageRecord, priced: int)
    requires rec.key in s.keys && rec.key in e.keys && rec.tokens > 0
    requires e.usage == s.usage && e.keys[rec.key].kind == s.keys[rec.key].kind
    ensures UnitSpend(e, rec, priced) == Units(s, rec, priced)
  {
  }

  lemma PayerAgrees(s: Tables, e: Tables, rec: UsageRecord, priced: int, pick: Option<nat>, now: int)
    requires Sound(s) && rec.key in s.keys && s.keys[rec.key].owner in s.wallet.users && PickOpen(s, rec.key, pick)
    requires e == EnsurePeriod(s, rec.key, now) && rec.tokens > 0 && PickOpen(e, rec.key, pick)
    requires UnitSpend(e, rec, priced) == Units(s, rec, priced)
    ensures Payer(s, rec, priced, pick, now) == Some(UserWallet) <==> ViaWallet(e, rec, priced, pick)
    ensures Payer(s, rec, priced, pick, now) == Some(KeyQuota) <==>
              !(Settles(rec, pick) && WalletFunded(e.reservations, rec.request))
              && (Owed(e, rec, priced, pick) <= 0
                  || Owed(e, rec, priced, pick) <= e.keys[rec.key].amount - e.keys[rec.key].used)
  {
    assert OwnWalletHold(s, rec.request) == WalletFunded(e.reservations, rec.request);
    ActualPositive(e, rec, priced);
    if pick.Some? {
      assert RowSound(s, s.reservations[pick.value]);
    }
  }

  /**
    A completion that succeeded changes nothing. Any other releases the request's reservation, if
    it is open with something on hold: a wallet hold is credited back, a quota hold is no longer
    used if that much is still counted, and nothing else changes.
   */
  lemma CompleteOutcome(s: Tables, request: Id, succeeded: bool, now: int, i: nat)
    requires Sound(s) && i < |s.reservations| && s.reservations[i].id == request
    ensures var s' := Next(s, Complete(request, succeeded), now);
            var row := s.reservations[i];
            && row.key in s.keys && row.user in s.wallet.users
            && (succeeded || row.status != Open || row.hold == 0 ==> s' == s)
            && (!succeeded && row.status == Open && row.hold > 0 ==>
                  var used := s.keys[row.key].used;
                  var back := if row.source == KeyQuota && row.hold <= used then row.hold else 0;
                  var credit := if row.source == UserWallet then row.hold else 0;
                  && s'.reservations == s.reservations[i := row.(status := Released)]
                  && s'.keys == s.keys[row.key := s.keys[row.key].(used := used - back)]
                  && s'.wallet.users == s.wallet.users[row.user := s.wallet.users[row.user].(
                       balance := s.wallet.users[row.user].balance + credit)]
                  && s'.usage == s.usage && s'.earnings == s.earnings && s'.orders == s.orders)
  {
    var row := s.reservations[i];
    assert RowSound(s, row);
    FindUnique(s.reservations, i);
    assert s.keys == s.keys[row.key := s.keys[row.key]];
    assert s.wallet.users == s.wallet.users[row.user := s.wallet.users[row.user]];
    if !succeeded && row.status == Open && row.hold > 0 {
      if row.source == KeyQuota {
        CloseQuotaEffect(s, i, row.hold, ReleaseOf(request), Released);
      } else {
        CloseWalletEffect(s, i, row.hold, ReleaseOf(request), Released);
      }
    }
  }

  /** A completion of a request that nothing is known of changes nothing. */
  lemma CompleteUnknown(s: Tables, request: Id, succeeded: bool, now: int)
    requires forall i :: 0 <= i < |s.reservations| ==> s.reservations[i].id != request
    ensures Next(s, Complete(request, succeeded), now) == s
  {
  }

  /** At boot a reservation is released if and only if it is open, positive and older than the age given. */
  lemma BootOutcome(s: Tables, maxAge: int, now: int, i: nat)
    requires Sound(s) && i < |s.reservations|
    ensures var s' := Next(s, Boot(maxAge), now);
            var row := s.reservations[i];
            && |s'.reservations| == |s.reservations|
            && s'.reservations[i]
               == (if row.status == Open && row.hold > 0 && now - row.createdAt > maxAge
                   then row.(status := Released) else row)
  {
    ReleaseStaleRows(s, now - maxAge, i);
  }

  // ---- Wallets ----

  /** A webhook recharge is credited if and only if it is positive, for a known user, and no repetition. */
  lemma WebhookOutcome(s: Tables, u: Id, amount: int, tx: string, now: int)
    ensures var s' := Next(s, Webhook(u, amount, tx), now);
            if amount > 0 && u in s.wallet.users && !Repeats(s.wallet, Given(tx), "telegram") then
              var user := s.wallet.users[u];
              && s' == s.(wallet := s'.wallet)
              && s'.wallet.users == s.wallet.users[u := user.(balance := user.balance + amount)]
              && s'.wallet.ledger == s.wallet.ledger
                   + [LedgerRow(u, amount, Recharge, Stored(Given(tx)), "telegram", user.balance + amount)]
            else s' == s
  {
    MoveOutcome(s.wallet, u, amount, Recharge, Given(tx), "telegram");
  }

  /**
    A transaction whose id has a visible character is credited once: delivered again, by the
    webhook or an admin, to any user and after any run, it leaves every table as it is.
   */
  lemma VisibleCreditedOnce(s: Tables, u: Id, amount: int, tx: string, now: int, events: seq<Event>, v: Id,
                            again: int, later: int)
    requires amount > 0 && u in s.wallet.users
    requires exists i :: 0 <= i < |tx| && '!' <= tx[i] <= '~'
    requires forall i :: 0 <= i < |s.wallet.ledger| && s.wallet.ledger[i].channel == "telegram" ==>
               s.wallet.ledger[i].ref != Given(tx)
    ensures var credited := Next(s, Webhook(u, amount, tx), now);
            var end := RunAll(credited, events);
            && u in credited.wallet.users
            && credited.wallet.users[u].balance == s.wallet.users[u].balance + amount
            && Next(end, Webhook(v, again, tx), later) == end
  {
    StoredIff(tx);
    assert !Taken(s.wallet.ledger, Stored(Given(tx)), TELEGRAM);
    ReplayLeavesEverything(s, u, amount, tx, now, events, Webhook(v, again, tx), later);
  }

  /** A transaction id of spaces, tabs and line ends is no reference: delivered again it is credited again. */
  lemma BlankCreditedAgain(s: Tables, u: Id, amount: int, tx: string, now: int, later: int)
    requires amount > 0 && u in s.wallet.users && forall i :: 0 <= i < |tx| ==> tx[i] in " \t\r\n"
    ensures var s' := Next(Next(s, Webhook(u, amount, tx), now), Webhook(u, amount, tx), later);
            && u in s'.wallet.users
            && s'.wallet.users[u].balance == s.wallet.users[u].balance + amount + amount
  {
    StoredIff(tx);
    WebhookOutcome(s, u, amount, tx, now);
    WebhookOutcome(Next(s, Webhook(u, amount, tx), now), u, amount, tx, later);
  }

  /** An adjustment that is no recharge, or a debit, moves the user's balance and nothing else. */
  lemma AdjustmentOutcome(s: Tables, step: Step, now: int)
    requires step.AdminRecharge? && (step.reason != Recharge || step.amount <= 0)
    ensures var r := Adjust(s.wallet, step.user, step.amount, step.reason, Given(step.text), step.channel);
            Next(s, step, now) == (if step.amount != 0 && r.Adjusted? then s.(wallet := r.wallet) else s)
  {
  }

  /** A sign-up adds an empty prepaid account, whose upline is the user the code names, if he exists. */
  lemma NewUserOutcome(s: Tables, u: Id, code: string, referrer: Id, now: int)
    ensures var s' := Next(s, NewUser(u, code, referrer), now);
            var unused := u !in s.wallet.users && forall v :: v in s.wallet.users ==> s.wallet.users[v].code != code;
            var upline := if referrer in s.wallet.users then referrer else "";
            s' == (if unused
                   then s.(wallet := s.wallet.(users := s.wallet.users[u := User(0, Prepaid, 0, code, upline)]))
                   else s)
  {
    var created := s.wallet.users[u := User(0, Prepaid, 0, code, "")];
    assert created[u := created[u]] == created;
    var attached := User(0, Prepaid, 0, code, referrer);
    assert created[u := attached] == s.wallet.users[u := attached];
  }

  /** The wallet settings that are given, of that user, and nothing else. */
  lemma SetWalletOutcome(s: Tables, u: Id, mode: Option<WalletMode>, limit: Option<int>, now: int)
    ensures var s' := Next(s, SetWallet(u, mode, limit), now);
            && (u !in s.wallet.users ==> s' == s)
            && (u in s.wallet.users ==>
                  var user := s.wallet.users[u];
                  s' == s.(wallet := s.wallet.(users := s.wallet.users[u := user.(
                          mode := if mode.Some? then mode.value else user.mode,
                          creditLimit := if limit.Some? then limit.value else user.creditLimit)])))
  {
    if u in s.wallet.users {
      assert s.wallet.users == s.wallet.users[u := s.wallet.users[u]];
    }
  }

  // ---- Keys ----

  /** A transfer changes the owner and nothing else, if and only if both exist and nothing of the key is open. */
  lemma TransferOutcome(s: Tables, k: Id, u: Id, now: int)
    ensures var s' := Next(s, Transfer(k, u), now);
            var idle := forall i :: 0 <= i < |s.reservations| && s.reservations[i].key == k ==>
                          s.reservations[i].status != Open;
            s' == (if k in s.keys && u in s.wallet.users && idle
                   then s.(keys := s.keys[k := s.keys[k].(owner := u)]) else s)
  {
    if i :| 0 <= i < |s.reservations| && s.reservations[i].key == k && s.reservations[i].status == Open {
      assert IsOpenOn(s, k, i);
    }
  }

  lemma NewKeyOutcome(s: Tables, step: Step, now: int)
    requires step.NewKey?
    ensures var s' := Next(s, step, now);
            var unused := step.key !in s.keys && step.owner in s.wallet.users;
            && (!unused ==> s' == s)
            && (unused ==>
                  && s' == s.(keys := s.keys[step.key := s'.keys[step.key]])
                  && var key := s'.keys[step.key];
                  && key.owner == step.owner && key.kind == step.newKind && key.scope == step.newScope
                  && key.amount == step.quota && key.used == 0 && key.windowHours == step.windowHours
                  && key.expiresAt == step.expiresAt && key.status == Active && !key.overflow
                  && key.periodStart == 0 && key.periodEnd == 0)
  {
  }

  lemma SetOverflowOutcome(s: Tables, k: Id, on: bool, now: int)
    ensures Next(s, SetOverflow(k, on), now)
            == (if k in s.keys then s.(keys := s.keys[k := s.keys[k].(overflow := on)]) else s)
  {
  }

  /** A deletion removes the key and exactly its reservations, unless an order names the key. */
  lemma DeleteOutcome(s: Tables, k: Id, now: int)
    ensures var s' := Next(s, DeleteKey(k), now);
            var ordered := exists i :: 0 <= i < |s.orders| && s.orders[i].key == k;
            && (ordered ==> s' == s)
            && (!ordered ==>
                  && s' == s.(keys := s'.keys, reservations := s'.reservations)
                  && s'.keys == s.keys - {k}
                  && forall row :: row in s'.reservations <==> row in s.reservations && row.key != k)
  {
    WithoutKeyMembers(s.reservations, k);
  }

  /**
    An admin renewal adds to the quota, activates the key, and sets the date given, or extends the
    old date, or the present if that is later or there was none; a negative quota is refused.
   */
  lemma RenewKeyOutcome(s: Tables, k: Id, add: int, extendDays: int, setExpires: int, now: int)
    requires now > 0
    ensures var s' := Next(s, RenewKey(k, add, extendDays, setExpires), now);
            && (k !in s.keys || s.keys[k].amount + add < 0 ==> s' == s)
            && (k in s.keys && s.keys[k].amount + add >= 0 ==>
                  var key := s.keys[k];
                  var expires := if setExpires != 0 then setExpires
                                 else if extendDays > 0 then Max(now, key.expiresAt) + extendDays * 86_400_000
                                 else key.expiresAt;
                  s' == s.(keys := s.keys[k := key.(
                          amount := key.amount + add, status := Active, expiresAt := expires)]))
  {
  }

  /** A switch takes over what is given, keeps the rest, and counts nothing as used. */
  lemma SwitchOutcome(s: Tables, k: Id, kind: Option<QuotaKind>, scope: Option<QuotaScope>, amount: int,
                      expiresAt: int, now: int)
    ensures var s' := Next(s, SwitchQuota(k, kind, scope, amount, expiresAt), now);
            && (k !in s.keys ==> s' == s)
            && (k in s.keys ==>
                  && s' == s.(keys := s.keys[k := s'.keys[k]])
                  && var key := s.keys[k]; var key' := s'.keys[k];
                  && key' == key.(kind := key'.kind, scope := key'.scope, amount := key'.amount, used := 0,
                                  expiresAt := key'.expiresAt)
                  && (kind.Some? ==> key'.kind == kind.value) && (kind.None? ==> key'.kind == key.kind)
                  && (scope.Some? ==> key'.scope == scope.value) && (scope.None? ==> key'.scope == key.scope)
                  && (amount > 0 ==> key'.amount == amount) && (amount <= 0 ==> key'.amount == key.amount)
                  && (expiresAt != 0 ==> key'.expiresAt == expiresAt)
                  && (expiresAt == 0 ==> key'.expiresAt == key.expiresAt))
  {
  }
}
