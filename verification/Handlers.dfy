/**
  The functions that drive the database: referral payouts, package purchases, the plugin hooks,
  the admin actions and the portal's sign-up and recharge. Each handler leaves the tables that
  its step of the protocol describes.
 */
module Handlers {
  import opened Sums
  import opened Wallets
  import opened Billing
  import opened Accounting
  import opened Referral
  import opened Purchase
  import opened Protocol
  import opened Database

  // ---- internal/referral ----

  method GrantReward(db: DB, row: Earning, ref: Ref)
    modifies db
    ensures db.Rows() == Grant(old(db.Rows()), row, ref)
  {
    if row.user !in db.users || row.from !in db.users {
      return;
    }
    if row.mode == Fixed && AlreadyRewarded(db.earnings, row.user, row.from) {
      return;
    }
    db.earnings := db.earnings + [row];
    var _, _ := db.AdjustBalance(row.user, row.reward, ReferralBonus, BonusFor(ref), SYSTEM);
  }

  method PayPercent(db: DB, u: Id, amount: int, ref: Ref, tiers: seq<int>)
    requires u in db.users
    modifies db
    ensures db.Rows() == PercentWalk(old(db.Rows()), u, ParentOf(old(db.users), u), {u}, tiers, 1, amount, ref)
  {
    var upline := ParentOf(db.users, u);
    var seen := {u};
    ghost var goal := PercentWalk(db.Rows(), u, upline, seen, tiers, 1, amount, ref);
    for i := 0 to |tiers|
      invariant goal == PercentWalk(db.Rows(), u, upline, seen, tiers[i..], i + 1, amount, ref)
    {
      if upline == "" || upline in seen {
        break;
      }
      assert tiers[i..][0] == tiers[i] && tiers[i..][1..] == tiers[i + 1..];
      seen := seen + {upline};
      if tiers[i] > 0 {
        var reward := amount * tiers[i] / 100;
        if reward > 0 {
          GrantReward(db, Earning(upline, u, i + 1, Percent, amount, reward), ref);
        }
      }
      upline := ParentOf(db.users, upline);
    }
  }

  method PayFixedReward(db: DB, u: Id, ref: Ref, cfg: ReferralConfig)
    modifies db
    ensures db.Rows() == PayFixed(old(db.Rows()), u, cfg, ref)
  {
    var total := Sum(db.ledger, RechargeOf(u));
    if cfg.qualify > 0 && total < cfg.qualify {
      return;
    }
    var upline := ParentOf(db.users, u);
    if cfg.fixed <= 0 || upline == "" {
      return;
    }
    GrantReward(db, Earning(upline, u, 1, Fixed, 0, cfg.fixed), ref);
  }

  method PayReferrals(db: DB, u: Id, amount: int, ref: Ref, cfg: ReferralConfig)
    modifies db
    ensures db.Rows() == OnRecharge(old(db.Rows()), u, amount, ref, cfg)
  {
    if amount <= 0 || u !in db.users || db.users[u].referredBy == "" {
      return;
    }
    match cfg.mode {
      case NoRewards =>
      case PercentMode => PayPercent(db, u, amount, ref, cfg.tiers);
      case FixedMode => PayFixedReward(db, u, ref, cfg);
    }
  }

  // ---- internal/issue ----

  method IssueKey(db: DB, u: Id, pkg: Package, newKey: Id, fails: bool, now: int) returns (ok: bool)
    modifies db`keys
    ensures ok == (!fails && newKey !in old(db.keys))
    ensures db.keys == if ok then old(db.keys)[newKey := IssuedKey(u, pkg, now)] else old(db.keys)
  {
    if fails || newKey in db.keys {
      return false;
    }
    var expires := -1;
    if pkg.durationDays > 0 {
      expires := now + pkg.durationDays * 24 * 60 * 60 * 1000;
    }
    var scope := pkg.scope;
    if pkg.windowHours > 0 && scope == Lifetime {
      scope := Day;
    }
    var hours := if pkg.windowHours <= 0 then 0 else pkg.windowHours;
    db.keys := db.keys[newKey := Key(u, pkg.kind, scope, pkg.amount, 0, 0, 0, hours, false, expires, Active)];
    return true;
  }

  method RenewBoughtKey(db: DB, k: Id, pkg: Package, now: int)
    requires k in db.keys
    modifies db`keys
    ensures db.keys == old(db.keys)[k := old(db.keys)[k].(
              amount := old(db.keys)[k].amount + pkg.amount,
              expiresAt := RenewedExpiry(old(db.keys)[k], pkg, now), status := Active)]
  {
    var key := db.keys[k];
    var expires := -1;
    if pkg.durationDays > 0 {
      expires := now + pkg.durationDays * 24 * 60 * 60 * 1000;
    }
    var newAmount := key.amount + pkg.amount;
    var newExpires := expires;
    if pkg.durationDays > 0 && key.expiresAt > now {
      newExpires := key.expiresAt + pkg.durationDays * 24 * 60 * 60 * 1000;
    }
    db.keys := db.keys[k := key.(amount := newAmount, expiresAt := newExpires, status := Active)];
  }

  method BuyPackageFor(db: DB, req: BuyRequest, newKey: Id, faults: Faults, now: int) returns (result: BuyResult)
    modifies db
    ensures (db.Rows(), result) == Buy(old(db.Rows()), req, newKey, faults, now)
  {
    if req.package.None? {
      return Failed(PackageNotFound);
    }
    if req.kind != NEW_KEY && req.kind != RENEW {
      return Failed(BadKind);
    }
    if req.kind == RENEW {
      if req.renewKey == "" {
        return Failed(KeyRequired);
      }
      if req.renewKey !in db.keys || db.keys[req.renewKey].owner != req.user {
        return Failed(NotYourKey);
      }
    }
    var pkg := req.package.value;
    var _, error := db.AdjustBalance(req.user, -(pkg.price as int), Reason.Purchase, OrderAt(pkg.id, now), PORTAL);
    if error.Some? {
      return Failed(DebitRefused(error.value));
    }
    var k := newKey;
    var kind := NewKeyOrder;
    if req.kind == RENEW {
      if faults.key {
        return Failed(KeyFailed);
      }
      k, kind := req.renewKey, RenewOrder;
      RenewBoughtKey(db, k, pkg, now);
    } else {
      var ok := IssueKey(db, req.user, pkg, newKey, faults.key, now);
      if !ok {
        return Failed(KeyFailed);
      }
    }
    if faults.order {
      return Failed(OrderFailed);
    }
    db.orders := db.orders + [Order(req.user, pkg.id, k, kind, pkg.price)];
    return Bought(k);
  }

  // ---- internal/plugin/hooks.go ----

  method HandleInterceptBefore(db: DB, request: Id, k: Id, estimate: nat, now: int)
    requires Sound(db.Rows())
    modifies db
    ensures db.Rows() == Next(old(db.Rows()), Intercept(request, k, estimate), now)
  {
    if k !in db.keys {
      return;
    }
    db.Hold(request, k, db.keys[k].owner, estimate, now);
  }

  method HandleUsage(db: DB, rec: UsageRecord, priced: int, now: int) returns (pick: Option<nat>)
    requires Sound(db.Rows())
    modifies db
    ensures var step := UsageEvent(rec, priced, pick);
            db.Rows() == Next(old(db.Rows()), step, now) && Admissible(old(db.Rows()), step)
  {
    ghost var before := db.Rows();
    var settles := rec.request != "" && rec.tokens > 0 && rec.key in db.keys;
    var charged;
    charged, pick := db.Charge(rec, priced, now);
    if !settles {
      assert db.Rows() == Billing.Charge(before, rec, priced, None, now);
      pick := None;
    }
  }

  method HandleComplete(db: DB, request: Id, outcome: string, now: int)
    modifies db
    ensures db.Rows() == Next(old(db.Rows()), Complete(request, outcome == "succeeded"), now)
  {
    if outcome != "succeeded" {
      db.Release(request);
    }
  }

  // ---- internal/plugin: admin actions ----

  method RechargeByAdmin(db: DB, u: Id, amount: int, reason: Reason, text: string, channel: string,
                         cfg: ReferralConfig, now: int)
    modifies db
    ensures db.Rows() == Next(old(db.Rows()), AdminRecharge(u, amount, reason, text, channel, cfg), now)
  {
    if amount == 0 {
      return;
    }
    var _, error := db.AdjustBalance(u, amount, reason, Given(text), channel);
    if error.Some? {
      return;
    }
    if reason == Recharge && amount > 0 {
      PayReferrals(db, u, amount, Given(text), cfg);
    }
  }

  datatype Column = ModeColumn | LimitColumn

  /** The user with its changed columns written, except those still to do. */
  function Written(user: User, mode: Option<WalletMode>, limit: Option<int>, todo: set<Column>): User
  {
    user.(mode := if mode.Some? && ModeColumn !in todo then mode.value else user.mode,
          creditLimit := if limit.Some? && LimitColumn !in todo then limit.value else user.creditLimit)
  }

  /** The changed columns are written one at a time, in whatever order the map yields them. */
  method WriteColumns(db: DB, u: Id, mode: Option<WalletMode>, limit: Option<int>)
    requires u in db.users
    modifies db`users
    ensures db.users == old(db.users)[u := Written(old(db.users)[u], mode, limit, {})]
  {
    var updates: set<Column> := {};
    if mode.Some? {
      updates := updates + {ModeColumn};
    }
    if limit.Some? {
      updates := updates + {LimitColumn};
    }
    ghost var users := db.users;
    assert users == users[u := users[u]];
    while updates != {}
      invariant ModeColumn in updates ==> mode.Some?
      invariant LimitColumn in updates ==> limit.Some?
      invariant db.users == users[u := Written(users[u], mode, limit, updates)]
      decreases updates
    {
      var column :| column in updates;
      match column {
        case ModeColumn => db.users := db.users[u := db.users[u].(mode := mode.value)];
        case LimitColumn => db.users := db.users[u := db.users[u].(creditLimit := limit.value)];
      }
      updates := updates - {column};
    }
  }

  method UpdateUser(db: DB, u: Id, mode: Option<WalletMode>, limit: Option<int>, now: int)
    modifies db
    ensures db.Rows() == Next(old(db.Rows()), SetWallet(u, mode, limit), now)
  {
    if u !in db.users {
      return;
    }
    ghost var users := db.users;
    WriteColumns(db, u, mode, limit);
    assert users == users[u := users[u]];
    assert SetUser(Wallet(users, db.ledger), u, mode, limit) == Wallet(db.users, db.ledger);
  }

  /** The owner part of a key update: refused while any reservation of the key is open. */
  method TransferKey(db: DB, k: Id, u: Id, now: int)
    modifies db
    ensures db.Rows() == Next(old(db.Rows()), Transfer(k, u), now)
  {
    if k !in db.keys || HasOpen(db.Rows(), k) || u !in db.users {
      return;
    }
    db.keys := db.keys[k := db.keys[k].(owner := u)];
  }

  method RenewKeyByAdmin(db: DB, k: Id, add: int, extendDays: int, setExpires: int, now: int)
    modifies db
    ensures db.Rows() == Next(old(db.Rows()), RenewKey(k, add, extendDays, setExpires), now)
  {
    if k !in db.keys {
      return;
    }
    var key := db.keys[k];
    var newAmount := key.amount + add;
    var newExpires := key.expiresAt;
    if setExpires != 0 {
      newExpires := setExpires;
    } else if extendDays > 0 {
      var base := key.expiresAt;
      if base < 0 || base < now {
        base := now;
      }
      newExpires := base + extendDays * 24 * 60 * 60 * 1000;
    }
    if newAmount < 0 {
      return;
    }
    db.keys := db.keys[k := key.(amount := newAmount, expiresAt := newExpires, status := Active)];
  }

  method SwitchKeyQuota(db: DB, k: Id, kind: Option<QuotaKind>, scope: Option<QuotaScope>, amount: int,
                        expiresAt: int, now: int)
    modifies db
    ensures db.Rows() == Next(old(db.Rows()), SwitchQuota(k, kind, scope, amount, expiresAt), now)
  {
    if k !in db.keys {
      return;
    }
    var key := db.keys[k];
    var newKind, newScope, newAmount, newExpires := key.kind, key.scope, key.amount, key.expiresAt;
    if kind.Some? {
      newKind := kind.value;
    }
    if scope.Some? {
      newScope := scope.value;
    }
    if amount > 0 {
      newAmount := amount;
    }
    if expiresAt != 0 {
      newExpires := expiresAt;
    }
    db.keys := db.keys[k := key.(kind := newKind, scope := newScope, amount := newAmount, used := 0,
                                 expiresAt := newExpires)];
  }

  // ---- internal/portal ----

  /** Create the account, then attach the upline the referral code names. */
  method SignUpWithTelegram(db: DB, u: Id, code: string, referrer: Id, now: int)
    modifies db
    ensures db.Rows() == Next(old(db.Rows()), NewUser(u, code, referrer), now)
  {
    if u in db.users || CodeInUse(Wallet(db.users, db.ledger), code) {
      return;
    }
    db.users := db.users[u := User(0, Prepaid, 0, code, "")];
    if referrer !in db.users || referrer == u {
      return;
    }
    if db.users[u].referredBy == "" {
      db.users := db.users[u := db.users[u].(referredBy := referrer)];
    }
  }

  method HandleWebhookRecharge(db: DB, u: Id, amount: int, tx: string, now: int) returns (error: Option<StoreError>)
    modifies db
    ensures db.Rows() == Next(old(db.Rows()), Webhook(u, amount, tx), now)
    ensures amount > 0 && u in old(db.users) && Taken(old(db.ledger), Stored(Given(tx)), TELEGRAM) ==>
              error == Some(Duplicate)
  {
    error := None;
    if amount <= 0 {
      return;
    }
    var after;
    after, error := db.AdjustBalance(u, amount, Recharge, Given(tx), TELEGRAM);
  }
}
