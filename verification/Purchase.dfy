/** Package purchases (internal/issue/issue.go): debit first, then issue or renew a key, then record the order. */
module Purchase {
  import opened Sums
  import opened Wallets
  import opened Billing

  const MILLIS_PER_DAY := 24 * 60 * 60 * 1000

  datatype Package = Package(
    id: Id, kind: QuotaKind, scope: QuotaScope, amount: nat, windowHours: int, durationDays: int, price: nat)

  datatype BuyRequest = BuyRequest(user: Id, package: Option<Package>, kind: string, renewKey: Id)

  /** The steps after the debit that can fail: issuing or renewing the key, and storing the order. */
  datatype Faults = Faults(key: bool, order: bool)

  datatype BuyError =
    | PackageNotFound
    | BadKind
    | KeyRequired
    | NotYourKey
    | DebitRefused(error: StoreError)
    | KeyFailed
    | OrderFailed

  datatype BuyResult = Bought(key: Id) | Failed(error: BuyError)

  const NEW_KEY := "new_key"
  const RENEW := "renew"

  function FreshExpiry(pkg: Package, now: int): int
  {
    if pkg.durationDays > 0 then now + pkg.durationDays * MILLIS_PER_DAY else -1
  }

  function RenewedExpiry(key: Key, pkg: Package, now: int): int
  {
    if pkg.durationDays > 0 && key.expiresAt > now then key.expiresAt + pkg.durationDays * MILLIS_PER_DAY
    else FreshExpiry(pkg, now)
  }

  /** A custom window on a lifetime package makes the key cyclic. */
  function IssuedKey(u: Id, pkg: Package, now: int): Key
  {
    var scope := if pkg.windowHours > 0 && pkg.scope.Lifetime? then Day else pkg.scope;
    Key(u, pkg.kind, scope, pkg.amount, 0, 0, 0, Max(0, pkg.windowHours), false, FreshExpiry(pkg, now), Active)
  }

  /** The checks before the wallet is touched. */
  function Objection(s: Tables, req: BuyRequest): Option<BuyError>
  {
    if req.package.None? then Some(PackageNotFound)
    else if req.kind != NEW_KEY && req.kind != RENEW then Some(BadKind)
    else if req.kind == RENEW && req.renewKey == "" then Some(KeyRequired)
    else if req.kind == RENEW && !(req.renewKey in s.keys && s.keys[req.renewKey].owner == req.user) then
      Some(NotYourKey)
    else None
  }

  function Debit(s: Tables, u: Id, pkg: Package, now: int): AdjustResult
  {
    Adjust(s.wallet, u, -(pkg.price as int), Reason.Purchase, OrderAt(pkg.id, now), PORTAL)
  }

  /** BuyPackage; newKey is the fresh identifier of a key it issues. */
  function Buy(s: Tables, req: BuyRequest, newKey: Id, faults: Faults, now: int): (Tables, BuyResult)
  {
    var objection := Objection(s, req);
    if objection.Some? then (s, Failed(objection.value))
    else
      var pkg := req.package.value;
      var debit := Debit(s, req.user, pkg, now);
      if debit.Refused? then (s, Failed(DebitRefused(debit.error)))
      else
        var paid := s.(wallet := debit.wallet);
        if faults.key || (req.kind == NEW_KEY && newKey in s.keys) then (paid, Failed(KeyFailed))
        else
          var k := if req.kind == RENEW then req.renewKey else newKey;
          var key :=
            if req.kind == RENEW
            then s.keys[k].(amount := s.keys[k].amount + pkg.amount,
                            expiresAt := RenewedExpiry(s.keys[k], pkg, now), status := Active)
            else IssuedKey(req.user, pkg, now);
          var keyed := paid.(keys := s.keys[k := key]);
          if faults.order then (keyed, Failed(OrderFailed))
          else
            var kind := if req.kind == RENEW then RenewOrder else NewKeyOrder;
            (keyed.(orders := s.orders + [Order(req.user, pkg.id, k, kind, pkg.price)]), Bought(k))
  }

  // ---- Conservation ----

  function PaidBy(u: Id): Order -> int
  {
    (o: Order) => if o.user == u then o.price else 0
  }

  function PurchaseDebitOf(u: Id): LedgerRow -> int
  {
    (row: LedgerRow) => if row.user == u && row.ref.OrderAt? then -row.delta else 0
  }

  /** What purchases debited from u less what u has orders for. */
  function Unordered(s: Tables, u: Id): int
  {
    Sum(s.wallet.ledger, PurchaseDebitOf(u)) - Sum(s.orders, PaidBy(u))
  }

  /** Nobody ever has orders for more than was debited. */
  ghost predicate OrdersPaid(s: Tables)
  {
    forall u: Id {:trigger PaidBy(u)} :: Unordered(s, u) >= 0
  }

  /** Whether a purchase gets as far as debiting its price. */
  predicate Debited(s: Tables, req: BuyRequest)
  {
    && Objection(s, req).None? && req.user in s.wallet.users
    && (req.package.value.price == 0 || CanSpend(s.wallet.users[req.user], req.package.value.price))
  }

  /** Whether a step after the debit fails. */
  predicate Misfires(s: Tables, req: BuyRequest, newKey: Id, faults: Faults)
  {
    faults.key || faults.order || (req.kind == NEW_KEY && newKey in s.keys)
  }

  /** The price a purchase debits from u without leaving an order. */
  function Lost(s: Tables, req: BuyRequest, newKey: Id, faults: Faults, u: Id): nat
  {
    if req.user == u && Debited(s, req) && Misfires(s, req, newKey, faults) then req.package.value.price else 0
  }

  /** The rows a debited purchase appends: the debit, and the order unless a later step fails. */
  lemma BuyRows(s: Tables, req: BuyRequest, newKey: Id, faults: Faults, now: int)
    returns (row: LedgerRow, orders: seq<Order>)
    requires Debited(s, req)
    ensures var s' := Buy(s, req, newKey, faults, now).0;
            s'.wallet.ledger == s.wallet.ledger + [row] && s'.orders == s.orders + orders && |orders| <= 1
    ensures row.user == req.user && row.ref.OrderAt? && row.delta == -(req.package.value.price as int)
    ensures orders == [] <==> Misfires(s, req, newKey, faults)
    ensures orders != [] ==> orders[0].user == req.user && orders[0].price == req.package.value.price
  {
    var pkg := req.package.value;
    var s' := Buy(s, req, newKey, faults, now).0;
    row := LedgerRow(req.user, -(pkg.price as int), Reason.Purchase, OrderAt(pkg.id, now), PORTAL,
                     s.wallet.users[req.user].balance - pkg.price);
    orders := if Misfires(s, req, newKey, faults) then [] else [s'.orders[|s.orders|]];
  }

  /** A debit and the orders it paid for. */
  lemma UnorderedAppend(s: Tables, s': Tables, row: LedgerRow, orders: seq<Order>, u: Id)
    requires s'.wallet.ledger == s.wallet.ledger + [row] && s'.orders == s.orders + orders && |orders| <= 1
    ensures Unordered(s', u)
            == Unordered(s, u) + PurchaseDebitOf(u)(row) - (if orders == [] then 0 else PaidBy(u)(orders[0]))
  {
    SumAppend(s.wallet.ledger, row, PurchaseDebitOf(u));
    if orders == [] {
      assert s'.orders == s.orders;
    } else {
      assert orders == [orders[0]];
      SumAppend(s.orders, orders[0], PaidBy(u));
    }
  }

  lemma BuyNothing(s: Tables, req: BuyRequest, newKey: Id, faults: Faults, now: int)
    requires !Debited(s, req)
    ensures Buy(s, req, newKey, faults, now).0 == s
  {
  }

  /** Debit and order always carry the same price, so they part only by what a failed purchase lost. */
  lemma BuyConserves(s: Tables, req: BuyRequest, newKey: Id, faults: Faults, now: int, u: Id)
    ensures Unordered(Buy(s, req, newKey, faults, now).0, u) == Unordered(s, u) + Lost(s, req, newKey, faults, u)
  {
    if Debited(s, req) {
      var row, orders := BuyRows(s, req, newKey, faults, now);
      UnorderedAppend(s, Buy(s, req, newKey, faults, now).0, row, orders, u);
    } else {
      BuyNothing(s, req, newKey, faults, now);
    }
  }

  /** A purchase leaves debits and orders in step exactly when it takes no money or no later step fails. */
  lemma BuyConservesIff(s: Tables, req: BuyRequest, newKey: Id, faults: Faults, now: int)
    ensures Unordered(Buy(s, req, newKey, faults, now).0, req.user) == Unordered(s, req.user)
            <==> !Debited(s, req) || req.package.value.price == 0 || !Misfires(s, req, newKey, faults)
  {
    BuyConserves(s, req, newKey, faults, now, req.user);
  }

  /** A purchase succeeds exactly when nothing objects, the wallet covers the price and no later step fails. */
  lemma BuyOutcome(s: Tables, req: BuyRequest, newKey: Id, faults: Faults, now: int)
    requires req.user in s.wallet.users && newKey !in s.keys
    ensures var (s', r) := Buy(s, req, newKey, faults, now);
            && (r.Bought? <==>
                  (Objection(s, req).None? && !faults.key && !faults.order
                   && (req.package.value.price == 0 || CanSpend(s.wallet.users[req.user], req.package.value.price))))
            && (r.Bought? ==> r.key in s'.keys && s'.keys[r.key].owner == req.user)
            && (r.Failed? && r.error != KeyFailed && r.error != OrderFailed ==> s' == s)
  {
  }

  /**
    A key issued by a purchase is what was sold: the package's quota, all unused, in windows of
    the package's hours if it has any, active, and expiring after its days or never. Only the
    buyer's wallet and that key change.
   */
  lemma NewKeyAsSold(s: Tables, req: BuyRequest, newKey: Id, now: int)
    requires newKey !in s.keys && req.kind == NEW_KEY && now > 0
    requires Buy(s, req, newKey, Faults(false, false), now).1.Bought?
    ensures var pkg := req.package.value;
            var s' := Buy(s, req, newKey, Faults(false, false), now).0;
            && s'.keys.Keys == s.keys.Keys + {newKey} && (forall k :: k in s.keys ==> s'.keys[k] == s.keys[k])
            && req.user in s.wallet.users
            && s'.wallet.users == s.wallet.users[req.user := s.wallet.users[req.user].(
                 balance := s.wallet.users[req.user].balance - pkg.price)]
            && var key := s'.keys[newKey];
            && key.owner == req.user && key.kind == pkg.kind && key.status == Active && key.used == 0
            && (pkg.windowHours > 0 ==>
                  PeriodDue(key, now) && Refreshed(key, now).periodEnd == now + pkg.windowHours * MILLIS_PER_HOUR)
            && QuotaRemaining(key) == (if pkg.kind.Unlimited? then REMAINING_SENTINEL else pkg.amount)
            && (pkg.windowHours > 0 ==>
                  key.windowHours == pkg.windowHours && key.scope == (if pkg.scope == Lifetime then Day else pkg.scope))
            && (pkg.windowHours <= 0 ==> key.scope == pkg.scope && key.windowHours == 0)
            && key.expiresAt == (if pkg.durationDays > 0 then now + pkg.durationDays * 86_400_000 else -1)
            && s'.orders == s.orders + [Order(req.user, pkg.id, newKey, NewKeyOrder, pkg.price)]
            && s'.reservations == s.reservations && s'.usage == s.usage && s'.earnings == s.earnings
            && !key.overflow && key.amount == pkg.amount
  {
  }

  /** What is refused before any money moves, and in which order. */
  lemma BuyRefusals(s: Tables, req: BuyRequest, newKey: Id, faults: Faults, now: int)
    ensures var (s', r) := Buy(s, req, newKey, faults, now);
            var known := req.kind == "new_key" || req.kind == "renew";
            var owned := req.renewKey in s.keys && s.keys[req.renewKey].owner == req.user;
            && (r == Failed(PackageNotFound) <==> req.package.None?)
            && (r == Failed(BadKind) <==> req.package.Some? && !known)
            && (r == Failed(KeyRequired) <==> req.package.Some? && req.kind == "renew" && req.renewKey == "")
            && (r == Failed(NotYourKey) <==>
                  req.package.Some? && req.kind == "renew" && req.renewKey != "" && !owned)
            && (r.Failed? && r.error != KeyFailed && r.error != OrderFailed ==> s' == s)
  {
  }

  /** A fault in the key step leaves only the debit; one in the order step leaves all but the order. */
  lemma FaultsLeave(s: Tables, req: BuyRequest, newKey: Id, now: int)
    requires Buy(s, req, newKey, Faults(false, false), now).1.Bought?
    ensures var bought := Buy(s, req, newKey, Faults(false, false), now).0;
            && Buy(s, req, newKey, Faults(true, false), now) == (s.(wallet := bought.wallet), Failed(KeyFailed))
            && Buy(s, req, newKey, Faults(false, true), now) == (bought.(orders := s.orders), Failed(OrderFailed))
  {
  }

  // ---- Renewal ----

  /** A key's end of life: an expiry that is not positive is never. */
  predicate NotBefore(expiry: int, expiry': int)
  {
    expiry' <= 0 || (expiry > 0 && expiry <= expiry')
  }

  /**
    A renewal debits the price, adds the package quota, leaves what was used, activates the key and
    lets it expire the package's days after its old expiry or now, whichever is later, or never.
    It never brings the expiry forward exactly when the key has a date to extend or the package
    has no time limit. Nothing else changes but the order.
   */
  lemma RenewalExtends(s: Tables, req: BuyRequest, newKey: Id, now: int)
    requires now > 0 && req.kind == RENEW && Objection(s, req).None?
    requires Debit(s, req.user, req.package.value, now).Adjusted?
    ensures var pkg := req.package.value; var k := req.renewKey; var key := s.keys[k];
            var (s', r) := Buy(s, req, newKey, Faults(false, false), now);
            && r == Bought(k) && s'.keys == s.keys[k := s'.keys[k]]
            && req.user in s.wallet.users
            && s'.wallet.users == s.wallet.users[req.user := s.wallet.users[req.user].(
                 balance := s.wallet.users[req.user].balance - pkg.price)]
            && s'.orders == s.orders + [Order(req.user, pkg.id, k, RenewOrder, pkg.price)]
            && s'.reservations == s.reservations && s'.usage == s.usage && s'.earnings == s.earnings
            && var key' := s'.keys[k];
            && key' == key.(amount := key.amount + pkg.amount, expiresAt := key'.expiresAt, status := Active)
            && key'.expiresAt
               == (if pkg.durationDays > 0 then Max(now, key.expiresAt) + pkg.durationDays * 86_400_000 else -1)
            && (NotBefore(key.expiresAt, key'.expiresAt) <==> key.expiresAt > 0 || pkg.durationDays <= 0)
  {
  }

  /** A key that never expires gets an end date from a dated package. */
  lemma UndatedKeyGetsDated()
    ensures var pkg := Package("p", Token, Lifetime, 10, 0, 30, 0);
            var key := Key("u", Token, Lifetime, 5, 0, 0, 0, 0, false, -1, Active);
            RenewedExpiry(key, pkg, 1000) == 1000 + 30 * MILLIS_PER_DAY
            && !NotBefore(key.expiresAt, RenewedExpiry(key, pkg, 1000))
  {
  }
}
