/**
  What the billing functions do to the tables (internal/billing/hold.go, charge.go, period.go):
  each function below maps the tables before a call to the tables after it. The methods of
  module Database compute exactly these tables; the laws are proved in the modules that import
  this one.
 */
module Billing {
  import opened Sums
  import opened Wallets

  datatype QuotaKind = Credit | Token | Request | Unlimited

  datatype QuotaScope = Lifetime | Hour | Day | Week | Month

  datatype KeyStatus = Active | Disabled | Banned | Expired | Exhausted

  datatype Key = Key(
    owner: Id, kind: QuotaKind, scope: QuotaScope, amount: int, used: int,
    periodStart: int, periodEnd: int, windowHours: int,
    overflow: bool, expiresAt: int, status: KeyStatus)

  datatype Source = KeyQuota | UserWallet

  datatype ReservationStatus = Open | Closed | Released

  /** One client request's hold; Closed is the status the table calls 'settled'. */
  datatype Reservation = Reservation(
    id: Id, key: Id, user: Id, hold: int, source: Source, status: ReservationStatus, createdAt: int)

  datatype UsageRow = UsageRow(key: Id, user: Id, request: Id, cost: int, source: Option<Source>, billed: bool)

  datatype EarningMode = Percent | Fixed

  datatype Earning = Earning(user: Id, from: Id, tier: int, mode: EarningMode, base: int, reward: int)

  datatype OrderKind = NewKeyOrder | RenewOrder

  datatype Order = Order(user: Id, package: Id, key: Id, kind: OrderKind, price: int)

  /** The tables, rows in insertion order. */
  datatype Tables = Tables(
    wallet: Wallet, keys: map<Id, Key>, reservations: seq<Reservation>, usage: seq<UsageRow>,
    earnings: seq<Earning>, orders: seq<Order>)

  /** A usage.handle payload, with the fields that decide what is charged. */
  datatype UsageRecord = UsageRecord(key: Id, request: Id, tokens: nat)

  const DEFAULT_HOLD_TOKENS := 30_000
  const MILLIS_PER_HOUR := 3600 * 1000
  const REMAINING_SENTINEL := 0x3fff_ffff_ffff_ffff

  // ---- Keys ----

  predicate HasQuota(key: Key)
  {
    key.kind.Unlimited? || key.used < key.amount
  }

  function QuotaRemaining(key: Key): int
  {
    if key.kind.Unlimited? then REMAINING_SENTINEL else key.amount - key.used
  }

  function WindowHours(scope: QuotaScope, windowHours: int): int
  {
    if windowHours > 0 then windowHours
    else
      match scope
      case Hour => 1
      case Day => 24
      case Week => 168
      case Month => 24 * 30
      case Lifetime => 0
  }

  /** Whether EnsurePeriod opens a new window for the key. */
  predicate PeriodDue(key: Key, now: int)
  {
    !key.scope.Lifetime? && (key.periodStart <= 0 || key.periodEnd <= 0 || now >= key.periodEnd)
  }

  function Refreshed(key: Key, now: int): Key
  {
    if PeriodDue(key, now)
    then key.(used := 0, periodStart := now,
              periodEnd := now + WindowHours(key.scope, key.windowHours) * MILLIS_PER_HOUR)
    else key
  }

  function EnsurePeriod(s: Tables, k: Id, now: int): Tables
    requires k in s.keys
  {
    s.(keys := s.keys[k := Refreshed(s.keys[k], now)])
  }

  /** The non-negativity CHECK on quota_used: whether ConsumeQuota is accepted. */
  predicate Consumable(s: Tables, k: Id, delta: int)
  {
    k in s.keys && s.keys[k].used + delta >= 0
  }

  function ConsumeQuota(s: Tables, k: Id, delta: int): Tables
  {
    if Consumable(s, k, delta)
    then s.(keys := s.keys[k := s.keys[k].(used := s.keys[k].used + delta)])
    else s
  }

  // ---- Hold ----

  /** The hold for one request, given the pricing estimate for credit keys. */
  function HoldAmount(kind: QuotaKind, estimate: nat): nat
  {
    match kind
    case Unlimited => 0
    case Token => DEFAULT_HOLD_TOKENS
    case Request => 1
    case Credit => estimate
  }

  function Without(rows: seq<Reservation>, id: Id): seq<Reservation>
  {
    if rows == [] then []
    else
      var front := Without(rows[..|rows| - 1], id);
      if rows[|rows| - 1].id == id then front else front + [rows[|rows| - 1]]
  }

  /** A row of the same request id is replaced; the key and the user must exist. */
  function Reserve(s: Tables, row: Reservation): Tables
  {
    if row.key in s.keys && row.user in s.wallet.users
    then s.(reservations := Without(s.reservations, row.id) + [row])
    else s
  }

  function MoveWallet(s: Tables, u: Id, delta: int, reason: Reason, ref: Ref): Tables
  {
    s.(wallet := AfterAdjust(s.wallet, Adjust(s.wallet, u, delta, reason, ref, SYSTEM)))
  }

  /** The reservation a call to Hold places, once the key's period is current. */
  function Placement(s: Tables, request: Id, k: Id, u: Id, estimate: nat, now: int): Option<Reservation>
    requires k in s.keys
  {
    var key := s.keys[k];
    if key.kind.Unlimited? then
      Some(Reservation(request, k, u, 0, KeyQuota, Open, now))
    else if HasQuota(key) then
      Some(Reservation(request, k, u, Min(HoldAmount(key.kind, estimate), QuotaRemaining(key)), KeyQuota, Open, now))
    else if key.overflow && u in s.wallet.users && CanSpend(s.wallet.users[u], estimate) then
      Some(Reservation(request, k, u, estimate, UserWallet, Open, now))
    else
      None
  }

  /** Take the hold from where it is funded and record it. */
  function Place(s: Tables, row: Reservation): Tables
  {
    var funded :=
      if row.source.UserWallet? then MoveWallet(s, row.user, -row.hold, Held, HoldOf(row.id))
      else if row.hold > 0 then ConsumeQuota(s, row.key, row.hold)
      else s;
    Reserve(funded, row)
  }

  function Hold(s: Tables, request: Id, k: Id, u: Id, estimate: nat, now: int): Tables
  {
    if request == "" || k !in s.keys then s
    else
      var current := EnsurePeriod(s, k, now);
      var placed := Placement(current, request, k, u, estimate, now);
      if placed.None? then current else Place(current, placed.value)
  }

  // ---- Settle and Release ----

  /** Whether row i is an open reservation of the key. */
  predicate IsOpenOn(s: Tables, k: Id, i: int)
  {
    0 <= i < |s.reservations| && s.reservations[i].status == Open && s.reservations[i].key == k
  }

  /** The row Settle may select: an oldest open one of the key, whichever of several equally old ones. */
  ghost predicate OldestOpen(s: Tables, k: Id, pick: Option<nat>)
  {
    match pick
    case None => forall i :: !IsOpenOn(s, k, i)
    case Some(p) =>
      IsOpenOn(s, k, p)
      && forall i :: IsOpenOn(s, k, i) ==> s.reservations[p].createdAt <= s.reservations[i].createdAt
  }

  /** Hand part of a hold back to where it was taken from. */
  function GiveBack(s: Tables, row: Reservation, refund: int, ref: Ref): Tables
  {
    if refund <= 0 then s
    else
      match row.source
      case UserWallet => MoveWallet(s, row.user, refund, Refund, ref)
      case KeyQuota => ConsumeQuota(s, row.key, -refund)
  }

  function CloseAt(s: Tables, i: nat, refund: int, ref: Ref, status: ReservationStatus): Tables
    requires i < |s.reservations|
  {
    var row := s.reservations[i];
    var s' := GiveBack(s, row, refund, ref);
    s'.(reservations := s.reservations[i := row.(status := status)])
  }

  /** Settle row i against the actual spend. */
  function SettleAt(s: Tables, i: nat, actual: int): Tables
    requires i < |s.reservations|
  {
    var row := s.reservations[i];
    CloseAt(s, i, Max(0, row.hold - actual), SettleOf(row.id), Closed)
  }

  /** The table row with the given primary key. */
  function Find(rows: seq<Reservation>, id: Id): (found: Option<nat>)
    ensures found.Some? ==> found.value < |rows| && rows[found.value].id == id
    ensures found.None? ==> forall i :: 0 <= i < |rows| ==> rows[i].id != id
  {
    if rows == [] then None
    else if rows[|rows| - 1].id == id then Some(|rows| - 1)
    else Find(rows[..|rows| - 1], id)
  }

  function Release(s: Tables, request: Id): Tables
  {
    var found := Find(s.reservations, request);
    if request == "" || found.None? then s
    else
      var row := s.reservations[found.value];
      if row.status != Open || row.hold <= 0 then s
      else CloseAt(s, found.value, row.hold, ReleaseOf(request), Released)
  }

  function StaleIds(rows: seq<Reservation>, cutoff: int): seq<Id>
  {
    if rows == [] then []
    else
      var row := rows[|rows| - 1];
      StaleIds(rows[..|rows| - 1], cutoff) + (if row.status == Open && row.createdAt < cutoff then [row.id] else [])
  }

  function ReleaseAll(s: Tables, ids: seq<Id>): Tables
  {
    if ids == [] then s else Release(ReleaseAll(s, ids[..|ids| - 1]), ids[|ids| - 1])
  }

  function ReleaseStale(s: Tables, cutoff: int): Tables
  {
    ReleaseAll(s, StaleIds(s.reservations, cutoff))
  }

  // ---- Charge ----

  /** Whether the request already has a billed record on the key. */
  predicate AlreadyBilled(usage: seq<UsageRow>, k: Id, request: Id)
  {
    exists i :: 0 <= i < |usage| && usage[i].key == k && usage[i].request == request && usage[i].billed
  }

  /** The micro-credit cost: a price of zero still costs one micro-credit per token. */
  function Cost(rec: UsageRecord, priced: int): int
  {
    if priced <= 0 then rec.tokens else priced
  }

  /** The spend in the key's own quota unit. */
  function UnitSpend(s: Tables, rec: UsageRecord, priced: int): int
    requires rec.key in s.keys
  {
    match s.keys[rec.key].kind
    case Credit => Cost(rec, priced)
    case Token => rec.tokens
    case Request => if rec.request != "" && AlreadyBilled(s.usage, rec.key, rec.request) then 0 else 1
    case Unlimited => 0
  }

  /** Whether the request's own reservation is open and holds wallet credit. */
  predicate WalletFunded(rows: seq<Reservation>, request: Id)
  {
    exists i :: 0 <= i < |rows| && rows[i].id == request && rows[i].status == Open && rows[i].source == UserWallet
  }

  function RecordUsage(s: Tables, key: Key, rec: UsageRecord, cost: int, source: Option<Source>, billed: bool): Tables
  {
    s.(usage := s.usage + [UsageRow(rec.key, key.owner, rec.request, cost, source, billed)])
  }

  /**
    Charge what the hold did not cover. The key is the snapshot read before Settle; only the
    wallet is read again.
   */
  function Pay(s: Tables, key: Key, rec: UsageRecord, extra: int, cost: int, now: int): Tables
  {
    if key.kind.Unlimited? || extra <= 0 then
      RecordUsage(s, key, rec, cost, Some(KeyQuota), true)
    else if HasQuota(key) && QuotaRemaining(key) >= extra then
      RecordUsage(ConsumeQuota(s, rec.key, extra), key, rec, cost, Some(KeyQuota), true)
    else if !key.overflow then
      RecordUsage(s, key, rec, 0, None, false)
    else if key.owner !in s.wallet.users then
      s
    else if CanSpend(s.wallet.users[key.owner], cost) then
      RecordUsage(MoveWallet(s, key.owner, -cost, Usage, UsageAt(now)), key, rec, cost, Some(UserWallet), true)
    else
      RecordUsage(s, key, rec, 0, None, false)
  }

  /** A request held on the wallet pays its extra in micro-credit, if the wallet can. */
  function PayFromWallet(s: Tables, key: Key, rec: UsageRecord, extra: int, cost: int, now: int): Tables
  {
    var paid :=
      if extra > 0 && key.owner in s.wallet.users && CanSpend(s.wallet.users[key.owner], extra)
      then MoveWallet(s, key.owner, -extra, Usage, UsageAt(now))
      else s;
    RecordUsage(paid, key, rec, cost, Some(UserWallet), true)
  }

  /** Charge after the zero-token, missing-key and period rules; pick is the row Settle selects. */
  function ChargeCurrent(s: Tables, rec: UsageRecord, priced: int, pick: Option<nat>, now: int): Tables
    requires rec.key in s.keys
    requires pick.Some? ==> pick.value < |s.reservations|
  {
    var key := s.keys[rec.key];
    var cost := Cost(rec, priced);
    var unit := UnitSpend(s, rec, priced);
    if rec.request == "" || pick.None? then
      Pay(s, key, rec, unit, cost, now)
    else
      var viaWallet := WalletFunded(s.reservations, rec.request);
      var actual := if viaWallet then cost else unit;
      var extra := Max(0, actual - s.reservations[pick.value].hold);
      var s' := SettleAt(s, pick.value, actual);
      if viaWallet then PayFromWallet(s', key, rec, extra, cost, now)
      else Pay(s', key, rec, extra, cost, now)
  }

  function Charge(s: Tables, rec: UsageRecord, priced: int, pick: Option<nat>, now: int): Tables
    requires pick.Some? ==> pick.value < |s.reservations|
  {
    if rec.key !in s.keys then s
    else if rec.tokens == 0 then RecordUsage(s, s.keys[rec.key], rec, 0, None, false)
    else ChargeCurrent(EnsurePeriod(s, rec.key, now), rec, priced, pick, now)
  }
}
