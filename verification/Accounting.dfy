/**
  The accounting laws of holding, settling, releasing and charging. They are stated on two
  quantities: the quota a key has spent beyond its open holds, and the credit a user has
  available including what is reserved for open requests.
 */
module Accounting {
  import opened Sums
  import opened Wallets
  import opened Billing

  /** The keys the schema enforces on a reservation row, and holds that are never negative. */
  ghost predicate RowSound(s: Tables, row: Reservation)
  {
    row.id != "" && row.key in s.keys && row.user in s.wallet.users && row.hold >= 0
  }

  ghost predicate UniqueIds(rows: seq<Reservation>)
  {
    forall i, j :: 0 <= i < j < |rows| ==> rows[i].id != rows[j].id
  }

  /** Primary keys, foreign keys and CHECK constraints. */
  ghost predicate Sound(s: Tables)
  {
    && (forall k :: k in s.keys ==>
          s.keys[k].owner in s.wallet.users && s.keys[k].used >= 0 && s.keys[k].amount >= 0)
    && (forall i :: 0 <= i < |s.reservations| ==> RowSound(s, s.reservations[i]))
    && UniqueIds(s.reservations)
  }

  /** The wallet an open reservation drew on is the wallet of the key's present owner. */
  ghost predicate Funded(s: Tables)
  {
    forall i :: 0 <= i < |s.reservations| && s.reservations[i].status == Open ==>
      s.reservations[i].key in s.keys && s.keys[s.reservations[i].key].owner == s.reservations[i].user
  }

  ghost predicate WithinQuota(s: Tables)
  {
    forall k :: k in s.keys ==> s.keys[k].used <= s.keys[k].amount
  }

  /** The open quota a reservation holds on key k. */
  function OpenQuotaOn(k: Id): Reservation -> int
  {
    (r: Reservation) => if r.status == Open && r.source == KeyQuota && r.key == k then r.hold else 0
  }

  /** The open credit a reservation holds from the wallet of u. */
  function OpenWalletOf(u: Id): Reservation -> int
  {
    (r: Reservation) => if r.status == Open && r.source == UserWallet && r.user == u then r.hold else 0
  }

  function Named(id: Id, weight: Reservation -> int): Reservation -> int
  {
    (r: Reservation) => if r.id == id then weight(r) else 0
  }

  /** Quota spent for good: what is used less what is only held. */
  function QuotaBook(s: Tables, k: Id): int
    requires k in s.keys
  {
    s.keys[k].used - Sum(s.reservations, OpenQuotaOn(k))
  }

  /** Balance plus reserved credit. */
  function Available(s: Tables, u: Id): int
    requires u in s.wallet.users
  {
    s.wallet.users[u].balance + Sum(s.reservations, OpenWalletOf(u))
  }

  /** Two states of a key that differ in quota_used only. */
  ghost predicate SameTerms(key: Key, key': Key)
  {
    key' == key.(used := key'.used)
  }

  ghost predicate KeysKept(s: Tables, s': Tables)
  {
    s'.keys.Keys == s.keys.Keys && forall k :: k in s.keys ==> SameTerms(s.keys[k], s'.keys[k])
  }

  /** An amount that a row moves on the quota of key k. */
  function OnQuota(row: Reservation, k: Id, amount: int): int
  {
    if row.source == KeyQuota && row.key == k then amount else 0
  }

  /** An amount that a row moves on the wallet of user u. */
  function OnWallet(row: Reservation, u: Id, amount: int): int
  {
    if row.source == UserWallet && row.user == u then amount else 0
  }

  /** The user's row changed in its balance only, by the given amount. */
  ghost predicate UserMoved(s: Tables, s': Tables, u: Id, amount: int)
    requires u in s.wallet.users
  {
    u in s'.wallet.users
    && s'.wallet.users[u] == s.wallet.users[u].(balance := s.wallet.users[u].balance + amount)
  }

  /** Two states of a key that differ in quota_used and the period window only. */
  ghost predicate KeyTermsKept(s: Tables, s': Tables)
  {
    s'.keys.Keys == s.keys.Keys && s'.wallet.users.Keys == s.wallet.users.Keys
    && forall k :: k in s.keys ==>
      s'.keys[k] == s.keys[k].(used := s'.keys[k].used, periodStart := s'.keys[k].periodStart,
                               periodEnd := s'.keys[k].periodEnd)
  }

  // ---- Hold ----

  lemma {:induction false} SumWithout(rows: seq<Reservation>, id: Id, weight: Reservation -> int)
    ensures Sum(Without(rows, id), weight) == Sum(rows, weight) - Sum(rows, Named(id, weight))
  {
    if rows != [] {
      var front := rows[..|rows| - 1];
      SumWithout(front, id, weight);
      SumAppend(Without(front, id), rows[|rows| - 1], weight);
    }
  }

  lemma {:induction false} WithoutMembers(rows: seq<Reservation>, id: Id)
    ensures forall r :: r in Without(rows, id) <==> r in rows && r.id != id
    ensures UniqueIds(rows) ==> UniqueIds(Without(rows, id))
  {
    if rows != [] {
      var front := rows[..|rows| - 1];
      WithoutMembers(front, id);
      assert rows == front + [rows[|rows| - 1]];
      assert UniqueIds(rows) ==> UniqueIds(front);
      if UniqueIds(rows) {
        forall r | r in Without(front, id)
          ensures r.id != rows[|rows| - 1].id
        {
          assert r in front;
        }
      }
    }
  }

  /** A reservation under an id that no row has is a plain append. */
  lemma {:induction false} WithoutFresh(rows: seq<Reservation>, id: Id)
    requires forall i :: 0 <= i < |rows| ==> rows[i].id != id
    ensures Without(rows, id) == rows
  {
    if rows != [] {
      WithoutFresh(rows[..|rows| - 1], id);
      assert rows == rows[..|rows| - 1] + [rows[|rows| - 1]];
    }
  }

  lemma EnsurePeriodSound(s: Tables, k: Id, now: int)
    requires k in s.keys
    ensures Sound(s) ==> Sound(EnsurePeriod(s, k, now))
    ensures Funded(s) ==> Funded(EnsurePeriod(s, k, now))
    ensures Sound(s) && WithinQuota(s) ==> WithinQuota(EnsurePeriod(s, k, now))
  {
    var s' := EnsurePeriod(s, k, now);
    if Sound(s) {
      forall i | 0 <= i < |s'.reservations|
        ensures RowSound(s', s'.reservations[i])
      {
        assert RowSound(s, s.reservations[i]);
      }
    }
  }

  /** A row that Place can take: its funds are there. */
  ghost predicate Placeable(s: Tables, row: Reservation)
  {
    && RowSound(s, row) && row.status == Open
    && (row.source == KeyQuota ==> row.hold == 0 || row.hold <= s.keys[row.key].amount - s.keys[row.key].used)
    && (row.source == UserWallet ==> CanSpend(s.wallet.users[row.user], row.hold))
  }

  lemma PlacementPlaceable(s: Tables, request: Id, k: Id, u: Id, estimate: nat, now: int)
    requires Sound(s) && request != "" && k in s.keys && u in s.wallet.users
    ensures var row := Placement(s, request, k, u, estimate, now);
            row.Some? ==>
              Placeable(s, row.value) && row.value.id == request && row.value.key == k && row.value.user == u
  {
  }

  /** What Place takes, and from where. */
  lemma PlaceEffect(s: Tables, row: Reservation)
    requires Sound(s) && Placeable(s, row)
    ensures var s' := Place(s, row);
            && s'.reservations == Without(s.reservations, row.id) + [row]
            && KeysKept(s, s') && s'.wallet.users.Keys == s.wallet.users.Keys && s'.usage == s.usage
            && (forall k :: k in s.keys ==> s'.keys[k].used == s.keys[k].used + OnQuota(row, k, row.hold))
            && (forall u :: u in s.wallet.users ==> UserMoved(s, s', u, -OnWallet(row, u, row.hold)))
  {
  }

  /**
    Placing a hold leaves what a key has spent, and what a user has available, as they were,
    except for an open row that the same id displaces.
   */
  lemma PlaceLaw(s: Tables, row: Reservation, k: Id, u: Id)
    requires Sound(s) && Placeable(s, row) && k in s.keys && u in s.wallet.users
    ensures var s' := Place(s, row);
            && k in s'.keys && u in s'.wallet.users
            && QuotaBook(s', k) == QuotaBook(s, k) + Sum(s.reservations, Named(row.id, OpenQuotaOn(k)))
            && Available(s', u) == Available(s, u) - Sum(s.reservations, Named(row.id, OpenWalletOf(u)))
  {
    PlaceEffect(s, row);
    var kept := Without(s.reservations, row.id);
    SumWithout(s.reservations, row.id, OpenQuotaOn(k));
    SumAppend(kept, row, OpenQuotaOn(k));
    SumWithout(s.reservations, row.id, OpenWalletOf(u));
    SumAppend(kept, row, OpenWalletOf(u));
  }

  lemma PlaceSound(s: Tables, row: Reservation)
    requires Sound(s) && Placeable(s, row)
    ensures Sound(Place(s, row))
    ensures WithinQuota(s) ==> WithinQuota(Place(s, row))
    ensures Funded(s) && s.keys[row.key].owner == row.user ==> Funded(Place(s, row))
  {
    var s' := Place(s, row);
    PlaceEffect(s, row);
    WithoutMembers(s.reservations, row.id);
    var kept := Without(s.reservations, row.id);
    forall i | 0 <= i < |s'.reservations|
      ensures s'.reservations[i] in s.reservations || s'.reservations[i] == row
      ensures RowSound(s', s'.reservations[i])
    {
      if i < |kept| {
        assert s'.reservations[i] == kept[i] && kept[i] in kept;
      }
    }
    forall i, j | 0 <= i < j < |s'.reservations|
      ensures s'.reservations[i].id != s'.reservations[j].id
    {
      assert kept[i] in kept;
    }
  }

  // ---- Settle and Release ----

  /** A refund of quota the CHECK constraint turns down, because the period was reset under the hold. */
  function RejectedRefund(s: Tables, row: Reservation, refund: int): int
    requires row.key in s.keys
  {
    if row.source == KeyQuota && s.keys[row.key].used < refund then refund else 0
  }

  lemma CloseQuotaEffect(s: Tables, i: nat, refund: int, ref: Ref, status: ReservationStatus)
    requires Sound(s) && i < |s.reservations| && 0 <= refund && s.reservations[i].source == KeyQuota
    ensures var s' := CloseAt(s, i, refund, ref, status); var row := s.reservations[i];
            && row.key in s.keys && s'.wallet == s.wallet && s'.usage == s.usage
            && s'.keys == s.keys[row.key := s.keys[row.key].(
                 used := s.keys[row.key].used - (refund - RejectedRefund(s, row, refund)))]
  {
    assert RowSound(s, s.reservations[i]);
    assert s.keys == s.keys[s.reservations[i].key := s.keys[s.reservations[i].key]];
  }

  lemma CloseWalletEffect(s: Tables, i: nat, refund: int, ref: Ref, status: ReservationStatus)
    requires Sound(s) && i < |s.reservations| && 0 <= refund && s.reservations[i].source == UserWallet
    ensures var s' := CloseAt(s, i, refund, ref, status); var row := s.reservations[i];
            && row.user in s.wallet.users && s'.keys == s.keys && s'.usage == s.usage
            && s'.wallet.users == s.wallet.users[row.user := s.wallet.users[row.user].(
                 balance := s.wallet.users[row.user].balance + refund)]
  {
    assert RowSound(s, s.reservations[i]);
    assert s.wallet.users == s.wallet.users[s.reservations[i].user := s.wallet.users[s.reservations[i].user]];
  }

  /** What GiveBack returns, and to where. */
  lemma CloseEffect(s: Tables, i: nat, refund: int, ref: Ref, status: ReservationStatus)
    requires Sound(s) && i < |s.reservations| && 0 <= refund
    ensures var s' := CloseAt(s, i, refund, ref, status); var row := s.reservations[i];
            && row.key in s.keys
            && KeysKept(s, s') && s'.wallet.users.Keys == s.wallet.users.Keys && s'.usage == s.usage
            && (forall k :: k in s.keys ==>
                  s'.keys[k].used == s.keys[k].used - OnQuota(row, k, refund - RejectedRefund(s, row, refund)))
            && (forall u :: u in s.wallet.users ==> UserMoved(s, s', u, OnWallet(row, u, refund)))
  {
    assert RowSound(s, s.reservations[i]);
    if s.reservations[i].source == KeyQuota {
      CloseQuotaEffect(s, i, refund, ref, status);
    } else {
      CloseWalletEffect(s, i, refund, ref, status);
    }
  }

  /**
    Closing a reservation with a refund turns the rest of its hold into spend, whether it is
    settled or released; a refund that the CHECK constraint rejects stays spent.
   */
  lemma CloseLaw(s: Tables, i: nat, refund: int, ref: Ref, status: ReservationStatus, k: Id, u: Id)
    requires Sound(s) && i < |s.reservations| && s.reservations[i].status == Open && status != Open
    requires 0 <= refund && k in s.keys && u in s.wallet.users
    ensures var s' := CloseAt(s, i, refund, ref, status); var row := s.reservations[i];
            && k in s'.keys && u in s'.wallet.users
            && QuotaBook(s', k) == QuotaBook(s, k)
                 + OnQuota(row, k, row.hold - refund + RejectedRefund(s, row, refund))
            && Available(s', u) == Available(s, u) - OnWallet(row, u, row.hold - refund)
  {
    CloseEffect(s, i, refund, ref, status);
    var row' := s.reservations[i].(status := status);
    SumUpdate(s.reservations, i, row', OpenQuotaOn(k));
    SumUpdate(s.reservations, i, row', OpenWalletOf(u));
  }

  lemma CloseSound(s: Tables, i: nat, refund: int, ref: Ref, status: ReservationStatus)
    requires Sound(s) && i < |s.reservations| && s.reservations[i].status == Open && status != Open
    requires 0 <= refund <= s.reservations[i].hold
    ensures Sound(CloseAt(s, i, refund, ref, status))
    ensures Funded(s) ==> Funded(CloseAt(s, i, refund, ref, status))
    ensures WithinQuota(s) ==> WithinQuota(CloseAt(s, i, refund, ref, status))
  {
    var row := s.reservations[i];
    var s' := CloseAt(s, i, refund, ref, status);
    CloseEffect(s, i, refund, ref, status);
    RowClosedSound(s, s', i, row.(status := status));
  }

  /** One row closed, keys and users with the same terms, and nothing used that was not used before. */
  lemma RowClosedSound(s: Tables, s': Tables, i: nat, row': Reservation)
    requires Sound(s) && i < |s.reservations| && row'.status != Open
             && row' == s.reservations[i].(status := row'.status)
    requires s'.reservations == s.reservations[i := row']
    requires KeysKept(s, s') && s'.wallet.users.Keys == s.wallet.users.Keys
    requires forall k :: k in s.keys ==> 0 <= s'.keys[k].used <= s.keys[k].used
    ensures Sound(s') && (Funded(s) ==> Funded(s')) && (WithinQuota(s) ==> WithinQuota(s'))
  {
    forall j | 0 <= j < |s'.reservations|
      ensures RowSound(s', s'.reservations[j])
    {
      assert RowSound(s, s.reservations[j]);
    }
    forall k | k in s'.keys
      ensures s'.keys[k].owner in s'.wallet.users && s'.keys[k].used >= 0 && s'.keys[k].amount >= 0
    {
      assert SameTerms(s.keys[k], s'.keys[k]);
    }
  }

  // ---- Whole calls ----

  /** Hold, whatever row the request id may displace. */
  lemma HoldLaw(s: Tables, request: Id, k: Id, u: Id, estimate: nat, now: int, k': Id, u': Id)
    requires Sound(s) && request != "" && k in s.keys && u in s.wallet.users
    requires k' in s.keys && u' in s.wallet.users
    ensures var s' := Hold(s, request, k, u, estimate, now);
            var e := EnsurePeriod(s, k, now);
            var placed := Placement(e, request, k, u, estimate, now).Some?;
            && k' in s'.keys && u' in s'.wallet.users
            && QuotaBook(s', k') == QuotaBook(e, k')
                 + (if placed then Sum(s.reservations, Named(request, OpenQuotaOn(k'))) else 0)
            && Available(s', u') == Available(s, u')
                 - (if placed then Sum(s.reservations, Named(request, OpenWalletOf(u'))) else 0)
  {
    var e := EnsurePeriod(s, k, now);
    EnsurePeriodSound(s, k, now);
    PlacementPlaceable(e, request, k, u, estimate, now);
    var placed := Placement(e, request, k, u, estimate, now);
    if placed.Some? {
      PlaceLaw(e, placed.value, k', u');
    }
  }

  lemma HoldSound(s: Tables, request: Id, k: Id, u: Id, estimate: nat, now: int)
    requires Sound(s) && u in s.wallet.users
    ensures var s' := Hold(s, request, k, u, estimate, now);
            && Sound(s') && KeyTermsKept(s, s') && s'.usage == s.usage
            && (WithinQuota(s) ==> WithinQuota(s'))
            && (Funded(s) && k in s.keys && s.keys[k].owner == u ==> Funded(s'))
  {
    if request != "" && k in s.keys {
      var e := EnsurePeriod(s, k, now);
      EnsurePeriodSound(s, k, now);
      PlacementPlaceable(e, request, k, u, estimate, now);
      var placed := Placement(e, request, k, u, estimate, now);
      if placed.Some? {
        PlaceEffect(e, placed.value);
        PlaceSound(e, placed.value);
      }
    }
  }

  /** The hold a key of each kind asks for. */
  function Wanted(kind: QuotaKind, estimate: nat): nat
  {
    match kind
    case Credit => estimate
    case Token => 30_000
    case Request => 1
    case Unlimited => 0
  }

  predicate Spent(key: Key)
  {
    !key.kind.Unlimited? && key.used >= key.amount
  }

  /** The tables after a row was taken from quota or wallet and appended. */
  ghost predicate TakenFor(s: Tables, s': Tables, row: Reservation)
  {
    && row.key in s.keys && row.key in s'.keys && row.user in s.wallet.users
    && s'.reservations == s.reservations + [row]
    && s'.keys[row.key].used == s.keys[row.key].used + OnQuota(row, row.key, row.hold)
    && UserMoved(s, s', row.user, -OnWallet(row, row.user, row.hold))
  }

  lemma PlaceTakes(s: Tables, row: Reservation)
    requires Sound(s) && Placeable(s, row)
    requires forall i :: 0 <= i < |s.reservations| ==> s.reservations[i].id != row.id
    ensures TakenFor(s, Place(s, row), row)
  {
    WithoutFresh(s.reservations, row.id);
    PlaceEffect(s, row);
  }

  /**
    What a hold takes for a new id, once the period is current: from the key, as much of the
    wanted amount as it has left; from the wallet of a spent key that may overflow, the estimate;
    otherwise nothing. What was taken is recorded as one open row of exactly that amount.
   */
  lemma HoldTakes(s: Tables, request: Id, k: Id, u: Id, estimate: nat, now: int)
    requires Sound(s) && request != "" && k in s.keys && u in s.wallet.users
    requires forall i :: 0 <= i < |s.reservations| ==> s.reservations[i].id != request
    ensures var e := EnsurePeriod(s, k, now);
            var s' := Hold(s, request, k, u, estimate, now);
            var key := e.keys[k];
            var taken := if key.kind.Unlimited? then 0 else Min(Wanted(key.kind, estimate), key.amount - key.used);
            if !Spent(key) then TakenFor(e, s', Reservation(request, k, u, taken, KeyQuota, Open, now))
            else if key.overflow && CanSpend(s.wallet.users[u], estimate)
            then TakenFor(e, s', Reservation(request, k, u, estimate, UserWallet, Open, now))
            else s' == e
  {
    var e := EnsurePeriod(s, k, now);
    EnsurePeriodSound(s, k, now);
    PlacementPlaceable(e, request, k, u, estimate, now);
    var placed := Placement(e, request, k, u, estimate, now);
    if placed.Some? {
      PlaceTakes(e, placed.value);
    }
  }

  /** An open row of that id whose hold would be lost when the id is held again. */
  ghost predicate HeldOpen(s: Tables, request: Id)
  {
    exists i :: 0 <= i < |s.reservations| && s.reservations[i].id == request
      && s.reservations[i].status == Open && s.reservations[i].hold > 0
  }

  ghost predicate BooksKept(s: Tables, s': Tables)
  {
    && (forall k :: k in s.keys ==> k in s'.keys && QuotaBook(s', k) == QuotaBook(s, k))
    && (forall u :: u in s.wallet.users ==> u in s'.wallet.users && Available(s', u) == Available(s, u))
  }

  /** What an id displaces is nothing, unless it names an open row with something on hold. */
  lemma DisplacedNothing(s: Tables, request: Id, k: Id, u: Id)
    requires !HeldOpen(s, request) && Sound(s)
    ensures Sum(s.reservations, Named(request, OpenQuotaOn(k))) == 0
    ensures Sum(s.reservations, Named(request, OpenWalletOf(u))) == 0
  {
    forall i | 0 <= i < |s.reservations|
      ensures Named(request, OpenQuotaOn(k))(s.reservations[i]) == 0
      ensures Named(request, OpenWalletOf(u))(s.reservations[i]) == 0
    {
      assert RowSound(s, s.reservations[i]);
    }
    SumZero(s.reservations, Named(request, OpenQuotaOn(k)));
    SumZero(s.reservations, Named(request, OpenWalletOf(u)));
  }

  lemma DisplacedSomething(s: Tables, i: nat)
    requires Sound(s) && i < |s.reservations| && s.reservations[i].status == Open && s.reservations[i].hold > 0
    ensures var row := s.reservations[i];
            && RowSound(s, row)
            && Sum(s.reservations, Named(row.id, OpenQuotaOn(row.key)))
               + Sum(s.reservations, Named(row.id, OpenWalletOf(row.user))) > 0
  {
    var row := s.reservations[i];
    forall j | 0 <= j < |s.reservations|
      ensures Named(row.id, OpenQuotaOn(row.key))(s.reservations[j]) >= 0
      ensures Named(row.id, OpenWalletOf(row.user))(s.reservations[j]) >= 0
    {
      assert RowSound(s, s.reservations[j]);
    }
    SumCovers(s.reservations, Named(row.id, OpenQuotaOn(row.key)));
    SumCovers(s.reservations, Named(row.id, OpenWalletOf(row.user)));
    assert RowSound(s, row);
  }

  /**
    Holding once per client request is what the accounting rests on: a hold that is placed
    keeps every key's spend and every user's available credit exactly when its id does not
    name an open reservation with something on hold.
   */
  lemma HoldConservesIff(s: Tables, request: Id, k: Id, u: Id, estimate: nat, now: int)
    requires Sound(s) && request != "" && k in s.keys && u in s.wallet.users
    requires Placement(EnsurePeriod(s, k, now), request, k, u, estimate, now).Some?
    ensures BooksKept(EnsurePeriod(s, k, now), Hold(s, request, k, u, estimate, now)) <==> !HeldOpen(s, request)
  {
    if HeldOpen(s, request) {
      HoldLosesHeld(s, request, k, u, estimate, now);
    } else {
      HoldConserves(s, request, k, u, estimate, now);
    }
  }

  lemma HoldLosesHeld(s: Tables, request: Id, k: Id, u: Id, estimate: nat, now: int)
    requires Sound(s) && request != "" && k in s.keys && u in s.wallet.users && HeldOpen(s, request)
    requires Placement(EnsurePeriod(s, k, now), request, k, u, estimate, now).Some?
    ensures !BooksKept(EnsurePeriod(s, k, now), Hold(s, request, k, u, estimate, now))
  {
    var i :| 0 <= i < |s.reservations| && s.reservations[i].id == request
      && s.reservations[i].status == Open && s.reservations[i].hold > 0;
    var row := s.reservations[i];
    DisplacedSomething(s, i);
    HoldLaw(s, request, k, u, estimate, now, row.key, row.user);
  }

  lemma HoldConserves(s: Tables, request: Id, k: Id, u: Id, estimate: nat, now: int)
    requires Sound(s) && request != "" && k in s.keys && u in s.wallet.users && !HeldOpen(s, request)
    ensures BooksKept(EnsurePeriod(s, k, now), Hold(s, request, k, u, estimate, now))
  {
    var e := EnsurePeriod(s, k, now);
    var s' := Hold(s, request, k, u, estimate, now);
    forall k', u' | k' in s.keys && u' in s.wallet.users
      ensures k' in s'.keys && QuotaBook(s', k') == QuotaBook(e, k')
      ensures u' in s'.wallet.users && Available(s', u') == Available(e, u')
    {
      HoldLaw(s, request, k, u, estimate, now, k', u');
      DisplacedNothing(s, request, k', u');
    }
    assert k in s.keys && u in s.wallet.users;
  }
}
