/**
  Users, their wallets and the credit ledger (internal/store/users_repo.go).
  Every wallet movement in the repository goes through AdjustBalance, so a run of the
  wallet is any sequence of the operations below, whoever the callers are and however
  their statements interleave.
 */
module Wallets {
  import opened Sums

  /** Row identifiers; the empty string stands for a NULL reference. */
  type Id = string

  datatype Option<+T> = None | Some(value: T)

  datatype WalletMode = Prepaid | Postpaid

  datatype User = User(balance: int, mode: WalletMode, creditLimit: int, code: string, referredBy: Id)

  datatype Reason = Recharge | Usage | Purchase | Renew | Refund | Overflow | ReferralBonus | Adjustment | Held

  /**
    What a ledger row refers to. References the program builds itself are kept apart by
    constructor; a caller's own text is Given.
   */
  datatype Ref =
    | NoRef
    | Given(text: string)
    | HoldOf(request: Id)
    | SettleOf(request: Id)
    | ReleaseOf(request: Id)
    | UsageAt(time: int)
    | OrderAt(package: Id, time: int)
    | BonusFor(recharge: Ref)

  datatype LedgerRow = LedgerRow(user: Id, delta: int, reason: Reason, ref: Ref, channel: string, after: int)

  datatype Wallet = Wallet(users: map<Id, User>, ledger: seq<LedgerRow>)

  datatype StoreError = NotFound | InsufficientBalance | Duplicate

  datatype AdjustResult = Adjusted(wallet: Wallet, after: int) | Refused(error: StoreError)

  const EMPTY := Wallet(map[], [])

  const TELEGRAM := "telegram"
  const SYSTEM := "system"
  const PORTAL := "portal"

  /** The lowest balance a debit may leave. */
  function Floor(u: User): int
  {
    if u.mode.Postpaid? then -u.creditLimit else 0
  }

  predicate CanSpend(u: User, cost: int)
  {
    if u.mode.Postpaid? then u.balance - cost >= -u.creditLimit else u.balance - cost >= 0
  }

  predicate IsSpace(c: char)
  {
    c in " \t\n\r" || c as int in {0x0b, 0x0c, 0x85, 0xa0, 0x1680, 0x2028, 0x2029, 0x202f, 0x205f, 0x3000}
    || 0x2000 <= c as int <= 0x200a
  }

  /** A text that is empty once trimmed; such a text is stored as NULL. */
  predicate Blank(text: string)
  {
    forall i :: 0 <= i < |text| ==> IsSpace(text[i])
  }

  function Stored(ref: Ref): Ref
  {
    if ref.Given? && Blank(ref.text) then NoRef else ref
  }

  /** The unique index on the ledger: one row per telegram reference. */
  predicate Taken(ledger: seq<LedgerRow>, ref: Ref, channel: string)
  {
    channel == TELEGRAM && ref != NoRef
    && exists i :: 0 <= i < |ledger| && ledger[i].channel == TELEGRAM && ledger[i].ref == ref
  }

  /** AdjustBalance: move one wallet by delta and append one ledger row, or do nothing at all. */
  function Adjust(w: Wallet, u: Id, delta: int, reason: Reason, ref: Ref, channel: string): AdjustResult
  {
    if u !in w.users then Refused(NotFound)
    else
      var user := w.users[u];
      var next := user.balance + delta;
      if delta < 0 && next < Floor(user) then Refused(InsufficientBalance)
      else if Taken(w.ledger, Stored(ref), channel) then Refused(Duplicate)
      else
        Adjusted(
          Wallet(w.users[u := user.(balance := next)],
                 w.ledger + [LedgerRow(u, delta, reason, Stored(ref), channel, next)]),
          next)
  }

  /** The wallet after a call that may be refused. */
  function AfterAdjust(w: Wallet, r: AdjustResult): Wallet
  {
    if r.Adjusted? then r.wallet else w
  }

  /** Every statement that writes the users or credit_ledger table. */
  datatype WalletOp =
    | Move(user: Id, delta: int, reason: Reason, ref: Ref, channel: string)
    | Create(user: Id, code: string)
    | SetMode(user: Id, mode: WalletMode)
    | SetLimit(user: Id, limit: int)
    | Attach(user: Id, referrer: Id)

  predicate CodeInUse(w: Wallet, code: string)
  {
    exists u :: u in w.users && w.users[u].code == code
  }

  function Apply(w: Wallet, op: WalletOp): Wallet
  {
    match op
    case Move(u, delta, reason, ref, channel) => AfterAdjust(w, Adjust(w, u, delta, reason, ref, channel))
    case Create(u, code) =>
      if u in w.users || CodeInUse(w, code) then w
      else w.(users := w.users[u := User(0, Prepaid, 0, code, "")])
    case SetMode(u, mode) =>
      if u in w.users then w.(users := w.users[u := w.users[u].(mode := mode)]) else w
    case SetLimit(u, limit) =>
      if u in w.users then w.(users := w.users[u := w.users[u].(creditLimit := limit)]) else w
    case Attach(u, referrer) =>
      if u in w.users && w.users[u].referredBy == "" && referrer in w.users && referrer != u
      then w.(users := w.users[u := w.users[u].(referredBy := referrer)]) else w
  }

  function Run(w: Wallet, ops: seq<WalletOp>): Wallet
    decreases |ops|
  {
    if ops == [] then w else Run(Apply(w, ops[0]), ops[1..])
  }

  lemma {:induction false} RunConcat(w: Wallet, ops: seq<WalletOp>, ops': seq<WalletOp>)
    ensures Run(w, ops + ops') == Run(Run(w, ops), ops')
    decreases |ops|
  {
    if ops == [] {
      assert ops + ops' == ops';
    } else {
      RunConcat(Apply(w, ops[0]), ops[1..], ops');
      assert (ops + ops')[1..] == ops[1..] + ops';
    }
  }

  // ---- Ledger agreement ----

  /** What a ledger row contributes to the wallet of u. */
  function DeltaOf(u: Id): LedgerRow -> int
  {
    (row: LedgerRow) => if row.user == u then row.delta else 0
  }

  /** Each balance is the sum of its deltas, and each balance_after is the running sum. */
  ghost predicate Balanced(w: Wallet)
  {
    && (forall u :: u in w.users ==> w.users[u].balance == Sum(w.ledger, DeltaOf(u)))
    && (forall u :: u !in w.users ==> Sum(w.ledger, DeltaOf(u)) == 0)
    && (forall i :: 0 <= i < |w.ledger| ==>
      w.ledger[i].user in w.users
      && w.ledger[i].after == Sum(w.ledger[..i + 1], DeltaOf(w.ledger[i].user)))
  }

  /** No telegram reference was credited twice. */
  ghost predicate OncePerTransaction(ledger: seq<LedgerRow>)
  {
    forall i, j ::
      (0 <= i < j < |ledger| && ledger[i].channel == ledger[j].channel == TELEGRAM && ledger[i].ref != NoRef)
      ==> ledger[i].ref != ledger[j].ref
  }

  lemma MoveBalanced(w: Wallet, u: Id, delta: int, reason: Reason, ref: Ref, channel: string)
    requires Balanced(w)
    ensures Balanced(AfterAdjust(w, Adjust(w, u, delta, reason, ref, channel)))
  {
    var r := Adjust(w, u, delta, reason, ref, channel);
    if r.Adjusted? {
      var row := LedgerRow(u, delta, reason, Stored(ref), channel, r.after);
      var w' := r.wallet;
      assert w'.ledger == w.ledger + [row];
      forall v: Id
        ensures Sum(w'.ledger, DeltaOf(v)) == Sum(w.ledger, DeltaOf(v)) + (if v == u then delta else 0)
      {
        SumAppend(w.ledger, row, DeltaOf(v));
      }
      forall i | 0 <= i < |w'.ledger|
        ensures w'.ledger[i].user in w'.users
        ensures w'.ledger[i].after == Sum(w'.ledger[..i + 1], DeltaOf(w'.ledger[i].user))
      {
        if i < |w.ledger| {
          assert w'.ledger[..i + 1] == w.ledger[..i + 1];
        } else {
          assert w'.ledger[..i + 1] == w'.ledger;
        }
      }
    }
  }

  lemma ApplyBalanced(w: Wallet, op: WalletOp)
    requires Balanced(w)
    ensures Balanced(Apply(w, op))
  {
    if op.Move? {
      MoveBalanced(w, op.user, op.delta, op.reason, op.ref, op.channel);
    }
  }

  lemma ApplyOnce(w: Wallet, op: WalletOp)
    requires OncePerTransaction(w.ledger)
    ensures OncePerTransaction(Apply(w, op).ledger)
    ensures w.ledger <= Apply(w, op).ledger
  {
  }

  /**
    Ledger agreement over every run of any callers: each balance is the sum of that user's
    deltas, each balance_after the running sum, and no telegram reference counts twice.
   */
  lemma {:induction false} LedgerAgrees(w: Wallet, ops: seq<WalletOp>)
    requires Balanced(w) && OncePerTransaction(w.ledger)
    ensures Balanced(Run(w, ops)) && OncePerTransaction(Run(w, ops).ledger)
    ensures w.ledger <= Run(w, ops).ledger
    decreases |ops|
  {
    if ops != [] {
      ApplyBalanced(w, ops[0]);
      ApplyOnce(w, ops[0]);
      LedgerAgrees(Apply(w, ops[0]), ops[1..]);
    }
  }

  // ---- The floor ----

  function FloorOf(w: Wallet, u: Id): int
  {
    if u in w.users then Floor(w.users[u]) else 0
  }

  /** The lowest floor in force for u at any moment of the run. */
  function LowestFloor(w: Wallet, ops: seq<WalletOp>, u: Id): int
    decreases |ops|
  {
    if ops == [] then FloorOf(w, u)
    else Min(FloorOf(w, u), LowestFloor(Apply(w, ops[0]), ops[1..], u))
  }

  /**
    However wallet modes and limits change on the way, a balance never falls below both where
    it started and the lowest floor that was ever in force. With b == 0 and w == EMPTY this is
    the floor of every wallet of the system.
   */
  lemma {:induction false} NeverBelowLowestFloor(w: Wallet, ops: seq<WalletOp>, u: Id, b: int)
    requires u in w.users ==> w.users[u].balance >= b
    requires u !in w.users ==> b <= 0
    ensures u in Run(w, ops).users ==> Run(w, ops).users[u].balance >= Min(b, LowestFloor(w, ops, u))
    decreases |ops|
  {
    if ops != [] {
      var w' := Apply(w, ops[0]);
      var b' := Min(b, FloorOf(w, u));
      NeverBelowLowestFloor(w', ops[1..], u, b');
    }
  }

  // ---- Webhook replay ----

  /** A non-blank transaction that was credited once changes nothing ever after. */
  lemma ReplayChangesNothing(w: Wallet, u: Id, amount: int, tx: string, ops: seq<WalletOp>, v: Id, amount': int)
    requires Adjust(w, u, amount, Recharge, Given(tx), TELEGRAM).Adjusted?
    requires !Blank(tx)
    requires amount' > 0
    ensures var later := Run(Adjust(w, u, amount, Recharge, Given(tx), TELEGRAM).wallet, ops);
            Apply(later, Move(v, amount', Recharge, Given(tx), TELEGRAM)) == later
            && Adjust(later, v, amount', Recharge, Given(tx), TELEGRAM)
               == Refused(if v in later.users then Duplicate else NotFound)
  {
    var first := Adjust(w, u, amount, Recharge, Given(tx), TELEGRAM).wallet;
    var later := Run(first, ops);
    LedgerGrows(first, ops);
    var i := |w.ledger|;
    assert first.ledger[i].channel == TELEGRAM && first.ledger[i].ref == Given(tx);
    assert later.ledger[i] == first.ledger[i];
  }

  lemma {:induction false} LedgerGrows(w: Wallet, ops: seq<WalletOp>)
    ensures w.ledger <= Run(w, ops).ledger
    ensures w.users.Keys <= Run(w, ops).users.Keys
    decreases |ops|
  {
    if ops != [] {
      LedgerGrows(Apply(w, ops[0]), ops[1..]);
    }
  }

  // ---- What a movement does ----

  /** The code points that trimming removes: Unicode's White_Space property. */
  const WHITE_SPACE: set<int> :=
    {0x09, 0x0a, 0x0b, 0x0c, 0x0d, 0x20, 0x85, 0xa0, 0x1680, 0x2000, 0x2001, 0x2002, 0x2003, 0x2004, 0x2005, 0x2006,
     0x2007, 0x2008, 0x2009, 0x200a, 0x2028, 0x2029, 0x202f, 0x205f, 0x3000}

  /** A caller's text is kept if and only if some character of it is not white space. */
  lemma StoredIff(text: string)
    ensures Stored(Given(text)) == Given(text) <==> exists i :: 0 <= i < |text| && text[i] as int !in WHITE_SPACE
    ensures (exists i :: 0 <= i < |text| && '!' <= text[i] <= '~') ==> Stored(Given(text)) == Given(text)
    ensures (forall i :: 0 <= i < |text| ==> text[i] in " \t\r\n") ==> Stored(Given(text)) == NoRef
  {
    if i :| 0 <= i < |text| && text[i] as int !in WHITE_SPACE {
      assert !IsSpace(text[i]);
    } else {
      forall i | 0 <= i < |text|
        ensures IsSpace(text[i])
      {
        assert text[i] as int in WHITE_SPACE;
      }
    }
    if i :| 0 <= i < |text| && '!' <= text[i] <= '~' {
      assert !IsSpace(text[i]);
    }
  }

  /** Whether a movement would repeat a telegram transaction: a kept reference, already in a telegram row. */
  predicate Repeats(w: Wallet, ref: Ref, channel: string)
  {
    channel == "telegram" && Stored(ref) != NoRef
    && exists i :: 0 <= i < |w.ledger| && w.ledger[i].channel == "telegram" && w.ledger[i].ref == Stored(ref)
  }

  /**
    Every outcome of a movement: an unknown user; a debit below zero, or below minus the limit of a
    postpaid wallet; a repeated transaction; otherwise one balance and one ledger row, together.
   */
  lemma MoveOutcome(w: Wallet, u: Id, delta: int, reason: Reason, ref: Ref, channel: string)
    ensures var r := Adjust(w, u, delta, reason, ref, channel);
            && (r == Refused(NotFound) <==> u !in w.users)
            && (u in w.users ==>
                  var user := w.users[u];
                  var lowest := if user.mode == Postpaid then -user.creditLimit else 0;
                  var moved := user.balance + delta;
                  && (r == Refused(InsufficientBalance) <==> delta < 0 && moved < lowest)
                  && (r == Refused(Duplicate) <==> (delta < 0 ==> moved >= lowest) && Repeats(w, ref, channel))
                  && (r.Adjusted? <==> (delta < 0 ==> moved >= lowest) && !Repeats(w, ref, channel))
                  && (r.Adjusted? ==>
                        r.after == moved && r.wallet.users == w.users[u := user.(balance := moved)]
                        && r.wallet.ledger == w.ledger + [LedgerRow(u, delta, reason, Stored(ref), channel, moved)]))
  {
  }

  /** What AdjustBalance reports: a debit goes through exactly when CanSpend said it would. */
  lemma CanSpendIsExact(w: Wallet, u: Id, cost: int, reason: Reason, ref: Ref, channel: string)
    requires cost >= 0
    requires u in w.users && channel != TELEGRAM
    ensures cost > 0 ==> (CanSpend(w.users[u], cost) <==> Adjust(w, u, -cost, reason, ref, channel).Adjusted?)
    ensures CanSpend(w.users[u], cost) ==> Adjust(w, u, -cost, reason, ref, channel).Adjusted?
  {
  }
}
