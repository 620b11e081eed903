/** Weighted round-robin over the upstream accounts bound to a key (internal/scheduler/scheduler.go). */
module Scheduler {
  import opened Sums
  import opened Wallets

  datatype Binding = Binding(ref: string, share: int, enabled: bool)

  datatype Eligible = Eligible(id: string, share: nat)

  datatype PickResponse = Declined | Delegated | Picked(id: string)

  // ---- The eligible accounts ----

  /** The share of the first enabled binding that matches the candidate; a share below one counts as one. */
  function FirstMatch(candidate: string, bindings: seq<Binding>, matches: (string, string) -> bool): Option<nat>
  {
    if bindings == [] then None
    else if bindings[0].enabled && matches(candidate, bindings[0].ref) then Some(Max(1, bindings[0].share))
    else FirstMatch(candidate, bindings[1..], matches)
  }

  function EligibleOf(candidates: seq<string>, bindings: seq<Binding>, matches: (string, string) -> bool): seq<Eligible>
  {
    if candidates == [] then []
    else
      var last := candidates[|candidates| - 1];
      var front := EligibleOf(candidates[..|candidates| - 1], bindings, matches);
      var share := FirstMatch(last, bindings, matches);
      if share.Some? then front + [Eligible(last, share.value)] else front
  }

  // ---- What the eligible list is, in terms of the bindings ----

  /** Whether the j-th binding admits the candidate. */
  predicate Admits(candidate: string, bindings: seq<Binding>, matches: (string, string) -> bool, j: int)
  {
    0 <= j < |bindings| && bindings[j].enabled && matches(candidate, bindings[j].ref)
  }

  /** The first binding that admits the candidate. */
  ghost predicate FirstAdmits(candidate: string, bindings: seq<Binding>, matches: (string, string) -> bool, j: int)
  {
    Admits(candidate, bindings, matches, j)
    && forall i :: 0 <= i < j ==> !Admits(candidate, bindings, matches, i)
  }

  predicate Increasing(a: seq<nat>)
  {
    forall i, j :: 0 <= i < j < |a| ==> a[i] < a[j]
  }

  /**
    at[i] and via[i] are the positions of the i-th eligible candidate and of its first admitting
    binding: all candidates that some binding admits, in the order they were offered.
   */
  ghost predicate Listing(candidates: seq<string>, bindings: seq<Binding>, matches: (string, string) -> bool,
                          at: seq<nat>, via: seq<nat>)
  {
    && |at| == |via|
    && (forall i :: 0 <= i < |at| ==> at[i] < |candidates| && FirstAdmits(candidates[at[i]], bindings, matches, via[i]))
    && Increasing(at)
    && (forall c :: 0 <= c < |candidates| && (exists j :: Admits(candidates[c], bindings, matches, j)) ==> c in at)
  }

  /** The eligible list of a listing: a share below one counts as one. */
  ghost predicate Lists(eligible: seq<Eligible>, candidates: seq<string>, bindings: seq<Binding>,
                        at: seq<nat>, via: seq<nat>)
  {
    && |eligible| == |at| == |via|
    && forall i :: 0 <= i < |at| ==>
         at[i] < |candidates| && via[i] < |bindings|
         && eligible[i].id == candidates[at[i]] && eligible[i].share == Max(1, bindings[via[i]].share)
  }

  lemma {:induction false} FirstMatchIs(candidate: string, bindings: seq<Binding>, matches: (string, string) -> bool)
      returns (j: nat)
    ensures var share := FirstMatch(candidate, bindings, matches);
            && (share.Some? ==>
                  FirstAdmits(candidate, bindings, matches, j) && share.value == Max(1, bindings[j].share))
            && (share.None? ==> forall i :: !Admits(candidate, bindings, matches, i))
  {
    j := 0;
    if bindings != [] && !Admits(candidate, bindings, matches, 0) {
      j := FirstMatchIs(candidate, bindings[1..], matches);
      j := j + 1;
      assert forall i :: i > 0 ==>
          (Admits(candidate, bindings, matches, i) <==> Admits(candidate, bindings[1..], matches, i - 1));
    }
  }

  lemma ListingSkip(candidates: seq<string>, bindings: seq<Binding>, matches: (string, string) -> bool,
                    at: seq<nat>, via: seq<nat>, last: string)
    requires candidates != [] && last == candidates[|candidates| - 1]
    requires Listing(candidates[..|candidates| - 1], bindings, matches, at, via)
    requires forall i :: !Admits(last, bindings, matches, i)
    ensures Listing(candidates, bindings, matches, at, via)
  {
    var front := candidates[..|candidates| - 1];
    forall c | 0 <= c < |candidates| && exists j :: Admits(candidates[c], bindings, matches, j)
      ensures c in at
    {
      assert c < |front| && front[c] == candidates[c];
    }
  }

  lemma ListingAdd(candidates: seq<string>, bindings: seq<Binding>, matches: (string, string) -> bool,
                   at: seq<nat>, via: seq<nat>, j: nat)
    requires candidates != [] && Listing(candidates[..|candidates| - 1], bindings, matches, at, via)
    requires FirstAdmits(candidates[|candidates| - 1], bindings, matches, j)
    ensures Listing(candidates, bindings, matches, at + [|candidates| - 1], via + [j])
  {
    var last := |candidates| - 1;
    var front := candidates[..last];
    forall i | 0 <= i < |at|
      ensures at[i] < last && FirstAdmits(candidates[at[i]], bindings, matches, via[i])
    {
      assert front[at[i]] == candidates[at[i]];
    }
    forall c | 0 <= c < |candidates| && exists i :: Admits(candidates[c], bindings, matches, i)
      ensures c in at + [last]
    {
      assert c < last ==> front[c] == candidates[c];
    }
  }

  lemma ListsMore(eligible: seq<Eligible>, front: seq<string>, candidates: seq<string>, bindings: seq<Binding>,
                  at: seq<nat>, via: seq<nat>)
    requires Lists(eligible, front, bindings, at, via) && front <= candidates
    ensures Lists(eligible, candidates, bindings, at, via)
  {
  }

  lemma ListsAdd(eligible: seq<Eligible>, candidates: seq<string>, bindings: seq<Binding>, at: seq<nat>, via: seq<nat>,
                 c: nat, j: nat)
    requires Lists(eligible, candidates, bindings, at, via) && c < |candidates| && j < |bindings|
    ensures Lists(eligible + [Eligible(candidates[c], Max(1, bindings[j].share))], candidates, bindings,
                  at + [c], via + [j])
  {
  }

  /** The eligible list is a listing of candidates and bindings. */
  lemma {:induction false} EligibleIs(candidates: seq<string>, bindings: seq<Binding>,
                                      matches: (string, string) -> bool)
      returns (at: seq<nat>, via: seq<nat>)
    ensures Listing(candidates, bindings, matches, at, via)
    ensures Lists(EligibleOf(candidates, bindings, matches), candidates, bindings, at, via)
  {
    at, via := [], [];
    if candidates != [] {
      var last := |candidates| - 1;
      var front := candidates[..last];
      at, via := EligibleIs(front, bindings, matches);
      ListsMore(EligibleOf(front, bindings, matches), front, candidates, bindings, at, via);
      var j := FirstMatchIs(candidates[last], bindings, matches);
      if FirstMatch(candidates[last], bindings, matches).Some? {
        ListingAdd(candidates, bindings, matches, at, via, j);
        ListsAdd(EligibleOf(front, bindings, matches), candidates, bindings, at, via, last, j);
        at, via := at + [last], via + [j];
      } else {
        ListingSkip(candidates, bindings, matches, at, via, candidates[last]);
      }
    }
  }

  /** There is only one listing of the same candidates and bindings. */
  lemma ListingUnique(candidates: seq<string>, bindings: seq<Binding>, matches: (string, string) -> bool,
                      at: seq<nat>, via: seq<nat>, at': seq<nat>, via': seq<nat>)
    requires Listing(candidates, bindings, matches, at, via) && Listing(candidates, bindings, matches, at', via')
    ensures at == at' && via == via'
  {
    SameIncreasing(at, at');
    forall i | 0 <= i < |via|
      ensures via[i] == via'[i]
    {
      assert Admits(candidates[at[i]], bindings, matches, via[i]);
      assert Admits(candidates[at[i]], bindings, matches, via'[i]);
    }
  }

  predicate Within(a: seq<nat>, b: seq<nat>)
  {
    forall i :: 0 <= i < |a| ==> a[i] in b
  }

  lemma WithinSome(a: seq<nat>, b: seq<nat>)
    requires Within(a, b) && a != []
    ensures b != []
  {
    assert a[0] in b;
  }

  lemma SameLast(a: seq<nat>, b: seq<nat>)
    requires Increasing(a) && Increasing(b) && Within(a, b) && Within(b, a) && a != [] && b != []
    ensures a[|a| - 1] == b[|b| - 1]
  {
    var x, y := a[|a| - 1], b[|b| - 1];
    assert x in b && y in a;
  }

  lemma WithinFront(a: seq<nat>, b: seq<nat>)
    requires Increasing(a) && Within(a, b) && a != [] && b != [] && a[|a| - 1] == b[|b| - 1]
    ensures Within(a[..|a| - 1], b[..|b| - 1])
  {
    var front := b[..|b| - 1];
    forall i | 0 <= i < |a| - 1
      ensures a[i] in front
    {
      assert a[i] < a[|a| - 1] && a[i] in b;
      assert b == front + [b[|b| - 1]];
    }
  }

  /** Increasing sequences with the same members are the same. */
  lemma {:induction false} SameIncreasing(a: seq<nat>, b: seq<nat>)
    requires Increasing(a) && Increasing(b) && Within(a, b) && Within(b, a)
    ensures a == b
  {
    if a == [] {
      if b != [] {
        WithinSome(b, a);
      }
    } else {
      WithinSome(a, b);
      SameLast(a, b);
      WithinFront(a, b);
      WithinFront(b, a);
      SameIncreasing(a[..|a| - 1], b[..|b| - 1]);
      assert a == a[..|a| - 1] + [a[|a| - 1]] && b == b[..|b| - 1] + [b[|b| - 1]];
    }
  }

  method CollectEligible(candidates: seq<string>, bindings: seq<Binding>, matches: (string, string) -> bool)
    returns (eligible: seq<Eligible>)
    ensures eligible == EligibleOf(candidates, bindings, matches)
  {
    eligible := [];
    for i := 0 to |candidates|
      invariant eligible == EligibleOf(candidates[..i], bindings, matches)
    {
      assert candidates[..i + 1][..i] == candidates[..i];
      for j := 0 to |bindings|
        invariant eligible == EligibleOf(candidates[..i], bindings, matches)
        invariant FirstMatch(candidates[i], bindings, matches) == FirstMatch(candidates[i], bindings[j..], matches)
      {
        if bindings[j].enabled && matches(candidates[i], bindings[j].ref) {
          var share := bindings[j].share;
          if share <= 0 {
            share := 1;
          }
          eligible := eligible + [Eligible(candidates[i], share)];
          break;
        }
      }
    }
    assert candidates[..|candidates|] == candidates;
  }

  // ---- The weighted pick ----

  function Shares(eligible: seq<Eligible>): seq<nat>
  {
    seq(|eligible|, i requires 0 <= i < |eligible| => eligible[i].share)
  }

  /** The shares of the first n accounts together. */
  function Cumulative(shares: seq<nat>, n: nat): nat
    requires n <= |shares|
  {
    if n == 0 then 0 else Cumulative(shares, n - 1) + shares[n - 1]
  }

  function Total(shares: seq<nat>): nat
  {
    Cumulative(shares, |shares|)
  }

  /** Whether a cursor falls on the i-th account's stretch of slots. */
  predicate Lands(shares: seq<nat>, cursor: nat, i: nat)
    requires i < |shares| && Total(shares) > 0
  {
    Cumulative(shares, i) <= cursor % Total(shares) < Cumulative(shares, i + 1)
  }

  lemma {:induction false} CumulativeMonotone(shares: seq<nat>, m: nat, n: nat)
    requires m <= n <= |shares|
    ensures Cumulative(shares, m) <= Cumulative(shares, n)
    decreases n - m
  {
    if m < n {
      CumulativeMonotone(shares, m, n - 1);
    }
  }

  lemma {:induction false} EligibleShares(candidates: seq<string>, bindings: seq<Binding>,
                                          matches: (string, string) -> bool)
    ensures forall e :: e in EligibleOf(candidates, bindings, matches) ==> e.share >= 1
  {
    if candidates != [] {
      EligibleShares(candidates[..|candidates| - 1], bindings, matches);
      FirstMatchPositive(candidates[|candidates| - 1], bindings, matches);
    }
  }

  lemma {:induction false} FirstMatchPositive(candidate: string, bindings: seq<Binding>,
                                              matches: (string, string) -> bool)
    ensures FirstMatch(candidate, bindings, matches).Some? ==> FirstMatch(candidate, bindings, matches).value >= 1
  {
    if bindings != [] {
      FirstMatchPositive(candidate, bindings[1..], matches);
    }
  }

  // ---- One pick ----

  /** One request to pick an account: the key the headers name, if any, and what is bound and offered. */
  datatype PickCall = PickCall(
    key: Option<Id>, bindings: seq<Binding>, candidates: seq<string>, matches: (string, string) -> bool)

  function EligibleFor(call: PickCall): seq<Eligible>
  {
    EligibleOf(call.candidates, call.bindings, call.matches)
  }

  /** Whether the call reaches the weighted pick. */
  predicate Weighted(call: PickCall)
  {
    call.key.Some? && call.bindings != [] && |EligibleFor(call)| >= 2
  }

  function CursorOf(cursors: map<Id, nat>, k: Id): nat
  {
    if k in cursors then cursors[k] else 0
  }

  function CursorsAfter(cursors: map<Id, nat>, call: PickCall): map<Id, nat>
  {
    if Weighted(call) then cursors[call.key.value := CursorOf(cursors, call.key.value) + 1] else cursors
  }

  /** The response to a call, when the cursors are as given. */
  ghost predicate Answers(cursors: map<Id, nat>, call: PickCall, response: PickResponse)
  {
    var eligible := EligibleFor(call);
    if call.key.None? || call.bindings == [] then response == Declined
    else if |eligible| == 0 then response == Delegated
    else if |eligible| == 1 then response == Picked(eligible[0].id)
    else
      Total(Shares(eligible)) > 0
      && exists i :: 0 <= i < |eligible| && Lands(Shares(eligible), CursorOf(cursors, call.key.value), i)
                     && response == Picked(eligible[i].id)
  }

  /** The per-key cursors of the scheduler. */
  class Picker {
    var cursors: map<Id, nat>

    constructor ()
      ensures cursors == map[]
    {
      cursors := map[];
    }

    function Cursor(k: Id): nat
      reads this
    {
      if k in cursors then cursors[k] else 0
    }

    /**
      HandlePick for a known key. Only a choice among two or more accounts moves the cursor, and
      the choice is the account on whose stretch the cursor lands.
     */
    method HandlePick(key: Option<Id>, bindings: seq<Binding>, candidates: seq<string>,
                      matches: (string, string) -> bool)
      returns (response: PickResponse, ghost position: nat)
      modifies this
      ensures var eligible := EligibleOf(candidates, bindings, matches);
              if key.None? || bindings == [] then response == Declined && cursors == old(cursors)
              else if |eligible| == 0 then response == Delegated && cursors == old(cursors)
              else if |eligible| == 1 then response == Picked(eligible[0].id) && cursors == old(cursors)
              else
                && cursors == old(cursors)[key.value := old(Cursor(key.value)) + 1]
                && position < |eligible| && Total(Shares(eligible)) > 0
                && Lands(Shares(eligible), old(Cursor(key.value)), position)
                && response == Picked(eligible[position].id)
      ensures var call := PickCall(key, bindings, candidates, matches);
              cursors == CursorsAfter(old(cursors), call) && Answers(old(cursors), call, response)
    {
      position := 0;
      if key.None? || |bindings| == 0 {
        return Declined, 0;
      }
      var eligible := CollectEligible(candidates, bindings, matches);
      if |eligible| == 0 {
        return Delegated, 0;
      }
      if |eligible| == 1 {
        return Picked(eligible[0].id), 0;
      }
      var cursor := Cursor(key.value);
      cursors := cursors[key.value := cursor + 1];
      ghost var shares := Shares(eligible);
      var total := 0;
      for i := 0 to |eligible|
        invariant total == Cumulative(shares, i)
      {
        total := total + eligible[i].share;
      }
      assert total > 0 by {
        EligibleShares(candidates, bindings, matches);
        assert eligible[0] in eligible && Cumulative(shares, 1) == shares[0];
        CumulativeMonotone(shares, 1, |shares|);
      }
      var slot := cursor % total;
      var acc := 0;
      for i := 0 to |eligible|
        invariant acc == Cumulative(shares, i) <= slot
      {
        acc := acc + eligible[i].share;
        if slot < acc {
          return Picked(eligible[i].id), i;
        }
      }
      // The fall-through to the first account is unreachable: the slot is below the total.
      assert false;
    }
  }

  // ---- Fairness ----

  /** How often n consecutive cursors from c land on account i. */
  function Hits(shares: seq<nat>, c: nat, n: nat, i: nat): nat
    requires i < |shares| && Total(shares) > 0
  {
    if n == 0 then 0 else Hits(shares, c, n - 1, i) + (if Lands(shares, c + n - 1, i) then 1 else 0)
  }

  lemma SmallMod(a: nat, t: nat)
    requires a < t
    ensures a % t == a
  {
  }

  lemma LandsInFirstRound(shares: seq<nat>, c: nat, i: nat)
    requires i < |shares| && c < Total(shares)
    ensures Lands(shares, c, i) <==> Cumulative(shares, i) <= c < Cumulative(shares, i + 1)
  {
    SmallMod(c, Total(shares));
  }

  /** Within the first round, an account has been hit as far as the slots reach into its stretch. */
  lemma {:induction false} FirstRound(shares: seq<nat>, n: nat, i: nat)
    requires i < |shares| && Total(shares) > 0 && n <= Total(shares)
    ensures Hits(shares, 0, n, i) == Max(0, Min(n, Cumulative(shares, i + 1)) - Cumulative(shares, i))
  {
    CumulativeMonotone(shares, i, i + 1);
    if n > 0 {
      FirstRound(shares, n - 1, i);
      LandsInFirstRound(shares, n - 1, i);
    }
  }

  lemma ShiftedCursor(shares: seq<nat>, c: nat, i: nat)
    requires i < |shares| && Total(shares) > 0
    ensures Lands(shares, c + Total(shares), i) == Lands(shares, c, i)
  {
    ModShift(c, Total(shares));
  }

  lemma ModShift(c: nat, t: nat)
    requires t > 0
    ensures (c + t) % t == c % t
  {
    assert c + t == t * (c / t + 1) + c % t;
    ModUnique(c + t, t, c / t + 1, c % t);
  }

  lemma MulAtLeast(t: nat, d: int)
    ensures d >= 1 ==> t * d >= t
    ensures d <= -1 ==> t * d + t <= 0
  {
    assert t * d == t * (d - 1) + t == t * (d + 1) - t;
  }

  lemma ModUnique(x: int, t: nat, q: int, r: nat)
    requires t > 0 && x == t * q + r && r < t
    ensures x % t == r
  {
    var q', r' := x / t, x % t;
    assert x == t * q' + r';
    MulAtLeast(t, q - q');
    assert t * (q - q') == r' - r;
  }

  lemma {:induction false} HitsSplit(shares: seq<nat>, c: nat, m: nat, n: nat, i: nat)
    requires i < |shares| && Total(shares) > 0
    ensures Hits(shares, c, m + n, i) == Hits(shares, c, m, i) + Hits(shares, c + m, n, i)
  {
    if n > 0 {
      HitsSplit(shares, c, m, n - 1, i);
    }
  }

  /** Exactly fair: any full round, from any cursor, hits each account exactly share times. */
  lemma {:induction false} FullRound(shares: seq<nat>, c: nat, i: nat)
    requires i < |shares| && Total(shares) > 0
    ensures Hits(shares, c, Total(shares), i) == shares[i]
  {
    var t := Total(shares);
    if c == 0 {
      FirstRound(shares, t, i);
      CumulativeMonotone(shares, i + 1, |shares|);
    } else {
      FullRound(shares, c - 1, i);
      HitsSplit(shares, c - 1, 1, t, i);
      HitsSplit(shares, c - 1, t, 1, i);
      ShiftedCursor(shares, c - 1, i);
      assert Hits(shares, c - 1, 1, i) == if Lands(shares, c - 1, i) then 1 else 0 by {
        assert Hits(shares, c - 1, 0, i) == 0;
      }
      assert Hits(shares, c - 1 + t, 1, i) == if Lands(shares, c - 1 + t, i) then 1 else 0 by {
        assert Hits(shares, c - 1 + t, 0, i) == 0;
      }
    }
  }

  lemma {:induction false} Rounds(shares: seq<nat>, c: nat, q: nat, i: nat)
    requires i < |shares| && Total(shares) > 0
    ensures Hits(shares, c, q * Total(shares), i) == q * shares[i]
  {
    if q > 0 {
      var t := Total(shares);
      Rounds(shares, c, q - 1, i);
      assert q * t == (q - 1) * t + t;
      HitsSplit(shares, c, (q - 1) * t, t, i);
      FullRound(shares, c + (q - 1) * t, i);
      assert q * shares[i] == (q - 1) * shares[i] + shares[i];
    }
  }

  lemma {:induction false} HitsMonotone(shares: seq<nat>, c: nat, m: nat, n: nat, i: nat)
    requires i < |shares| && Total(shares) > 0 && m <= n
    ensures Hits(shares, c, m, i) <= Hits(shares, c, n, i)
  {
    HitsSplit(shares, c, m, n - m, i);
  }

  /** Part of a round hits an account at most share times. */
  lemma PartialRound(shares: seq<nat>, c: nat, r: nat, i: nat)
    requires i < |shares| && r < Total(shares)
    ensures Hits(shares, c, r, i) <= (if r == 0 then 0 else shares[i])
  {
    if r > 0 {
      HitsMonotone(shares, c, r, Total(shares), i);
      FullRound(shares, c, i);
    }
  }

  function Ceil(n: nat, t: nat): nat
    requires t > 0
  {
    if n % t == 0 then n / t else n / t + 1
  }

  /** Any n picks choose account i between floor(n / T) and ceil(n / T) times its share. */
  lemma FairShare(shares: seq<nat>, c: nat, n: nat, i: nat)
    requires i < |shares| && Total(shares) > 0
    ensures n / Total(shares) * shares[i] <= Hits(shares, c, n, i) <= Ceil(n, Total(shares)) * shares[i]
  {
    var t := Total(shares);
    FairSplit(shares, c, n / t, n % t, i);
    DivMod(n, t);
    Distribute(n / t, shares[i]);
  }

  lemma DivMod(n: nat, t: nat)
    requires t > 0
    ensures n / t * t + n % t == n
  {
  }

  lemma Distribute(q: nat, share: nat)
    ensures (q + 1) * share == q * share + share
  {
  }

  lemma FairSplit(shares: seq<nat>, c: nat, q: nat, r: nat, i: nat)
    requires i < |shares| && r < Total(shares)
    ensures q * shares[i] <= Hits(shares, c, q * Total(shares) + r, i)
              <= q * shares[i] + (if r == 0 then 0 else shares[i])
  {
    var done := q * Total(shares);
    Rounds(shares, c, q, i);
    HitsSplit(shares, c, done, r, i);
    PartialRound(shares, c + done, r, i);
  }

  // ---- Runs with other keys in between ----

  /** One request that reaches the weighted pick: its key and that key's eligible shares. */
  datatype PickEvent = PickEvent(key: Id, shares: seq<nat>)

  /** How often a run of picks, of this and other keys, chooses account i for key k. */
  function Chosen(cursors: map<Id, nat>, run: seq<PickEvent>, k: Id, i: nat): nat
    requires forall j :: 0 <= j < |run| && run[j].key == k ==> i < |run[j].shares| && Total(run[j].shares) > 0
    decreases |run|
  {
    if run == [] then 0
    else
      var e := run[0];
      var c := CursorOf(cursors, e.key);
      (if e.key == k && Lands(e.shares, c, i) then 1 else 0) + Chosen(cursors[e.key := c + 1], run[1..], k, i)
  }

  function PicksOf(run: seq<PickEvent>, k: Id): nat
  {
    if run == [] then 0 else (if run[0].key == k then 1 else 0) + PicksOf(run[1..], k)
  }

  /** Other keys' picks in between do not disturb a key's turn. */
  lemma {:induction false} KeysAreIndependent(cursors: map<Id, nat>, run: seq<PickEvent>, k: Id, shares: seq<nat>,
                                              i: nat)
    requires i < |shares| && Total(shares) > 0
    requires forall j :: 0 <= j < |run| && run[j].key == k ==> run[j].shares == shares
    ensures Chosen(cursors, run, k, i) == Hits(shares, CursorOf(cursors, k), PicksOf(run, k), i)
    decreases |run|
  {
    if run != [] {
      var e := run[0];
      var c := CursorOf(cursors, e.key);
      var cursors' := cursors[e.key := c + 1];
      KeysAreIndependent(cursors', run[1..], k, shares, i);
      if e.key == k {
        var n := PicksOf(run[1..], k);
        HitsSplit(shares, c, 1, n, i);
        assert Hits(shares, c, 0, i) == 0;
        assert Hits(shares, c, 1, i) == if Lands(shares, c, i) then 1 else 0;
      }
    }
  }

  /**
    Over any run in which a key keeps its eligible list: account i is chosen exactly share times
    per full round of the key's own picks, and never off by more than one round's share.
   */
  lemma FairOverRuns(cursors: map<Id, nat>, run: seq<PickEvent>, k: Id, shares: seq<nat>, i: nat)
    requires i < |shares| && Total(shares) > 0
    requires forall j :: 0 <= j < |run| && run[j].key == k ==> run[j].shares == shares
    ensures var t := Total(shares); var n := PicksOf(run, k);
            && n / t * shares[i] <= Chosen(cursors, run, k, i) <= Ceil(n, t) * shares[i]
            && (n % t == 0 ==> Chosen(cursors, run, k, i) == n / t * shares[i])
  {
    KeysAreIndependent(cursors, run, k, shares, i);
    FairShare(shares, CursorOf(cursors, k), PicksOf(run, k), i);
  }

  /** Every cursor lands on exactly one account. */
  lemma {:induction false} LandsOnce(shares: seq<nat>, cursor: nat, i: nat, j: nat)
    requires i < |shares| && j < |shares| && Total(shares) > 0
    requires Lands(shares, cursor, i) && Lands(shares, cursor, j)
    ensures i == j
  {
    if i < j {
      CumulativeMonotone(shares, i + 1, j);
    } else if j < i {
      CumulativeMonotone(shares, j + 1, i);
    }
  }

  // ---- Runs of calls ----

  /** Responses that a run of calls gives, one after the other. */
  ghost predicate AnswersAll(cursors: map<Id, nat>, calls: seq<PickCall>, responses: seq<PickResponse>)
    decreases |calls|
  {
    && |responses| == |calls|
    && (calls == []
        || (Answers(cursors, calls[0], responses[0])
            && AnswersAll(CursorsAfter(cursors, calls[0]), calls[1..], responses[1..])))
  }

  /** The calls that reach the weighted pick. */
  function WeightedPicks(calls: seq<PickCall>): seq<PickEvent>
  {
    if calls == [] then []
    else
      (if Weighted(calls[0]) then [PickEvent(calls[0].key.value, Shares(EligibleFor(calls[0])))] else [])
      + WeightedPicks(calls[1..])
  }

  /** How often key k was answered with the account. */
  function AnsweredWith(calls: seq<PickCall>, responses: seq<PickResponse>, k: Id, id: string): nat
    requires |responses| == |calls|
  {
    if calls == [] then 0
    else
      (if calls[0].key == Some(k) && responses[0] == Picked(id) then 1 else 0)
      + AnsweredWith(calls[1..], responses[1..], k, id)
  }

  function CallsOf(calls: seq<PickCall>, k: Id): nat
  {
    if calls == [] then 0 else (if calls[0].key == Some(k) then 1 else 0) + CallsOf(calls[1..], k)
  }

  /** Key k keeps its eligible list, of two or more different accounts, throughout the calls. */
  ghost predicate KeepsEligible(calls: seq<PickCall>, k: Id, eligible: seq<Eligible>)
  {
    && |eligible| >= 2
    && (forall i, j :: 0 <= i < j < |eligible| ==> eligible[i].id != eligible[j].id)
    && forall j :: 0 <= j < |calls| && calls[j].key == Some(k) ==>
         calls[j].bindings != [] && EligibleFor(calls[j]) == eligible
  }

  lemma KeepsEligibleRest(calls: seq<PickCall>, k: Id, eligible: seq<Eligible>)
    requires calls != [] && KeepsEligible(calls, k, eligible)
    ensures KeepsEligible(calls[1..], k, eligible)
  {
  }

  lemma AnswerLands(cursors: map<Id, nat>, call: PickCall, response: PickResponse, eligible: seq<Eligible>, i: nat)
    requires Weighted(call) && EligibleFor(call) == eligible && Answers(cursors, call, response) && i < |eligible|
    requires forall m, n :: 0 <= m < n < |eligible| ==> eligible[m].id != eligible[n].id
    ensures Total(Shares(eligible)) > 0
    ensures response == Picked(eligible[i].id) <==> Lands(Shares(eligible), CursorOf(cursors, call.key.value), i)
  {
    var c := CursorOf(cursors, call.key.value);
    var p :| 0 <= p < |eligible| && Lands(Shares(eligible), c, p) && response == Picked(eligible[p].id);
    if Lands(Shares(eligible), c, i) {
      LandsOnce(Shares(eligible), c, p, i);
    }
  }

  /** The weighted picks of k in a run of calls are its calls, all with the same shares. */
  lemma {:induction false} PicksAreCalls(calls: seq<PickCall>, k: Id, eligible: seq<Eligible>)
    requires KeepsEligible(calls, k, eligible)
    ensures PicksOf(WeightedPicks(calls), k) == CallsOf(calls, k)
    ensures forall e :: e in WeightedPicks(calls) && e.key == k ==> e.shares == Shares(eligible)
    decreases |calls|
  {
    if calls != [] {
      KeepsEligibleRest(calls, k, eligible);
      PicksAreCalls(calls[1..], k, eligible);
      var rest := WeightedPicks(calls[1..]);
      if Weighted(calls[0]) {
        var e := PickEvent(calls[0].key.value, Shares(EligibleFor(calls[0])));
        assert WeightedPicks(calls) == [e] + rest && ([e] + rest)[1..] == rest;
      } else {
        assert WeightedPicks(calls) == rest;
      }
    }
  }

  /** A run of calls answers key k with an account as often as its weighted picks choose it. */
  lemma {:induction false} AnswersAreChosen(cursors: map<Id, nat>, calls: seq<PickCall>, responses: seq<PickResponse>,
                                            k: Id, eligible: seq<Eligible>, i: nat)
    requires AnswersAll(cursors, calls, responses) && KeepsEligible(calls, k, eligible) && i < |eligible|
    requires Total(Shares(eligible)) > 0
    requires forall j :: 0 <= j < |WeightedPicks(calls)| && WeightedPicks(calls)[j].key == k ==>
               WeightedPicks(calls)[j].shares == Shares(eligible)
    ensures AnsweredWith(calls, responses, k, eligible[i].id) == Chosen(cursors, WeightedPicks(calls), k, i)
    decreases |calls|
  {
    if calls != [] {
      var call := calls[0];
      var rest := WeightedPicks(calls[1..]);
      KeepsEligibleRest(calls, k, eligible);
      PicksAreCalls(calls[1..], k, eligible);
      AnswersAreChosen(CursorsAfter(cursors, call), calls[1..], responses[1..], k, eligible, i);
      if Weighted(call) {
        var e := PickEvent(call.key.value, Shares(EligibleFor(call)));
        assert WeightedPicks(calls) == [e] + rest && ([e] + rest)[1..] == rest;
        if e.key == k {
          AnswerLands(cursors, call, responses[0], eligible, i);
        }
      } else {
        assert WeightedPicks(calls) == rest;
      }
    }
  }

  lemma SharesPositive(call: PickCall)
    requires Weighted(call)
    ensures Total(Shares(EligibleFor(call))) > 0
  {
    var eligible := EligibleFor(call);
    EligibleShares(call.candidates, call.bindings, call.matches);
    assert eligible[0] in eligible && Cumulative(Shares(eligible), 1) == eligible[0].share;
    CumulativeMonotone(Shares(eligible), 1, |eligible|);
  }

  /**
    Fairness of the picker itself: over any run of calls, of any keys, during which key k keeps
    its eligible accounts, n calls of k are answered with an account between floor(n / T) and
    ceil(n / T) times its share, and exactly so over full rounds.
   */
  lemma FairAnswers(cursors: map<Id, nat>, calls: seq<PickCall>, responses: seq<PickResponse>, k: Id,
                    eligible: seq<Eligible>, i: nat)
    requires AnswersAll(cursors, calls, responses) && KeepsEligible(calls, k, eligible) && i < |eligible|
    requires CallsOf(calls, k) > 0
    ensures var t := Total(Shares(eligible)); var n := CallsOf(calls, k);
            var times := AnsweredWith(calls, responses, k, eligible[i].id);
            && t > 0
            && n / t * eligible[i].share <= times <= Ceil(n, t) * eligible[i].share
            && (n % t == 0 ==> times == n / t * eligible[i].share)
  {
    var j := SomeCall(calls, k);
    SharesPositive(calls[j]);
    PicksAreCalls(calls, k, eligible);
    AnswersAreChosen(cursors, calls, responses, k, eligible, i);
    FairOverRuns(cursors, WeightedPicks(calls), k, Shares(eligible), i);
  }

  lemma {:induction false} SomeCall(calls: seq<PickCall>, k: Id) returns (j: nat)
    requires CallsOf(calls, k) > 0
    ensures j < |calls| && calls[j].key == Some(k)
    decreases |calls|
  {
    if calls[0].key == Some(k) {
      j := 0;
    } else {
      j := SomeCall(calls[1..], k);
      j := j + 1;
    }
  }

  // ---- Fairness in the bindings' own shares ----

  /** The share a binding stands for. */
  function Weight(binding: Binding): nat
  {
    if binding.share > 0 then binding.share else 1
  }

  function WeightsOf(bindings: seq<Binding>, via: seq<nat>): seq<nat>
    requires forall i :: 0 <= i < |via| ==> via[i] < |bindings|
  {
    seq(|via|, i requires 0 <= i < |via| => Weight(bindings[via[i]]))
  }

  /** Every call of k offers the same candidates under the same bindings. */
  ghost predicate KeepsBindings(calls: seq<PickCall>, k: Id, bindings: seq<Binding>, candidates: seq<string>,
                                matches: (string, string) -> bool)
  {
    forall j :: 0 <= j < |calls| && calls[j].key == Some(k) ==>
      calls[j].bindings == bindings && calls[j].candidates == candidates && calls[j].matches == matches
  }

  /**
    Over any run of calls, of any keys, during which key k keeps its bindings and candidates, two
    or more of which different ones are admitted: n calls of k are answered with the candidate
    at[i] between floor(n / T) and ceil(n / T) times the share of its first admitting binding, and
    exactly so over full rounds, where T is the sum of these shares over the admitted candidates.
   */
  lemma FairBindings(cursors: map<Id, nat>, calls: seq<PickCall>, responses: seq<PickResponse>, k: Id,
                     bindings: seq<Binding>, candidates: seq<string>, matches: (string, string) -> bool,
                     at: seq<nat>, via: seq<nat>, i: nat)
    requires AnswersAll(cursors, calls, responses) && KeepsBindings(calls, k, bindings, candidates, matches)
    requires Listing(candidates, bindings, matches, at, via) && |at| >= 2 && i < |at| && CallsOf(calls, k) > 0
    requires forall m, n :: 0 <= m < n < |at| ==> candidates[at[m]] != candidates[at[n]]
    ensures var t := Total(WeightsOf(bindings, via)); var n := CallsOf(calls, k);
            var times := AnsweredWith(calls, responses, k, candidates[at[i]]);
            var share := Weight(bindings[via[i]]);
            && t > 0 && n / t * share <= times <= Ceil(n, t) * share
            && (n % t == 0 ==> times == n / t * share)
  {
    var eligible := EligibleOf(candidates, bindings, matches);
    var at', via' := EligibleIs(candidates, bindings, matches);
    ListingUnique(candidates, bindings, matches, at, via, at', via');
    assert bindings != [] by {
      assert Admits(candidates[at[0]], bindings, matches, via[0]);
    }
    assert Shares(eligible) == WeightsOf(bindings, via);
    FairAnswers(cursors, calls, responses, k, eligible, i);
  }
}
