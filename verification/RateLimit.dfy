/**
  The requests-per-minute limiter (internal/policy/policy.go): a list of admission times per key
  that every call prunes in place. One object is the bucket of one key.
 */
module RateLimit {
  const WINDOW := 60_000

  datatype Decision = Allowed | Limited(retryAfterSec: int)

  /** The entries not before a moment, in order. */
  function Recent(hits: seq<int>, start: int): seq<int>
  {
    if hits == [] then []
    else
      var front := Recent(hits[..|hits| - 1], start);
      if hits[|hits| - 1] >= start then front + [hits[|hits| - 1]] else front
  }

  /** The Retry-After hint, from the earliest entry still in the window. */
  function RetryAfter(earliest: int, now: int): int
  {
    if earliest > now - WINDOW then (earliest + WINDOW - now) / 1000 + 1 else 1
  }

  /** CheckRPM on a list of hits. */
  function Check(hits: seq<int>, now: int, rpm: int): (seq<int>, Decision)
  {
    if rpm <= 0 then (hits, Allowed)
    else
      var kept := Recent(hits, now - WINDOW);
      if |kept| >= rpm then (kept, Limited(RetryAfter(kept[0], now))) else (kept + [now], Allowed)
  }

  /** The slice of one key: a backing array and the length in use. */
  class Bucket {
    var hits: array<int>
    var len: nat

    ghost predicate Valid()
      reads this
    {
      len <= hits.Length
    }

    ghost function Contents(): seq<int>
      reads this, hits
      requires Valid()
    {
      hits[..len]
    }

    constructor ()
      ensures Valid() && Contents() == [] && fresh(hits)
    {
      hits := new int[0];
      len := 0;
    }

    /**
      Compaction into the same backing array: the write position never passes the read position,
      so the result is the order-preserving filter of what was there.
     */
    method Prune(start: int)
      requires Valid()
      modifies this`len, hits
      ensures Valid() && hits == old(hits)
      ensures Contents() == Recent(old(Contents()), start)
    {
      ghost var was := Contents();
      var kept := 0;
      for i := 0 to len
        invariant kept <= i && len <= hits.Length && hits == old(hits) && len == old(len)
        invariant hits[..kept] == Recent(was[..i], start)
        invariant hits[i..len] == was[i..]
      {
        var ts := hits[i];
        ghost var done, todo := hits[..kept], hits[i + 1..len];
        assert was[..i + 1][..i] == was[..i] && ts == was[i..][0] && todo == was[i..][1..];
        if ts >= start {
          hits[kept] := ts;
          kept := kept + 1;
          assert hits[..kept] == done + [ts];
        }
        assert hits[i + 1..len] == todo;
      }
      assert was[..len] == was;
      len := kept;
    }

    /** append: in place while there is room, else in a larger copy. */
    method Append(ts: int)
      requires Valid()
      modifies this, hits
      ensures Valid() && Contents() == old(Contents()) + [ts]
      ensures hits == old(hits) || fresh(hits)
    {
      if len == hits.Length {
        var bigger := new int[2 * len + 1];
        for i := 0 to len
          invariant len <= hits.Length && bigger.Length == 2 * len + 1 && fresh(bigger)
          invariant unchanged(this) && unchanged(hits)
          invariant bigger[..i] == hits[..i]
        {
          bigger[i] := hits[i];
        }
        hits := bigger;
      }
      hits[len] := ts;
      len := len + 1;
    }

    method CheckRPM(now: int, rpm: int) returns (decision: Decision)
      requires Valid()
      modifies this, hits
      ensures Valid() && (hits == old(hits) || fresh(hits))
      ensures (Contents(), decision) == Check(old(Contents()), now, rpm)
    {
      if rpm <= 0 {
        return Allowed;
      }
      Prune(now - WINDOW);
      if len >= rpm {
        var retry := 1;
        var earliest := hits[0];
        assert earliest == Contents()[0];
        if earliest > now - WINDOW {
          retry := (earliest + WINDOW - now) / 1000 + 1;
        }
        return Limited(retry);
      }
      Append(now);
      return Allowed;
    }
  }

  // ---- The pruned list refines counting over the whole history ----

  datatype Call = Call(now: int, rpm: int)

  /** The list after a run of calls, and all admissions ever made. */
  datatype History = History(hits: seq<int>, admitted: seq<int>)

  function Step(h: History, call: Call): History
  {
    var (hits, decision) := Check(h.hits, call.now, call.rpm);
    History(hits, if decision.Allowed? then h.admitted + [call.now] else h.admitted)
  }

  function RunCalls(calls: seq<Call>): History
  {
    if calls == [] then History([], []) else Step(RunCalls(calls[..|calls| - 1]), calls[|calls| - 1])
  }

  /** How many entries lie in the closed interval. */
  function CountIn(times: seq<int>, from: int, to: int): nat
  {
    if times == [] then 0
    else CountIn(times[..|times| - 1], from, to) + (if from <= times[|times| - 1] <= to then 1 else 0)
  }

  ghost predicate Sorted(times: seq<int>)
  {
    forall i, j :: 0 <= i < j < |times| ==> times[i] <= times[j]
  }

  ghost predicate ClockRuns(calls: seq<Call>)
  {
    forall i, j :: 0 <= i < j < |calls| ==> calls[i].now <= calls[j].now
  }

  ghost predicate Limits(calls: seq<Call>, rpm: int)
  {
    forall i :: 0 <= i < |calls| ==> 0 < calls[i].rpm <= rpm
  }

  /** The time of the last call. */
  function LastNow(calls: seq<Call>): int
    requires calls != []
  {
    calls[|calls| - 1].now
  }

  lemma {:induction false} RecentTwice(hits: seq<int>, start: int, start': int)
    requires start <= start'
    ensures Recent(Recent(hits, start), start') == Recent(hits, start')
  {
    if hits != [] {
      var front := hits[..|hits| - 1];
      var last := hits[|hits| - 1];
      RecentTwice(front, start, start');
      if last >= start {
        assert (Recent(front, start) + [last])[..|Recent(front, start)|] == Recent(front, start);
      }
    }
  }

  lemma {:induction false} RecentCount(times: seq<int>, start: int, now: int)
    requires forall i :: 0 <= i < |times| ==> times[i] <= now
    ensures |Recent(times, start)| == CountIn(times, start, now)
  {
    if times != [] {
      RecentCount(times[..|times| - 1], start, now);
    }
  }

  lemma {:induction false} RecentMembers(times: seq<int>, start: int)
    ensures forall t :: t in Recent(times, start) <==> t in times && t >= start
    ensures Sorted(times) ==> Sorted(Recent(times, start))
  {
    if times != [] {
      var front := times[..|times| - 1];
      RecentMembers(front, start);
      assert times == front + [times[|times| - 1]];
      if Sorted(times) {
        assert Sorted(front);
        var recent := Recent(times, start);
        forall i, j | 0 <= i < j < |recent|
          ensures recent[i] <= recent[j]
        {
          if times[|times| - 1] >= start {
            assert recent[i] == Recent(front, start)[i] && recent[i] in Recent(front, start);
            assert recent[i] in front;
          }
        }
      }
    }
  }

  /** Admissions are in order, and none is later than the last call. */
  lemma {:induction false} AdmissionsSorted(calls: seq<Call>)
    requires ClockRuns(calls)
    ensures Sorted(RunCalls(calls).admitted)
    ensures calls != [] ==> forall i :: 0 <= i < |RunCalls(calls).admitted| ==>
              RunCalls(calls).admitted[i] <= LastNow(calls)
  {
    if calls != [] {
      var front := calls[..|calls| - 1];
      AdmissionsSorted(front);
      assert front != [] ==> LastNow(front) <= LastNow(calls);
      assert front == [] ==> RunCalls(front).admitted == [];
    }
  }

  lemma RecentAppend(times: seq<int>, now: int, start: int)
    requires now >= start
    ensures Recent(times + [now], start) == Recent(times, start) + [now]
  {
    assert (times + [now])[..|times|] == times;
  }

  lemma CheckKeepsRecent(hits: seq<int>, admitted: seq<int>, call: Call)
    requires call.rpm > 0 && Recent(hits, call.now - WINDOW) == Recent(admitted, call.now - WINDOW)
    ensures var h := Step(History(hits, admitted), call);
            h.hits == Recent(h.admitted, call.now - WINDOW)
  {
    RecentAppend(admitted, call.now, call.now - WINDOW);
  }

  /** After the last call the pruned list is the recent part of all admissions. */
  lemma {:induction false} PrunedIsRecent(calls: seq<Call>)
    requires calls != [] && ClockRuns(calls) && forall i :: 0 <= i < |calls| ==> calls[i].rpm > 0
    ensures RunCalls(calls).hits == Recent(RunCalls(calls).admitted, LastNow(calls) - WINDOW)
  {
    var front := calls[..|calls| - 1];
    var h := RunCalls(front);
    if front != [] {
      PrunedIsRecent(front);
      RecentTwice(h.admitted, LastNow(front) - WINDOW, LastNow(calls) - WINDOW);
    }
    CheckKeepsRecent(h.hits, h.admitted, calls[|calls| - 1]);
  }

  /** The list itself stays in order. */
  lemma PrunedSorted(calls: seq<Call>)
    requires calls != [] && ClockRuns(calls) && forall i :: 0 <= i < |calls| ==> calls[i].rpm > 0
    ensures Sorted(RunCalls(calls).hits)
  {
    PrunedIsRecent(calls);
    AdmissionsSorted(calls);
    RecentMembers(RunCalls(calls).admitted, LastNow(calls) - WINDOW);
  }

  /** Before any call, too, pruning the list is pruning the whole history. */
  lemma PruneHistory(calls: seq<Call>, now: int)
    requires ClockRuns(calls) && forall i :: 0 <= i < |calls| ==> calls[i].rpm > 0
    requires calls != [] ==> LastNow(calls) <= now
    ensures var h := RunCalls(calls);
            && Recent(h.hits, now - WINDOW) == Recent(h.admitted, now - WINDOW)
            && forall i :: 0 <= i < |h.admitted| ==> h.admitted[i] <= now
  {
    if calls != [] {
      PrunedIsRecent(calls);
      AdmissionsSorted(calls);
      RecentTwice(RunCalls(calls).admitted, LastNow(calls) - WINDOW, now - WINDOW);
    }
  }

  /**
    Admission is decided on the whole history: a call is admitted exactly when fewer than its
    limit of all earlier admissions lie in the closed minute up to now.
   */
  lemma AdmitsIff(calls: seq<Call>, call: Call)
    requires ClockRuns(calls) && (calls != [] ==> LastNow(calls) <= call.now)
    requires call.rpm > 0 && forall i :: 0 <= i < |calls| ==> calls[i].rpm > 0
    ensures var h := RunCalls(calls);
            Check(h.hits, call.now, call.rpm).1.Allowed?
            <==> CountIn(h.admitted, call.now - 60_000, call.now) < call.rpm
  {
    PruneHistory(calls, call.now);
    DecidedByCount(RunCalls(calls).hits, RunCalls(calls).admitted, call);
  }

  lemma DecidedByCount(hits: seq<int>, admitted: seq<int>, call: Call)
    requires call.rpm > 0 && Recent(hits, call.now - WINDOW) == Recent(admitted, call.now - WINDOW)
    requires forall i :: 0 <= i < |admitted| ==> admitted[i] <= call.now
    ensures Check(hits, call.now, call.rpm).1.Allowed? <==> CountIn(admitted, call.now - WINDOW, call.now) < call.rpm
  {
    RecentCount(admitted, call.now - WINDOW, call.now);
  }

  lemma {:induction false} CountWiden(times: seq<int>, from: int, to: int, from': int, to': int)
    requires from' <= from && forall i :: 0 <= i < |times| ==> times[i] <= to'
    ensures CountIn(times, from, to) <= CountIn(times, from', to')
  {
    if times != [] {
      CountWiden(times[..|times| - 1], from, to, from', to');
    }
  }

  /** No closed minute, wherever it starts, ever holds more admissions than the limit. */
  lemma {:induction false} NoMinuteExceedsLimit(calls: seq<Call>, rpm: int, from: int)
    requires ClockRuns(calls) && Limits(calls, rpm) && rpm > 0
    ensures CountIn(RunCalls(calls).admitted, from, from + 60_000) <= rpm
  {
    if calls != [] {
      var front := calls[..|calls| - 1];
      var call := calls[|calls| - 1];
      var h := RunCalls(front);
      var h' := RunCalls(calls);
      NoMinuteExceedsLimit(front, rpm, from);
      if h'.admitted != h.admitted {
        assert h'.admitted == h.admitted + [call.now];
        assert h'.admitted[..|h'.admitted| - 1] == h.admitted;
        if from <= call.now <= from + WINDOW {
          PruneHistory(front, call.now);
          AdmitsIff(front, call);
          CountWiden(h.admitted, from, from + WINDOW, call.now - WINDOW, call.now);
        }
      }
    }
  }

  // ---- Retry-After ----

  /** The hint is between one second and a minute and a second. */
  lemma RetryAfterRange(hits: seq<int>, now: int, rpm: int)
    requires rpm > 0 && Check(hits, now, rpm).1.Limited? && forall i :: 0 <= i < |hits| ==> hits[i] <= now
    ensures 1 <= Check(hits, now, rpm).1.retryAfterSec <= 61
  {
    var kept := Recent(hits, now - WINDOW);
    RecentMembers(hits, now - WINDOW);
    assert kept[0] in kept;
  }

  lemma {:induction false} RecentNothing(times: seq<int>, start: int)
    requires forall i :: 0 <= i < |times| ==> times[i] < start
    ensures Recent(times, start) == []
  {
    if times != [] {
      RecentNothing(times[..|times| - 1], start);
    }
  }

  /** Of sorted entries, the recent ones are the last ones. */
  lemma {:induction false} RecentSuffix(times: seq<int>, start: int)
    requires Sorted(times)
    ensures |Recent(times, start)| <= |times|
    ensures Recent(times, start) == times[|times| - |Recent(times, start)|..]
  {
    if times != [] {
      var front := times[..|times| - 1];
      if times[|times| - 1] < start {
        RecentNothing(front, start);
      } else {
        RecentSuffix(front, start);
        assert times == front + [times[|times| - 1]];
      }
    }
  }

  /** Pruning keeps the rpm-th latest entry where it is, counted from the end. */
  lemma PrunedFromEnd(hits: seq<int>, now: int, rpm: int)
    requires 0 < rpm <= |Recent(hits, now - WINDOW)| && Sorted(hits) && forall i :: 0 <= i < |hits| ==> hits[i] <= now
    ensures var kept := Recent(hits, now - WINDOW);
            && Sorted(kept) && kept[0] in hits && kept[0] >= now - WINDOW && |kept| <= |hits|
            && kept[|kept| - rpm] == hits[|hits| - rpm] && |kept| == CountIn(hits, now - WINDOW, now)
  {
    var kept := Recent(hits, now - WINDOW);
    RecentMembers(hits, now - WINDOW);
    RecentSuffix(hits, now - WINDOW);
    RecentCount(hits, now - WINDOW, now);
    assert kept[0] in kept;
  }

  /** Of sorted entries, fewer than rpm remain after a moment exactly when the rpm-th from the end is before it. */
  lemma {:induction false} RemainingFew(times: seq<int>, start: int, rpm: nat)
    requires Sorted(times) && 0 < rpm <= |times|
    ensures |Recent(times, start)| < rpm <==> times[|times| - rpm] < start
  {
    var front := times[..|times| - 1];
    if times[|times| - 1] < start {
      RecentNothing(front, start);
    } else if rpm == 1 {
      assert times[|times| - 1] >= start;
    } else {
      RemainingFew(front, start, rpm - 1);
      assert front[|front| - (rpm - 1)] == times[|times| - rpm];
    }
  }

  /** After the hint the earliest entry has left the window. */
  lemma HintOutlastsEarliest(earliest: int, now: int)
    requires now - WINDOW <= earliest <= now
    ensures earliest < now + 1000 * RetryAfter(earliest, now) - WINDOW
  {
  }

  lemma AllowedIffFew(hits: seq<int>, now: int, rpm: int)
    requires rpm > 0
    ensures Check(hits, now, rpm).1.Allowed? <==> |Recent(hits, now - WINDOW)| < rpm
  {
  }

  lemma WaitingAdmits(kept: seq<int>, now: int, rpm: int)
    requires 0 < rpm <= |kept| && Sorted(kept) && now - WINDOW <= kept[0] <= now
    ensures var later := now + 1000 * RetryAfter(kept[0], now);
            && (Check(kept, later, rpm).1.Allowed? <==> kept[|kept| - rpm] < later - WINDOW)
            && (|kept| == rpm ==> Check(kept, later, rpm).1.Allowed?)
  {
    var later := now + 1000 * RetryAfter(kept[0], now);
    HintOutlastsEarliest(kept[0], now);
    AllowedIffFew(kept, later, rpm);
    RemainingFew(kept, later - WINDOW, rpm);
  }

  /**
    The hint is sound whenever exactly the limit is in the window: after waiting that long, with
    no other admission, the next call is admitted. In general, after a limit was lowered, it is
    sound exactly when the rpm-th latest admission has left the window by then.
   */
  lemma RetryAfterSound(hits: seq<int>, now: int, rpm: int)
    requires rpm > 0 && Sorted(hits) && Check(hits, now, rpm).1.Limited?
    requires forall i :: 0 <= i < |hits| ==> hits[i] <= now
    ensures var (kept, decision) := Check(hits, now, rpm);
            var later := now + 1000 * decision.retryAfterSec;
            && |hits| >= rpm
            && (Check(kept, later, rpm).1.Allowed? <==> hits[|hits| - rpm] < later - WINDOW)
            && (CountIn(hits, now - WINDOW, now) == rpm ==> Check(kept, later, rpm).1.Allowed?)
  {
    var kept := Recent(hits, now - WINDOW);
    PrunedFromEnd(hits, now, rpm);
    WaitingAdmits(kept, now, rpm);
  }

  /** A limit lowered below what is in the window makes the hint too short. */
  lemma LoweredLimitRetriesTooSoon()
    ensures var (kept, decision) := Check([0, 30_000], 30_000, 1);
            decision == Limited(31) && Check(kept, 30_000 + 31_000, 1).1.Limited?
  {
    assert [0, 30_000][..1] == [0];
    assert [0][..0] == [];
    assert Recent([0, 30_000], -30_000) == [0, 30_000];
    assert Recent([0, 30_000], 1_000) == [30_000];
  }

  /**
    The hint is no longer than needed: a second earlier the earliest admission is still in the
    window, so with no other admission the next call is still refused.
   */
  lemma RetryAfterLeast(hits: seq<int>, now: int, rpm: int)
    requires rpm > 0 && Sorted(hits) && Check(hits, now, rpm).1.Limited?
    requires forall i :: 0 <= i < |hits| ==> hits[i] <= now
    ensures var (kept, decision) := Check(hits, now, rpm);
            Check(kept, now + 1000 * (decision.retryAfterSec - 1), rpm).1.Limited?
  {
    var kept := Recent(hits, now - WINDOW);
    PrunedFromEnd(hits, now, rpm);
    AllStillIn(kept, now + 1000 * (RetryAfter(kept[0], now) - 1) - WINDOW);
  }

  lemma {:induction false} AllStillIn(times: seq<int>, start: int)
    requires Sorted(times) && (times != [] ==> times[0] >= start)
    ensures Recent(times, start) == times
  {
    if times != [] {
      AllStillIn(times[..|times| - 1], start);
      assert times == times[..|times| - 1] + [times[|times| - 1]];
    }
  }

  /** Without a limit every call is admitted and nothing is counted. */
  lemma UnlimitedAdmits(hits: seq<int>, now: int, rpm: int)
    ensures rpm <= 0 ==> Check(hits, now, rpm) == (hits, Allowed)
  {
  }
}
