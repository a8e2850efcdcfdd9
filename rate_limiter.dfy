/**
 * The per-client sliding-window rate limiter of app/utils/utils.py
 * (`ip_based_rate_limiter` and its module-level `request_counts`).
 *
 * Each call, for one client key at time `now` (whole seconds), drops the
 * client's timestamps that are 60 or more seconds old, rejects with status 429
 * when 3 or more remain, and otherwise appends `now` and admits.  The lock
 * around the body makes a call atomic, so a call is one step here.
 *
 * The pure functions below (Prune, Verdict, Advance, Next) are the
 * specification; the class IpRateLimiter holds the mutable map and its
 * method Admit is proved against them.
 */
module RateLimiter {

  /** `max_requests` (the code says 3; its comment speaks of 5). */
  const MaxRequests := 3
  /** `time_window`, in seconds. */
  const TimeWindow := 60
  /** HTTP 429 Too Many Requests. */
  const TooManyRequests := 429

  /** Outcome of one call: the function returns normally, or raises HTTPException(429, detail). */
  datatype Admission = Allowed | Rejected(statusCode: int, detail: string)

  function DigitChar(d: nat): char
    requires d < 10
  {
    ('0' as int + d) as char
  }

  /** Decimal rendering of a natural number, as an f-string renders an int. */
  function Decimal(n: nat): string
  {
    if n < 10 then [DigitChar(n)] else Decimal(n / 10) + [DigitChar(n % 10)]
  }

  /** The `detail` of the rejection, `f"Rate limit exceeded. Try again in {time_window} seconds."`. */
  function RejectionDetail(): string
  {
    "Rate limit exceeded. Try again in " + Decimal(TimeWindow) + " seconds."
  }

  /** A timestamp `t` survives pruning at `now`: `now - t < timedelta(seconds=60)`. */
  predicate InWindow(t: int, now: int)
  {
    now - t < TimeWindow
  }

  /** `a` is `b` with some elements removed, the rest kept in their order. */
  ghost predicate IsSubsequence(a: seq<int>, b: seq<int>)
    decreases |b|
  {
    if a == [] then true
    else if b == [] then false
    else (a[|a| - 1] == b[|b| - 1] && IsSubsequence(a[..|a| - 1], b[..|b| - 1]))
         || IsSubsequence(a, b[..|b| - 1])
  }

  /** How many entries of `ts` lie in the window ending at `now`. */
  ghost function CountInWindow(ts: seq<int>, now: int): nat
  {
    |set i | 0 <= i < |ts| && InWindow(ts[i], now)|
  }

  /**
   * The list comprehension that prunes a client's timestamps: exactly the
   * in-window entries, each as often as it occurs, in their original order.
   */
  function Prune(ts: seq<int>, now: int): (kept: seq<int>)
    ensures forall t :: t in kept ==> InWindow(t, now)
    ensures |kept| <= |ts|
  {
    if ts == [] then []
    else if InWindow(ts[|ts| - 1], now) then Prune(ts[..|ts| - 1], now) + [ts[|ts| - 1]]
    else Prune(ts[..|ts| - 1], now)
  }

  /** Pruning keeps each in-window timestamp as often as it occurs and drops every other one. */
  lemma {:induction false} PruneKeepsInWindow(ts: seq<int>, now: int)
    ensures forall t :: multiset(Prune(ts, now))[t] == if InWindow(t, now) then multiset(ts)[t] else 0
  {
    if ts != [] {
      var init, last := ts[..|ts| - 1], ts[|ts| - 1];
      assert ts == init + [last];
      PruneKeepsInWindow(init, now);
    }
  }

  /** Pruning keeps the surviving timestamps in their original relative order. */
  lemma {:induction false} PruneKeepsOrder(ts: seq<int>, now: int)
    ensures IsSubsequence(Prune(ts, now), ts)
  {
    if ts != [] {
      var init := ts[..|ts| - 1];
      PruneKeepsOrder(init, now);
      var kept := Prune(ts, now);
      if InWindow(ts[|ts| - 1], now) {
        assert kept[..|kept| - 1] == Prune(init, now);
      }
    }
  }

  /** The admission decision for a client whose stored list is `history`. */
  function Verdict(history: seq<int>, now: int): Admission
  {
    if |Prune(history, now)| >= MaxRequests then Rejected(TooManyRequests, RejectionDetail())
    else Allowed
  }

  /** The client's stored list after the call. */
  function Advance(history: seq<int>, now: int): seq<int>
  {
    var kept := Prune(history, now);
    if Verdict(history, now).Allowed? then kept + [now] else kept
  }

  /** `request_counts[client]` of a `defaultdict(list)`: a first-time client has an empty list. */
  function History(counts: map<string, seq<int>>, client: string): seq<int>
  {
    if client in counts then counts[client] else []
  }

  /** The whole map after a call; reading the defaultdict inserts the key even on rejection. */
  function Next(counts: map<string, seq<int>>, client: string, now: int): map<string, seq<int>>
  {
    counts[client := Advance(History(counts, client), now)]
  }

  /** Every stored list holds at most MaxRequests timestamps. */
  ghost predicate Bounded(counts: map<string, seq<int>>)
  {
    forall c :: c in counts ==> |counts[c]| <= MaxRequests
  }

  /** The process-wide `request_counts` map, with `ip_based_rate_limiter` as its one operation. */
  class IpRateLimiter {
    var requestCounts: map<string, seq<int>>

    ghost predicate Valid()
      reads this
    {
      Bounded(requestCounts)
    }

    constructor ()
      ensures Valid()
      ensures requestCounts == map[]
    {
      requestCounts := map[];
    }

    /** One atomic call of `ip_based_rate_limiter` for `client` at time `now`. */
    method Admit(client: string, now: int) returns (r: Admission)
      requires Valid()
      modifies this
      ensures Valid()
      ensures r == Verdict(History(old(requestCounts), client), now)
      ensures requestCounts == Next(old(requestCounts), client, now)
    {
      NextPreservesBound(requestCounts, client, now);
      var kept := Prune(History(requestCounts, client), now);
      requestCounts := requestCounts[client := kept];
      if |requestCounts[client]| >= MaxRequests {
        r := Rejected(TooManyRequests, RejectionDetail());
        return;
      }
      requestCounts := requestCounts[client := requestCounts[client] + [now]];
      r := Allowed;
    }
  }

  // ---------------------------------------------------------------------------
  // Properties of one call

  /** The length of the pruned list is the number of in-window entries of the history. */
  lemma {:induction false} PruneCountsWindow(ts: seq<int>, now: int)
    ensures |Prune(ts, now)| == CountInWindow(ts, now)
  {
    if ts != [] {
      var n := |ts| - 1;
      var init := ts[..n];
      PruneCountsWindow(init, now);
      var before := set i | 0 <= i < n && InWindow(init[i], now);
      var all := set i | 0 <= i < |ts| && InWindow(ts[i], now);
      assert before == set i | 0 <= i < n && InWindow(ts[i], now);
      if InWindow(ts[n], now) {
        assert all == before + {n};
      } else {
        assert all == before;
      }
    }
  }

  /** A call is rejected exactly when MaxRequests or more of the client's entries are in the window. */
  lemma RejectedIffWindowFull(history: seq<int>, now: int)
    ensures Verdict(history, now).Rejected? <==> CountInWindow(history, now) >= MaxRequests
  {
    PruneCountsWindow(history, now);
  }

  /** A rejection is HTTP 429 with the fixed message. */
  lemma RejectionIs429(history: seq<int>, now: int)
    requires Verdict(history, now).Rejected?
    ensures Verdict(history, now).statusCode == 429
    ensures Verdict(history, now).detail == "Rate limit exceeded. Try again in 60 seconds."
  {
    assert Decimal(60) == Decimal(6) + [DigitChar(0)];
  }

  /** What a call stores for the client, on each outcome. */
  lemma AdvanceStores(history: seq<int>, now: int)
    ensures forall t :: t in Advance(history, now) ==> InWindow(t, now)
    ensures Verdict(history, now).Allowed? ==>
              Advance(history, now) == Prune(history, now) + [now] && |Advance(history, now)| <= MaxRequests
    ensures Verdict(history, now).Rejected? ==> Advance(history, now) == Prune(history, now)
  {
  }

  /** A call keeps every stored list within MaxRequests. */
  lemma NextPreservesBound(counts: map<string, seq<int>>, client: string, now: int)
    requires Bounded(counts)
    ensures Bounded(Next(counts, client, now))
  {
  }

  /** A call changes only the calling client's entry, and adds that key if it was missing. */
  lemma NextIsolatesClients(counts: map<string, seq<int>>, client: string, other: string, now: int)
    requires other != client
    ensures History(Next(counts, client, now), other) == History(counts, other)
    ensures (other in Next(counts, client, now)) <==> (other in counts)
    ensures client in Next(counts, client, now)
  {
  }

  /** A client that has used up its window does not hold back another client at the same instant. */
  lemma OtherClientStillAdmitted(counts: map<string, seq<int>>, a: string, b: string, t: int)
    requires a != b
    requires a in counts && counts[a] == [t, t + 1, t + 2]
    requires b !in counts
    ensures Verdict(History(counts, a), t + 3).Rejected?
    ensures Verdict(History(Next(counts, a, t + 3), b), t + 3) == Allowed
  {
    PruneThree(t, t + 1, t + 2, t + 3);
  }

  // ---------------------------------------------------------------------------
  // Traces of calls from one client that starts with no history

  /** The client's stored list after calls at `times`, in order, starting from an empty list. */
  function StateAfter(times: seq<int>): seq<int>
  {
    if times == [] then [] else Advance(StateAfter(times[..|times| - 1]), times[|times| - 1])
  }

  /** The outcome of call number `k`. */
  function DecisionAt(times: seq<int>, k: nat): Admission
    requires k < |times|
  {
    Verdict(StateAfter(times[..k]), times[k])
  }

  /** The outcomes of all the calls. */
  function Decisions(times: seq<int>): (ds: seq<Admission>)
    ensures |ds| == |times|
  {
    seq(|times|, k requires 0 <= k < |times| => DecisionAt(times, k))
  }

  ghost predicate NonDecreasing(times: seq<int>)
  {
    forall i, j :: 0 <= i < j < |times| ==> times[i] <= times[j]
  }

  /** Which calls were admitted. */
  ghost function AdmittedFlags(times: seq<int>): (flags: seq<bool>)
    ensures |flags| == |times|
    ensures forall q :: 0 <= q < |times| ==> flags[q] == DecisionAt(times, q).Allowed?
  {
    seq(|times|, q requires 0 <= q < |times| => DecisionAt(times, q).Allowed?)
  }

  /** The timestamps of the calls among the first `m` that `admitted` marks and that lie in the window ending at `since`. */
  ghost function AdmittedRecent(times: seq<int>, admitted: seq<bool>, m: nat, since: int): seq<int>
    requires m <= |times| && m <= |admitted|
  {
    if m == 0 then []
    else
      AdmittedRecent(times, admitted, m - 1, since)
      + (if admitted[m - 1] && InWindow(times[m - 1], since) then [times[m - 1]] else [])
  }

  /** Each marked in-window call before `m` adds one entry to the list of the first `m` calls. */
  lemma {:induction false} AdmittedRecentGrows(times: seq<int>, admitted: seq<bool>, q: nat, m: nat, since: int)
    requires q < m <= |times| && m <= |admitted|
    requires admitted[q] && InWindow(times[q], since)
    ensures |AdmittedRecent(times, admitted, m, since)| >= |AdmittedRecent(times, admitted, q, since)| + 1
  {
    if m > q + 1 {
      AdmittedRecentGrows(times, admitted, q, m - 1, since);
    }
  }

  /** Pruning a list with one more timestamp at its end. */
  lemma PruneSnoc(init: seq<int>, x: int, now: int)
    ensures Prune(init + [x], now) == Prune(init, now) + (if InWindow(x, now) then [x] else [])
  {
    var s := init + [x];
    assert s[..|s| - 1] == init && s[|s| - 1] == x;
  }

  /** Pruning at a later time narrows the window: only the later one matters. */
  lemma {:induction false} PruneAdmittedRecent(times: seq<int>, admitted: seq<bool>, m: nat, since: int, now: int)
    requires m <= |times| && m <= |admitted|
    requires since <= now
    ensures Prune(AdmittedRecent(times, admitted, m, since), now) == AdmittedRecent(times, admitted, m, now)
  {
    if m > 0 {
      PruneAdmittedRecent(times, admitted, m - 1, since, now);
      var init := AdmittedRecent(times, admitted, m - 1, since);
      var t := times[m - 1];
      var keep := admitted[m - 1] && InWindow(t, since);
      assert admitted[m - 1] && InWindow(t, now) <==> keep && InWindow(t, now);
      if keep {
        PruneSnoc(init, t, now);
      } else {
        assert AdmittedRecent(times, admitted, m, since) == init + [];
        assert init + [] == init;
      }
    }
  }

  /** One more call: the stored list grows as the list of admitted in-window calls does. */
  lemma AdvanceAdmittedRecent(times: seq<int>, admitted: seq<bool>, n: nat, prev: seq<int>)
    requires 0 < n <= |times| && n <= |admitted|
    requires Prune(prev, times[n - 1]) == AdmittedRecent(times, admitted, n - 1, times[n - 1])
    requires admitted[n - 1] == Verdict(prev, times[n - 1]).Allowed?
    ensures Advance(prev, times[n - 1]) == AdmittedRecent(times, admitted, n, times[n - 1])
  {
  }

  /** With a clock that never goes back, the stored list holds exactly the admitted calls still in the window. */
  lemma {:induction false} StateIsAdmittedRecent(times: seq<int>, n: nat)
    requires 0 < n <= |times|
    requires NonDecreasing(times)
    ensures StateAfter(times[..n]) == AdmittedRecent(times, AdmittedFlags(times), n, times[n - 1])
  {
    var flags := AdmittedFlags(times);
    var prev := StateAfter(times[..n - 1]);
    var now := times[n - 1];
    assert Prune(prev, now) == AdmittedRecent(times, flags, n - 1, now) by {
      if n == 1 {
        assert prev == [];
      } else {
        StateIsAdmittedRecent(times, n - 1);
        PruneAdmittedRecent(times, flags, n - 1, times[n - 2], now);
      }
    }
    assert flags[n - 1] == Verdict(prev, now).Allowed?;
    AdvanceAdmittedRecent(times, flags, n, prev);
    assert times[..n] == times[..n - 1] + [now];
    StateAfterSnoc(times[..n - 1], now);
  }

  /**
   * The sliding-window guarantee: with a clock that never goes back, no 60-second
   * window holds more than MaxRequests admitted calls; of any MaxRequests + 1
   * admitted calls, the last comes at least TimeWindow seconds after the first.
   */
  lemma AtMostMaxRequestsPerWindow(times: seq<int>, i: nat, j: nat, k: nat, l: nat)
    requires NonDecreasing(times)
    requires i < j < k < l < |times|
    requires DecisionAt(times, i).Allowed? && DecisionAt(times, j).Allowed?
    requires DecisionAt(times, k).Allowed? && DecisionAt(times, l).Allowed?
    ensures times[l] - times[i] >= TimeWindow
  {
    if times[l] - times[i] < TimeWindow {
      var now := times[l];
      var flags := AdmittedFlags(times);
      StateIsAdmittedRecent(times, l);
      PruneAdmittedRecent(times, flags, l, times[l - 1], now);
      AdmittedRecentGrows(times, flags, i, j, now);
      AdmittedRecentGrows(times, flags, j, k, now);
      AdmittedRecentGrows(times, flags, k, l, now);
      assert false;
    }
  }

  /** One more call extends a trace by one step. */
  lemma StateAfterSnoc(times: seq<int>, x: int)
    ensures StateAfter(times + [x]) == Advance(StateAfter(times), x)
  {
    var s := times + [x];
    assert s[..|s| - 1] == times;
  }

  lemma {:induction false} StateAfterLength(times: seq<int>)
    ensures |StateAfter(times)| <= |times|
  {
    if times != [] {
      StateAfterLength(times[..|times| - 1]);
    }
  }

  /** A new client's first MaxRequests calls are admitted, whatever their times. */
  lemma FirstCallsAdmitted(times: seq<int>, k: nat)
    requires k < |times| && k < MaxRequests
    ensures DecisionAt(times, k) == Allowed
  {
    StateAfterLength(times[..k]);
  }

  lemma OneCallStored(a: int)
    ensures StateAfter([a]) == [a]
  {
    assert [] + [a] == [a];
    StateAfterSnoc([], a);
  }

  lemma TwoCallsStored(a: int, b: int)
    requires a <= b && InWindow(a, b)
    ensures StateAfter([a, b]) == [a, b]
  {
    assert [a] + [b] == [a, b];
    OneCallStored(a);
    StateAfterSnoc([a], b);
    assert [] + [a] == [a];
    PruneSnoc([], a, b);
  }

  /** Three calls within one window are all stored. */
  lemma ThreeCallsStored(a: int, b: int, c: int)
    requires a <= b <= c && InWindow(a, c)
    ensures StateAfter([a, b, c]) == [a, b, c]
  {
    assert [a, b] + [c] == [a, b, c];
    TwoCallsStored(a, b);
    StateAfterSnoc([a, b], c);
    PruneThree(a, b, c, c);
  }

  /** Pruning a three-entry list, entry by entry. */
  lemma PruneThree(a: int, b: int, c: int, now: int)
    ensures Prune([a, b, c], now)
            == (if InWindow(a, now) then [a] else []) + (if InWindow(b, now) then [b] else [])
               + (if InWindow(c, now) then [c] else [])
  {
    assert [] + [a] == [a] && [a] + [b] == [a, b] && [a, b] + [c] == [a, b, c];
    PruneSnoc([], a, now);
    PruneSnoc([a], b, now);
    PruneSnoc([a, b], c, now);
  }

  /** Four calls one second apart: the fourth is rejected. */
  lemma BurstOfFour(t: int)
    ensures Decisions([t, t + 1, t + 2, t + 3])
            == [Allowed, Allowed, Allowed, Rejected(TooManyRequests, RejectionDetail())]
  {
    var times := [t, t + 1, t + 2, t + 3];
    FirstCallsAdmitted(times, 0);
    FirstCallsAdmitted(times, 1);
    FirstCallsAdmitted(times, 2);
    assert times[..3] == [t, t + 1, t + 2];
    ThreeCallsStored(t, t + 1, t + 2);
    PruneThree(t, t + 1, t + 2, t + 3);
    assert DecisionAt(times, 3) == Rejected(TooManyRequests, RejectionDetail());
  }

  /** Calls at t, t + 10, t + 20 and t + 70: the first two have left the window, so all four are admitted. */
  lemma SpreadOutFour(t: int)
    ensures Decisions([t, t + 10, t + 20, t + 70]) == [Allowed, Allowed, Allowed, Allowed]
  {
    var times := [t, t + 10, t + 20, t + 70];
    FirstCallsAdmitted(times, 0);
    FirstCallsAdmitted(times, 1);
    FirstCallsAdmitted(times, 2);
    assert times[..3] == [t, t + 10, t + 20];
    ThreeCallsStored(t, t + 10, t + 20);
    PruneThree(t, t + 10, t + 20, t + 70);
    assert DecisionAt(times, 3) == Allowed;
  }
}
