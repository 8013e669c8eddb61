/** Replaying one sequence of cache calls with two warm capacities: the smaller cache is always contained
    in the larger one.  The tie-break on keys makes this hold even after the tick counter wraps. */
module CacheInclusion {
  import opened Bytes
  import opened Profiles
  import opened Recency
  import opened CacheSpec

  ghost predicate Submap<V>(small: Entries<V>, large: Entries<V>)
  {
    forall k :: k in small ==> k in large && small[k] == large[k]
  }

  /** What two replays have in common. */
  ghost predicate Included(s: CacheState, l: CacheState)
  {
    && s.sequence == l.sequence
    && s.warmish == l.warmish
    && Submap(s.warm, l.warm)
    && |l.warm| - |s.warm| <= l.limits.maxWarm - s.limits.maxWarm
    && |s.warm| <= s.limits.maxWarm
    && |l.warm| <= l.limits.maxWarm
  }

  predicate SameButWarm(small: Limits, large: Limits)
  {
    && small.maxWarm <= large.maxWarm
    && small.maxWarmish == large.maxWarmish
    && small.maxWarmishBytes == large.maxWarmishBytes
  }

  /** One insertion into a cache within its capacity evicts at most one entry. */
  lemma TrimOne(m: Entries<Prepared>, cap: nat)
    requires |m| <= cap + 1
    ensures Trim(m, WarmFits(cap)) == if |m| <= cap then m else m - {LeastRecent(m)}
  {
    if |m| > cap { RemoveShrinks(m, LeastRecent(m)); }
  }

  /** A map inside a larger one that still holds the larger one's least recent entry has the same one. */
  lemma SubmapLeastRecent<V>(small: Entries<V>, large: Entries<V>)
    requires Submap(small, large) && large != map[] && LeastRecent(large) in small
    ensures small != map[] && LeastRecent(small) == LeastRecent(large)
  {
    var k := LeastRecent(large);
    forall j | j in small && j != k ensures Before(small, k, j) { assert Before(large, k, j); }
    LeastRecentUnique(small, k);
  }

  /** Trimming one surplus entry from each keeps the inclusion: what the larger cache loses, the smaller one lost before
      or loses now. */
  lemma IncludedTrim(s: Entries<Prepared>, l: Entries<Prepared>, k: nat, K: nat)
    requires Submap(s, l) && |l| - |s| <= K - k && |s| <= k + 1 && |l| <= K + 1
    ensures
      var s', l' := Trim(s, WarmFits(k)), Trim(l, WarmFits(K));
      Submap(s', l') && |l'| - |s'| <= K - k && |s'| <= k && |l'| <= K
  {
    TrimOne(s, k);
    TrimOne(l, K);
    if |l| > K {
      RemoveShrinks(l, LeastRecent(l));
      RemoveShrinks(s, LeastRecent(s));
      if LeastRecent(l) in s { SubmapLeastRecent(s, l); }
    } else if |s| > k {
      RemoveShrinks(s, LeastRecent(s));
    }
  }

  lemma IncludedInsert(s: Entries<Prepared>, l: Entries<Prepared>, k: nat, K: nat, d: Bytes, e: Entry<Prepared>)
    requires Submap(s, l) && |l| - |s| <= K - k && |s| <= k && |l| <= K
    ensures
      var s', l' := Trim(s[d := e], WarmFits(k)), Trim(l[d := e], WarmFits(K));
      Submap(s', l') && |l'| - |s'| <= K - k && |s'| <= k && |l'| <= K
  {
    InsertGrows(s, d, e);
    InsertGrows(l, d, e);
    IncludedTrim(s[d := e], l[d := e], k, K);
  }

  lemma IncludedDemote(s: Entries<Prepared>, l: Entries<Prepared>, k: nat, K: nat, d: Bytes)
    requires Submap(s, l) && |l| - |s| <= K - k && |s| <= k <= K && |l| <= K
    ensures Submap(s - {d}, l - {d}) && |l - {d}| - |s - {d}| <= K - k
    ensures |s - {d}| <= k && |l - {d}| <= K
  {
    if d in s { RemoveShrinks(s, d); } else { assert s - {d} == s; }
    if d in l { RemoveShrinks(l, d); } else { assert l - {d} == l; }
  }

  /** A look-up of an entry that only the larger cache holds refreshes nothing in the smaller one. */
  lemma IncludedTouch(s: Entries<Prepared>, l: Entries<Prepared>, d: Bytes, tick: nat)
    requires Submap(s, l)
    ensures Submap(Touch(s, d, tick), Touch(l, d, tick))
  {
  }

  lemma IncludedApply(s: CacheState, l: CacheState, call: Call)
    requires SameButWarm(s.limits, l.limits) && Included(s, l)
    ensures Included(Apply(s, call), Apply(l, call))
  {
    match call
    case Warm(d) =>
      TouchKeepsSize(s.warm, d, Tick(s.sequence));
      TouchKeepsSize(l.warm, d, Tick(l.sequence));
      IncludedTouch(s.warm, l.warm, d, Tick(s.sequence));
    case Warmish(d) =>
    case InsertWarm(d, v) =>
      IncludedInsert(s.warm, l.warm, s.limits.maxWarm, l.limits.maxWarm, d, Entry(v, Tick(s.sequence)));
    case InsertWarmish(d, a) =>
    case Demote(d) => IncludedDemote(s.warm, l.warm, s.limits.maxWarm, l.limits.maxWarm, d);
  }

  lemma {:induction false} ReplayLimits(limits: Limits, calls: seq<Call>)
    ensures Replay(Empty(limits), calls).limits == limits
  {
    if calls != [] { ReplayLimits(limits, calls[..|calls| - 1]); }
  }

  /** For every sequence of calls: what is warm with the smaller capacity is warm with the larger one, with
      the same component and the same stamp, and the difference in size never exceeds the difference in
      capacity. */
  lemma {:induction false} ReplayIncluded(small: Limits, large: Limits, calls: seq<Call>)
    requires SameButWarm(small, large)
    ensures Included(Replay(Empty(small), calls), Replay(Empty(large), calls))
  {
    if calls != [] {
      ReplayIncluded(small, large, calls[..|calls| - 1]);
      ReplayLimits(small, calls[..|calls| - 1]);
      ReplayLimits(large, calls[..|calls| - 1]);
      IncludedApply(Replay(Empty(small), calls[..|calls| - 1]), Replay(Empty(large), calls[..|calls| - 1]),
                    calls[|calls| - 1]);
    }
  }
}
