/** The byte counter of the warmish tier with the saturation it has: what an insertion does to it from any value, when
    it stays the sum of the retained lengths, and over which configurations it always does (src/runtime.rs). */
module CountedCache {
  import opened Bytes
  import opened Profiles
  import opened Recency
  import opened CacheSpec

  function SaturatingAdd(a: nat, b: nat): (r: nat)
  {
    if a + b > USIZE_MAX then USIZE_MAX else a + b
  }

  function SaturatingSub(a: nat, b: nat): (r: nat)
  {
    if a < b then 0 else a - b
  }

  /** The eviction loop of `insert_warmish`, which believes its counter. */
  ghost function EvictCounted(m: Entries<Aot>, count: nat, limits: Limits): (r: (Entries<Aot>, nat))
    decreases |m|
  {
    if m == map[] || (|m| <= limits.maxWarmish && count <= limits.maxWarmishBytes) then (m, count)
    else
      var k := LeastRecent(m);
      RemoveShrinks(m, k);
      EvictCounted(m - {k}, SaturatingSub(count, |m[k].value.bytes|), limits)
  }

  /** The two saturating updates for a replaced and a new entry. */
  function CountAfter(m: Entries<Aot>, count: nat, d: Bytes, e: Entry<Aot>): (r: nat)
  {
    SaturatingAdd(if d in m then SaturatingSub(count, |m[d].value.bytes|) else count, |e.value.bytes|)
  }

  /** `insert_warmish` after its size test and its tick. */
  ghost function InsertCounted(m: Entries<Aot>, count: nat, d: Bytes, e: Entry<Aot>, limits: Limits):
    (r: (Entries<Aot>, nat))
  {
    EvictCounted(m[d := e], CountAfter(m, count, d, e), limits)
  }

  /** A cache call on the tiers and the counter. */
  ghost function ApplyCounted(c: CacheState, count: nat, call: Call): (r: (CacheState, nat))
  {
    if !call.InsertWarmish? then (Apply(c, call), count)
    else if |call.aot.bytes| > c.limits.maxWarmishBytes then (c, count)
    else
      var tick := Tick(c.sequence);
      var r := InsertCounted(c.warmish, count, call.digest, Entry(call.aot, tick), c.limits);
      (c.(sequence := tick, warmish := r.0), r.1)
  }

  ghost function ReplayCounted(limits: Limits, calls: seq<Call>): (r: (CacheState, nat))
  {
    if calls == [] then (Empty(limits), 0)
    else
      var before := ReplayCounted(limits, calls[..|calls| - 1]);
      ApplyCounted(before.0, before.1, calls[|calls| - 1])
  }

  // ---------------------------------------------------------------- when the counter is exact

  /** The two saturating updates keep the byte count exact if and only if the retained bytes fit `usize`; otherwise the
      counter stands at its maximum. */
  lemma CountedInsert(m: Entries<Aot>, d: Bytes, e: Entry<Aot>)
    requires TotalBytes(m) <= USIZE_MAX
    ensures CountAfter(m, TotalBytes(m), d, e) == TotalBytes(m[d := e]) <==> TotalBytes(m[d := e]) <= USIZE_MAX
    ensures TotalBytes(m[d := e]) > USIZE_MAX ==> CountAfter(m, TotalBytes(m), d, e) == USIZE_MAX
    ensures TotalBytes(m[d := e]) <= TotalBytes(m) + |e.value.bytes|
  {
    TotalBytesInsert(m, d, e);
    if d in m { TotalBytesRemove(m, d); }
  }

  /** One turn of the loop from an exact counter; `rest` is the sum it leaves. */
  lemma EvictStep(m: Entries<Aot>, rest: nat, limits: Limits)
    requires m != map[] && !(|m| <= limits.maxWarmish && TotalBytes(m) <= limits.maxWarmishBytes)
    requires rest == TotalBytes(m - {LeastRecent(m)})
    ensures EvictCounted(m, TotalBytes(m), limits) == EvictCounted(m - {LeastRecent(m)}, rest, limits)
    ensures var fits := WarmishFits(limits.maxWarmish, limits.maxWarmishBytes);
      Trim(m, fits) == Trim(m - {LeastRecent(m)}, fits)
  {
    TotalBytesRemove(m, LeastRecent(m));
  }

  /** From an exact counter the loop trims to the largest most recent part within both bounds, and stays exact. */
  lemma {:induction false} EvictExact(m: Entries<Aot>, limits: Limits)
    ensures var kept := Trim(m, WarmishFits(limits.maxWarmish, limits.maxWarmishBytes));
      EvictCounted(m, TotalBytes(m), limits) == (kept, TotalBytes(kept))
    decreases |m|
  {
    if m != map[] && !(|m| <= limits.maxWarmish && TotalBytes(m) <= limits.maxWarmishBytes) {
      var k := LeastRecent(m);
      RemoveShrinks(m, k);
      EvictExact(m - {k}, limits);
      EvictStep(m, TotalBytes(m - {k}), limits);
    }
  }

  /** `d` was used after everything else in `m`. */
  predicate Newest(m: Entries<Aot>, d: Bytes)
  {
    d in m && forall k :: k in m && k != d ==> m[k].lastUsed < m[d].lastUsed
  }

  lemma NewestGoesLast(m: Entries<Aot>, d: Bytes)
    requires Newest(m, d) && |m| > 1
    ensures LeastRecent(m) != d && Newest(m - {LeastRecent(m)}, d)
  {
    RemoveShrinks(m, d);
    assert m - {d} != map[];
    var k :| k in m - {d};
    assert !Before(m, d, k);
  }

  lemma OnlyEntry(m: Entries<Aot>, d: Bytes)
    requires d in m && |m| == 1
    ensures TotalBytes(m) == |m[d].value.bytes|
  {
    TotalBytesRemove(m, d);
    RemoveShrinks(m, d);
    assert m - {d} == map[];
  }

  lemma SizeOne(m: Entries<Aot>, d: Bytes)
    requires d in m
    ensures |m| >= 1
  {
    RemoveShrinks(m, d);
  }

  lemma LaggingAlone(m: Entries<Aot>, missing: nat, d: Bytes, limits: Limits)
    requires d in m && |m| == 1 && limits.maxWarmish > 0 && missing <= TotalBytes(m)
    requires |m[d].value.bytes| <= limits.maxWarmishBytes
    ensures EvictCounted(m, TotalBytes(m) - missing, limits) == (m, TotalBytes(m) - missing)
  {
    OnlyEntry(m, d);
  }

  lemma LaggingStep(m: Entries<Aot>, missing: nat, d: Bytes, limits: Limits)
    requires Newest(m, d) && |m| != 1 && missing <= |m[d].value.bytes| && missing <= TotalBytes(m)
    requires !(|m| <= limits.maxWarmish && TotalBytes(m) - missing <= limits.maxWarmishBytes)
    ensures var rest := m - {LeastRecent(m)};
      && Newest(rest, d) && rest[d] == m[d] && TotalBytes(rest) >= missing
      && EvictCounted(m, TotalBytes(m) - missing, limits) == EvictCounted(rest, TotalBytes(rest) - missing, limits)
  {
    var k := LeastRecent(m);
    SizeOne(m, d);
    NewestGoesLast(m, d);
    TotalBytesRemove(m, k);
    TotalBytesRemove(m - {k}, d);
  }

  lemma FitsAlready(m: Entries<Aot>, count: nat, limits: Limits)
    requires |m| <= limits.maxWarmish && count <= limits.maxWarmishBytes
    ensures EvictCounted(m, count, limits) == (m, count)
  {
  }

  /** What the loop leaves holds `d` and is counted `missing` bytes short. */
  ghost predicate Lags(r: (Entries<Aot>, nat), missing: nat, d: Bytes)
  {
    d in r.0 && TotalBytes(r.0) >= missing && r.1 == TotalBytes(r.0) - missing
  }

  /** From a counter that lags behind by `missing` bytes the loop keeps the newest entry and ends lagging by as much. */
  lemma {:induction false} EvictLagging(m: Entries<Aot>, missing: nat, d: Bytes, limits: Limits)
    requires Newest(m, d) && missing > 0 && limits.maxWarmish > 0 && |m[d].value.bytes| <= limits.maxWarmishBytes
    requires |m[d].value.bytes| >= missing && TotalBytes(m) >= missing
    ensures Lags(EvictCounted(m, TotalBytes(m) - missing, limits), missing, d)
    decreases |m|
  {
    var count := TotalBytes(m) - missing;
    if |m| == 1 {
      LaggingAlone(m, missing, d, limits);
    } else if !(|m| <= limits.maxWarmish && count <= limits.maxWarmishBytes) {
      var k := LeastRecent(m);
      LaggingStep(m, missing, d, limits);
      RemoveShrinks(m, k);
      EvictLagging(m - {k}, missing, d, limits);
    } else {
      FitsAlready(m, count, limits);
    }
  }

  lemma RestIsOld(m: Entries<Aot>, d: Bytes, e: Entry<Aot>)
    ensures TotalBytes(m[d := e] - {d}) <= TotalBytes(m)
  {
    assert m[d := e] - {d} == m - {d};
    if d in m { TotalBytesRemove(m, d); } else { assert m - {d} == m; }
  }

  /** An insertion of a newest entry into a tier with an exact counter leaves an exact counter if and only if the
      counter could hold what was retained right after it; and then it is the specified insertion. */
  lemma InsertExactIff(m: Entries<Aot>, d: Bytes, e: Entry<Aot>, limits: Limits)
    requires TotalBytes(m) <= limits.maxWarmishBytes <= USIZE_MAX && |e.value.bytes| <= limits.maxWarmishBytes
    requires limits.maxWarmish > 0 && Newest(m[d := e], d)
    ensures var r := InsertCounted(m, TotalBytes(m), d, e, limits);
      r.1 == TotalBytes(r.0) <==> TotalBytes(m[d := e]) <= USIZE_MAX
  {
    CountedInsert(m, d, e);
    var all := m[d := e];
    if TotalBytes(all) <= USIZE_MAX {
      EvictExact(all, limits);
    } else {
      TotalBytesRemove(all, d);
      RestIsOld(m, d, e);
      EvictLagging(all, TotalBytes(all) - USIZE_MAX, d, limits);
    }
  }

  /** An instance: one retained artifact of the largest length and one further byte.  The counter is wrong, and the tier
      exceeds its byte limit without evicting. */
  lemma CountCanSaturate() returns (m: Entries<Aot>, e: Entry<Aot>, limits: Limits)
    ensures limits.Valid() && limits.maxWarmishBytes == USIZE_MAX && |m| <= limits.maxWarmish
    ensures TotalBytes(m) == USIZE_MAX && |e.value.bytes| == 1 && Newest(m[[1] := e], [1])
    ensures var r := InsertCounted(m, TotalBytes(m), [1], e, limits);
      r.1 == USIZE_MAX && TotalBytes(r.0) == USIZE_MAX + 1
  {
    var big := Entry(Aot(seq(USIZE_MAX, _ => 0), Cli03), 1);
    m, e, limits := map[[0] := big], Entry(Aot([0], Cli03), 2), Limits(1, 2, USIZE_MAX);
    SingleBytes([0], big);
    CountedInsert(m, [1], e);
    TotalBytesInsert(m, [1], e);
    InsertGrows(m, [1], e);
  }

  // ---------------------------------------------------------------- when it always is

  /** With a byte limit of at most half of `usize` every insertion can be counted. */
  lemma HalfIsCountable(c: CacheState, d: Bytes, a: Aot)
    requires TotalBytes(c.warmish) <= c.limits.maxWarmishBytes && 2 * c.limits.maxWarmishBytes <= USIZE_MAX
    requires |a.bytes| <= c.limits.maxWarmishBytes
    ensures TotalBytes(c.warmish[d := Entry(a, Tick(c.sequence))]) <= USIZE_MAX
  {
    CountedInsert(c.warmish, d, Entry(a, Tick(c.sequence)));
  }

  lemma ApplyExact(c: CacheState, call: Call)
    requires WithinLimits(c) && c.limits.maxWarmishBytes <= USIZE_MAX
    requires call.InsertWarmish? && |call.aot.bytes| <= c.limits.maxWarmishBytes ==>
      TotalBytes(c.warmish[call.digest := Entry(call.aot, Tick(c.sequence))]) <= USIZE_MAX
    ensures ApplyCounted(c, TotalBytes(c.warmish), call) == (Apply(c, call), TotalBytes(Apply(c, call).warmish))
  {
    match call
    case InsertWarmish(d, a) =>
      if |a.bytes| <= c.limits.maxWarmishBytes {
        CountedInsert(c.warmish, d, Entry(a, Tick(c.sequence)));
        EvictExact(c.warmish[d := Entry(a, Tick(c.sequence))], c.limits);
      }
    case Warmish(d) => TouchKeepsBytes(c.warmish, d, Tick(c.sequence));
    case _ =>
  }

  /** What one insertion does to a tier with an exact counter: the specified insertion, exactly counted, if the
      counter can hold what is retained right after it; and a wrong counter otherwise, before the tick counter wraps. */
  lemma InsertionCounts(c: CacheState, d: Bytes, a: Aot)
    requires WithinLimits(c) && c.limits.maxWarmishBytes <= USIZE_MAX
    ensures var (r, count) := ApplyCounted(c, TotalBytes(c.warmish), InsertWarmish(d, a));
      var countable := |a.bytes| <= c.limits.maxWarmishBytes ==>
                       TotalBytes(c.warmish[d := Entry(a, Tick(c.sequence))]) <= USIZE_MAX;
      && (countable ==> r == Apply(c, InsertWarmish(d, a)) && count == TotalBytes(r.warmish) && WithinLimits(r))
      && (!countable && Stamped(c.warmish, c.sequence) && c.sequence < USIZE_MAX && c.limits.maxWarmish > 0 ==>
            count != TotalBytes(r.warmish))
  {
    var call, e := InsertWarmish(d, a), Entry(a, Tick(c.sequence));
    if |a.bytes| <= c.limits.maxWarmishBytes ==> TotalBytes(c.warmish[d := e]) <= USIZE_MAX {
      ApplyExact(c, call);
      ApplyWithinLimits(c, call);
    } else if Stamped(c.warmish, c.sequence) && c.sequence < USIZE_MAX && c.limits.maxWarmish > 0 {
      InsertExactIff(c.warmish, d, e, c.limits);
    }
  }

  /** With such a limit, after every sequence of calls the tiers are those of the specification, the counter is the
      sum of the retained lengths, and all capacities hold. */
  lemma {:induction false} ReplayExact(limits: Limits, calls: seq<Call>)
    requires 2 * limits.maxWarmishBytes <= USIZE_MAX
    ensures var c := Replay(Empty(limits), calls);
      ReplayCounted(limits, calls) == (c, TotalBytes(c.warmish)) && WithinLimits(c) && c.limits == limits
  {
    ReplayWithinLimits(limits, calls);
    if calls != [] {
      var init, call := calls[..|calls| - 1], calls[|calls| - 1];
      ReplayExact(limits, init);
      var c := Replay(Empty(limits), init);
      if call.InsertWarmish? && |call.aot.bytes| <= limits.maxWarmishBytes {
        HalfIsCountable(c, call.digest, call.aot);
      }
      ApplyExact(c, call);
    }
  }
}
