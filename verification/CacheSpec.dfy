/** The two in-memory tiers as values: what each cache call does, and what every call keeps
    (src/runtime.rs, `MemoryCache`). */
module CacheSpec {
  import opened Bytes
  import opened Profiles
  import opened Recency

  datatype Limits = Limits(maxWarm: nat, maxWarmish: nat, maxWarmishBytes: nat)
  {
    /** `validate_config`, for the fields that size the cache. */
    predicate Valid()
    {
      maxWarm > 0 && maxWarmish >= maxWarm && maxWarmishBytes > 0
    }
  }

  datatype CacheState = CacheState(
    warm: Entries<Prepared>,
    warmish: Entries<Aot>,
    sequence: nat,
    limits: Limits)

  datatype Call =
    | Warm(digest: Bytes)
    | Warmish(digest: Bytes)
    | InsertWarm(digest: Bytes, prepared: Prepared)
    | InsertWarmish(digest: Bytes, aot: Aot)
    | Demote(digest: Bytes)

  /** `sequence.wrapping_add(1).max(1)` on `u64`. */
  function Tick(sequence: nat): (tick: nat)
  {
    if sequence >= USIZE_MAX then 1 else sequence + 1
  }

  ghost function TotalBytes(m: Entries<Aot>): (total: nat)
    decreases |m|
  {
    if m == map[] then 0
    else
      var k := LeastRecent(m);
      RemoveShrinks(m, k);
      |m[k].value.bytes| + TotalBytes(m - {k})
  }

  lemma {:induction false} TotalBytesRemove(m: Entries<Aot>, k: Bytes)
    requires k in m
    ensures TotalBytes(m) == |m[k].value.bytes| + TotalBytes(m - {k})
    decreases |m|
  {
    var l := LeastRecent(m);
    if l != k {
      RemoveShrinks(m, l);
      TotalBytesRemove(m - {l}, k);
      assert m - {l} - {k} == m - {k} - {l};
      assert IsLeastRecent(m - {k}, l) by {
        forall j | j in m - {k} && j != l ensures Before(m - {k}, l, j) { assert Before(m, l, j); }
      }
      LeastRecentUnique(m - {k}, l);
    }
  }

  lemma TotalBytesInsert(m: Entries<Aot>, k: Bytes, e: Entry<Aot>)
    ensures TotalBytes(m[k := e]) == TotalBytes(m - {k}) + |e.value.bytes|
    ensures k in m ==> TotalBytes(m[k := e]) == TotalBytes(m) - |m[k].value.bytes| + |e.value.bytes|
    ensures k !in m ==> TotalBytes(m[k := e]) == TotalBytes(m) + |e.value.bytes|
  {
    TotalBytesRemove(m[k := e], k);
    assert m[k := e] - {k} == m - {k};
    if k in m { TotalBytesRemove(m, k); } else { assert m - {k} == m; }
  }

  ghost function WarmFits(maxWarm: nat): Entries<Prepared> -> bool
  {
    (m: Entries<Prepared>) => |m| <= maxWarm
  }

  ghost function WarmishFits(maxWarmish: nat, maxBytes: nat): Entries<Aot> -> bool
  {
    (m: Entries<Aot>) => |m| <= maxWarmish && TotalBytes(m) <= maxBytes
  }

  function Touch<V>(m: Entries<V>, digest: Bytes, tick: nat): (r: Entries<V>)
    ensures r.Keys == m.Keys
    ensures forall k :: k in m ==> r[k].value == m[k].value
  {
    if digest in m then m[digest := m[digest].(lastUsed := tick)] else m
  }

  ghost function Apply(c: CacheState, call: Call): (r: CacheState)
    ensures r.limits == c.limits
  {
    var tick := Tick(c.sequence);
    match call
    case Warm(d) => c.(sequence := tick, warm := Touch(c.warm, d, tick))
    case Warmish(d) => c.(sequence := tick, warmish := Touch(c.warmish, d, tick))
    case InsertWarm(d, v) =>
      c.(sequence := tick, warm := Trim(c.warm[d := Entry(v, tick)], WarmFits(c.limits.maxWarm)))
    case InsertWarmish(d, a) =>
      if |a.bytes| > c.limits.maxWarmishBytes then c
      else
        var fits := WarmishFits(c.limits.maxWarmish, c.limits.maxWarmishBytes);
        c.(sequence := tick, warmish := Trim(c.warmish[d := Entry(a, tick)], fits))
    case Demote(d) => c.(warm := c.warm - {d})
  }

  ghost function Replay(c: CacheState, calls: seq<Call>): (r: CacheState)
  {
    if calls == [] then c else Apply(Replay(c, calls[..|calls| - 1]), calls[|calls| - 1])
  }

  function Empty(limits: Limits): (c: CacheState)
  {
    CacheState(map[], map[], 0, limits)
  }

  // ---------------------------------------------------------------- what every call keeps

  ghost predicate WithinLimits(c: CacheState)
  {
    && |c.warm| <= c.limits.maxWarm
    && |c.warmish| <= c.limits.maxWarmish
    && TotalBytes(c.warmish) <= c.limits.maxWarmishBytes
  }

  predicate Stamped<V>(m: Entries<V>, sequence: nat)
  {
    forall k :: k in m ==> m[k].lastUsed <= sequence
  }

  lemma {:induction false} TouchKeepsBytes(m: Entries<Aot>, digest: Bytes, tick: nat)
    ensures TotalBytes(Touch(m, digest, tick)) == TotalBytes(m)
    ensures |Touch(m, digest, tick)| == |m|
  {
    if digest in m {
      TotalBytesInsert(m, digest, m[digest].(lastUsed := tick));
      InsertGrows(m, digest, m[digest].(lastUsed := tick));
    }
  }

  lemma TouchKeepsSize(m: Entries<Prepared>, digest: Bytes, tick: nat)
    ensures |Touch(m, digest, tick)| == |m|
  {
    if digest in m { InsertGrows(m, digest, m[digest].(lastUsed := tick)); }
  }

  lemma RemovedFits(m: Entries<Prepared>, digest: Bytes)
    ensures |m - {digest}| <= |m|
  {
    if digest in m { RemoveShrinks(m, digest); } else { assert m - {digest} == m; }
  }

  lemma WarmTrimFits(m: Entries<Prepared>, maxWarm: nat)
    ensures |Trim(m, WarmFits(maxWarm))| <= maxWarm
  {
    TrimIsLargestFit(m, WarmFits(maxWarm));
  }

  lemma WarmishTrimFits(m: Entries<Aot>, maxWarmish: nat, maxBytes: nat)
    ensures var kept := Trim(m, WarmishFits(maxWarmish, maxBytes)); |kept| <= maxWarmish && TotalBytes(kept) <= maxBytes
  {
    TrimIsLargestFit(m, WarmishFits(maxWarmish, maxBytes));
  }

  /** All three capacities hold after every call, whatever the tick counter does. */
  lemma ApplyWithinLimits(c: CacheState, call: Call)
    requires WithinLimits(c)
    ensures WithinLimits(Apply(c, call))
  {
    var tick := Tick(c.sequence);
    match call
    case Warm(d) => TouchKeepsSize(c.warm, d, tick);
    case Warmish(d) => TouchKeepsBytes(c.warmish, d, tick);
    case InsertWarm(d, v) => WarmTrimFits(c.warm[d := Entry(v, tick)], c.limits.maxWarm);
    case InsertWarmish(d, a) =>
      WarmishTrimFits(c.warmish[d := Entry(a, tick)], c.limits.maxWarmish, c.limits.maxWarmishBytes);
    case Demote(d) => RemovedFits(c.warm, d);
  }

  lemma {:induction false} ReplayWithinLimits(limits: Limits, calls: seq<Call>)
    ensures WithinLimits(Replay(Empty(limits), calls))
  {
    if calls != [] {
      ReplayWithinLimits(limits, calls[..|calls| - 1]);
      ApplyWithinLimits(Replay(Empty(limits), calls[..|calls| - 1]), calls[|calls| - 1]);
    }
  }

  lemma TrimStamped<V>(m: Entries<V>, fits: Entries<V> -> bool, sequence: nat)
    requires Stamped(m, sequence)
    ensures Stamped(Trim(m, fits), sequence)
  {
    TrimOnlyRemoves(m, fits);
  }

  lemma ApplyStamped(c: CacheState, call: Call)
    requires Stamped(c.warm, c.sequence) && Stamped(c.warmish, c.sequence) && c.sequence < USIZE_MAX
    ensures var r := Apply(c, call);
      Stamped(r.warm, r.sequence) && Stamped(r.warmish, r.sequence) && r.sequence <= c.sequence + 1
  {
    var tick := Tick(c.sequence);
    match call
    case Warm(d) =>
    case Warmish(d) =>
    case InsertWarm(d, v) => TrimStamped(c.warm[d := Entry(v, tick)], WarmFits(c.limits.maxWarm), tick);
    case InsertWarmish(d, a) =>
      TrimStamped(c.warmish[d := Entry(a, tick)], WarmishFits(c.limits.maxWarmish, c.limits.maxWarmishBytes), tick);
    case Demote(d) =>
  }

  lemma {:induction false} ReplayStamped(limits: Limits, calls: seq<Call>)
    requires |calls| <= USIZE_MAX
    ensures var c := Replay(Empty(limits), calls);
      Stamped(c.warm, c.sequence) && Stamped(c.warmish, c.sequence) && c.sequence <= |calls|
  {
    if calls != [] {
      ReplayStamped(limits, calls[..|calls| - 1]);
      ApplyStamped(Replay(Empty(limits), calls[..|calls| - 1]), calls[|calls| - 1]);
    }
  }

  // ---------------------------------------------------------------- the new entry survives

  /** An entry stamped after all others, alone, is a most recent part. */
  lemma NewestAloneIsRecentPart<V>(m: Entries<V>, d: Bytes, e: Entry<V>)
    requires forall k :: k in m && k != d ==> m[k].lastUsed < e.lastUsed
    ensures RecentPart(m[d := e], map[d := e])
  {
  }

  lemma NewestSurvivesTrim<V>(m: Entries<V>, d: Bytes, e: Entry<V>, fits: Entries<V> -> bool)
    requires forall k :: k in m && k != d ==> m[k].lastUsed < e.lastUsed
    requires fits(map[d := e])
    ensures d in Trim(m[d := e], fits) && Trim(m[d := e], fits)[d] == e
  {
    var alone := map[d := e];
    NewestAloneIsRecentPart(m, d, e);
    TrimIsLargestFit(m[d := e], fits);
    assert d in alone.Keys;
  }

  lemma SingleBytes(d: Bytes, e: Entry<Aot>)
    ensures TotalBytes(map[d := e]) == |e.value.bytes|
  {
    TotalBytesRemove(map[d := e], d);
    assert map[d := e] - {d} == map[];
  }

  lemma NewWarmEntrySurvives(c: CacheState, d: Bytes, v: Prepared)
    requires Stamped(c.warm, c.sequence) && c.sequence < USIZE_MAX
    requires c.limits.maxWarm > 0
    ensures var r := Apply(c, InsertWarm(d, v));
      d in r.warm && r.warm[d] == Entry(v, r.sequence)
  {
    NewestSurvivesTrim(c.warm, d, Entry(v, Tick(c.sequence)), WarmFits(c.limits.maxWarm));
  }

  lemma NewWarmishEntrySurvives(c: CacheState, d: Bytes, a: Aot)
    requires Stamped(c.warmish, c.sequence) && c.sequence < USIZE_MAX
    requires c.limits.maxWarmish > 0
    ensures var r := Apply(c, InsertWarmish(d, a));
      if |a.bytes| <= c.limits.maxWarmishBytes
      then d in r.warmish && r.warmish[d] == Entry(a, r.sequence)
      else r == c
  {
    if |a.bytes| <= c.limits.maxWarmishBytes {
      SingleBytes(d, Entry(a, Tick(c.sequence)));
      NewestSurvivesTrim(c.warmish, d, Entry(a, Tick(c.sequence)),
                         WarmishFits(c.limits.maxWarmish, c.limits.maxWarmishBytes));
    }
  }

  // ---------------------------------------------------------------- a look-up keeps its entry

  /** The two newest entries are a most recent part. */
  lemma NewestTwoAreRecentPart<V>(m: Entries<V>, d: Bytes, e: Bytes, newer: Entry<V>)
    requires d in m && d != e && m[d].lastUsed < newer.lastUsed
    requires forall k :: k in m && k != d ==> m[k].lastUsed < m[d].lastUsed
    ensures RecentPart(m[e := newer], map[d := m[d], e := newer])
  {
  }

  lemma NewestTwoSurviveTrim<V>(m: Entries<V>, d: Bytes, e: Bytes, newer: Entry<V>, fits: Entries<V> -> bool)
    requires d in m && d != e && m[d].lastUsed < newer.lastUsed
    requires forall k :: k in m && k != d ==> m[k].lastUsed < m[d].lastUsed
    requires fits(map[d := m[d], e := newer])
    ensures var r := Trim(m[e := newer], fits); d in r && r[d] == m[d] && e in r && r[e] == newer
  {
    var two := map[d := m[d], e := newer];
    NewestTwoAreRecentPart(m, d, e, newer);
    TrimIsLargestFit(m[e := newer], fits);
    assert d in two.Keys && e in two.Keys;
  }

  lemma PairSize<V>(d: Bytes, x: Entry<V>, e: Bytes, y: Entry<V>)
    requires d != e
    ensures |map[d := x, e := y]| == 2
  {
    assert map[d := x, e := y].Keys == {d, e};
  }

  lemma PairBytes(d: Bytes, x: Entry<Aot>, e: Bytes, y: Entry<Aot>)
    requires d != e
    ensures TotalBytes(map[d := x, e := y]) == |x.value.bytes| + |y.value.bytes|
  {
    TotalBytesInsert(map[d := x], e, y);
    SingleBytes(d, x);
    assert map[d := x][e := y] == map[d := x, e := y];
  }

  /** `d` was used at the last tick and nothing else was. */
  predicate JustUsed<V>(m: Entries<V>, d: Bytes, sequence: nat)
  {
    d in m && m[d].lastUsed == sequence && forall k :: k in m && k != d ==> m[k].lastUsed < sequence
  }

  lemma JustUsedSurvives(c: CacheState, d: Bytes, e: Bytes, v: Prepared)
    requires JustUsed(c.warm, d, c.sequence) && c.sequence < USIZE_MAX && d != e && c.limits.maxWarm >= 2
    ensures var r := Apply(c, InsertWarm(e, v)).warm; d in r && r[d] == c.warm[d] && e in r && r[e].value == v
  {
    var newer := Entry(v, Tick(c.sequence));
    PairSize(d, c.warm[d], e, newer);
    NewestTwoSurviveTrim(c.warm, d, e, newer, WarmFits(c.limits.maxWarm));
  }

  lemma JustUsedArtifactSurvives(c: CacheState, d: Bytes, e: Bytes, a: Aot)
    requires JustUsed(c.warmish, d, c.sequence) && c.sequence < USIZE_MAX && d != e && c.limits.maxWarmish >= 2
    requires |c.warmish[d].value.bytes| + |a.bytes| <= c.limits.maxWarmishBytes
    ensures var r := Apply(c, InsertWarmish(e, a)).warmish; d in r && r[d] == c.warmish[d] && e in r && r[e].value == a
  {
    var newer := Entry(a, Tick(c.sequence));
    PairSize(d, c.warmish[d], e, newer);
    PairBytes(d, c.warmish[d], e, newer);
    NewestTwoSurviveTrim(c.warmish, d, e, newer, WarmishFits(c.limits.maxWarmish, c.limits.maxWarmishBytes));
  }

  /** What was just looked up outlives the next insertion. */
  lemma LookedUpSurvives(c: CacheState, d: Bytes, e: Bytes, v: Prepared)
    requires Stamped(c.warm, c.sequence) && c.sequence + 1 < USIZE_MAX
    requires d in c.warm && d != e && c.limits.maxWarm >= 2
    ensures var r := Apply(Apply(c, Warm(d)), InsertWarm(e, v)).warm;
      d in r && r[d].value == c.warm[d].value && e in r && r[e].value == v
  {
    JustUsedSurvives(Apply(c, Warm(d)), d, e, v);
  }

  /** The same in the other tier, when the two artifacts fit together. */
  lemma LookedUpArtifactSurvives(c: CacheState, d: Bytes, e: Bytes, a: Aot)
    requires Stamped(c.warmish, c.sequence) && c.sequence + 1 < USIZE_MAX
    requires d in c.warmish && d != e && c.limits.maxWarmish >= 2
    requires |c.warmish[d].value.bytes| + |a.bytes| <= c.limits.maxWarmishBytes
    ensures var r := Apply(Apply(c, Warmish(d)), InsertWarmish(e, a)).warmish;
      d in r && r[d].value == c.warmish[d].value && e in r && r[e].value == a
  {
    JustUsedArtifactSurvives(Apply(c, Warmish(d)), d, e, a);
  }
}
