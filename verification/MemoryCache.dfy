/** `MemoryCache` as the runtime runs it: two maps, a byte counter and a tick counter updated in place,
    proved against the calls of CacheSpec. */
module MemoryCacheImpl {
  import opened Bytes
  import opened Wrappers
  import opened Profiles
  import opened Recency
  import opened CacheSpec
  import opened CountedCache

  class MemoryCache {
    var warm: Entries<Prepared>
    var warmish: Entries<Aot>
    var warmishBytes: nat
    var sequence: nat
    const limits: Limits

    ghost function State(): (c: CacheState)
      reads this
    {
      CacheState(warm, warmish, sequence, limits)
    }

    /** The byte counter is the sum of the retained lengths; the byte limit is a `usize`. */
    ghost predicate Valid()
      reads this
    {
      && warmishBytes == TotalBytes(warmish)
      && WithinLimits(State())
      && limits.maxWarmishBytes <= USIZE_MAX
    }

    /** The counter can hold what would be retained right after this insertion. */
    ghost predicate Countable(digest: Bytes, aot: Aot)
      reads this
    {
      |aot.bytes| <= limits.maxWarmishBytes ==> TotalBytes(warmish[digest := Entry(aot, Tick(sequence))]) <= USIZE_MAX
    }

    constructor (limits: Limits)
      requires limits.maxWarmishBytes <= USIZE_MAX
      ensures Valid() && State() == Empty(limits)
    {
      this.limits := limits;
      warm, warmish := map[], map[];
      warmishBytes, sequence := 0, 0;
    }

    method NextTick() returns (tick: nat)
      modifies this`sequence
      ensures tick == sequence == Tick(old(sequence))
    {
      var wrapped := if sequence >= USIZE_MAX then 0 else sequence + 1;
      sequence := if wrapped < 1 then 1 else wrapped;
      tick := sequence;
    }

    method LookupWarm(digest: Bytes) returns (found: Option<Prepared>)
      requires Valid()
      modifies this
      ensures Valid() && State() == Apply(old(State()), Warm(digest))
      ensures found == if digest in old(warm) then Some(old(warm)[digest].value) else None
    {
      ApplyWithinLimits(State(), Warm(digest));
      var tick := NextTick();
      if digest !in warm { return None; }
      warm := warm[digest := warm[digest].(lastUsed := tick)];
      found := Some(warm[digest].value);
    }

    method TouchWarmish(digest: Bytes, tick: nat) returns (found: Option<Aot>)
      modifies this`warmish
      ensures warmish == Touch(old(warmish), digest, tick)
      ensures found == if digest in old(warmish) then Some(old(warmish)[digest].value) else None
    {
      if digest !in warmish { return None; }
      warmish := warmish[digest := warmish[digest].(lastUsed := tick)];
      found := Some(warmish[digest].value);
    }

    method LookupWarmish(digest: Bytes) returns (found: Option<Aot>)
      requires Valid()
      modifies this
      ensures Valid() && State() == Apply(old(State()), Warmish(digest))
      ensures found == if digest in old(warmish) then Some(old(warmish)[digest].value) else None
    {
      ApplyWithinLimits(State(), Warmish(digest));
      TouchKeepsBytes(warmish, digest, Tick(sequence));
      var tick := NextTick();
      found := TouchWarmish(digest, tick);
    }

    /** The eviction loop of `insert_warm`. */
    method EvictWarm()
      modifies this`warm
      ensures warm == Trim(old(warm), WarmFits(limits.maxWarm))
    {
      ghost var inserted := warm;
      while |warm| > limits.maxWarm
        modifies this`warm
        invariant Trim(warm, WarmFits(limits.maxWarm)) == Trim(inserted, WarmFits(limits.maxWarm))
        decreases |warm|
      {
        var key := FindLeastRecent(warm);
        if key.Some? {
          LeastRecentUnique(warm, key.value);
          RemoveShrinks(warm, key.value);
          warm := warm - {key.value};
        }
      }
    }

    method InsertWarmEntry(digest: Bytes, prepared: Prepared)
      requires Valid()
      modifies this
      ensures Valid() && State() == Apply(old(State()), InsertWarm(digest, prepared))
    {
      ApplyWithinLimits(State(), InsertWarm(digest, prepared));
      var tick := NextTick();
      warm := warm[digest := Entry(prepared, tick)];
      EvictWarm();
    }

    /** The replacement and the two saturating updates of `insert_warmish`. */
    method AddWarmish(digest: Bytes, entry: Entry<Aot>)
      modifies this`warmish, this`warmishBytes
      ensures warmish == old(warmish)[digest := entry]
      ensures warmishBytes == CountAfter(old(warmish), old(warmishBytes), digest, entry)
    {
      if digest in warmish {
        warmishBytes := SaturatingSub(warmishBytes, |warmish[digest].value.bytes|);
      }
      warmish := warmish[digest := entry];
      warmishBytes := SaturatingAdd(warmishBytes, |entry.value.bytes|);
    }

    /** The eviction loop of `insert_warmish`, from any value of the counter. */
    method EvictWarmish()
      modifies this`warmish, this`warmishBytes
      ensures (warmish, warmishBytes) == EvictCounted(old(warmish), old(warmishBytes), limits)
    {
      while |warmish| > limits.maxWarmish || warmishBytes > limits.maxWarmishBytes
        modifies this`warmish, this`warmishBytes
        invariant EvictCounted(warmish, warmishBytes, limits) == EvictCounted(old(warmish), old(warmishBytes), limits)
        decreases |warmish|
      {
        var key := FindLeastRecent(warmish);
        if key.None? { break; }
        LeastRecentUnique(warmish, key.value);
        RemoveShrinks(warmish, key.value);
        warmishBytes := SaturatingSub(warmishBytes, |warmish[key.value].value.bytes|);
        warmish := warmish - {key.value};
      }
    }

    /** `insert_warmish`: the state it leaves whatever the counter does; while the counter can hold what is retained
        right after the insertion this is the specified insertion with an exact counter, and before the tick counter
        wraps, only then. */
    method InsertWarmishEntry(digest: Bytes, aot: Aot)
      requires Valid()
      modifies this
      ensures (State(), warmishBytes) == ApplyCounted(old(State()), old(warmishBytes), InsertWarmish(digest, aot))
      ensures old(Countable(digest, aot)) ==> Valid() && State() == Apply(old(State()), InsertWarmish(digest, aot))
      ensures old(Stamped(warmish, sequence)) && old(sequence) < USIZE_MAX && limits.maxWarmish > 0 ==>
        (Valid() <==> old(Countable(digest, aot)))
    {
      InsertionCounts(State(), digest, aot);
      if |aot.bytes| > limits.maxWarmishBytes { return; }
      var tick := NextTick();
      AddWarmish(digest, Entry(aot, tick));
      EvictWarmish();
    }

    method DemoteEntry(digest: Bytes)
      requires Valid()
      modifies this
      ensures Valid() && State() == Apply(old(State()), Demote(digest))
    {
      ApplyWithinLimits(State(), Demote(digest));
      warm := warm - {digest};
    }
  }
}
