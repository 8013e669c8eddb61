/** An independent reference for both tiers: a list, most recently used first.  A hit moves its entry to the front, an
    insertion puts one there and drops entries from the back until the bounds hold, a demotion takes one out.  The two
    maps with their shared tick counter hold exactly what these lists hold (src/runtime.rs). */
module LruReference {
  import opened Bytes
  import opened Profiles
  import opened Recency
  import opened CacheSpec
  import Prepare

  type Lru<V> = seq<(Bytes, V)>

  function Without<V>(l: Lru<V>, d: Bytes): (r: Lru<V>)
  {
    if l == [] then [] else if l[0].0 == d then Without(l[1..], d) else [l[0]] + Without(l[1..], d)
  }

  lemma {:induction false} WithoutKeeps<V>(l: Lru<V>, d: Bytes)
    ensures forall x :: x in Without(l, d) ==> x in l && x.0 != d
    ensures forall x :: x in l && x.0 != d ==> x in Without(l, d)
  {
    if l != [] {
      WithoutKeeps(l[1..], d);
      assert l == [l[0]] + l[1..];
    }
  }

  function Find<V>(l: Lru<V>, d: Bytes): (r: Lru<V>)
  {
    if l == [] then [] else if l[0].0 == d then [l[0]] else Find(l[1..], d)
  }

  lemma {:induction false} FindFinds<V>(l: Lru<V>, d: Bytes)
    ensures if Find(l, d) == [] then forall x :: x in l ==> x.0 != d
            else |Find(l, d)| == 1 && Find(l, d)[0] in l && Find(l, d)[0].0 == d
  {
    if l != [] {
      FindFinds(l[1..], d);
      assert l == [l[0]] + l[1..];
    }
  }

  function Bytesum(l: Lru<Aot>): (n: nat)
  {
    if l == [] then 0 else |l[0].1.bytes| + Bytesum(l[1..])
  }

  /** Drop entries from the back until at most `entries` remain. */
  function Cut<V>(l: Lru<V>, entries: nat): (r: Lru<V>)
  {
    if |l| <= entries then l else l[..entries]
  }

  /** Drop entries from the back until both bounds hold. */
  function CutBytes(l: Lru<Aot>, entries: nat, bytes: nat): (r: Lru<Aot>)
  {
    if l == [] || (|l| <= entries && Bytesum(l) <= bytes) then l else CutBytes(l[..|l| - 1], entries, bytes)
  }

  datatype Lists = Lists(warm: Lru<Prepared>, warmish: Lru<Aot>)

  function Use(l: Lists, call: Call, limits: Limits): (r: Lists)
  {
    match call
    case Warm(d) => l.(warm := Find(l.warm, d) + Without(l.warm, d))
    case Warmish(d) => l.(warmish := Find(l.warmish, d) + Without(l.warmish, d))
    case InsertWarm(d, v) => l.(warm := Cut([(d, v)] + Without(l.warm, d), limits.maxWarm))
    case InsertWarmish(d, a) =>
      if |a.bytes| > limits.maxWarmishBytes then l
      else l.(warmish := CutBytes([(d, a)] + Without(l.warmish, d), limits.maxWarmish, limits.maxWarmishBytes))
    case Demote(d) => l.(warm := Without(l.warm, d))
  }

  function UseAll(calls: seq<Call>, limits: Limits): (l: Lists)
  {
    if calls == [] then Lists([], []) else Use(UseAll(calls[..|calls| - 1], limits), calls[|calls| - 1], limits)
  }

  // ---------------------------------------------------------------- a map that holds a list

  /** The entries of `l` are in `m`, stamped in order. */
  ghost predicate Ordered<V>(m: Entries<V>, l: Lru<V>)
  {
    l == [] ||
    (&& l[0].0 in m && m[l[0].0].value == l[0].1
     && (forall x :: x in l[1..] ==> x.0 in m && m[x.0].lastUsed < m[l[0].0].lastUsed)
     && Ordered(m, l[1..]))
  }

  ghost predicate Holds<V>(m: Entries<V>, l: Lru<V>)
  {
    Ordered(m, l) && forall k :: k in m ==> (k, m[k].value) in l
  }

  lemma {:induction false} OrderedMember<V>(m: Entries<V>, l: Lru<V>, x: (Bytes, V))
    requires Ordered(m, l) && x in l
    ensures x.0 in m && m[x.0].value == x.1
  {
    if x != l[0] { OrderedMember(m, l[1..], x); }
  }

  /** Order only depends on the entries that the list names. */
  lemma {:induction false} OrderedOn<V>(m: Entries<V>, n: Entries<V>, l: Lru<V>)
    requires Ordered(m, l) && forall x :: x in l ==> x.0 in n && x.0 in m && n[x.0] == m[x.0]
    ensures Ordered(n, l)
  {
    if l != [] {
      assert l[0] in l && forall x :: x in l[1..] ==> x in l;
      OrderedOn(m, n, l[1..]);
    }
  }

  lemma {:induction false} WithoutOrdered<V>(m: Entries<V>, l: Lru<V>, d: Bytes)
    requires Ordered(m, l)
    ensures Ordered(m, Without(l, d))
  {
    if l != [] {
      WithoutOrdered(m, l[1..], d);
      WithoutKeeps(l[1..], d);
      var rest := Without(l[1..], d);
      assert ([l[0]] + rest)[1..] == rest;
    }
  }

  lemma TakenOut<V>(m: Entries<V>, l: Lru<V>, d: Bytes)
    requires Holds(m, l)
    ensures Holds(m - {d}, Without(l, d))
  {
    WithoutOrdered(m, l, d);
    WithoutKeeps(l, d);
    forall x | x in Without(l, d) ensures x.0 in m - {d} { OrderedMember(m, l, x); }
    OrderedOn(m, m - {d}, Without(l, d));
  }

  /** A new or refreshed entry goes to the front. */
  lemma PutInFront<V>(m: Entries<V>, l: Lru<V>, d: Bytes, e: Entry<V>)
    requires Holds(m, l) && forall k :: k in m ==> m[k].lastUsed < e.lastUsed
    ensures Holds(m[d := e], [(d, e.value)] + Without(l, d))
  {
    TakenOut(m, l, d);
    var rest, n := Without(l, d), m[d := e];
    forall x | x in rest ensures x.0 in n && x.0 in m - {d} && n[x.0] == (m - {d})[x.0] {
      OrderedMember(m - {d}, rest, x);
    }
    OrderedOn(m - {d}, n, rest);
    assert ([(d, e.value)] + rest)[1..] == rest;
    forall k | k in n ensures (k, n[k].value) in [(d, e.value)] + rest {
      if k != d { assert k in m - {d}; }
    }
  }

  lemma DropFront<V>(m: Entries<V>, l: Lru<V>)
    requires Holds(m, l) && l != []
    ensures Holds(m - {l[0].0}, l[1..])
  {
    var d := l[0].0;
    forall x | x in l[1..] ensures x.0 in m - {d} {}
    OrderedOn(m, m - {d}, l[1..]);
  }

  lemma {:induction false} HeldSize<V>(m: Entries<V>, l: Lru<V>)
    requires Holds(m, l)
    ensures |m| == |l|
    decreases |l|
  {
    if l == [] {
      assert m.Keys == {};
    } else {
      var d := l[0].0;
      DropFront(m, l);
      RemoveShrinks(m, d);
      HeldSize(m - {d}, l[1..]);
    }
  }

  lemma {:induction false} HeldBytes(m: Entries<Aot>, l: Lru<Aot>)
    requires Holds(m, l)
    ensures TotalBytes(m) == Bytesum(l)
    decreases |l|
  {
    if l == [] {
      assert m == map[];
    } else {
      DropFront(m, l);
      TotalBytesRemove(m, l[0].0);
      HeldBytes(m - {l[0].0}, l[1..]);
    }
  }

  lemma {:induction false} OrderedPrefix<V>(m: Entries<V>, l: Lru<V>, n: nat)
    requires Ordered(m, l) && n <= |l|
    ensures Ordered(m, l[..n])
  {
    if n > 0 {
      OrderedPrefix(m, l[1..], n - 1);
      assert l[..n][1..] == l[1..][..n - 1];
    }
  }

  /** The last of the list is older than all others. */
  lemma {:induction false} LastIsOldest<V>(m: Entries<V>, l: Lru<V>, x: (Bytes, V))
    requires Ordered(m, l) && l != [] && x in l[..|l| - 1]
    ensures x.0 in m && l[|l| - 1].0 in m && m[l[|l| - 1].0].lastUsed < m[x.0].lastUsed
  {
    var last := l[|l| - 1];
    assert last in l[1..];
    if x != l[0] {
      assert x in l[1..][..|l[1..]| - 1];
      LastIsOldest(m, l[1..], x);
    }
  }

  /** What is evicted first is the back of the list. */
  lemma DropBack<V>(m: Entries<V>, l: Lru<V>)
    requires Holds(m, l) && l != []
    ensures m != map[] && LeastRecent(m) == l[|l| - 1].0 && Holds(m - {LeastRecent(m)}, l[..|l| - 1])
  {
    var last, init := l[|l| - 1], l[..|l| - 1];
    OrderedMember(m, l, last);
    forall k | k in m && k != last.0 ensures Before(m, last.0, k) {
      assert (k, m[k].value) in init by { assert l == init + [last]; }
      LastIsOldest(m, l, (k, m[k].value));
    }
    LeastRecentUnique(m, last.0);
    OrderedPrefix(m, l, |l| - 1);
    forall x | x in init ensures x.0 in m - {last.0} { LastIsOldest(m, l, x); }
    OrderedOn(m, m - {last.0}, init);
    forall k | k in m - {last.0} ensures (k, m[k].value) in init { assert l == init + [last]; }
  }

  // ---------------------------------------------------------------- evictions cut the list

  lemma CutAgain<V>(l: Lru<V>, entries: nat)
    requires |l| > entries
    ensures Cut(l, entries) == Cut(l[..|l| - 1], entries)
  {
    assert l[..|l| - 1][..entries] == l[..entries];
  }

  lemma {:induction false} TrimCuts(m: Entries<Prepared>, l: Lru<Prepared>, entries: nat)
    requires Holds(m, l)
    ensures Holds(Trim(m, WarmFits(entries)), Cut(l, entries))
    decreases |l|
  {
    HeldSize(m, l);
    if |l| > entries {
      DropBack(m, l);
      CutAgain(l, entries);
      TrimCuts(m - {LeastRecent(m)}, l[..|l| - 1], entries);
    }
  }

  lemma {:induction false} TrimCutsBytes(m: Entries<Aot>, l: Lru<Aot>, entries: nat, bytes: nat)
    requires Holds(m, l)
    ensures Holds(Trim(m, WarmishFits(entries, bytes)), CutBytes(l, entries, bytes))
    decreases |l|
  {
    HeldSize(m, l);
    HeldBytes(m, l);
    if l != [] && !(|l| <= entries && Bytesum(l) <= bytes) {
      DropBack(m, l);
      TrimCutsBytes(m - {LeastRecent(m)}, l[..|l| - 1], entries, bytes);
    } else {
      assert l == [] ==> m == map[];
    }
  }

  // ---------------------------------------------------------------- the tiers are the lists

  ghost predicate Same(c: CacheState, l: Lists)
  {
    && Holds(c.warm, l.warm) && Holds(c.warmish, l.warmish)
    && Stamped(c.warm, c.sequence) && Stamped(c.warmish, c.sequence)
  }

  /** A look-up of an entry that is there moves it to the front; any other leaves the list as it is. */
  lemma Looked<V>(m: Entries<V>, l: Lru<V>, d: Bytes, tick: nat)
    requires Holds(m, l) && forall k :: k in m ==> m[k].lastUsed < tick
    ensures Holds(Touch(m, d, tick), Find(l, d) + Without(l, d))
  {
    FindFinds(l, d);
    if d in m {
      PutInFront(m, l, d, m[d].(lastUsed := tick));
      var hit := Find(l, d);
      assert (d, m[d].value) in l;
      OrderedMember(m, l, hit[0]);
      assert hit == [(d, m[d].value)];
    } else {
      TakenOut(m, l, d);
      assert m - {d} == m;
      forall x | x in l ensures x.0 != d { OrderedMember(m, l, x); }
      assert Find(l, d) + Without(l, d) == Without(l, d);
    }
  }

  lemma InsertsWarm(m: Entries<Prepared>, l: Lru<Prepared>, d: Bytes, e: Entry<Prepared>, entries: nat)
    requires Holds(m, l) && forall k :: k in m ==> m[k].lastUsed < e.lastUsed
    ensures Holds(Trim(m[d := e], WarmFits(entries)), Cut([(d, e.value)] + Without(l, d), entries))
  {
    PutInFront(m, l, d, e);
    TrimCuts(m[d := e], [(d, e.value)] + Without(l, d), entries);
  }

  lemma InsertsWarmish(m: Entries<Aot>, l: Lru<Aot>, d: Bytes, e: Entry<Aot>, entries: nat, bytes: nat)
    requires Holds(m, l) && forall k :: k in m ==> m[k].lastUsed < e.lastUsed
    ensures Holds(Trim(m[d := e], WarmishFits(entries, bytes)),
                  CutBytes([(d, e.value)] + Without(l, d), entries, bytes))
  {
    PutInFront(m, l, d, e);
    TrimCutsBytes(m[d := e], [(d, e.value)] + Without(l, d), entries, bytes);
  }

  lemma UseKeepsWarm(c: CacheState, l: Lists, call: Call)
    requires Holds(c.warm, l.warm) && Stamped(c.warm, c.sequence) && c.sequence < USIZE_MAX
    ensures Holds(Apply(c, call).warm, Use(l, call, c.limits).warm)
  {
    var tick := Tick(c.sequence);
    match call
    case Warm(d) => Looked(c.warm, l.warm, d, tick);
    case InsertWarm(d, v) => InsertsWarm(c.warm, l.warm, d, Entry(v, tick), c.limits.maxWarm);
    case Demote(d) => TakenOut(c.warm, l.warm, d);
    case _ =>
  }

  lemma UseKeepsWarmish(c: CacheState, l: Lists, call: Call)
    requires Holds(c.warmish, l.warmish) && Stamped(c.warmish, c.sequence) && c.sequence < USIZE_MAX
    ensures Holds(Apply(c, call).warmish, Use(l, call, c.limits).warmish)
  {
    var tick := Tick(c.sequence);
    match call
    case Warmish(d) => Looked(c.warmish, l.warmish, d, tick);
    case InsertWarmish(d, a) =>
      InsertsWarmish(c.warmish, l.warmish, d, Entry(a, tick), c.limits.maxWarmish, c.limits.maxWarmishBytes);
    case _ =>
  }

  lemma UseKeepsSame(c: CacheState, l: Lists, call: Call)
    requires Same(c, l) && c.sequence < USIZE_MAX
    ensures Same(Apply(c, call), Use(l, call, c.limits))
  {
    ApplyStamped(c, call);
    UseKeepsWarm(c, l, call);
    UseKeepsWarmish(c, l, call);
  }

  /** Within 2^64 calls, after every sequence of calls both maps hold exactly what the lists hold. */
  lemma {:induction false} ReplayIsLru(limits: Limits, calls: seq<Call>)
    requires |calls| <= USIZE_MAX
    ensures Same(Replay(Empty(limits), calls), UseAll(calls, limits)) && Replay(Empty(limits), calls).limits == limits
  {
    if calls != [] {
      var init := calls[..|calls| - 1];
      ReplayIsLru(limits, init);
      ReplayStamped(limits, init);
      UseKeepsSame(Replay(Empty(limits), init), UseAll(init, limits), calls[|calls| - 1]);
    }
  }

  lemma HeldIffFound<V>(m: Entries<V>, l: Lru<V>, d: Bytes)
    requires Holds(m, l)
    ensures d in m <==> Find(l, d) != []
  {
    FindFinds(l, d);
    if d in m { assert (d, m[d].value) in l; }
    if Find(l, d) != [] { OrderedMember(m, l, Find(l, d)[0]); }
  }

  /** Asking for the tier of a digest uses it: in the warm list, and after a miss there in the other. */
  lemma TierIsUse(c: CacheState, l: Lists, d: Bytes)
    requires Same(c, l) && c.sequence + 1 < USIZE_MAX
    ensures var looked := Use(l, Warm(d), c.limits);
      Same(Prepare.Tier(c, d), if Find(l.warm, d) != [] then looked else Use(looked, Warmish(d), c.limits))
  {
    HeldIffFound(c.warm, l.warm, d);
    UseKeepsSame(c, l, Warm(d));
    ApplyStamped(c, Warm(d));
    UseKeepsSame(Apply(c, Warm(d)), Use(l, Warm(d), c.limits), Warmish(d));
  }
}
