/** Least-recently-used maps: the total order on entries, the least recent entry, and trimming a map
    from its least recent end until it fits (src/runtime.rs, `CacheEntry` and `least_recent`). */
module Recency {
  import opened Bytes
  import opened Wrappers

  datatype Entry<+V> = Entry(value: V, lastUsed: nat)

  type Entries<V> = map<Bytes, Entry<V>>

  /** The order of `min_by_key(|(key, entry)| (entry.last_used, key))`. */
  predicate Before<V>(m: Entries<V>, a: Bytes, b: Bytes)
    requires a in m && b in m
  {
    m[a].lastUsed < m[b].lastUsed || (m[a].lastUsed == m[b].lastUsed && Less(a, b))
  }

  lemma BeforeAsymmetric<V>(m: Entries<V>, a: Bytes, b: Bytes)
    requires a in m && b in m && Before(m, a, b)
    ensures !Before(m, b, a) && a != b
  {
    LessIrreflexive(a);
    if Less(a, b) && Less(b, a) { LessTransitive(a, b, a); }
  }

  lemma BeforeTransitive<V>(m: Entries<V>, a: Bytes, b: Bytes, c: Bytes)
    requires a in m && b in m && c in m && Before(m, a, b) && Before(m, b, c)
    ensures Before(m, a, c)
  {
    if Less(a, b) && Less(b, c) { LessTransitive(a, b, c); }
  }

  ghost predicate IsLeastRecent<V>(m: Entries<V>, k: Bytes)
  {
    k in m && forall j :: j in m && j != k ==> Before(m, k, j)
  }

  /** `least_recent`: one pass over the keys in whatever order the hash map yields them. */
  method FindLeastRecent<V>(m: Entries<V>) returns (least: Option<Bytes>)
    ensures least.None? <==> m == map[]
    ensures least.Some? ==> IsLeastRecent(m, least.value)
  {
    least := None;
    var rest := m.Keys;
    while rest != {}
      invariant rest <= m.Keys
      invariant least.None? <==> rest == m.Keys
      invariant least.Some? ==> least.value in m.Keys - rest
      invariant least.Some? ==> forall j :: j in m.Keys - rest && j != least.value ==> Before(m, least.value, j)
    {
      var key :| key in rest;
      if least.None? {
        least := Some(key);
      } else {
        var previous := least.value;
        LessTotal(key, previous);
        if Before(m, key, previous) {
          forall j | j in m.Keys - rest && j != previous ensures Before(m, key, j) {
            BeforeTransitive(m, key, previous, j);
          }
          least := Some(key);
        }
      }
      rest := rest - {key};
    }
  }

  lemma LeastRecentExists<V>(m: Entries<V>) returns (k: Bytes)
    requires m != map[]
    ensures IsLeastRecent(m, k)
    decreases |m|
  {
    var j :| j in m;
    var rest := m - {j};
    if rest == map[] {
      k := j;
      assert m.Keys - {j} == rest.Keys == {};
      assert forall i :: i in m && i != j ==> i in m.Keys - {j};
    } else {
      assert |rest| < |m| by { assert rest.Keys == m.Keys - {j}; }
      k := LeastRecentExists(rest);
      LessTotal(j, k);
      if Before(m, j, k) {
        forall i | i in m && i != j && i != k ensures Before(m, j, i) {
          assert i in rest;
          BeforeTransitive(m, j, k, i);
        }
        k := j;
      } else {
        forall i | i in m && i != k ensures Before(m, k, i) {
          if i != j { assert i in rest; }
        }
      }
    }
  }

  ghost function LeastRecent<V>(m: Entries<V>): (k: Bytes)
    requires m != map[]
    ensures IsLeastRecent(m, k)
  {
    assert exists k :: IsLeastRecent(m, k) by { var k := LeastRecentExists(m); }
    var k :| IsLeastRecent(m, k);
    k
  }

  lemma LeastRecentUnique<V>(m: Entries<V>, k: Bytes)
    requires IsLeastRecent(m, k)
    ensures m != map[] && LeastRecent(m) == k
  {
    var l := LeastRecent(m);
    if l != k { BeforeAsymmetric(m, k, l); }
  }

  lemma RemoveShrinks<V>(m: Entries<V>, k: Bytes)
    requires k in m
    ensures |m - {k}| == |m| - 1
  {
    assert (m - {k}).Keys == m.Keys - {k};
  }

  lemma InsertGrows<V>(m: Entries<V>, k: Bytes, e: Entry<V>)
    ensures |m[k := e]| == |m| + (if k in m then 0 else 1)
  {
    assert m[k := e].Keys == m.Keys + {k};
  }

  /** `part` is what is left of `whole` once everything older than some point is dropped. */
  ghost predicate RecentPart<V>(whole: Entries<V>, part: Entries<V>)
  {
    && (forall k :: k in part ==> k in whole && part[k] == whole[k])
    && (forall gone, kept :: gone in whole && gone !in part && kept in part ==> Before(whole, gone, kept))
  }

  /** Drop least recent entries until the map fits. */
  ghost function Trim<V>(m: Entries<V>, fits: Entries<V> -> bool): (r: Entries<V>)
    decreases |m|
  {
    if fits(m) || m == map[] then m
    else
      var k := LeastRecent(m);
      RemoveShrinks(m, k);
      Trim(m - {k}, fits)
  }

  lemma RecentPartOfTail<V>(m: Entries<V>, part: Entries<V>)
    requires m != map[] && RecentPart(m, part) && part != m
    ensures RecentPart(m - {LeastRecent(m)}, part)
  {
    var k := LeastRecent(m);
    if k in part {
      assert part.Keys != m.Keys;
      var e :| e in m && e !in part;
      BeforeAsymmetric(m, k, e);
    }
    var tail := m - {k};
    forall gone, kept | gone in tail && gone !in part && kept in part ensures Before(tail, gone, kept) {
      assert Before(m, gone, kept);
    }
  }

  lemma TailIsRecentPart<V>(m: Entries<V>, part: Entries<V>)
    requires m != map[] && RecentPart(m - {LeastRecent(m)}, part)
    ensures RecentPart(m, part)
  {
    var tail := m - {LeastRecent(m)};
    forall gone, kept | gone in m && gone !in part && kept in part ensures Before(m, gone, kept) {
      if gone in tail { assert Before(tail, gone, kept); }
    }
  }

  /** Trimming only removes entries. */
  lemma {:induction false} TrimOnlyRemoves<V>(m: Entries<V>, fits: Entries<V> -> bool)
    ensures forall k :: k in Trim(m, fits) ==> k in m && Trim(m, fits)[k] == m[k]
    decreases |m|
  {
    if !fits(m) && m != map[] {
      RemoveShrinks(m, LeastRecent(m));
      TrimOnlyRemoves(m - {LeastRecent(m)}, fits);
    }
  }

  /** Trimming keeps a most recent part that fits, and every most recent part that fits is inside it:
      the evicted entries are the shortest least recent run whose removal restores the bounds. */
  lemma {:induction false} TrimIsLargestFit<V>(m: Entries<V>, fits: Entries<V> -> bool)
    ensures RecentPart(m, Trim(m, fits))
    ensures fits(Trim(m, fits)) || Trim(m, fits) == map[]
    ensures forall part :: RecentPart(m, part) && fits(part) ==> part.Keys <= Trim(m, fits).Keys
    decreases |m|
  {
    if !fits(m) && m != map[] {
      var k := LeastRecent(m);
      RemoveShrinks(m, k);
      TrimIsLargestFit(m - {k}, fits);
      TailIsRecentPart(m, Trim(m - {k}, fits));
      forall part | RecentPart(m, part) && fits(part) ensures part.Keys <= Trim(m, fits).Keys {
        RecentPartOfTail(m, part);
      }
    }
  }
}
