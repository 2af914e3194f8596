/**
 * The abstract state of CacheService: an access-ordered LinkedHashMap with a size
 * bound. `order` lists the keys from least to most recently used (the map's
 * iteration order), `values` maps each key to its cached string. Every function
 * here is the specification of one CacheService operation; the class in module
 * Cache is proved to change its state exactly as these say.
 */
module LruModel {
  import opened Wrappers
  import opened JavaText

  datatype Lru = Lru(maxSize: int, order: seq<string>, values: map<string, string>)

  predicate Distinct(s: seq<string>)
  {
    forall i, j :: 0 <= i < j < |s| ==> s[i] != s[j]
  }

  /** Keys are unique and are exactly the mapped ones. */
  ghost predicate WellFormed(c: Lru)
  {
    Distinct(c.order) && (forall k :: k in c.values <==> k in c.order)
  }

  /** What a CacheService keeps at rest: well formed and never more than maxSize entries. */
  ghost predicate Valid(c: Lru)
  {
    WellFormed(c) && 0 <= c.maxSize && |c.order| <= c.maxSize
  }

  /**
   * `r` keeps the elements of `s` it keeps in their relative order (greedy match
   * from the back).
   */
  predicate Subsequence(r: seq<string>, s: seq<string>)
    decreases |s|
  {
    if r == [] then true
    else if s == [] then false
    else if r[|r| - 1] == s[|s| - 1] then Subsequence(r[..|r| - 1], s[..|s| - 1])
    else Subsequence(r, s[..|s| - 1])
  }

  /** evict(): the first entry in access order, the least recently used, goes; nothing happens to an empty map. */
  function Evicted(c: Lru): (r: Lru)
    ensures r.maxSize == c.maxSize
    ensures c.order == [] ==> r == c
    ensures c.order != [] ==> r.order == c.order[1..]
    ensures c.order != [] ==> forall k :: k in r.values <==> k in c.values && k != c.order[0]
    ensures forall k :: k in r.values ==> k in c.values && r.values[k] == c.values[k]
    ensures WellFormed(c) ==> WellFormed(r)
  {
    if c.order == [] then c
    else
      var r := Lru(c.maxSize, c.order[1..], c.values - {c.order[0]});
      assert WellFormed(c) ==> forall k :: k in r.order <==> k in c.order && k != c.order[0] by {
        if WellFormed(c) {
          forall k ensures k in r.order <==> k in c.order && k != c.order[0] {
            if k in c.order && k != c.order[0] {
              var i :| 0 <= i < |c.order| && c.order[i] == k;
              assert r.order[i - 1] == k;
            }
          }
        }
      }
      r
  }

  /**
   * performCacheCleanup(): evict while size() >= maxSize. With maxSize >= 1 this
   * ends below maxSize, having dropped only the oldest entries.
   */
  function CleanedUp(c: Lru): (r: Lru)
    requires c.maxSize >= 1
    ensures r.maxSize == c.maxSize
    ensures |r.order| < c.maxSize
    ensures |c.order| < c.maxSize ==> r == c
    ensures |c.order| >= c.maxSize ==> |r.order| == c.maxSize - 1
    ensures r.order == c.order[|c.order| - |r.order|..]
    ensures forall k :: k in r.values ==> k in c.values && r.values[k] == c.values[k]
    ensures WellFormed(c) ==> WellFormed(r)
    decreases |c.order|
  {
    if |c.order| >= c.maxSize then
      var e := Evicted(c);
      var r := CleanedUp(e);
      assert r.order == c.order[|c.order| - |r.order|..] by {
        assert e.order == c.order[1..];
      }
      r
    else c
  }

  /** `s` with `k` taken out, the others in their order. */
  function Without(s: seq<string>, k: string): (r: seq<string>)
    ensures forall x :: x in r <==> x in s && x != k
    ensures |r| <= |s|
    ensures k !in s ==> r == s
  {
    if s == [] then []
    else
      var init := s[..|s| - 1];
      var last := s[|s| - 1];
      assert s == init + [last];
      if last == k then Without(init, k) else Without(init, k) + [last]
  }

  /** Appending a key not yet present keeps a list of keys unique. */
  lemma DistinctAppend(w: seq<string>, x: string)
    requires Distinct(w) && x !in w
    ensures Distinct(w + [x])
  {
    var r := w + [x];
    forall i, j | 0 <= i < j < |r| ensures r[i] != r[j] {
      assert r[i] == w[i];
      if j == |w| {
        assert w[i] in w;
      } else {
        assert r[j] == w[j];
      }
    }
  }

  /** The last element of a list of unique keys does not occur before it. */
  lemma LastNotBefore(s: seq<string>)
    requires s != [] && Distinct(s)
    ensures s[|s| - 1] !in s[..|s| - 1] && Distinct(s[..|s| - 1])
  {
    var init := s[..|s| - 1];
    forall i | 0 <= i < |init| ensures init[i] != s[|s| - 1] {
      assert init[i] == s[i];
    }
  }

  /** Taking one key out keeps the rest in their relative order. */
  lemma {:induction false} WithoutKeepsOrder(s: seq<string>, k: string)
    ensures Subsequence(Without(s, k), s)
  {
    if s != [] {
      var init := s[..|s| - 1];
      var last := s[|s| - 1];
      assert s == init + [last];
      WithoutKeepsOrder(init, k);
      var w := Without(init, k);
      if last == k {
        if w != [] {
          assert w[|w| - 1] in w;
        }
      } else {
        var r := w + [last];
        assert r[..|r| - 1] == w;
      }
    }
  }

  /** Taking one present key out of a list of unique keys keeps the rest unique and drops exactly one. */
  lemma {:induction false} WithoutKeepsDistinct(s: seq<string>, k: string)
    requires Distinct(s)
    ensures Distinct(Without(s, k))
    ensures k in s ==> |Without(s, k)| == |s| - 1
  {
    if s != [] {
      var init := s[..|s| - 1];
      var last := s[|s| - 1];
      assert s == init + [last];
      LastNotBefore(s);
      WithoutKeepsDistinct(init, k);
      if last != k {
        DistinctAppend(Without(init, k), last);
      }
    }
  }

  /** `s` with `k` moved to (or added at) the most recently used end. */
  function MovedToEnd(s: seq<string>, k: string): (r: seq<string>)
    ensures forall x :: x in r <==> x in s || x == k
    ensures r != [] && r[|r| - 1] == k
    ensures r[..|r| - 1] == Without(s, k)
    ensures Subsequence(r[..|r| - 1], s)
    ensures Distinct(s) ==> Distinct(r)
    ensures Distinct(s) ==> |r| == if k in s then |s| else |s| + 1
  {
    var w := Without(s, k);
    var r := w + [k];
    assert r[..|r| - 1] == w;
    WithoutKeepsOrder(s, k);
    if Distinct(s) then
      WithoutKeepsDistinct(s, k);
      DistinctAppend(w, k);
      r
    else r
  }

  /** The results of getElement: the value or null, and the state after the call. */
  datatype Lookup = Lookup(value: Option<string>, after: Lru)

  /**
   * getElement(key): cleanup first, then LinkedHashMap.get, which on a hit moves the
   * key to most recently used and leaves the others in their order.
   */
  function Read(c: Lru, k: string): (r: Lookup)
    requires c.maxSize >= 1
    ensures r.after.maxSize == c.maxSize
    ensures r.value.Some? <==> k in CleanedUp(c).values
    ensures r.value.Some? ==> k in c.values && r.value.value == c.values[k]
    ensures r.value.None? ==> r.after == CleanedUp(c)
    ensures r.value.Some? ==> r.after.values == CleanedUp(c).values
    ensures r.value.Some? ==> r.after.order != [] && r.after.order[|r.after.order| - 1] == k
    ensures r.value.Some? ==> r.after.order[..|r.after.order| - 1] == Without(CleanedUp(c).order, k)
    ensures WellFormed(c) ==> Valid(r.after) && |r.after.order| < c.maxSize
  {
    var d := CleanedUp(c);
    if k in d.values then Lookup(Some(d.values[k]), Lru(d.maxSize, MovedToEnd(d.order, k), d.values))
    else Lookup(None, d)
  }

  /**
   * putElement(key, value): cleanup first, then LinkedHashMap.put, which inserts or
   * overwrites and makes the key most recently used.
   */
  function Written(c: Lru, k: string, v: string): (r: Lru)
    requires c.maxSize >= 1
    ensures r.maxSize == c.maxSize
    ensures k in r.values && r.values[k] == v
    ensures r.order != [] && r.order[|r.order| - 1] == k
    ensures r.order[..|r.order| - 1] == Without(CleanedUp(c).order, k)
    ensures forall x :: x != k ==> (x in r.values <==> x in CleanedUp(c).values)
    ensures forall x :: x in r.values && x != k ==> r.values[x] == c.values[x]
    ensures WellFormed(c) ==> Valid(r)
  {
    var d := CleanedUp(c);
    Lru(d.maxSize, MovedToEnd(d.order, k), d.values[k := v])
  }

  /** `s` without the keys that start with `p`, the rest in their order. */
  function Keep(s: seq<string>, p: string): (r: seq<string>)
    ensures forall x :: x in r <==> x in s && !StartsWith(x, p)
    ensures |r| <= |s|
  {
    if s == [] then []
    else
      var init := s[..|s| - 1];
      var last := s[|s| - 1];
      assert s == init + [last];
      if StartsWith(last, p) then Keep(init, p) else Keep(init, p) + [last]
  }

  /** Filtering keeps the surviving keys unique and in their relative order. */
  lemma {:induction false} KeepKeepsOrder(s: seq<string>, p: string)
    ensures Subsequence(Keep(s, p), s)
  {
    if s != [] {
      var init := s[..|s| - 1];
      var last := s[|s| - 1];
      KeepKeepsOrder(init, p);
      var w := Keep(init, p);
      if StartsWith(last, p) {
        assert Keep(s, p) == w;
        if w != [] {
          assert w[|w| - 1] in w;
        }
      } else {
        var r := w + [last];
        assert Keep(s, p) == r;
        assert r[..|r| - 1] == w;
      }
    }
  }

  /** Filtering keeps a list of unique keys unique. */
  lemma {:induction false} KeepKeepsDistinct(s: seq<string>, p: string)
    ensures Distinct(s) ==> Distinct(Keep(s, p))
  {
    if s != [] && Distinct(s) {
      var init := s[..|s| - 1];
      var last := s[|s| - 1];
      LastNotBefore(s);
      KeepKeepsDistinct(init, p);
      if !StartsWith(last, p) {
        DistinctAppend(Keep(init, p), last);
      }
    }
  }

  /**
   * One step of filtering in place: `order` holds the survivors among the first `j`
   * keys of `s` followed by the keys not yet looked at, and index `i` points at the
   * next one. Removing it or stepping over it gives the same shape for `j + 1`.
   */
  lemma KeepStep(s: seq<string>, j: nat, p: string, order: seq<string>, i: nat)
    requires j < |s| && order == Keep(s[..j], p) + s[j..] && i == |Keep(s[..j], p)|
    ensures i < |order| && order[i] == s[j]
    ensures StartsWith(s[j], p) ==>
      order[..i] + order[i + 1..] == Keep(s[..j + 1], p) + s[j + 1..] && i == |Keep(s[..j + 1], p)|
    ensures !StartsWith(s[j], p) ==>
      order == Keep(s[..j + 1], p) + s[j + 1..] && i + 1 == |Keep(s[..j + 1], p)|
  {
    var k := Keep(s[..j], p);
    var t := s[..j + 1];
    assert t[..|t| - 1] == s[..j] && t[|t| - 1] == s[j];
    assert Keep(t, p) == if StartsWith(s[j], p) then k else k + [s[j]];
    assert s[j..] == [s[j]] + s[j + 1..];
    assert order == k + [s[j]] + s[j + 1..];
    assert order[..i] == k && order[i + 1..] == s[j + 1..];
  }

  /** The entries of `m` left once those of the keys in `seen` that start with `p` are gone. */
  function DroppedSeen(m: map<string, string>, seen: seq<string>, p: string): map<string, string>
  {
    map k | k in m && !(k in seen && StartsWith(k, p)) :: m[k]
  }

  /** Looking at one more key removes its entry exactly when it starts with `p`. */
  lemma DroppedSeenStep(m: map<string, string>, s: seq<string>, j: nat, p: string)
    requires j < |s|
    ensures DroppedSeen(m, s[..j + 1], p) ==
      if StartsWith(s[j], p) then DroppedSeen(m, s[..j], p) - {s[j]} else DroppedSeen(m, s[..j], p)
  {
    assert s[..j + 1] == s[..j] + [s[j]];
  }

  /** Once every key has been looked at, the filter in place has computed Invalidated. */
  lemma KeepAllDone(c: Lru, fileName: string)
    requires WellFormed(c)
    ensures Invalidated(c, fileName) == Lru(c.maxSize, Keep(c.order, fileName + ","), DroppedSeen(c.values, c.order, fileName + ","))
  {
  }

  /**
   * handleServerRemovalRequest(fileName): every entry whose key starts with
   * fileName + "," goes; the others keep their values and their recency order.
   */
  function Invalidated(c: Lru, fileName: string): (r: Lru)
    ensures r.maxSize == c.maxSize
    ensures forall k :: k in r.values <==> k in c.values && !StartsWith(k, fileName + ",")
    ensures forall k :: k in r.values ==> r.values[k] == c.values[k]
    ensures Subsequence(r.order, c.order) && |r.order| <= |c.order|
    ensures WellFormed(c) ==> WellFormed(r)
    ensures Valid(c) ==> Valid(r)
  {
    var p := fileName + ",";
    KeepKeepsOrder(c.order, p);
    KeepKeepsDistinct(c.order, p);
    Lru(c.maxSize, Keep(c.order, p), map k | k in c.values && !StartsWith(k, p) :: c.values[k])
  }

  /** The state after `n` calls of evict(). */
  function EvictTimes(c: Lru, n: nat): (r: Lru)
    ensures r.maxSize == c.maxSize
    decreases n
  {
    if n == 0 then c else EvictTimes(Evicted(c), n - 1)
  }

  lemma {:induction false} EvictTimesDrops(c: Lru, n: nat)
    ensures EvictTimes(c, n).order == c.order[if n < |c.order| then n else |c.order|..]
    decreases n
  {
    if n > 0 {
      EvictTimesDrops(Evicted(c), n - 1);
    }
  }

  /**
   * With maxSize <= 0 the cleanup loop never ends: its guard `size() >= maxSize`
   * holds after any number of evictions, and once the map is empty every further
   * evict() leaves the state as it was.
   */
  lemma CleanupNeverEndsWithoutCapacity(c: Lru, n: nat)
    requires c.maxSize <= 0
    ensures |EvictTimes(c, n).order| >= c.maxSize
    ensures n >= |c.order| ==> EvictTimes(c, n).order == [] && EvictTimes(c, n + 1) == EvictTimes(c, n)
  {
    EvictTimesDrops(c, n);
    if n >= |c.order| {
      EvictTimesAppend(c, n);
    }
  }

  lemma {:induction false} EvictTimesAppend(c: Lru, n: nat)
    ensures EvictTimes(c, n + 1) == Evicted(EvictTimes(c, n))
    decreases n
  {
    if n > 0 {
      EvictTimesAppend(Evicted(c), n - 1);
    }
  }

  /**
   * On a full cache the cleanup inside a read evicts the least recently used entry
   * before the lookup, so reading that entry's key misses.
   */
  lemma ReadOfEldestOnFullCacheMisses(c: Lru)
    requires WellFormed(c) && c.maxSize >= 1 && |c.order| == c.maxSize
    ensures Read(c, c.order[0]).value == None
    ensures Read(c, c.order[0]).after.order == c.order[1..]
  {
    var d := CleanedUp(c);
    assert d.order == c.order[1..];
    forall i | 0 <= i < |d.order| ensures d.order[i] != c.order[0] {
      assert d.order[i] == c.order[i + 1];
    }
  }

  /**
   * A write followed at once by a read of the same key returns the written value
   * when maxSize >= 2; with maxSize == 1 the read's own cleanup evicts it first.
   */
  lemma WriteThenRead(c: Lru, k: string, v: string)
    requires WellFormed(c) && c.maxSize >= 1
    ensures c.maxSize >= 2 ==> Read(Written(c, k, v), k).value == Some(v)
    ensures c.maxSize == 1 ==> Read(Written(c, k, v), k).value == None
  {
    var w := Written(c, k, v);
    assert Valid(w);
    if |w.order| == c.maxSize {
      ReadLatestOfFull(w, k);
    } else {
      ReadLatestWithRoom(w, k);
    }
  }

  /** In a full cache, the most recently used key survives a read's cleanup unless maxSize is 1. */
  lemma ReadLatestOfFull(w: Lru, k: string)
    requires WellFormed(w) && w.maxSize >= 1 && |w.order| == w.maxSize && w.order[|w.order| - 1] == k
    ensures Read(w, k).value == if w.maxSize >= 2 then Some(w.values[k]) else None
  {
    var d := CleanedUp(w);
    assert d.order == w.order[1..];
    if w.maxSize >= 2 {
      assert d.order[|d.order| - 1] == k;
    } else {
      assert d.order == [];
    }
  }

  /** The most recently used key of a well-formed cache survives a cleanup when maxSize >= 2. */
  lemma CleanupKeepsLatest(c: Lru)
    requires WellFormed(c) && c.maxSize >= 2 && c.order != []
    ensures c.order[|c.order| - 1] in CleanedUp(c).values
  {
    var d := CleanedUp(c);
    var n := |c.order| - |d.order|;
    assert d.order == c.order[n..];
    if |c.order| >= c.maxSize {
      assert d.order[|d.order| - 1] == c.order[|c.order| - 1];
    } else {
      assert d == c;
    }
  }

  /** With room left, reading a present key hits. */
  lemma ReadLatestWithRoom(w: Lru, k: string)
    requires WellFormed(w) && w.maxSize >= 1 && |w.order| < w.maxSize && k in w.values
    ensures Read(w, k).value == Some(w.values[k])
  {
    assert CleanedUp(w) == w;
  }

  /** A new key written while there is room is appended as most recently used; nothing is evicted. */
  lemma WriteWithRoomAppends(c: Lru, k: string, v: string)
    requires c.maxSize >= 1 && |c.order| < c.maxSize && k !in c.order
    ensures Written(c, k, v) == Lru(c.maxSize, c.order + [k], c.values[k := v])
  {
    assert CleanedUp(c) == c;
    assert Without(c.order, k) == c.order;
  }

  /** A put into an empty cache leaves just that entry. */
  lemma PutIntoEmpty(c: Lru, k: string, v: string)
    requires c.maxSize >= 1 && c.order == [] && c.values == map[]
    ensures Written(c, k, v) == Lru(c.maxSize, [k], map[k := v])
  {
    WriteWithRoomAppends(c, k, v);
    assert c.order + [k] == [k];
  }

  /** A put of a new key into a cache holding one entry, with room for two, keeps both in put order. */
  lemma PutIntoSingle(w: Lru, k1: string, v1: string, k2: string, v2: string)
    requires w.maxSize >= 2 && w.order == [k1] && w.values == map[k1 := v1] && k1 != k2
    ensures Written(w, k2, v2) == Lru(w.maxSize, [k1, k2], map[k1 := v1, k2 := v2])
  {
    WriteWithRoomAppends(w, k2, v2);
    assert w.order + [k2] == [k1, k2];
  }

  /** Two puts of distinct keys into an empty cache with room for both leave both, in put order. */
  lemma TwoPutsWithRoom(c: Lru, k1: string, v1: string, k2: string, v2: string)
    requires c.maxSize >= 2 && c.order == [] && c.values == map[] && k1 != k2
    ensures Written(Written(c, k1, v1), k2, v2) == Lru(c.maxSize, [k1, k2], map[k1 := v1, k2 := v2])
  {
    PutIntoEmpty(c, k1, v1);
    PutIntoSingle(Written(c, k1, v1), k1, v1, k2, v2);
  }

  /** A full cache of capacity 2 holding k1 then k2: reading k1 misses, since the cleanup evicts it first. */
  lemma TwoSlotFullReadOfEldest(k1: string, v1: string, k2: string, v2: string)
    requires k1 != k2
    ensures Read(Lru(2, [k1, k2], map[k1 := v1, k2 := v2]), k1) == Lookup(None, Lru(2, [k2], map[k2 := v2]))
  {
    var c := Lru(2, [k1, k2], map[k1 := v1, k2 := v2]);
    var e := Evicted(c);
    assert e.order == [k2];
    assert e.values == map[k2 := v2];
    assert CleanedUp(c) == e by {
      assert CleanedUp(e) == e;
    }
  }

  /**
   * Capacity 2, put(k1), put(k2), get(k1): the read's own cleanup evicts k1 before
   * the lookup, so the read misses and only k2 is left.
   */
  lemma TwoSlotReadOfEldest(empty: Lru, k1: string, v1: string, k2: string, v2: string)
    requires empty.maxSize == 2 && empty.order == [] && empty.values == map[] && k1 != k2
    ensures Read(Written(Written(empty, k1, v1), k2, v2), k1) == Lookup(None, Lru(2, [k2], map[k2 := v2]))
  {
    TwoPutsWithRoom(empty, k1, v1, k2, v2);
    TwoSlotFullReadOfEldest(k1, v1, k2, v2);
  }
}
