/**
 * CacheService: an access-ordered LinkedHashMap bounded by maxSize. The map's
 * iteration order is kept in `order` (least recently used first) and its entries
 * in `values`; every method is proved to move the abstract state `State()` exactly
 * as the matching function of LruModel says.
 */
module Cache {
  import opened Wrappers
  import opened JavaText
  import opened LruModel

  class CacheService {
    const maxSize: int
    var order: seq<string>
    var values: map<string, string>

    /** The abstract value of the cache. */
    function State(): (c: Lru)
      reads this
      ensures c.maxSize == maxSize
    {
      Lru(maxSize, order, values)
    }

    /** The invariant every public method keeps: unique keys, all mapped, at most maxSize of them. */
    ghost predicate Valid()
      reads this
    {
      LruModel.Valid(State())
    }

    /**
     * new CacheService(maxSize): an empty map. A negative maxSize makes the
     * LinkedHashMap constructor throw, so it is excluded here.
     */
    constructor (maxSize: int)
      requires maxSize >= 0
      ensures State() == Lru(maxSize, [], map[])
      ensures Valid()
    {
      this.maxSize := maxSize;
      order := [];
      values := map[];
    }

    /** The override of removeEldestEntry: the map has grown past maxSize, which a valid cache never has. */
    predicate RemoveEldestEntry(): (r: bool)
      reads this
      ensures Valid() ==> !r
    {
      |order| > maxSize
    }

    /** evict(): drops the first entry in iteration order, if there is one. */
    method Evict()
      modifies this
      ensures State() == Evicted(old(State()))
    {
      if order != [] {
        var key := order[0];
        order := order[1..];
        values := values - {key};
      }
    }

    /** performCacheCleanup(): evicts while size() >= maxSize. */
    method PerformCacheCleanup()
      requires maxSize >= 1
      modifies this
      ensures State() == CleanedUp(old(State()))
    {
      while |order| >= maxSize
        invariant CleanedUp(State()) == CleanedUp(old(State()))
        decreases |order|
      {
        Evict();
      }
    }

    /** getElement(key): cleanup, then get, which moves a found key to most recently used. */
    method GetElement(key: string) returns (v: Option<string>)
      requires maxSize >= 1
      modifies this
      ensures Lookup(v, State()) == Read(old(State()), key)
    {
      PerformCacheCleanup();
      if key in values {
        v := Some(values[key]);
        order := MovedToEnd(order, key);
      } else {
        v := None;
      }
    }

    /**
     * putElement(key, value): cleanup, then put, which makes the key most recently
     * used. The map then holds at most maxSize entries, so removeEldestEntry never
     * fires after the insertion.
     */
    method PutElement(key: string, value: string)
      requires maxSize >= 1
      requires Valid()
      modifies this
      ensures State() == Written(old(State()), key, value)
      ensures Valid() && !RemoveEldestEntry()
    {
      PerformCacheCleanup();
      order := MovedToEnd(order, key);
      values := values[key := value];
    }

    /** handleServerReadRequest(key) */
    method HandleServerReadRequest(key: string) returns (v: Option<string>)
      requires maxSize >= 1
      requires Valid()
      modifies this
      ensures Lookup(v, State()) == Read(old(State()), key)
      ensures Valid()
    {
      v := GetElement(key);
    }

    /** handleServerWriteRequest(key, value) */
    method HandleServerWriteRequest(key: string, value: string)
      requires maxSize >= 1
      requires Valid()
      modifies this
      ensures State() == Written(old(State()), key, value)
      ensures Valid()
    {
      PutElement(key, value);
    }

    /**
     * handleServerRemovalRequest(fileName): removes every entry whose key starts with
     * fileName + ",", keeping the others in their order.
     */
    method HandleServerRemovalRequest(fileName: string)
      requires Valid()
      modifies this
      ensures State() == Invalidated(old(State()), fileName)
      ensures Valid()
    {
      KeepAllDone(State(), fileName);
      RemoveKeysStartingWith(fileName + ",");
    }

    /**
     * The iterator loop of handleServerRemovalRequest: walks the entries in iteration
     * order and removes, through the iterator, each one whose key starts with `p`.
     */
    method RemoveKeysStartingWith(p: string)
      modifies this
      ensures order == Keep(old(order), p)
      ensures values == DroppedSeen(old(values), old(order), p)
    {
      ghost var keys := order;
      ghost var entries := values;
      var i := 0;
      ghost var j := 0;
      while i < |order|
        invariant 0 <= j <= |keys|
        invariant order == Keep(keys[..j], p) + keys[j..]
        invariant i == |Keep(keys[..j], p)|
        invariant values == DroppedSeen(entries, keys[..j], p)
        decreases |order| - i
      {
        var key := order[i];
        KeepStep(keys, j, p, order, i);
        DroppedSeenStep(entries, keys, j, p);
        if StartsWith(key, p) {
          order := order[..i] + order[i + 1..];
          values := values - {key};
        } else {
          i := i + 1;
        }
        j := j + 1;
      }
      assert keys[..j] == keys;
    }
  }
}
