/** The LRU cache: a map, and a list of its keys kept in order of use. */
module Lru {
  import opened Tree

  // ----- Order of use, told by times

  /** The list holds exactly the keys that have a time, the later touched before the earlier ones. */
  ghost predicate ByTime(keys: seq<Hash>, time: map<Hash, nat>, clock: nat) {
    && (forall i :: 0 <= i < |keys| ==> keys[i] in time && time[keys[i]] < clock)
    && (forall k :: k in time ==> k in keys)
    && forall i, j :: 0 <= i < j < |keys| ==> time[keys[i]] > time[keys[j]]
  }

  function Drop(keys: seq<Hash>, i: nat): seq<Hash>
    requires i < |keys|
  {
    keys[..i] + keys[i + 1..]
  }

  lemma {:induction false} DropAt(keys: seq<Hash>, i: nat, j: nat)
    requires i < |keys| && j < |keys| - 1
    ensures Drop(keys, i)[j] == keys[if j < i then j else j + 1]
  {
  }

  lemma {:induction false} DropByTime(keys: seq<Hash>, time: map<Hash, nat>, clock: nat, i: nat)
    requires ByTime(keys, time, clock) && i < |keys|
    ensures ByTime(Drop(keys, i), time - {keys[i]}, clock)
  {
    var r, left := Drop(keys, i), time - {keys[i]};
    forall j | 0 <= j < |r| ensures r[j] in left && left[r[j]] < clock {
      DropAt(keys, i, j);
    }
    forall k | k in left ensures k in r {
      var j :| 0 <= j < |keys| && keys[j] == k;
      DropAt(keys, i, if j < i then j else j - 1);
    }
    forall a, b | 0 <= a < b < |r| ensures left[r[a]] > left[r[b]] {
      DropAt(keys, i, a);
      DropAt(keys, i, b);
    }
  }

  lemma {:induction false} PushByTime(keys: seq<Hash>, time: map<Hash, nat>, clock: nat, k: Hash)
    requires ByTime(keys, time, clock) && k !in time
    ensures ByTime([k] + keys, time[k := clock], clock + 1)
  {
    forall x | x in time[k := clock] ensures x in [k] + keys {
    }
  }

  /** The key that was touched longest ago. */
  ghost predicate Oldest(time: map<Hash, nat>, k: Hash) {
    k in time && forall x :: x in time ==> time[k] <= time[x]
  }

  class LruCache<V> {
    var capacity: nat
    var cache: map<Hash, V>
    var lru: seq<Hash>
    ghost var time: map<Hash, nat>
    ghost var clock: nat

    ghost predicate Valid()
      reads this
    {
      cache.Keys == time.Keys && |lru| <= capacity && ByTime(lru, time, clock)
    }

    constructor (capacity: nat)
      ensures Valid() && cache == map[] && this.capacity == capacity
    {
      this.capacity, cache, lru, time, clock := capacity, map[], [], map[], 0;
    }

    /** Move the element of a key to the front. */
    method MoveToFront(key: Hash)
      requires Valid() && key in cache
      modifies this`lru, this`time, this`clock
      ensures Valid() && time == old(time)[key := old(clock)] && clock == old(clock) + 1
    {
      var i := IndexOf(lru, key);
      DropByTime(lru, time, clock, i);
      PushByTime(Drop(lru, i), time - {key}, clock, key);
      lru := [key] + Drop(lru, i);
      assert (time - {key})[key := clock] == time[key := clock];
      time, clock := time[key := clock], clock + 1;
    }

    /** The cached value, which counts as a use of the key. */
    method Get(key: Hash) returns (found: Found<V>)
      requires Valid()
      modifies this`lru, this`time, this`clock
      ensures Valid() && found == if key in cache then Hit(cache[key]) else Miss
      ensures time == (if key in cache then old(time)[key := old(clock)] else old(time)) && clock >= old(clock)
    {
      if key in cache {
        MoveToFront(key);
        return Hit(cache[key]);
      }
      return Miss;
    }

    /** Put a new key at the front. */
    method PushFront(key: Hash, value: V)
      requires Valid() && key !in cache
      modifies this`cache, this`lru, this`time, this`clock
      ensures cache == old(cache)[key := value] && lru == [key] + old(lru)
      ensures time == old(time)[key := old(clock)] && clock == old(clock) + 1 && ByTime(lru, time, clock)
    {
      PushByTime(lru, time, clock, key);
      lru, cache := [key] + lru, cache[key := value];
      time, clock := time[key := clock], clock + 1;
    }

    /** The newest value of a key; when there is no room, the key used longest ago has to go. */
    method Add(key: Hash, value: V) returns (evicted: bool, ghost gone: Hash)
      requires Valid()
      modifies this`cache, this`lru, this`time, this`clock
      ensures Valid() && (evicted <==> key !in old(cache) && |old(lru)| == capacity)
      ensures !evicted ==> cache == old(cache)[key := value] && time == old(time)[key := old(clock)]
      ensures evicted ==>
                && Oldest(old(time)[key := old(clock)], gone)
                && cache == old(cache)[key := value] - {gone} && time == old(time)[key := old(clock)] - {gone}
      ensures clock >= old(clock) && (key in cache <==> capacity > 0)
    {
      evicted, gone := false, Empty;
      if key in cache {
        MoveToFront(key);
        cache := cache[key := value];
        return;
      }
      PushFront(key, value);
      if |lru| > capacity {
        FrontIsOldestIff(lru, time, clock);
        gone := Evict();
        evicted := true;
      }
    }

    lemma NoneWithoutRoom()
      requires Valid()
      ensures capacity == 0 ==> cache == map[]
    {
      if capacity == 0 {
        assert lru == [];
        assert cache.Keys == {};
      }
    }

    /** Drop the key at the back of the list, the one used longest ago. */
    method Evict() returns (ghost gone: Hash)
      requires cache.Keys == time.Keys && ByTime(lru, time, clock) && |lru| == capacity + 1
      modifies this`cache, this`lru, this`time
      ensures Valid() && Oldest(old(time), gone) && cache == old(cache) - {gone} && time == old(time) - {gone}
    {
      var i := |lru| - 1;
      var back := lru[i];
      gone := back;
      var rest := Drop(lru, i);
      ghost var left := time - {back};
      assert Oldest(time, back) by { LastIsOldest(lru, time, clock); }
      assert ByTime(rest, left, clock) by { DropByTime(lru, time, clock, i); }
      lru, cache, time := rest, cache - {back}, left;
    }

    method Del(key: Hash)
      requires Valid()
      modifies this`cache, this`lru, this`time
      ensures Valid() && cache == old(cache) - {key} && time == old(time) - {key}
    {
      if key in cache {
        var i := IndexOf(lru, key);
        DropByTime(lru, time, clock, i);
        lru, cache, time := Drop(lru, i), cache - {key}, time - {key};
      }
    }

    method EnlargeCapacity(newCapacity: nat) returns (ok: bool)
      requires Valid()
      modifies this`capacity
      ensures Valid() && (ok <==> newCapacity >= old(capacity)) && capacity == if ok then newCapacity else old(capacity)
    {
      ok := newCapacity >= capacity;
      if ok {
        capacity := newCapacity;
      }
    }
  }

  datatype Found<V> = Miss | Hit(value: V)

  lemma {:induction false} LastIsOldest(keys: seq<Hash>, time: map<Hash, nat>, clock: nat)
    requires ByTime(keys, time, clock) && keys != []
    ensures Oldest(time, keys[|keys| - 1])
  {
    forall x | x in time ensures time[keys[|keys| - 1]] <= time[x] {
      var j :| 0 <= j < |keys| && keys[j] == x;
    }
  }

  /** The key at the front is the oldest only if it is alone. */
  lemma {:induction false} FrontIsOldestIff(keys: seq<Hash>, time: map<Hash, nat>, clock: nat)
    requires ByTime(keys, time, clock) && keys != []
    ensures forall k :: Oldest(time, k) ==> (k == keys[0] <==> |keys| == 1)
  {
    forall k | Oldest(time, k) ensures k == keys[0] <==> |keys| == 1 {
      assert k in keys;
      if |keys| > 1 {
        assert time[keys[0]] > time[keys[1]];
      }
    }
  }

  /** The list has one place per key: no more keys are cached than the capacity allows. */
  lemma {:induction false} SizeWithin(keys: seq<Hash>, time: map<Hash, nat>, clock: nat)
    requires ByTime(keys, time, clock)
    ensures |time.Keys| == |keys|
    decreases |keys|
  {
    if keys == [] {
      assert time.Keys == {};
    } else {
      DropByTime(keys, time, clock, 0);
      SizeWithin(Drop(keys, 0), time - {keys[0]}, clock);
      assert time.Keys == (time - {keys[0]}).Keys + {keys[0]};
    }
  }

  method IndexOf(keys: seq<Hash>, key: Hash) returns (i: nat)
    requires key in keys
    ensures i < |keys| && keys[i] == key
  {
    i := 0;
    while keys[i] != key
      invariant i < |keys| && key !in keys[..i]
      decreases |keys| - i
    {
      i := i + 1;
    }
  }
}
