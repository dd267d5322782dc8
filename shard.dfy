/** Sharding of fetched mail across workers: a message belongs to worker
    `hash(uid) % total`. The hash functions are opaque (FxHasher's 64-bit
    value in the two notifiers, `fxhash::hash32` in the postman server) and
    enter only through their values; their widths are the subset types below. */
module Shard {

  type U64 = n: nat | n < 0x1_0000_0000_0000_0000
  type U32 = n: nat | n < 0x1_0000_0000

  /** The shard of a hash value; `total` must be at least 1, since the
      remainder by zero panics (the callers check it first). */
  function ShardOf(h: nat, total: nat): (r: nat)
    requires total >= 1
    ensures r < total
    ensures exists q: nat :: h == q * total + r
  {
    assert h == (h / total) * total + h % total;
    h % total
  }

  predicate Owns(h: nat, total: nat, worker: nat)
    requires total >= 1
  {
    ShardOf(h, total) == worker
  }

  /** Exactly one worker id below `total` owns each hash value, and an id
      at or beyond `total` owns none. */
  lemma ExactlyOneOwner(h: nat, total: nat, worker: nat)
    requires total >= 1
    ensures Owns(h, total, worker) <==> worker == ShardOf(h, total)
    ensures worker >= total ==> !Owns(h, total, worker)
    ensures exists w :: 0 <= w < total && Owns(h, total, w)
  {
    assert Owns(h, total, ShardOf(h, total));
  }

  /** The items a worker keeps, in order: those whose key's shard is its id. */
  function Owned<T>(items: seq<T>, key: T -> nat, total: nat, worker: nat): (r: seq<T>)
    requires total >= 1
    ensures |r| <= |items|
  {
    if items == [] then []
    else (if ShardOf(key(items[0]), total) == worker then [items[0]] else [])
         + Owned(items[1..], key, total, worker)
  }

  /** Scanning one more item extends the owned subset by that item exactly
      when the worker owns it. */
  lemma {:induction false} OwnedSnoc<T>(items: seq<T>, x: T, key: T -> nat, total: nat, worker: nat)
    requires total >= 1
    ensures Owned(items + [x], key, total, worker)
         == Owned(items, key, total, worker) + (if ShardOf(key(x), total) == worker then [x] else [])
  {
    if items != [] {
      assert (items + [x])[1..] == items[1..] + [x];
      OwnedSnoc(items[1..], x, key, total, worker);
    }
  }

  /** A worker keeps exactly the items whose shard is its id. */
  lemma {:induction false} OwnedMembers<T>(items: seq<T>, key: T -> nat, total: nat, worker: nat, x: T)
    requires total >= 1
    ensures x in Owned(items, key, total, worker) <==> x in items && ShardOf(key(x), total) == worker
  {
    if items != [] {
      OwnedMembers(items[1..], key, total, worker, x);
      assert items == [items[0]] + items[1..];
    }
  }

  /** The owned subsets of distinct workers are disjoint. */
  lemma OwnedDisjoint<T>(items: seq<T>, key: T -> nat, total: nat, v: nat, w: nat, x: T)
    requires total >= 1 && v != w
    ensures !(x in Owned(items, key, total, v) && x in Owned(items, key, total, w))
  {
    OwnedMembers(items, key, total, v, x);
    OwnedMembers(items, key, total, w, x);
  }

  /** A worker id at or beyond `total` keeps nothing. */
  lemma {:induction false} OwnedBeyondTotal<T>(items: seq<T>, key: T -> nat, total: nat, w: nat)
    requires total >= 1 && w >= total
    ensures Owned(items, key, total, w) == []
  {
    if items != [] {
      OwnedBeyondTotal(items[1..], key, total, w);
    }
  }

  /** The sizes of the owned subsets of workers 0 .. n-1. */
  function OwnedCount<T>(items: seq<T>, key: T -> nat, total: nat, n: nat): nat
    requires total >= 1
  {
    if n == 0 then 0 else OwnedCount(items, key, total, n - 1) + |Owned(items, key, total, n - 1)|
  }

  lemma {:induction false} OwnedCountCons<T>(items: seq<T>, key: T -> nat, total: nat, n: nat)
    requires total >= 1 && items != []
    ensures OwnedCount(items, key, total, n)
         == OwnedCount(items[1..], key, total, n) + (if ShardOf(key(items[0]), total) < n then 1 else 0)
  {
    if n > 0 {
      OwnedCountCons(items, key, total, n - 1);
    }
  }

  /** Workers 0 .. total-1 together keep every item exactly once: the owned
      subsets are disjoint, cover the list, and their sizes add up to its length. */
  lemma {:induction false} OwnedPartition<T>(items: seq<T>, key: T -> nat, total: nat)
    requires total >= 1
    ensures OwnedCount(items, key, total, total) == |items|
  {
    if items == [] {
      OwnedCountEmpty(items, key, total, total);
    } else {
      OwnedCountCons(items, key, total, total);
      OwnedPartition(items[1..], key, total);
    }
  }

  lemma {:induction false} OwnedCountEmpty<T>(items: seq<T>, key: T -> nat, total: nat, n: nat)
    requires total >= 1 && items == []
    ensures OwnedCount(items, key, total, n) == 0
  {
    if n > 0 {
      OwnedCountEmpty(items, key, total, n - 1);
    }
  }

  /** The owned subset depends only on each item's key value: two hash
      functions that agree on the items give every worker the same mail. */
  lemma {:induction false} OwnedDeterministic<T>(items: seq<T>, k1: T -> nat, k2: T -> nat, total: nat, w: nat)
    requires total >= 1
    requires forall x <- items :: k1(x) == k2(x)
    ensures Owned(items, k1, total, w) == Owned(items, k2, total, w)
  {
    if items != [] {
      OwnedDeterministic(items[1..], k1, k2, total, w);
    }
  }
}
