/** A bounded least-recently-used cache from strings to strings, written out
    as a map plus a recency list (the behaviour the tag service gets from
    `pylru.lrucache`). The recency list runs from the least recently used
    key to the most recently used one. */
module Lru {
  import opened Common

  /** The abstract contents of a cache: recency order and stored values. */
  datatype Cache = Cache(order: seq<string>, table: map<string, string>)

  /** The cache invariant: a positive capacity that bounds the number of
      entries, and a recency list that names every stored key exactly once. */
  ghost predicate WellFormed(c: Cache, capacity: nat)
  {
    && capacity > 0
    && |c.order| <= capacity
    && NoDup(c.order)
    && (forall k :: k in c.table <==> k in c.order)
  }

  /** A well-formed cache holds exactly as many entries as its recency list. */
  lemma {:induction false} SizeMatchesOrder(c: Cache, capacity: nat)
    requires WellFormed(c, capacity)
    ensures |c.table| == |c.order|
    decreases |c.order|
  {
    if c.order != [] {
      var k := c.order[0];
      NoDupTail(c.order);
      var rest := Cache(c.order[1..], c.table - {k});
      assert WellFormed(rest, capacity);
      SizeMatchesOrder(rest, capacity);
      assert k !in rest.table.Keys && c.table.Keys == rest.table.Keys + {k};
    }
  }

  /** The recency list after key `k` is used: `k` moves to the most recent
      end, every other key keeps its relative order. */
  function Touch(order: seq<string>, k: string): (r: seq<string>)
    ensures r != [] && r[|r| - 1] == k
    ensures r[..|r| - 1] == Remove(order, k)
    ensures forall y :: y in r <==> y in order || y == k
    ensures NoDup(order) ==> NoDup(r)
    ensures NoDup(order) && k in order ==> |r| == |order|
  {
    var t := Remove(order, k);
    assert NoDup(order) ==> NoDup(t + [k]) by {
      if NoDup(order) { NoDupSnoc(t, k); }
    }
    t + [k]
  }

  lemma NoDupSnoc(t: seq<string>, k: string)
    requires NoDup(t) && k !in t
    ensures NoDup(t + [k])
  {
  }

  /** `cache[k] = v`. A stored key gets the new value and becomes the most
      recent; a new key is stored as the most recent, after evicting the
      least recently used key when the cache is full. */
  function Insert(c: Cache, capacity: nat, k: string, v: string): (r: Cache)
    ensures k in r.table && r.table[k] == v
    ensures r.order != [] && r.order[|r.order| - 1] == k
  {
    if k in c.table then Cache(Touch(c.order, k), c.table[k := v])
    else if |c.order| >= capacity && c.order != [] then
      Cache(c.order[1..] + [k], (c.table - {c.order[0]})[k := v])
    else Cache(c.order + [k], c.table[k := v])
  }

  /** Using a key keeps the cache well formed and changes no stored value. */
  lemma TouchWellFormed(c: Cache, capacity: nat, k: string)
    requires WellFormed(c, capacity) && k in c.table
    ensures WellFormed(Cache(Touch(c.order, k), c.table), capacity)
  {
  }

  /** Inserting keeps the cache well formed; in particular it never holds
      more entries than its capacity. */
  lemma InsertWellFormed(c: Cache, capacity: nat, k: string, v: string)
    requires WellFormed(c, capacity)
    ensures WellFormed(Insert(c, capacity, k, v), capacity)
    ensures |Insert(c, capacity, k, v).table| <= capacity
  {
    var r := Insert(c, capacity, k, v);
    if k in c.table {
    } else if |c.order| >= capacity && c.order != [] {
      NoDupTail(c.order);
      NoDupSnoc(c.order[1..], k);
    } else {
      NoDupSnoc(c.order, k);
    }
    SizeMatchesOrder(r, capacity);
  }

  /** Inserting a new key into a full cache evicts exactly the least
      recently used key; every other entry keeps its value. */
  lemma InsertEvictsLeastRecent(c: Cache, capacity: nat, k: string, v: string)
    requires WellFormed(c, capacity) && k !in c.table && |c.order| == capacity
    ensures var r := Insert(c, capacity, k, v);
      && c.order[0] !in r.table
      && r.table.Keys == c.table.Keys - {c.order[0]} + {k}
      && (forall j :: j in c.table && j != c.order[0] ==> r.table[j] == c.table[j])
      && |r.table| == |c.table|
  {
    var r := Insert(c, capacity, k, v);
    InsertWellFormed(c, capacity, k, v);
    SizeMatchesOrder(c, capacity);
    SizeMatchesOrder(r, capacity);
  }

  /** Inserting into a cache with room, or re-inserting a stored key, loses
      no entry, and every other entry keeps its value. */
  lemma InsertKeepsOthers(c: Cache, capacity: nat, k: string, v: string)
    requires WellFormed(c, capacity) && (k in c.table || |c.order| < capacity)
    ensures var r := Insert(c, capacity, k, v);
      && r.table.Keys == c.table.Keys + {k}
      && (forall j :: j in c.table && j != k ==> r.table[j] == c.table[j])
  {
  }

  /** The whole recency order after a store: a stored key moves to the
      most recent end; a new key is appended, after dropping the least
      recently used key when the cache is full. */
  lemma InsertOrder(c: Cache, capacity: nat, k: string, v: string)
    requires WellFormed(c, capacity)
    ensures var r := Insert(c, capacity, k, v);
      && (k in c.table ==> r.order == Touch(c.order, k))
      && (k !in c.table ==>
            r.order == (if |c.order| == capacity && capacity > 0 then c.order[1..] else c.order) + [k])
  {
  }

  /** A key that was just used is not the one evicted by the next insertion
      of a new key, as long as the capacity is at least two. */
  lemma TouchedKeySurvivesEviction(c: Cache, capacity: nat, used: string, k: string, v: string)
    requires WellFormed(c, capacity) && capacity >= 2
    requires used in c.table && k !in c.table
    ensures used in Insert(Cache(Touch(c.order, used), c.table), capacity, k, v).table
  {
    var touched := Cache(Touch(c.order, used), c.table);
    TouchWellFormed(c, capacity, used);
    if |touched.order| >= capacity {
      var t := Remove(c.order, used);
      assert touched.order == t + [used];
      assert |t| >= 1;
      assert touched.order[0] == t[0];
      assert t[0] != used;
    }
  }

  /** The cache object. `capacity` is fixed when it is made; `order` and
      `table` are updated in place by `Get` and `Put`. Membership tests
      (`k in table`) do not change the recency order. */
  class LruCache {
    const capacity: nat
    var order: seq<string>
    var table: map<string, string>

    ghost predicate Valid()
      reads this
    {
      WellFormed(Cache(order, table), capacity)
    }

    function Entries(): Cache
      reads this
    {
      Cache(order, table)
    }

    constructor (capacity: nat)
      requires capacity > 0
      ensures Valid() && this.capacity == capacity
      ensures order == [] && table == map[]
    {
      this.capacity := capacity;
      order := [];
      table := map[];
    }

    /** `cache[k]` for a stored key: its value, and `k` becomes the most
        recently used key. */
    method Get(k: string) returns (v: string)
      requires Valid() && k in table
      modifies this
      ensures Valid()
      ensures v == old(table)[k]
      ensures table == old(table) && order == Touch(old(order), k)
    {
      TouchWellFormed(Entries(), capacity, k);
      v := table[k];
      order := Touch(order, k);
    }

    /** `cache[k] = v`. */
    method Put(k: string, v: string)
      requires Valid()
      modifies this
      ensures Valid()
      ensures Entries() == Insert(old(Entries()), capacity, k, v)
    {
      InsertWellFormed(Entries(), capacity, k, v);
      if k in table {
        order := Touch(order, k);
      } else if |order| == capacity {
        var victim := order[0];
        order := order[1..] + [k];
        table := table - {victim};
      } else {
        order := order + [k];
      }
      table := table[k := v];
    }
  }
}
