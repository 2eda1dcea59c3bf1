/**
 The data cache (datacache.c) with its heap plugin (plugin_datacache_heap.c): an
 index from keys to entries, a heap ordered by discard time, a counting filter
 over the keys, and a quota on the bytes in use.
 */
module DataCache {
  import opened CoreTypes

  type Key = nat
  type Byte = b: nat | b < 256

  /** The type that matches every entry. */
  const ANY := 0

  /** Bytes charged for an entry beside its data (the size of its record, and 64). */
  const OVERHEAD := 104 + 64

  datatype Value = Value(key: Key, btype: nat, data: seq<Byte>, discard: nat, path: seq<Peer>)

  function Cost(v: Value): nat {
    |v.data| + OVERHEAD
  }

  // ---------------------------------------------------------------------
  // Sums and counts over the entries
  // ---------------------------------------------------------------------

  ghost function Sum(vs: map<Ref, Value>): nat {
    if vs == map[] then 0 else
      var x :| x in vs;
      Cost(vs[x]) + Sum(vs - {x})
  }

  lemma {:induction false} SumWithout(vs: map<Ref, Value>, x: Ref)
    requires x in vs
    ensures Sum(vs) == Cost(vs[x]) + Sum(vs - {x})
    decreases |vs|
  {
    var y :| y in vs && Sum(vs) == Cost(vs[y]) + Sum(vs - {y});
    if y != x {
      SumWithout(vs - {y}, x);
      SumWithout(vs - {x}, y);
      assert vs - {y} - {x} == vs - {x} - {y};
    }
  }

  lemma SumWith(vs: map<Ref, Value>, x: Ref, v: Value)
    requires x !in vs
    ensures Sum(vs[x := v]) == Sum(vs) + Cost(v)
  {
    SumWithout(vs[x := v], x);
    assert vs[x := v] - {x} == vs;
  }

  lemma SumRefreshed(vs: map<Ref, Value>, x: Ref, v: Value)
    requires x in vs && v.data == vs[x].data
    ensures Sum(vs[x := v]) == Sum(vs)
  {
    SumWithout(vs[x := v], x);
    SumWithout(vs, x);
    assert vs[x := v] - {x} == vs - {x};
  }

  lemma {:induction false} SubmapSum(part: map<Ref, Value>, vs: map<Ref, Value>)
    requires forall y :: y in part ==> y in vs && part[y] == vs[y]
    ensures Sum(part) <= Sum(vs)
    decreases |vs|
  {
    if part != map[] {
      var y :| y in part;
      SumWithout(part, y);
      SumWithout(vs, y);
      SubmapSum(part - {y}, vs - {y});
    }
  }

  /** How many entries there are under each key. */
  ghost function Keys(vs: map<Ref, Value>): multiset<Key> {
    if vs == map[] then multiset{} else
      var x :| x in vs;
      multiset{vs[x].key} + Keys(vs - {x})
  }

  lemma {:induction false} KeysWithout(vs: map<Ref, Value>, x: Ref)
    requires x in vs
    ensures Keys(vs) == multiset{vs[x].key} + Keys(vs - {x})
    decreases |vs|
  {
    hide Keys;
    var y := KeysPick(vs);
    if y != x {
      KeysWithout(vs - {y}, x);
      KeysWithout(vs - {x}, y);
      assert vs - {y} - {x} == vs - {x} - {y};
    }
  }

  lemma KeysPick(vs: map<Ref, Value>) returns (y: Ref)
    requires vs != map[]
    ensures y in vs && Keys(vs) == multiset{vs[y].key} + Keys(vs - {y})
  {
    y :| y in vs && Keys(vs) == multiset{vs[y].key} + Keys(vs - {y});
  }

  lemma KeysWith(vs: map<Ref, Value>, x: Ref, v: Value)
    requires x !in vs
    ensures Keys(vs[x := v]) == Keys(vs) + multiset{v.key}
  {
    KeysWithout(vs[x := v], x);
    assert vs[x := v] - {x} == vs;
  }

  lemma KeysRefreshed(vs: map<Ref, Value>, x: Ref, v: Value)
    requires x in vs && v.key == vs[x].key
    ensures Keys(vs[x := v]) == Keys(vs)
  {
    KeysWithout(vs[x := v], x);
    KeysWithout(vs, x);
    assert vs[x := v] - {x} == vs - {x};
  }

  lemma {:induction false} LeastExists(heap: map<Ref, nat>)
    requires heap != map[]
    ensures exists x :: x in heap && Least(heap, x)
    decreases |heap|
  {
    var x :| x in heap;
    var rest := heap - {x};
    if rest != map[] {
      LeastExists(rest);
      var y :| y in rest && Least(rest, y);
      var least := if heap[x] <= heap[y] then x else y;
      forall z | z in heap ensures heap[least] <= heap[z] { assert z != x ==> z in rest; }
      assert Least(heap, least);
    } else {
      forall z | z in heap ensures z == x { assert z != x ==> z in rest; }
      assert Least(heap, x);
    }
  }

  predicate Least(heap: map<Ref, nat>, x: Ref) {
    x in heap && forall y :: y in heap ==> heap[x] <= heap[y]
  }

  // ---------------------------------------------------------------------
  // What is kept
  // ---------------------------------------------------------------------

  ghost predicate Same(v: Value, key: Key, btype: nat, data: seq<Byte>) {
    v.key == key && v.btype == btype && v.data == data
  }

  /** No two entries are equal in key, type and data. */
  ghost predicate Distinct(vs: map<Ref, Value>) {
    forall x, y :: x in vs && y in vs && Same(vs[x], vs[y].key, vs[y].btype, vs[y].data) ==> x == y
  }

  /** The index lists exactly the entries, each under its key. */
  ghost predicate Indexed(index: map<Key, set<Ref>>, vs: map<Ref, Value>) {
    forall k, x :: k in index && x in index[k] <==> x in vs && vs[x].key == k
  }

  /** The heap holds exactly the entries, each at its discard time. */
  ghost predicate Ordered(heap: map<Ref, nat>, vs: map<Ref, Value>) {
    heap.Keys == vs.Keys && forall x :: x in vs ==> heap[x] == vs[x].discard
  }

  /** The entries that a lookup is to find. */
  ghost function Matching(vs: map<Ref, Value>, k: Key, t: nat): set<Ref> {
    set x | x in vs && vs[x].key == k && (t == ANY || vs[x].btype == t)
  }

  // ---- the quota loop on entries

  /** The entry may be the next to go: none expires earlier. */
  ghost predicate First(vs: map<Ref, Value>, z: Ref) {
    z in vs && forall y :: y in vs ==> vs[z].discard <= vs[y].discard
  }

  /** Some entries were evicted: only such that expire no later than every entry kept. */
  ghost predicate Gone(all: map<Ref, Value>, kept: map<Ref, Value>) {
    && (forall y :: y in kept ==> y in all && kept[y] == all[y])
    && (forall z, y :: z in all && z !in kept && y in kept ==> all[z].discard <= all[y].discard)
  }

  /** The same, and without the last of the evictions the quota would be exceeded. */
  ghost predicate Evicted(all: map<Ref, Value>, kept: map<Ref, Value>, quota: nat) {
    && Gone(all, kept)
    && (kept == all || exists z :: z in all && z !in kept && Sum(kept[z := all[z]]) > quota)
  }

  /**
   The quota loop can fail: in some order of eviction it finds nothing to evict, or deducts an entry from a
   smaller utilization.  Among entries that expire first, any may go.
   */
  ghost predicate MayFail(vs: map<Ref, Value>, utilization: nat, used: nat, quota: nat)
    decreases vs.Keys
  {
    utilization + used > quota &&
    (vs == map[] ||
     exists z :: First(vs, z) &&
       (utilization < Cost(vs[z]) || MayFail(vs - {z}, utilization - Cost(vs[z]), used, quota)))
  }

  lemma NoFailure(vs: map<Ref, Value>, utilization: nat, used: nat, quota: nat)
    requires !MayFail(vs, utilization, used, quota) && utilization + used > quota
    ensures vs != map[]
    ensures forall z :: First(vs, z) ==>
              utilization >= Cost(vs[z]) && !MayFail(vs - {z}, utilization - Cost(vs[z]), used, quota)
  {}

  /** What may be left when the turn of an entry that expires at `t` has come: everything that expires later,
      nothing that expires earlier. */
  ghost predicate Left(vs: map<Ref, Value>, t: nat, s: set<Ref>) {
    && (forall y :: y in s ==> y in vs && vs[y].discard >= t)
    && (forall y :: y in vs && vs[y].discard > t ==> y in s)
  }

  ghost function Sub(vs: map<Ref, Value>, s: set<Ref>): map<Ref, Value> {
    map y | y in vs && y in s :: vs[y]
  }

  /**
   When an entry of cost `u` that expires at `t` must not be put: something that may be left beside it is too
   much for it to stay, and less than it.
   */
  ghost predicate Doomed(vs: map<Ref, Value>, t: nat, u: nat, quota: nat) {
    exists s :: Left(vs, t, s) && quota < Sum(Sub(vs, s)) + u && Sum(Sub(vs, s)) < u
  }

  /** A failure comes from the eviction of the new entry. */
  lemma {:induction false} FailureDooms(was: map<Ref, Value>, x: Ref, v: Value, vs: map<Ref, Value>,
                                        utilization: nat, quota: nat)
    requires x !in was && Sum(was) <= quota && Gone(was[x := v], vs) && x in vs
    requires utilization + Cost(v) == Sum(vs) && MayFail(vs, utilization, Cost(v), quota)
    ensures Doomed(was, v.discard, Cost(v), quota)
    decreases |vs|
  {
    hide Sum;
    var z :| First(vs, z) &&
      (utilization < Cost(vs[z]) || MayFail(vs - {z}, utilization - Cost(vs[z]), Cost(v), quota));
    SumWithout(vs, z);
    if z == x {
      var s := (vs - {x}).Keys;
      assert Sub(was, s) == vs - {x};
      SubmapSum(vs - {x}, was);
      assert Left(was, v.discard, s);
    } else {
      SumWithout(vs - {z}, x);
      Smaller(vs, z);
      FailureDooms(was, x, v, vs - {z}, utilization - Cost(vs[z]), quota);
    }
  }

  lemma Smaller(vs: map<Ref, Value>, z: Ref)
    requires z in vs
    ensures |vs - {z}| < |vs|
  {
    assert (vs - {z}).Keys == vs.Keys - {z};
  }

  /** And whatever may be left can be left: everything else goes first. */
  lemma {:induction false} DoomFails(was: map<Ref, Value>, x: Ref, v: Value, s: set<Ref>, vs: map<Ref, Value>,
                                     utilization: nat, quota: nat)
    requires x !in was && Left(was, v.discard, s) && x in vs && s <= vs.Keys
    requires forall y :: y in vs ==> y in was[x := v] && vs[y] == was[x := v][y]
    requires quota < Sum(Sub(was, s)) + Cost(v) && Sum(Sub(was, s)) < Cost(v)
    requires utilization + Cost(v) == Sum(vs)
    ensures MayFail(vs, utilization, Cost(v), quota)
    decreases |vs|
  {
    hide Sum, MayFail, First;
    SumWith(Sub(was, s), x, v);
    SubmapSum(Sub(was, s)[x := v], vs);
    if vs.Keys == s + {x} {
      assert vs - {x} == Sub(was, s);
      SumWithout(vs, x);
      LastToGo(was, v.discard, x, s, vs);
      FailsBy(vs, utilization, Cost(v), quota, x);
    } else {
      var z := NextOut(was, v.discard, x, s, vs);
      SumWithout(vs, z);
      Smaller(vs, z);
      if utilization >= Cost(vs[z]) {
        DoomFails(was, x, v, s, vs - {z}, utilization - Cost(vs[z]), quota);
      }
      FailsBy(vs, utilization, Cost(v), quota, z);
    }
  }

  lemma FailsBy(vs: map<Ref, Value>, utilization: nat, used: nat, quota: nat, z: Ref)
    requires utilization + used > quota && First(vs, z)
    requires utilization < Cost(vs[z]) || MayFail(vs - {z}, utilization - Cost(vs[z]), used, quota)
    ensures MayFail(vs, utilization, used, quota)
  {}

  lemma LastToGo(was: map<Ref, Value>, t: nat, x: Ref, s: set<Ref>, vs: map<Ref, Value>)
    requires Left(was, t, s) && x in vs && vs[x].discard == t && vs.Keys == s + {x}
    requires forall y :: y in vs && y != x ==> y in was && vs[y] == was[y]
    ensures First(vs, x)
  {}

  /** As long as more than that is left, some of the rest may go next. */
  lemma NextOut(was: map<Ref, Value>, t: nat, x: Ref, s: set<Ref>, vs: map<Ref, Value>) returns (z: Ref)
    requires Left(was, t, s) && x in vs && vs[x].discard == t && s + {x} < vs.Keys
    requires forall y :: y in vs && y != x ==> y in was && vs[y] == was[y]
    ensures First(vs, z) && z !in s && z != x
  {
    var others := map y | y in vs && y !in s && y != x :: vs[y].discard;
    var o :| o in vs.Keys && o !in s + {x};
    assert o in others;
    LeastExists(others);
    z :| z in others && Least(others, z);
    forall y | y in vs ensures vs[z].discard <= vs[y].discard {
      if y in others { assert others[z] <= others[y]; }
    }
  }

  /** A put into a cache within its quota can fail if and only if its entry is doomed. */
  lemma PutFailsIff(was: map<Ref, Value>, x: Ref, v: Value, quota: nat)
    requires x !in was && Sum(was) <= quota
    ensures MayFail(was[x := v], Sum(was), Cost(v), quota) <==> Doomed(was, v.discard, Cost(v), quota)
  {
    hide Sum, MayFail;
    SumWith(was, x, v);
    if MayFail(was[x := v], Sum(was), Cost(v), quota) {
      FailureDooms(was, x, v, was[x := v], Sum(was), quota);
    }
    if Doomed(was, v.discard, Cost(v), quota) {
      var s :| Left(was, v.discard, s) && quota < Sum(Sub(was, s)) + Cost(v) && Sum(Sub(was, s)) < Cost(v);
      DoomFails(was, x, v, s, was[x := v], Sum(was), quota);
    }
  }

  // ---- which entries can be put whatever is stored

  function Zeros(n: nat): (r: seq<Byte>)
    ensures |r| == n
  {
    if n == 0 then [] else Zeros(n - 1) + [0]
  }

  lemma SumPositive(vs: map<Ref, Value>)
    ensures Sum(vs) == 0 || Sum(vs) >= OVERHEAD
  {
    if vs != map[] {
      var x :| x in vs;
      SumWithout(vs, x);
    }
  }

  /** Whatever is stored within the quota, a put cannot fail: exactly for entries of which two fit, up to one byte,
      and for empty entries that fit at all. */
  lemma AlwaysSafeIff(u: nat, quota: nat)
    requires u >= OVERHEAD
    ensures 2 * u <= quota + 1 || u == OVERHEAD <= quota <==>
              forall vs: map<Ref, Value>, t: nat :: Sum(vs) <= quota ==> !Doomed(vs, t, u, quota)
  {
    hide Sum;
    if 2 * u <= quota + 1 || u == OVERHEAD <= quota {
      forall vs: map<Ref, Value>, t: nat | Sum(vs) <= quota ensures !Doomed(vs, t, u, quota) {
        if s :| Left(vs, t, s) && quota < Sum(Sub(vs, s)) + u && Sum(Sub(vs, s)) < u {
          SumPositive(Sub(vs, s));
        }
      }
    } else if u > quota {
      TooLarge(0, u, quota);
      EmptySum();
    } else {
      var v := Value(0, 1, Zeros(u - 1 - OVERHEAD), 1, []);
      var vs := map[0 := v];
      OneSum(0, v);
      assert Sub(vs, {0}) == vs;
      assert Left(vs, 0, {0}) && Doomed(vs, 0, u, quota);
    }
  }

  lemma EmptySum()
    ensures Sum(map[]) == 0
  {}

  lemma OneSum(x: Ref, v: Value)
    ensures Sum(map[x := v]) == Cost(v)
  {
    SumWithout(map[x := v], x);
    assert map[x := v] - {x} == map[];
    EmptySum();
  }

  /** An entry larger than the quota, put into an empty cache: it is evicted, and deducted from nothing. */
  lemma TooLarge(t: nat, u: nat, quota: nat)
    requires u > quota
    ensures Doomed(map[], t, u, quota)
  {
    hide Sum;
    EmptySum();
    assert Sub(map[], {}) == map[];
    assert Left(map[], t, {});
  }

  /** Entries that expire together: quota 1200, an entry of cost 1000 and a new one of cost 800; either may go. */
  lemma TiedExample(vs: map<Ref, Value>, x: Ref)
    requires vs.Keys == {x} && Cost(vs[x]) == 1000
    ensures !Doomed(vs, vs[x].discard, 800, 1200)
  {
    hide Sum;
    OneSum(x, vs[x]);
    EmptySum();
    forall s | Left(vs, vs[x].discard, s) ensures Sum(Sub(vs, s)) == 0 || Sum(Sub(vs, s)) == 1000 {
      if x in s {
        assert Sub(vs, s) == map[x := vs[x]];
      } else {
        assert Sub(vs, s) == map[];
      }
    }
  }

  /** The entry `x` is not counted while it is stored, and deducted once it is evicted. */
  ghost predicate Counted(vs: map<Ref, Value>, x: Ref, utilization: nat, used: nat, quota: nat) {
    if x in vs then utilization + used == Sum(vs) else utilization + used == Sum(vs) <= quota
  }

  lemma EvictedNone(vs: map<Ref, Value>, quota: nat)
    ensures Evicted(vs, vs, quota)
  {}

  lemma LeastIn(heap: map<Ref, nat>, vs: map<Ref, Value>, z: Ref)
    requires Ordered(heap, vs) && z in heap
    ensures z in vs && |vs - {z}| < |vs|
  {
    assert (vs - {z}).Keys == vs.Keys - {z};
  }

  /** The roots of the heap are the entries that may be the next to go. */
  lemma FirstOut(heap: map<Ref, nat>, vs: map<Ref, Value>)
    requires Ordered(heap, vs)
    ensures forall z :: z in heap && Least(heap, z) ==> First(vs, z)
  {
    forall z | z in heap && Least(heap, z) ensures First(vs, z) {
      forall y | y in vs ensures vs[z].discard <= vs[y].discard { assert heap[z] <= heap[y]; }
    }
  }

  lemma Shrunk(was: map<Ref, Value>, x: Ref, v: Value, vs: map<Ref, Value>, z: Ref,
               utilization: nat, used: nat, quota: nat)
    requires x !in was && Sum(was) <= quota && First(vs, z) && Evicted(was[x := v], vs, quota)
    requires Counted(vs, x, utilization, used, quota) && utilization + used > quota && used == Cost(v)
    requires utilization >= Cost(vs[z])
    ensures Counted(vs - {z}, x, utilization - Cost(vs[z]), used, quota)
    ensures Evicted(was[x := v], vs - {z}, quota)
    ensures Keys(vs) == Keys(vs - {z}) + multiset{vs[z].key}
  {
    hide Sum, Keys;
    SumWithout(vs, z);
    KeysWithout(vs, z);
    var left := vs - {z};
    if z == x {
      SubmapSum(left, was);
    }
    var all := was[x := v];
    assert left[z := all[z]] == vs;
    assert z in all && z !in left && Sum(left[z := all[z]]) > quota;
  }

  // ---------------------------------------------------------------------
  // The cache, updated in place
  // ---------------------------------------------------------------------

  datatype Outcome = Stored | Duplicate

  class Cache {
    const quota: nat
    var utilization: nat
    var filter: Option<multiset<Key>>    // keys added to the filter and not removed, if there is one
    var index: map<Key, set<Ref>>
    var heap: map<Ref, nat>
    var values: map<Ref, Value>
    var next: Ref

    ghost predicate Entries()
      reads this
    {
      && Ordered(heap, values) && Indexed(index, values) && Distinct(values)
      && (forall x :: x in values ==> x < next)
    }

    ghost predicate FilterOk()
      reads this
    {
      filter.Some? ==> filter.value == Keys(values)
    }

    ghost predicate Valid()
      reads this
    {
      Entries() && FilterOk() && utilization == Sum(values) <= quota
    }

    constructor (quota: nat, filtered: bool)
      ensures Valid() && this.quota == quota && values == map[]
    {
      this.quota := quota;
      utilization, index, heap, values, next := 0, map[], map[], map[], 0;
      filter := if filtered then Some(multiset{}) else None;
    }

    // ---- the plugin

    /** Look for an entry equal in key, type and data. */
    method FindSame(k: Key, data: seq<Byte>, t: nat) returns (found: Option<Ref>)
      requires Entries()
      ensures found.Some? ==> found.value in values && Same(values[found.value], k, t, data)
      ensures found.None? ==> forall x :: x in values ==> !Same(values[x], k, t, data)
    {
      if k !in index {
        return None;
      }
      var todo := index[k];
      while todo != {}
        invariant todo <= index[k]
        invariant forall x :: x in index[k] - todo ==> !Same(values[x], k, t, data)
        decreases todo
      {
        var x :| x in todo;
        if values[x].btype == t && values[x].data == data {
          return Some(x);
        }
        todo := todo - {x};
      }
      return None;
    }

    /** Store an entry, or refresh the one that is there; `used` are the bytes it takes, 0 if none. */
    method PluginPut(k: Key, data: seq<Byte>, t: nat, discard: nat, path: seq<Peer>)
      returns (used: nat, ghost x: Ref)
      requires Entries()
      modifies this`index, this`heap, this`values, this`next
      ensures Entries()
      ensures used == 0 ==>
                && x in old(values) && Same(old(values)[x], k, t, data)
                && values == old(values)[x := old(values)[x].(path := path,
                     discard := if discard > old(values)[x].discard then discard else old(values)[x].discard)]
      ensures used != 0 ==>
                && (forall y :: y in old(values) ==> !Same(old(values)[y], k, t, data))
                && x !in old(values) && used == |data| + OVERHEAD
                && values == old(values)[x := Value(k, t, data, discard, path)]
    {
      var found := FindSame(k, data, t);
      if found.Some? {
        x := found.value;
        Refresh(found.value, discard, path);
        return 0, x;
      }
      x := next;
      Insert(Value(k, t, data, discard, path));
      return |data| + OVERHEAD, x;
    }

    method Refresh(x: Ref, discard: nat, path: seq<Peer>)
      requires Entries() && x in values
      modifies this`heap, this`values
      ensures Entries()
      ensures values == old(values)[x := old(values)[x].(path := path,
                discard := if discard > old(values)[x].discard then discard else old(values)[x].discard)]
    {
      var v := values[x];
      var later := if discard > v.discard then discard else v.discard;
      values := values[x := v.(discard := later, path := path)];
      heap := heap[x := later];
    }

    method Insert(v: Value)
      requires Entries() && forall y :: y in values ==> !Same(values[y], v.key, v.btype, v.data)
      modifies this`index, this`heap, this`values, this`next
      ensures Entries() && values == old(values)[old(next) := v] && old(next) !in old(values)
    {
      var x := next;
      next := next + 1;
      values := values[x := v];
      index := index[v.key := (if v.key in index then index[v.key] else {}) + {x}];
      heap := heap[x := v.discard];
    }

    /** Delete the entry with the lowest discard time, and account for it. */
    method Delete() returns (ok: bool, ghost x: Ref)
      requires Entries()
      requires forall y :: y in heap && Least(heap, y) ==> utilization >= Cost(values[y])
      modifies this`index, this`heap, this`values, this`utilization, this`filter
      ensures Entries() && (ok <==> old(values) != map[])
      ensures ok ==>
                && x in old(heap) && Least(old(heap), x) && values == old(values) - {x}
                && utilization == old(utilization) - Cost(old(values)[x])
                && filter == match old(filter) case None => None case Some(f) => Some(f - multiset{old(values)[x].key})
      ensures !ok ==> values == old(values) && utilization == old(utilization) && filter == old(filter)
    {
      if heap == map[] {
        assert values == map[];
        return false, 0;
      }
      LeastExists(heap);
      var root :| root in heap && Least(heap, root);
      assert root in values;
      var v := values[root];
      Remove(root);
      DeleteNotify(v.key, |v.data| + OVERHEAD);
      return true, root;
    }

    /** Take an entry out of heap and index. */
    method Remove(x: Ref)
      requires Entries() && x in values
      modifies this`index, this`heap, this`values
      ensures Entries() && values == old(values) - {x}
    {
      var k := values[x].key;
      assert k in index && x in index[k];
      heap := heap - {x};
      index := index[k := index[k] - {x}];
      values := values - {x};
    }

    // ---- the cache proper

    method DeleteNotify(k: Key, size: nat)
      requires utilization >= size
      modifies this`utilization, this`filter
      ensures utilization == old(utilization) - size
      ensures filter == match old(filter) case None => None case Some(f) => Some(f - multiset{k})
    {
      assert utilization >= size;
      utilization := utilization - size;
      match filter {
        case None =>
        case Some(f) => filter := Some(f - multiset{k});
      }
    }

    /** Store an item; what expires first is evicted until the quota is kept, possibly the new item itself. */
    method Put(k: Key, data: seq<Byte>, t: nat, discard: nat, path: seq<Peer>) returns (r: Outcome, ghost x: Ref)
      requires Valid()
      requires (forall y :: y in values ==> !Same(values[y], k, t, data)) ==>
                 !Doomed(values, discard, |data| + OVERHEAD, quota)
      modifies this
      ensures Valid()
      ensures r == Duplicate <==> exists y :: y in old(values) && Same(old(values)[y], k, t, data)
      ensures r == Duplicate ==>
                && x in old(values) && Same(old(values)[x], k, t, data)
                && values == old(values)[x := old(values)[x].(path := path,
                     discard := if discard > old(values)[x].discard then discard else old(values)[x].discard)]
      ensures r == Stored ==> x !in old(values)
      ensures r == Stored ==> Evicted(old(values)[x := Value(k, t, data, discard, path)], values, quota)
    {
      hide Ordered, Indexed, Distinct, Sum, Keys, MayFail, Doomed;
      var used;
      used, x := PluginPut(k, data, t, discard, path);
      if used == 0 {
        ghost var v := old(values)[x];
        SumRefreshed(old(values), x, values[x]);
        KeysRefreshed(old(values), x, values[x]);
        return Duplicate, x;
      }
      ghost var v := Value(k, t, data, discard, path);
      KeysWith(old(values), x, v);
      SumWith(old(values), x, v);
      match filter {
        case None =>
        case Some(f) => filter := Some(f + multiset{k});
      }
      PutFailsIff(old(values), x, v, quota);
      MakeRoom(used, old(values), x);
      return Stored, x;
    }

    /** The quota loop: the new entry `x` is stored but not yet counted. */
    method MakeRoom(used: nat, ghost was: map<Ref, Value>, ghost x: Ref)
      requires Entries() && FilterOk() && x in values && x !in was && values == was[x := values[x]]
      requires used == Cost(values[x]) && utilization == Sum(was) <= quota
      requires !MayFail(values, utilization, used, quota)
      modifies this`index, this`heap, this`values, this`utilization, this`filter
      ensures Valid() && Evicted(old(values), values, quota)
    {
      hide Ordered, Indexed, Distinct, Sum, Keys, MayFail, Evicted;
      ghost var v := values[x];
      assert values == was[x := v];
      EvictedNone(values, quota);
      SumWith(was, x, v);
      while utilization + used > quota
        invariant Entries() && FilterOk()
        invariant Counted(values, x, utilization, used, quota) && Evicted(old(values), values, quota)
        invariant !MayFail(values, utilization, used, quota)
        decreases |values|
      {
        EvictOne(used, was, x, v);
      }
      utilization := utilization + used;
    }

    method EvictOne(used: nat, ghost was: map<Ref, Value>, ghost x: Ref, ghost v: Value)
      requires Entries() && FilterOk() && x !in was && used == Cost(v)
      requires Sum(was) <= quota && !MayFail(values, utilization, used, quota)
      requires Counted(values, x, utilization, used, quota) && Evicted(was[x := v], values, quota)
      requires utilization + used > quota
      modifies this`index, this`heap, this`values, this`utilization, this`filter
      ensures Entries() && FilterOk() && |values| < |old(values)|
      ensures Counted(values, x, utilization, used, quota) && Evicted(was[x := v], values, quota)
      ensures !MayFail(values, utilization, used, quota)
    {
      hide Ordered, Indexed, Distinct, Sum, Keys, MayFail, Evicted, Counted, First;
      ghost var vs, counted, order := values, utilization, heap;
      NoFailure(vs, counted, used, quota);
      FirstOut(order, vs);
      ghost var z;
      var ok;
      ok, z := Delete();
      assert ok;
      LeastIn(order, vs, z);
      Shrunk(was, x, v, vs, z, counted, used, quota);
    }

    /** The filter may report keys that were never added, but it misses none. */
    method TestFilter(f: multiset<Key>, k: Key) returns (b: bool)
      ensures k in f ==> b
    {
      b := *;
      if k in f {
        b := true;
      }
    }

    /** The entries under a key with the given type; the filter never hides one. */
    method Get(k: Key, t: nat) returns (found: set<Ref>, count: nat)
      requires Valid()
      ensures found == Matching(values, k, t) && count == |found|
    {
      match filter {
        case None =>
        case Some(f) =>
          var maybe := TestFilter(f, k);
          if !maybe {
            NotFiltered(values, k, t);
            return {}, 0;
          }
      }
      found, count := PluginGet(k, t);
    }

    method PluginGet(k: Key, t: nat) returns (found: set<Ref>, count: nat)
      requires Entries()
      ensures found == Matching(values, k, t) && count == |found|
    {
      found, count := {}, 0;
      if k !in index {
        return;
      }
      var todo := index[k];
      while todo != {}
        invariant todo <= index[k]
        invariant found == set x | x in index[k] - todo && (t == ANY || values[x].btype == t)
        invariant count == |found|
        decreases todo
      {
        var x :| x in todo;
        todo := todo - {x};
        if t != values[x].btype && t != ANY {
          continue;
        }
        found := found + {x};
        count := count + 1;
      }
    }
  }

  /** A key that the filter rejects has no entries. */
  lemma NotFiltered(vs: map<Ref, Value>, k: Key, t: nat)
    requires k !in Keys(vs)
    ensures Matching(vs, k, t) == {}
  {
    if x :| x in Matching(vs, k, t) {
      KeysWithout(vs, x);
    }
  }
}
