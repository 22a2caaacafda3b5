/**
  The state cache the virtual machine executes against: a base mapping from
  (contractAddress, key) to a value, plus the ordered list of keys this cache
  has modified. A fork is a child cache whose base is the parent's current view
  and whose modified list starts empty; merging copies a list of modifications
  into a cache, the last write to a key winning.

  Re-setting a key that is already modified replaces its value in place and
  keeps the key's position, so the modified list never holds a key twice.
*/
module StateCaches {

  /** The unique addressable unit of contract state. */
  datatype StateKey = StateKey(contractAddress: string, key: string)

  /** Values are opaque and compared by exact equality. */
  type Value = string

  type Store = map<StateKey, Value>

  /** One modified key of a cache with its current value. */
  datatype Modified = Modified(key: StateKey, value: Value)

  function KeysOf(ms: seq<Modified>): seq<StateKey>
  {
    seq(|ms|, i requires 0 <= i < |ms| => ms[i].key)
  }

  function KeySet(ms: seq<Modified>): set<StateKey>
  {
    set i | 0 <= i < |ms| :: ms[i].key
  }

  predicate DistinctKeys(ms: seq<Modified>)
  {
    forall i, j :: 0 <= i < j < |ms| ==> ms[i].key != ms[j].key
  }

  /** Writes `ms` into `m` one after the other, so a later write to a key shadows an earlier one. */
  function Apply(m: Store, ms: seq<Modified>): Store
    decreases |ms|
  {
    if ms == [] then m else Apply(m[ms[0].key := ms[0].value], ms[1..])
  }

  /** `ms` with the value of every entry for `k` replaced by `v`; positions are kept. */
  function Replace(ms: seq<Modified>, k: StateKey, v: Value): seq<Modified>
  {
    seq(|ms|, i requires 0 <= i < |ms| => if ms[i].key == k then Modified(k, v) else ms[i])
  }

  /** The value of a state cache. */
  datatype Cache = Cache(base: Store, modified: seq<Modified>)
  {
    /** What a reader of this cache sees: the base overlaid with the modified keys. */
    function View(): Store
    {
      Apply(base, modified)
    }

    /** A child overlay that sees what this cache sees and has modified nothing yet. */
    function Fork(): (child: Cache)
      ensures child.View() == View() && child.modified == []
    {
      Cache(View(), [])
    }

    function Set(k: StateKey, v: Value): Cache
    {
      if k in KeysOf(modified) then Cache(base, Replace(modified, k, v))
      else Cache(base, modified + [Modified(k, v)])
    }

    /** Sets each entry of `ms` in turn. */
    function SetAll(ms: seq<Modified>): Cache
      decreases |ms|
    {
      if ms == [] then this else Set(ms[0].key, ms[0].value).SetAll(ms[1..])
    }
  }

  /** A fresh cache with no base and no modifications, as `new StateCache()` creates. */
  const Empty := Cache(map[], [])

  lemma {:induction false} ApplyConcat(m: Store, a: seq<Modified>, b: seq<Modified>)
    ensures Apply(m, a + b) == Apply(Apply(m, a), b)
    decreases |a|
  {
    if a == [] {
      assert a + b == b;
    } else {
      assert (a + b)[0] == a[0];
      assert (a + b)[1..] == a[1..] + b;
      ApplyConcat(m[a[0].key := a[0].value], a[1..], b);
    }
  }

  /** Whatever `k` held before the writes, overwriting it afterwards gives the same store. */
  lemma {:induction false} ApplyShadowed(m: Store, ms: seq<Modified>, k: StateKey, a: Value, v: Value)
    ensures Apply(m[k := a], ms)[k := v] == Apply(m, ms)[k := v]
    decreases |ms|
  {
    if ms == [] {
      assert m[k := a][k := v] == m[k := v];
    } else {
      var e := ms[0];
      if e.key == k {
        assert m[k := a][k := e.value] == m[k := e.value];
      } else {
        assert m[k := a][e.key := e.value] == m[e.key := e.value][k := a];
        ApplyShadowed(m[e.key := e.value], ms[1..], k, a, v);
      }
    }
  }

  /** A write to a key that `ms` never touches commutes with `ms`. */
  lemma {:induction false} ApplyUntouched(m: Store, ms: seq<Modified>, k: StateKey, v: Value)
    requires k !in KeysOf(ms)
    ensures Apply(m[k := v], ms) == Apply(m, ms)[k := v]
    decreases |ms|
  {
    if ms != [] {
      var e := ms[0];
      assert e.key == KeysOf(ms)[0];
      assert m[k := v][e.key := e.value] == m[e.key := e.value][k := v];
      assert KeysOf(ms[1..]) == KeysOf(ms)[1..];
      ApplyUntouched(m[e.key := e.value], ms[1..], k, v);
    }
  }

  lemma {:induction false} ApplyReplace(m: Store, ms: seq<Modified>, k: StateKey, v: Value)
    requires k in KeysOf(ms)
    ensures Apply(m, Replace(ms, k, v)) == Apply(m, ms)[k := v]
    decreases |ms|
  {
    var r := Replace(ms, k, v);
    var e := ms[0];
    assert r[1..] == Replace(ms[1..], k, v);
    assert KeysOf(ms[1..]) == KeysOf(ms)[1..];
    if e.key == k {
      assert r[0] == Modified(k, v);
      if k in KeysOf(ms[1..]) {
        ApplyReplace(m[k := v], ms[1..], k, v);
        ApplyShadowed(m, ms[1..], k, v, v);
        ApplyShadowed(m, ms[1..], k, e.value, v);
      } else {
        forall j | 0 <= j < |ms[1..]| ensures ms[1..][j].key != k {
          assert KeysOf(ms[1..])[j] == ms[1..][j].key;
        }
        assert Replace(ms[1..], k, v) == ms[1..];
        ApplyUntouched(m, ms[1..], k, v);
        ApplyShadowed(m, ms[1..], k, e.value, v);
      }
    } else {
      assert r[0] == e;
      assert k in KeysOf(ms[1..]);
      ApplyReplace(m[e.key := e.value], ms[1..], k, v);
    }
  }

  /** Setting a key makes readers see the new value and changes nothing else. */
  lemma SetView(c: Cache, k: StateKey, v: Value)
    ensures c.Set(k, v).View() == c.View()[k := v]
    ensures c.Set(k, v).base == c.base
  {
    if k in KeysOf(c.modified) {
      ApplyReplace(c.base, c.modified, k, v);
    } else {
      ApplyConcat(c.base, c.modified, [Modified(k, v)]);
    }
  }

  /** Setting a key keeps the order of the modified keys, appending the key if it is new. */
  lemma SetKeys(c: Cache, k: StateKey, v: Value)
    ensures KeysOf(c.Set(k, v).modified) ==
            if k in KeysOf(c.modified) then KeysOf(c.modified) else KeysOf(c.modified) + [k]
    ensures DistinctKeys(c.modified) ==> DistinctKeys(c.Set(k, v).modified)
  {
    var ms := c.modified;
    var ms' := c.Set(k, v).modified;
    if k in KeysOf(ms) {
      assert KeysOf(ms') == KeysOf(ms);
    } else {
      assert KeysOf(ms') == KeysOf(ms) + [k];
      if DistinctKeys(ms) {
        forall i, j | 0 <= i < j < |ms'| ensures ms'[i].key != ms'[j].key {
          if j == |ms| {
            assert ms'[i].key == KeysOf(ms)[i];
          }
        }
      }
    }
  }

  /** Merging a list of writes into a cache is seen as those writes applied to its view. */
  lemma {:induction false} SetAllView(c: Cache, ms: seq<Modified>)
    ensures c.SetAll(ms).View() == Apply(c.View(), ms)
    ensures c.SetAll(ms).base == c.base
    decreases |ms|
  {
    if ms != [] {
      var c' := c.Set(ms[0].key, ms[0].value);
      SetView(c, ms[0].key, ms[0].value);
      SetAllView(c', ms[1..]);
    }
  }

  /**
    Merging keeps the keys the cache had modified, in their order, as a prefix,
    adds exactly the keys written, and never lists a key twice.
  */
  lemma {:induction false} SetAllKeys(c: Cache, ms: seq<Modified>)
    ensures KeysOf(c.modified) <= KeysOf(c.SetAll(ms).modified)
    ensures KeySet(c.SetAll(ms).modified) == KeySet(c.modified) + KeySet(ms)
    ensures DistinctKeys(c.modified) ==> DistinctKeys(c.SetAll(ms).modified)
    decreases |ms|
  {
    if ms != [] {
      var e := ms[0];
      var c' := c.Set(e.key, e.value);
      assert c.SetAll(ms) == c'.SetAll(ms[1..]);
      SetKeys(c, e.key, e.value);
      SetAllKeys(c', ms[1..]);
      SetKeySet(c, e.key, e.value);
      KeySetCons(ms);
    }
  }

  /** Setting a key adds exactly that key to the key set. */
  lemma SetKeySet(c: Cache, k: StateKey, v: Value)
    ensures KeySet(c.Set(k, v).modified) == KeySet(c.modified) + {k}
  {
    SetKeys(c, k, v);
    KeySetOfKeys(c.modified);
    KeySetOfKeys(c.Set(k, v).modified);
  }

  /** The key set of a non-empty list is its first key and the key set of the rest. */
  lemma KeySetCons(ms: seq<Modified>)
    requires ms != []
    ensures KeySet(ms) == {ms[0].key} + KeySet(ms[1..])
  {
    forall x | x in KeySet(ms) ensures x in {ms[0].key} + KeySet(ms[1..]) {
      var i :| 0 <= i < |ms| && ms[i].key == x;
      if i > 0 { assert ms[1..][i - 1].key == x; }
    }
    forall x | x in KeySet(ms[1..]) ensures x in KeySet(ms) {
      var i :| 0 <= i < |ms[1..]| && ms[1..][i].key == x;
      assert ms[i + 1].key == x;
    }
  }

  /** The key set of a modified list is the set of its key sequence's elements. */
  lemma KeySetOfKeys(ms: seq<Modified>)
    ensures forall x :: x in KeySet(ms) <==> x in KeysOf(ms)
  {
    forall x | x in KeysOf(ms) ensures x in KeySet(ms) {
      var i :| 0 <= i < |ms| && KeysOf(ms)[i] == x;
      assert ms[i].key == x;
    }
    forall x | x in KeySet(ms) ensures x in KeysOf(ms) {
      var i :| 0 <= i < |ms| && ms[i].key == x;
      assert KeysOf(ms)[i] == x;
    }
  }

  /**
    A state cache object. A fork is a new object; the parent's view is copied
    into the child's base when the fork is taken.
  */
  class StateCache {
    var base: Store
    var modified: seq<Modified>

    ghost predicate Valid()
      reads this
    {
      DistinctKeys(modified)
    }

    function Value(): Cache
      reads this
    {
      Cache(base, modified)
    }

    function View(): Store
      reads this
    {
      Value().View()
    }

    function GetModifiedKeys(): seq<Modified>
      reads this
    {
      modified
    }

    constructor (base: Store)
      ensures Valid() && Value() == Cache(base, [])
    {
      this.base := base;
      modified := [];
    }

    method Fork() returns (child: StateCache)
      ensures fresh(child) && child.Valid() && child.Value() == Value().Fork()
    {
      child := new StateCache(View());
    }

    method Set(k: StateKey, v: Value)
      requires Valid()
      modifies this
      ensures Valid() && Value() == old(Value()).Set(k, v)
    {
      SetKeys(Value(), k, v);
      if k in KeysOf(modified) {
        modified := Replace(modified, k, v);
      } else {
        modified := modified + [Modified(k, v)];
      }
    }

    /** Copies `ms` into this cache in order; the last write to a key wins. */
    method Merge(ms: seq<Modified>)
      requires Valid()
      modifies this
      ensures Valid() && Value() == old(Value()).SetAll(ms)
    {
      var i := 0;
      while i < |ms|
        invariant 0 <= i <= |ms|
        invariant Valid()
        invariant Value().SetAll(ms[i..]) == old(Value()).SetAll(ms)
      {
        assert ms[i..][1..] == ms[i + 1..];
        Set(ms[i].key, ms[i].value);
        i := i + 1;
      }
    }
  }
}
