/** The simulator's `ObjectPool<T>`: a fixed set of handles, created up front
    from a factory, taken by `GetObject` and put back by `Dispose`. */
module Pooling {
  import opened Wrappers

  /** `ArgumentNullException`. */
  datatype PoolError = ArgumentNull

  /** `ObjectPool<T>.ObjectPoolObject`: a handle wrapping one pooled object and
      the pool it goes back to. */
  class PoolObject<T> {
    const obj: T
    const pool: ObjectPool<T>

    constructor (obj: T, pool: ObjectPool<T>)
      ensures this.obj == obj && this.pool == pool
    {
      this.obj := obj;
      this.pool := pool;
    }

    /** The `Value` property. */
    function Value(): (v: T)
      ensures v == obj
    {
      obj
    }

    /** `Dispose`: hands the handle back to its pool; nothing stops a second
        dispose of the same handle. */
    method Dispose()
      requires pool.Valid()
      modifies pool
      ensures pool.Valid()
      ensures pool.available == old(pool.available) + [this]
      ensures pool.checkedOut == old(pool.checkedOut) - multiset{this}
      ensures old(this in pool.checkedOut) ==> pool.Held() == old(pool.Held())
      ensures old(this !in pool.checkedOut) ==> pool.Held() == old(pool.Held()) + 1
      ensures pool.created == old(pool.created)
    {
      var thrown := pool.Return(this);
    }
  }

  /** The explicit conversion operator from a handle to its object. */
  function AsValue<T>(p: PoolObject<T>): (v: T)
    ensures v == p.Value()
  {
    p.obj
  }

  class ObjectPool<T> {
    /** `_pool`: the handles available, in the order `GetObject` takes them
        (a `BlockingCollection` is first-in first-out by default). */
    var available: seq<PoolObject<T>>
    const poolSize: int
    /** The handles taken and not yet returned. */
    ghost var checkedOut: multiset<PoolObject<T>>
    /** How many handles `Initialize` created. */
    ghost var created: nat

    /** Every available handle belongs to this pool. */
    ghost predicate Valid()
      reads this
    {
      forall h :: h in available ==> h.pool == this
    }

    /** Handles available plus handles checked out. */
    ghost function Held(): nat
      reads this
    {
      |available| + |checkedOut|
    }

    constructor Empty(poolSize: int)
      ensures Valid() && this.poolSize == poolSize
      ensures available == [] && checkedOut == multiset{} && created == 0
    {
      this.poolSize := poolSize;
      available := [];
      checkedOut := multiset{};
      created := 0;
    }

    /** `Initialize`: adds `poolSize` handles made by successive factory calls;
        a null from the factory throws `ArgumentNullException` (in the handle's
        constructor) and ends the loop. */
    method Initialize(factory: nat -> Option<T>) returns (r: Result<(), PoolError>)
      requires Valid() && available == [] && checkedOut == multiset{} && created == 0
      modifies this
      ensures Valid() && checkedOut == multiset{}
      ensures r.Ok? <==> forall i :: 0 <= i < poolSize ==> factory(i).Some?
      ensures r.Ok? ==> |available| == created == (if poolSize > 0 then poolSize else 0)
      ensures r.Ok? ==> forall i :: 0 <= i < |available| ==> available[i].Value() == factory(i).value
      ensures forall i, j :: 0 <= i < j < |available| ==> available[i] != available[j]
      ensures forall i :: 0 <= i < |available| ==> fresh(available[i]) && available[i].pool == this
    {
      var i := 0;
      while i < poolSize
        invariant 0 <= i && (if poolSize > 0 then i <= poolSize else i == 0)
        invariant Valid() && checkedOut == multiset{}
        invariant |available| == created == i
        invariant forall k :: 0 <= k < i ==> factory(k).Some? && available[k].Value() == factory(k).value
        invariant forall k :: 0 <= k < i ==> fresh(available[k])
        invariant forall k, j :: 0 <= k < j < i ==> available[k] != available[j]
      {
        var v := factory(i);
        if v.None? {
          return Err(ArgumentNull);
        }
        var h := new PoolObject(v.value, this);
        available := available + [h];
        created := created + 1;
        i := i + 1;
      }
      r := Ok(());
    }

    /** The constructor `ObjectPool(factory, poolSize)`: a null factory throws
        before any handle is made; otherwise the pool is initialized. */
    static method Create(factory: Option<nat -> Option<T>>, poolSize: int) returns (r: Result<ObjectPool<T>, PoolError>)
      ensures factory.None? ==> r == Err(ArgumentNull)
      ensures factory.Some? ==> (r.Ok? <==> forall i :: 0 <= i < poolSize ==> factory.value(i).Some?)
      ensures r.Ok? ==> var p := r.value;
        && fresh(p) && p.Valid() && p.poolSize == poolSize
        && |p.available| == p.Held() == p.created == (if poolSize > 0 then poolSize else 0)
    {
      if factory.None? {
        return Err(ArgumentNull);
      }
      var p := new ObjectPool.Empty(poolSize);
      var init := p.Initialize(factory.value);
      if init.Err? {
        return Err(init.error);
      }
      r := Ok(p);
    }

    /** `GetObject`: `Take` blocks while the pool is empty, so a call that
        returns finds a handle; it removes and returns the oldest one. */
    method GetObject() returns (h: PoolObject<T>)
      requires Valid() && |available| > 0
      modifies this
      ensures Valid()
      ensures h == old(available[0]) && available == old(available[1..])
      ensures h.pool == this
      ensures checkedOut == old(checkedOut) + multiset{h}
      ensures Held() == old(Held())
      ensures created == old(created)
    {
      h := available[0];
      available := available[1..];
      checkedOut := checkedOut + multiset{h};
    }

    /** `Return`: a null handle throws `ArgumentNullException`; any other is
        added back, whether or not it is already in the pool. */
    method Return(obj: PoolObject?<T>) returns (thrown: Option<PoolError>)
      requires Valid() && (obj != null ==> obj.pool == this)
      modifies this
      ensures Valid()
      ensures obj == null ==> thrown == Some(ArgumentNull) && available == old(available) && checkedOut == old(checkedOut)
      ensures obj != null ==> thrown.None? && available == old(available) + [obj]
      ensures obj != null ==> checkedOut == old(checkedOut) - multiset{obj}
      ensures created == old(created)
    {
      if obj == null {
        return Some(ArgumentNull);
      }
      available := available + [obj];
      checkedOut := checkedOut - multiset{obj};
      thrown := None;
    }
  }

  /** Disposing the same handle twice leaves two copies of it available, so a
      pool of one handle then offers two. */
  method DoubleDisposeOverfills(v: int) returns (availableCount: nat, poolSize: int)
    ensures poolSize == 1 && availableCount == 2
  {
    var made := ObjectPool<int>.Create(Some((_: nat) => Some(v)), 1);
    assert made.Ok?;
    var pool := made.value;
    var h := pool.GetObject();
    h.Dispose();
    h.Dispose();
    availableCount, poolSize := |pool.available|, pool.poolSize;
  }
}
