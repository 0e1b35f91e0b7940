/** The buffer pool as one thread sees it. */
module BufferPool {
  import opened Outcomes

  class DataArrayPool {
    const itemSize: nat
    const zeroOnRelease: bool
    var pool: seq<array<int>>

    /** All queued buffers have the pool's item size. */
    ghost predicate Valid()
      reads this
    {
      forall i :: 0 <= i < |pool| ==> pool[i].Length == itemSize
    }

    /** The constructor after its check of the pool size: allocates value-initialised buffers. */
    constructor (poolSize: nat, itemSize: nat, zeroOnRelease: bool)
      requires poolSize > 0
      ensures Valid() && fresh(pool) && |pool| == poolSize
      ensures this.itemSize == itemSize && this.zeroOnRelease == zeroOnRelease
      ensures forall i, k :: 0 <= i < poolSize && 0 <= k < itemSize ==> pool[i][k] == 0
      ensures forall i, j :: 0 <= i < j < poolSize ==> pool[i] != pool[j]
    {
      this.itemSize := itemSize;
      this.zeroOnRelease := zeroOnRelease;
      pool := [];
      new;
      for n := 0 to poolSize
        invariant Valid() && fresh(pool) && |pool| == n
        invariant this.itemSize == itemSize
        invariant forall i, k :: 0 <= i < n && 0 <= k < itemSize ==> pool[i][k] == 0
        invariant forall i, j :: 0 <= i < j < n ==> pool[i] != pool[j]
      {
        var item := new int[itemSize](_ => 0);
        pool := pool + [item];
      }
    }

    /** Pops the front buffer, or throws when there is none. */
    method Acquire() returns (item: Option<array<int>>)
      requires Valid()
      modifies this
      ensures Valid()
      ensures item.None? <==> old(pool) == []
      ensures item.None? ==> pool == old(pool)
      ensures item.Some? ==> old(pool) == [item.value] + pool
    {
      if pool == [] {
        return None;
      }
      item := Some(pool[0]);
      pool := pool[1..];
    }

    /** Takes the first `n` buffers in order, or none: a call that throws leaves the queue as it was, in
        the same order. */
    method AcquireBatch(n: nat) returns (batch: Option<seq<array<int>>>)
      requires Valid()
      modifies this
      ensures Valid()
      ensures batch.Some? <==> n <= |old(pool)|
      ensures batch.Some? ==> |batch.value| == n && old(pool) == batch.value + pool
      ensures batch.None? ==> pool == old(pool)
    {
      var got: seq<array<int>> := [];
      for i := 0 to n
        invariant |got| == i && old(pool) == got + pool && Valid()
      {
        if pool == [] {
          for j := 0 to |got|
            invariant pool == got[..j]
          {
            pool := pool + [got[j]];
          }
          assert pool == got == old(pool);
          return None;
        }
        got := got + [pool[0]];
        pool := pool[1..];
      }
      return Some(got);
    }

    /** Zeroes the buffer if the pool is set up that way and appends it; throws on a null pointer. */
    method Release(item: array?<int>) returns (accepted: bool)
      requires Valid() && (item != null ==> item.Length == itemSize)
      modifies this, item
      ensures Valid()
      ensures accepted <==> item != null
      ensures !accepted ==> pool == old(pool)
      ensures accepted ==> pool == old(pool) + [item]
      ensures accepted && zeroOnRelease ==> forall k :: 0 <= k < itemSize ==> item[k] == 0
      ensures accepted && !zeroOnRelease ==> item[..] == old(item[..])
    {
      if item == null {
        return false;
      }
      if zeroOnRelease {
        for k := 0 to itemSize
          modifies item
          invariant forall i :: 0 <= i < k ==> item[i] == 0
        {
          item[k] := 0;
        }
      }
      pool := pool + [item];
      return true;
    }
  }

  /** Construction with its error path: an empty pool is refused. */
  method NewPool(poolSize: nat, itemSize: nat, zeroOnRelease: bool) returns (r: Option<DataArrayPool>)
    ensures r.None? <==> poolSize == 0
    ensures r.Some? ==>
              var p := r.value;
              fresh(p) && fresh(p.pool) && p.Valid() && |p.pool| == poolSize
              && p.itemSize == itemSize && p.zeroOnRelease == zeroOnRelease
              && (forall i, k :: 0 <= i < poolSize && 0 <= k < itemSize ==> p.pool[i][k] == 0)
              && forall i, j :: 0 <= i < j < poolSize ==> p.pool[i] != p.pool[j]
  {
    if poolSize == 0 {
      return None;
    }
    var p := new DataArrayPool(poolSize, itemSize, zeroOnRelease);
    return Some(p);
  }
}
