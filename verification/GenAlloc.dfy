/** The fixed pool of objects with its free list, an array used as a stack. */
module FixedPool {
  import opened Wire

  ghost predicate NoDuplicates<T>(s: seq<T>) {
    forall i, j :: 0 <= i < j < |s| ==> s[i] != s[j]
  }

  ghost function Elements<T>(s: seq<T>): set<T> {
    set x | x in s
  }

  lemma {:induction false} ElementCount<T>(s: seq<T>)
    requires NoDuplicates(s)
    ensures |Elements(s)| == |s|
  {
    if s == [] {
      assert Elements(s) == {};
    } else {
      var x, rest := s[|s| - 1], s[..|s| - 1];
      ElementCount(rest);
      assert Elements(s) == Elements(rest) + {x};
    }
  }

  /** Appending keeps an enumeration of pool objects without repetition just for a pool object not in it. */
  lemma PushExact<T>(pool: seq<T>, s: seq<T>, x: T)
    requires NoDuplicates(s) && Elements(s) <= Elements(pool)
    ensures Elements(s + [x]) == Elements(s) + {x}
    ensures NoDuplicates(s + [x]) && Elements(s + [x]) <= Elements(pool)
       <==> x in Elements(pool) && x !in Elements(s)
  {
    var t := s + [x];
    assert forall y :: y in t <==> y in s || y == x;
    if x in s {
      var i :| 0 <= i < |s| && s[i] == x;
      assert t[i] == t[|s|];
    }
  }

  class GenAlloc<T(==)> {
    const pool: seq<T>
    const freeList: array<T>
    var allocIndex: nat

    /** The free objects: the part of the free list below allocIndex. */
    ghost function Free(): seq<T>
      reads this, freeList
    {
      if allocIndex <= freeList.Length then freeList[..allocIndex] else []
    }

    /** The objects handed out: those of the pool that are not free. */
    ghost function Live(): set<T>
      reads this, freeList
    {
      Elements(pool) - Elements(Free())
    }

    /** The free list enumerates objects of the pool without repetition. */
    ghost predicate Valid()
      reads this, freeList
    {
      && freeList.Length == |pool| && NoDuplicates(pool)
      && allocIndex <= |pool|
      && NoDuplicates(Free())
      && Elements(Free()) <= Elements(pool)
    }

    constructor (pool: seq<T>)
      requires NoDuplicates(pool)
      ensures Valid() && this.pool == pool && Live() == {} && fresh(freeList)
    {
      this.pool := pool;
      allocIndex := |pool|;
      freeList := new T[|pool|](i requires 0 <= i < |pool| => pool[i]);
      new;
      assert Free() == pool;
    }

    method GetFreeCount() returns (n: nat)
      requires Valid()
      ensures n == |pool| - |Live()|
    {
      Counts();
      n := allocIndex;
    }

    method GetAllocatedCount() returns (n: nat)
      requires Valid()
      ensures n == |Live()|
    {
      Counts();
      n := |pool| - allocIndex;
    }

    /** Free and allocated objects make up the pool. */
    lemma Counts()
      requires Valid()
      ensures |Live()| == |pool| - allocIndex
    {
      ElementCount(pool);
      ElementCount(Free());
      assert Elements(pool) == Live() + Elements(Free());
    }

    function ObjectAtIndex(idx: int): (r: Option<T>)
      ensures r.Some? ==> r.value in pool
    {
      if 0 <= idx < |pool| then Some(pool[idx]) else None
    }

    /**
     Going through the indices, as the loops that set up the clients do, meets every object of
     the pool, free or live, exactly once, and nothing else.
     */
    lemma IndicesExact(x: T)
      requires Valid()
      ensures (exists idx :: ObjectAtIndex(idx) == Some(x)) <==> x in Live() || x in Free()
      ensures forall i, j :: ObjectAtIndex(i) == ObjectAtIndex(j) == Some(x) ==> i == j
      ensures forall idx :: ObjectAtIndex(idx).Some? <==> 0 <= idx < |Live()| + |Free()|
    {
      Counts();
      if x in Live() || x in Free() {
        assert x in Elements(pool);
        var i :| 0 <= i < |pool| && pool[i] == x;
        assert ObjectAtIndex(i) == Some(x);
      }
    }

    /** Fails (bad_alloc) exactly when every object is live; otherwise hands out one that was not. */
    method Allocate() returns (obj: Option<T>)
      requires Valid()
      modifies this`allocIndex
      ensures Valid()
      ensures obj.None? <==> old(Live()) == Elements(pool)
      ensures obj.None? ==> Live() == old(Live())
      ensures obj.Some? ==> obj.value in pool && obj.value !in old(Live()) && Live() == old(Live()) + {obj.value}
    {
      if allocIndex > 0 {
        ghost var was := Free();
        allocIndex := allocIndex - 1;
        obj := Some(freeList[allocIndex]);
        assert was == Free() + [obj.value];
        assert obj.value in was;
        assert obj.value !in Free();
        assert Elements(was) == Elements(Free()) + {obj.value};
      } else {
        obj := None;
        assert Elements(Free()) == {};
      }
    }

    /**
     Without a condition on `obj`: it is appended unless the list is full. The free list
     stays valid if and only if the object was live or the list was full.
     */
    method Deallocate(obj: T)
      requires Valid()
      modifies this`allocIndex, freeList
      ensures Valid() <==> obj in old(Live()) || old(Live()) == {}
      ensures obj in old(Live()) ==> Live() == old(Live()) - {obj}
      ensures old(Live()) == {} ==> Live() == {}
    {
      Counts();
      ghost var was := Free();
      PushExact(pool, was, obj);
      if allocIndex < |pool| {
        freeList[allocIndex] := obj;
        allocIndex := allocIndex + 1;
        assert Free() == was + [obj];
      }
    }
  }
}
