/**
 The intrusive doubly linked queue. In the original a client derives from the node
 class; here a node refers to the object it is part of.
 */
module IntrusiveQueue {
  import opened Wire

  class Node<T> {
    var next: Node?<T>
    var prev: Node?<T>
    const owner: T

    constructor (owner: T)
      ensures Unlinked() && this.owner == owner
    {
      this.owner := owner;
      next, prev := null, null;
    }

    ghost predicate Unlinked()
      reads this
    {
      next == null && prev == null
    }
  }

  /** The i-th node, or null beyond either end. */
  function NodeAt<T>(s: seq<Node<T>>, i: int): Node?<T> {
    if 0 <= i < |s| then s[i] else null
  }

  ghost predicate Distinct<T>(s: seq<Node<T>>) {
    forall i, j :: 0 <= i < j < |s| ==> s[i] != s[j]
  }

  /** Neighbours refer to each other. */
  ghost predicate Chained<T>(s: seq<Node<T>>)
    reads s
  {
    && (forall i {:trigger s[i].next} :: 0 <= i < |s| - 1 ==> s[i].next == s[i + 1])
    && (forall i {:trigger s[i].prev} :: 1 <= i < |s| ==> s[i].prev == s[i - 1])
  }

  function Cut<T>(s: seq<Node<T>>, k: int): (r: seq<Node<T>>)
    requires 0 <= k < |s|
  {
    s[..k] + s[k + 1..]
  }

  /** `s` with the links of its k-th node bypassed. */
  ghost predicate Bypassed<T>(s: seq<Node<T>>, k: int)
    requires 0 <= k < |s|
    reads s
  {
    && (forall i {:trigger s[i].next} :: 0 <= i < |s| - 1 && i != k - 1 && i != k ==> s[i].next == s[i + 1])
    && (forall i {:trigger s[i].prev} :: 1 <= i < |s| && i != k && i != k + 1 ==> s[i].prev == s[i - 1])
    && (k > 0 ==> s[k - 1].next == NodeAt(s, k + 1))
    && (k < |s| - 1 ==> s[k + 1].prev == NodeAt(s, k - 1))
  }

  lemma CutChained<T>(s: seq<Node<T>>, k: int)
    requires 0 <= k < |s| && Distinct(s) && Bypassed(s, k)
    ensures Distinct(Cut(s, k)) && Chained(Cut(s, k))
  {
    var r := Cut(s, k);
    CutKeeps(s, k);
    forall i, j | 0 <= i < j < |r|
      ensures r[i] != r[j]
    {
      var i1, j1 := if i < k then i else i + 1, if j < k then j else j + 1;
      assert r[i] == s[i1] && r[j] == s[j1];
    }
    forall i {:trigger r[i].next} | 0 <= i < |r| - 1
      ensures r[i].next == r[i + 1]
    {
      assert r[i + 1] == s[if i + 1 < k then i + 1 else i + 2];
    }
    forall i {:trigger r[i].prev} | 1 <= i < |r|
      ensures r[i].prev == r[i - 1]
    {
      assert r[i - 1] == s[if i - 1 < k then i - 1 else i];
    }
  }

  lemma CutKeeps<T>(s: seq<Node<T>>, k: int)
    requires 0 <= k < |s| && Distinct(s)
    ensures forall i :: 0 <= i < |Cut(s, k)| ==> Cut(s, k)[i] == s[if i < k then i else i + 1] != s[k]
  {
    forall i | 0 <= i < |Cut(s, k)|
      ensures Cut(s, k)[i] == s[if i < k then i else i + 1] != s[k]
    {
      if i >= k {
        assert s[k + 1..][i - k] == s[i + 1];
      }
    }
  }

  lemma CutEnds<T>(s: seq<Node<T>>, k: int)
    requires 0 <= k < |s|
    ensures var r := Cut(s, k);
            && |r| == |s| - 1
            && (r != [] ==>
                 && r[0] == s[if k == 0 then 1 else 0]
                 && r[|r| - 1] == s[if k == |s| - 1 then k - 1 else |s| - 1])
  {
  }

  lemma NoneChained<T>()
    ensures Distinct<T>([]) && Chained<T>([])
  {
  }

  /** The counter of a queue with `n` nodes, modulo its width. */
  predicate SizeFits(size: int, n: int) {
    size == n % SIZE_T
  }

  lemma OneLess(n: int)
    ensures (n % SIZE_T - 1) % SIZE_T == (n - 1) % SIZE_T
    ensures (n % SIZE_T - 1) % SIZE_T == 0 <==> n % SIZE_T == 1
  {
    var m, q := n % SIZE_T, n / SIZE_T;
    assert n == SIZE_T * q + m;
    if m == 0 {
      assert n - 1 == SIZE_T * (q - 1) + (SIZE_T - 1);
    } else {
      assert n - 1 == SIZE_T * q + (m - 1);
    }
  }

  class Queue<T> {
    var size: int
    var head: Node?<T>
    var tail: Node?<T>
    ghost var Contents: seq<Node<T>>

    /** The pointers describe exactly the sequence Contents, in both directions. */
    ghost predicate Linked()
      reads this, Contents
    {
      && Distinct(Contents)
      && (head == null <==> Contents == []) && (tail == null <==> Contents == [])
      && (Contents != [] ==>
           && head == Contents[0] && tail == Contents[|Contents| - 1]
           && Contents[0].prev == null && Contents[|Contents| - 1].next == null)
      && Chained(Contents)
    }

    ghost predicate SizeOk()
      reads this
    {
      SizeFits(size, |Contents|)
    }

    lemma MembersDistinct()
      requires Linked()
      ensures Distinct(Contents)
    {
    }

    /** A queue is not affected by changes elsewhere. */
    twostate lemma Untouched()
      requires old(Linked()) && unchanged(this) && forall i :: 0 <= i < |Contents| ==> unchanged(Contents[i])
      ensures Linked()
    {
    }

    constructor ()
      ensures Linked() && SizeOk() && Contents == []
    {
      size, head, tail, Contents := 0, null, null, [];
    }

    method AddFirst(n: Node<T>)
      requires Linked() && n !in Contents
      modifies this, n, Contents
      ensures Linked() && Contents == [n] + old(Contents)
      ensures old(SizeOk()) ==> SizeOk()
    {
      if head != null {
        head.prev := n;
      } else {
        tail := n;
      }
      n.next := head;
      n.prev := null;
      head := n;
      size := (size + 1) % SIZE_T;
      Contents := [n] + Contents;
    }

    method AddLast(n: Node<T>)
      requires Linked() && n !in Contents
      modifies this, n, Contents
      ensures Linked() && Contents == old(Contents) + [n]
      ensures old(SizeOk()) ==> SizeOk()
    {
      if tail != null {
        tail.next := n;
      } else {
        head := n;
      }
      n.next := null;
      n.prev := tail;
      tail := n;
      size := (size + 1) % SIZE_T;
      Contents := Contents + [n];
    }

    method RemoveFirst() returns (n: Node?<T>)
      requires Linked()
      modifies this, Contents
      ensures n == NodeAt(old(Contents), 0)
      ensures n == null ==> Contents == old(Contents) == []
      ensures n != null ==> Contents == old(Contents)[1..] && n.Unlinked()
      ensures Linked()
      ensures old(SizeOk()) ==> SizeOk()
    {
      n := head;
      if n != null {
        ghost var s := Contents;
        if head == tail {
          head := null;
          tail := null;
        } else {
          head := n.next;
          head.prev := null;
        }
        n.next := null;
        size := (size - 1) % SIZE_T;
        Contents := s[1..];
        assert forall i :: 0 <= i < |Contents| ==> Contents[i] == s[i + 1];
      }
    }

    /** As written: for a queue of one node the size is not decremented. */
    method RemoveLast() returns (n: Node?<T>)
      requires Linked()
      modifies this, Contents
      ensures n == NodeAt(old(Contents), |old(Contents)| - 1)
      ensures n == null ==> Contents == old(Contents) == []
      ensures n != null ==> Contents == old(Contents)[..|old(Contents)| - 1] && n.Unlinked()
      ensures Linked()
      ensures old(SizeOk()) ==> (SizeOk() <==> |old(Contents)| != 1)
    {
      n := tail;
      if n != null {
        if head == tail {
          head := null;
          tail := null;
        } else {
          tail := n.prev;
          tail.next := null;
          size := (size - 1) % SIZE_T;
        }
        n.prev := null;
        Contents := Contents[..|Contents| - 1];
      }
    }

    /**
     Removing a member, the k-th node, takes out just that node. As written, removing a node
     that is in no queue (k is -1) makes the queue empty and decrements its size all the
     same, while the nodes that were in it stay linked to each other.
     */
    method Remove(n: Node<T>, ghost k: int)
      requires Linked()
      requires if k == -1 then n !in Contents && n.Unlinked() else 0 <= k < |Contents| && Contents[k] == n
      modifies this, n, Contents
      ensures Linked() && n.Unlinked()
      ensures Contents == if k == -1 then [] else Cut(old(Contents), k)
      ensures k == -1 ==> Chained(old(Contents))
      ensures old(SizeOk()) ==> (SizeOk() <==> k != -1 || SizeFits(1, |old(Contents)|))
    {
      hide Distinct, Chained, Cut, Bypassed, SizeFits;
      ghost var s := Contents;
      NoneChained<T>();
      MembersDistinct();
      Bypass(n, k);
      DecrementSize(|s|);
      if k == -1 {
        Contents := [];
      } else {
        CutChained(s, k);
        CutEnds(s, k);
        Contents := Cut(s, k);
      }
    }

    /** The unsigned decrement of the counter of `n` nodes: right for one less, and for none exactly from one. */
    method DecrementSize(ghost n: nat)
      modifies this`size
      ensures SizeFits(old(size), n) && n >= 1 ==> SizeFits(size, n - 1)
      ensures SizeFits(old(size), n) ==> (SizeFits(size, 0) <==> SizeFits(1, n))
    {
      OneLess(n);
      size := (size - 1) % SIZE_T;
    }

    /** The pointers around the node are redirected, and its own are cleared. */
    method Bypass(n: Node<T>, ghost k: int)
      requires Linked()
      requires if k == -1 then n !in Contents && n.Unlinked() else 0 <= k < |Contents| && Contents[k] == n
      modifies this`head, this`tail, n, Contents
      ensures n.Unlinked()
      ensures k == -1 ==> head == tail == null && Chained(Contents)
      ensures k != -1 ==>
                && Bypassed(Contents, k)
                && head == NodeAt(Contents, if k == 0 then 1 else 0)
                && tail == NodeAt(Contents, if k == |Contents| - 1 then k - 1 else |Contents| - 1)
                && (head != null ==> head.prev == null) && (tail != null ==> tail.next == null)
    {
      if k != -1 {
        assert n.prev == NodeAt(Contents, k - 1) && n.next == NodeAt(Contents, k + 1);
      }
      if n.prev == null {
        head := n.next;
      } else {
        n.prev.next := n.next;
      }
      if n.next == null {
        tail := n.prev;
      } else {
        n.next.prev := n.prev;
      }
      n.prev := null;
      n.next := null;
    }

    method Clear()
      requires Linked()
      modifies this, Contents
      ensures Linked() && SizeOk() && Contents == []
      ensures forall n :: n in old(Contents) ==> n.Unlinked()
    {
      var n := head;
      ghost var i := 0;
      while n != null
        invariant 0 <= i <= |Contents| && Contents == old(Contents)
        invariant n == NodeAt(Contents, i)
        invariant forall j {:trigger Contents[j].next} :: 0 <= j < i ==> Contents[j].next == null
        invariant forall j {:trigger Contents[j].prev} :: 0 <= j < i ==> Contents[j].prev == null
        invariant forall j {:trigger Contents[j].next} ::
                    i <= j < |Contents| - 1 ==> Contents[j].next == Contents[j + 1]
        invariant i < |Contents| ==> Contents[|Contents| - 1].next == null
        decreases |Contents| - i
      {
        var next := n.next;
        n.next := null;
        n.prev := null;
        n := next;
        i := i + 1;
      }
      head := null;
      tail := null;
      size := 0;
      Contents := [];
    }
  }
}
