/** Sums over sequences, used to count and to measure. */
module Sums {

  function Sum<T>(f: T -> int, s: seq<T>): int {
    if s == [] then 0 else f(s[0]) + Sum(f, s[1..])
  }

  lemma {:induction false} SumUpdate<T>(f: T -> int, s: seq<T>, i: int, x: T)
    requires 0 <= i < |s|
    ensures Sum(f, s[i := x]) == Sum(f, s) - f(s[i]) + f(x)
  {
    if i == 0 {
      assert s[0 := x][1..] == s[1..];
    } else {
      SumUpdate(f, s[1..], i - 1, x);
      assert s[i := x][1..] == s[1..][i - 1 := x];
    }
  }

  lemma {:induction false} SumAppend<T>(f: T -> int, s: seq<T>, t: seq<T>)
    ensures Sum(f, s + t) == Sum(f, s) + Sum(f, t)
  {
    if s == [] {
      assert s + t == t;
    } else {
      SumAppend(f, s[1..], t);
      assert (s + t)[1..] == s[1..] + t;
    }
  }

  lemma SumOne<T>(f: T -> int, x: T)
    ensures Sum(f, [x]) == f(x)
  {
    assert [x][1..] == [];
  }

  lemma SumPush<T>(f: T -> int, s: seq<T>, x: T)
    ensures Sum(f, s + [x]) == Sum(f, s) + f(x)
  {
    SumAppend(f, s, [x]);
    SumOne(f, x);
  }

  lemma SumPop<T>(f: T -> int, s: seq<T>)
    requires s != []
    ensures Sum(f, s[..|s| - 1]) == Sum(f, s) - f(s[|s| - 1])
  {
    assert s == s[..|s| - 1] + [s[|s| - 1]];
    SumPush(f, s[..|s| - 1], s[|s| - 1]);
  }

  lemma {:induction false} SumEqual<T>(f: T -> int, s: seq<T>, t: seq<T>)
    requires |s| == |t| && forall i :: 0 <= i < |s| ==> f(s[i]) == f(t[i])
    ensures Sum(f, s) == Sum(f, t)
  {
    if s != [] {
      assert f(s[0]) == f(t[0]);
      SumEqual(f, s[1..], t[1..]);
    }
  }

  lemma {:induction false} SumMono<T>(f: T -> int, g: T -> int, s: seq<T>)
    requires forall i :: 0 <= i < |s| ==> f(s[i]) <= g(s[i])
    ensures Sum(f, s) <= Sum(g, s)
  {
    if s != [] {
      assert f(s[0]) <= g(s[0]);
      SumMono(f, g, s[1..]);
    }
  }

  lemma {:induction false} SumPlus<T>(f: T -> int, g: T -> int, h: T -> int, s: seq<T>)
    requires forall i :: 0 <= i < |s| ==> f(s[i]) + g(s[i]) == h(s[i])
    ensures Sum(f, s) + Sum(g, s) == Sum(h, s)
  {
    if s != [] {
      assert f(s[0]) + g(s[0]) == h(s[0]);
      SumPlus(f, g, h, s[1..]);
    }
  }

  /** Terms between 0 and b give a sum between any one term and b times the length. */
  lemma {:induction false} SumBounds<T>(f: T -> int, s: seq<T>, b: int)
    requires forall i :: 0 <= i < |s| ==> 0 <= f(s[i]) <= b
    ensures 0 <= Sum(f, s) <= b * |s|
    ensures forall i :: 0 <= i < |s| ==> f(s[i]) <= Sum(f, s)
  {
    if s != [] {
      SumBounds(f, s[1..], b);
      assert forall i :: 1 <= i < |s| ==> s[i] == s[1..][i - 1];
    }
  }

  lemma {:induction false} SumTwo<T>(f: T -> int, s: seq<T>, i: int, j: int)
    requires forall k :: 0 <= k < |s| ==> 0 <= f(s[k])
    requires 0 <= i < j < |s|
    ensures f(s[i]) + f(s[j]) <= Sum(f, s)
  {
    var head, tail := s[..i + 1], s[i + 1..];
    assert s == head + tail;
    SumAppend(f, head, tail);
    SumAtLeast(f, head, i);
    SumAtLeast(f, tail, j - i - 1);
  }

  lemma {:induction false} SumAtLeast<T>(f: T -> int, s: seq<T>, i: int)
    requires forall k :: 0 <= k < |s| ==> 0 <= f(s[k])
    requires 0 <= i < |s|
    ensures 0 <= f(s[i]) <= Sum(f, s)
  {
    if i > 0 {
      SumAtLeast(f, s[1..], i - 1);
    } else if |s| > 1 {
      SumAtLeast(f, s[1..], 0);
    }
  }

  /** A positive sum has a positive term. */
  lemma {:induction false} SumWitness<T>(f: T -> int, s: seq<T>) returns (i: int)
    requires Sum(f, s) > 0
    ensures 0 <= i < |s| && f(s[i]) > 0
  {
    if f(s[0]) > 0 {
      i := 0;
    } else {
      i := SumWitness(f, s[1..]);
      i := i + 1;
    }
  }
}
