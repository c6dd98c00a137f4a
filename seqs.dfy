/** Sequence combinators shared by the document queries and the converters. */
module Seqs {
  import opened Wrappers

  /** The concatenation of `f` applied to each element, in order. */
  function FlatMap<T, U>(s: seq<T>, f: T -> seq<U>): seq<U> {
    if |s| == 0 then [] else f(s[0]) + FlatMap(s[1..], f)
  }

  lemma {:induction false} FlatMapAppend<T, U>(a: seq<T>, b: seq<T>, f: T -> seq<U>)
    ensures FlatMap(a + b, f) == FlatMap(a, f) + FlatMap(b, f)
  {
    if |a| == 0 {
      assert a + b == b;
    } else {
      assert (a + b)[1..] == a[1..] + b;
      FlatMapAppend(a[1..], b, f);
    }
  }

  lemma {:induction false} FlatMapContains<T, U>(s: seq<T>, f: T -> seq<U>, x: T, y: U)
    requires x in s && y in f(x)
    ensures y in FlatMap(s, f)
  {
    if s[0] != x {
      FlatMapContains(s[1..], f, x, y);
    }
  }

  /** The elements satisfying `p`, in order. */
  function Filter<T(!new)>(s: seq<T>, p: T -> bool): (r: seq<T>)
    ensures |r| <= |s|
    ensures forall x :: x in r <==> x in s && p(x)
  {
    if |s| == 0 then [] else (if p(s[0]) then [s[0]] else []) + Filter(s[1..], p)
  }

  lemma {:induction false} FilterAppend<T(!new)>(a: seq<T>, b: seq<T>, p: T -> bool)
    ensures Filter(a + b, p) == Filter(a, p) + Filter(b, p)
  {
    if |a| == 0 {
      assert a + b == b;
    } else {
      assert (a + b)[1..] == a[1..] + b;
      FilterAppend(a[1..], b, p);
    }
  }

  /** Each element of `s` mapped by `f`. */
  function Map<T, U>(s: seq<T>, f: T -> U): (r: seq<U>)
    ensures |r| == |s|
    ensures forall i :: 0 <= i < |s| ==> r[i] == f(s[i])
  {
    if |s| == 0 then [] else [f(s[0])] + Map(s[1..], f)
  }

  function Sum(s: seq<nat>): nat {
    if |s| == 0 then 0 else s[0] + Sum(s[1..])
  }

  function Max(s: seq<nat>): (m: nat)
    ensures forall i :: 0 <= i < |s| ==> s[i] <= m
    ensures |s| > 0 ==> m in s
    ensures |s| == 0 ==> m == 0
  {
    if |s| == 0 then 0 else if s[0] >= Max(s[1..]) then s[0] else Max(s[1..])
  }

  /** The number of occurrences of `x` in `s`. */
  function Count<T(==)>(s: seq<T>, x: T): (n: nat)
    ensures n <= |s|
    ensures n == 0 <==> x !in s
  {
    if |s| == 0 then 0 else (if s[0] == x then 1 else 0) + Count(s[1..], x)
  }

  lemma {:induction false} CountAppend<T>(a: seq<T>, b: seq<T>, x: T)
    ensures Count(a + b, x) == Count(a, x) + Count(b, x)
  {
    if |a| == 0 {
      assert a + b == b;
    } else {
      assert (a + b)[1..] == a[1..] + b;
      CountAppend(a[1..], b, x);
    }
  }

  /** Mapping a prefix one element longer appends one image: the step of a mapping loop. */
  lemma MapSnoc<T, U>(head: seq<U>, s: seq<T>, i: nat, f: T -> U)
    requires i < |s|
    ensures head + Map(s[..i + 1], f) == (head + Map(s[..i], f)) + [f(s[i])]
  {
    assert Map(s[..i + 1], f) == Map(s[..i], f) + [f(s[i])];
  }

  /** The step of a loop that appends `f(s[i])` for each element. */
  lemma FlatMapSnoc<T, U>(head: seq<U>, s: seq<T>, i: nat, f: T -> seq<U>)
    requires i < |s|
    ensures head + FlatMap(s[..i + 1], f) == (head + FlatMap(s[..i], f)) + f(s[i])
  {
    FlatMapAppend(s[..i], [s[i]], f);
    assert s[..i + 1] == s[..i] + [s[i]];
    assert [s[i]][1..] == [];
    assert FlatMap([s[i]], f) == f(s[i]) + FlatMap([s[i]][1..], f);
  }

  /** The defined results of `f` at each element and its index, in order: a loop that appends only what it keeps. */
  function Collect<T, U>(s: seq<T>, f: (T, nat) -> Option<U>): (r: seq<U>)
    ensures |r| <= |s|
    decreases |s|
  {
    if |s| == 0 then []
    else
      var o := f(s[|s| - 1], |s| - 1);
      Collect(s[..|s| - 1], f) + (if o.Some? then [o.value] else [])
  }

  /** The step of a collecting loop. */
  lemma CollectSnoc<T, U>(s: seq<T>, i: nat, f: (T, nat) -> Option<U>)
    requires i < |s|
    ensures Collect(s[..i + 1], f) == Collect(s[..i], f) + (if f(s[i], i).Some? then [f(s[i], i).value] else [])
  {
    assert s[..i + 1][..i] == s[..i];
  }

  /** Every collected value is the defined result of `f` at some element and its index. */
  lemma {:induction false} CollectFrom<T, U>(s: seq<T>, f: (T, nat) -> Option<U>, y: U)
    requires y in Collect(s, f)
    ensures exists i :: 0 <= i < |s| && f(s[i], i) == Some(y)
    decreases |s|
  {
    var n := |s| - 1;
    var o := f(s[n], n);
    if y in Collect(s[..n], f) {
      CollectFrom(s[..n], f, y);
      var i :| 0 <= i < n && f(s[..n][i], i) == Some(y);
      assert s[..n][i] == s[i];
    } else {
      assert o == Some(y);
    }
  }

  /** Every value a step yields is collected. */
  lemma {:induction false} CollectTo<T, U>(s: seq<T>, f: (T, nat) -> Option<U>, i: nat)
    requires i < |s| && f(s[i], i).Some?
    ensures f(s[i], i).value in Collect(s, f)
    decreases |s|
  {
    var n := |s| - 1;
    if i < n {
      assert s[..n][i] == s[i];
      CollectTo(s[..n], f, i);
    }
  }

  /** Nothing is collected exactly when no step yields a value. */
  lemma CollectEmpty<T, U>(s: seq<T>, f: (T, nat) -> Option<U>)
    ensures |Collect(s, f)| == 0 <==> forall i :: 0 <= i < |s| ==> f(s[i], i).None?
  {
    if |Collect(s, f)| > 0 {
      CollectFrom(s, f, Collect(s, f)[0]);
    }
    forall i | 0 <= i < |s| && f(s[i], i).Some? ensures |Collect(s, f)| > 0 {
      CollectTo(s, f, i);
    }
  }

  /** `f` applied to each element and its index, in order. */
  function MapIndexed<T, U>(s: seq<T>, f: (T, nat) -> U): (r: seq<U>)
    ensures |r| == |s|
    decreases |s|
  {
    if |s| == 0 then [] else MapIndexed(s[..|s| - 1], f) + [f(s[|s| - 1], |s| - 1)]
  }

  lemma {:induction false} MapIndexedAt<T, U>(s: seq<T>, f: (T, nat) -> U, k: nat)
    requires k < |s|
    ensures MapIndexed(s, f)[k] == f(s[k], k)
    decreases |s|
  {
    if k < |s| - 1 {
      MapIndexedAt(s[..|s| - 1], f, k);
    }
  }

  /** The step of a mapping loop that also passes the index. */
  lemma MapIndexedSnoc<T, U>(s: seq<T>, i: nat, f: (T, nat) -> U)
    requires i < |s|
    ensures MapIndexed(s[..i + 1], f) == MapIndexed(s[..i], f) + [f(s[i], i)]
  {
    assert s[..i + 1][..i] == s[..i];
  }

  /** The concatenation of `f` applied to each element and its index, in order. */
  function FlatMapIndexed<T, U>(s: seq<T>, f: (T, nat) -> seq<U>): seq<U>
    decreases |s|
  {
    if |s| == 0 then [] else FlatMapIndexed(s[..|s| - 1], f) + f(s[|s| - 1], |s| - 1)
  }

  lemma FlatMapIndexedSnoc<T, U>(s: seq<T>, i: nat, f: (T, nat) -> seq<U>)
    requires i < |s|
    ensures FlatMapIndexed(s[..i + 1], f) == FlatMapIndexed(s[..i], f) + f(s[i], i)
  {
    assert s[..i + 1][..i] == s[..i];
  }

  /** Every element of the result comes from some element's image. */
  lemma {:induction false} FlatMapIndexedFrom<T, U>(s: seq<T>, f: (T, nat) -> seq<U>, y: U)
    requires y in FlatMapIndexed(s, f)
    ensures exists i :: 0 <= i < |s| && y in f(s[i], i)
    decreases |s|
  {
    var n := |s| - 1;
    if y !in f(s[n], n) {
      FlatMapIndexedFrom(s[..n], f, y);
      var i :| 0 <= i < n && y in f(s[..n][i], i);
      assert s[..n][i] == s[i];
    }
  }

  /** Every element of every image is in the result. */
  lemma {:induction false} FlatMapIndexedTo<T, U>(s: seq<T>, f: (T, nat) -> seq<U>, i: nat, y: U)
    requires i < |s| && y in f(s[i], i)
    ensures y in FlatMapIndexed(s, f)
    decreases |s|
  {
    var n := |s| - 1;
    if i < n {
      assert s[..n][i] == s[i];
      FlatMapIndexedTo(s[..n], f, i, y);
    }
  }

  lemma AppendAssoc<T>(a: seq<T>, b: seq<T>, c: seq<T>)
    ensures (a + b) + c == a + (b + c)
  {
  }

  /** The last `Some` value `f` gives on the sequence, None when it gives none. */
  function LastSome<T, U>(s: seq<T>, f: T -> Option<U>): Option<U>
    decreases |s|
  {
    if |s| == 0 then None
    else if f(s[|s| - 1]).Some? then f(s[|s| - 1])
    else LastSome(s[..|s| - 1], f)
  }

  lemma {:induction false} LastSomeSpec<T, U>(s: seq<T>, f: T -> Option<U>)
    ensures LastSome(s, f).None? <==> forall i :: 0 <= i < |s| ==> f(s[i]).None?
    ensures LastSome(s, f).Some? ==>
      exists i :: 0 <= i < |s| && f(s[i]) == LastSome(s, f) && forall j :: i < j < |s| ==> f(s[j]).None?
    decreases |s|
  {
    if |s| > 0 {
      var n := |s| - 1;
      var init := s[..n];
      LastSomeSpec(init, f);
      if f(s[n]).Some? {
        assert f(s[n]) == LastSome(s, f);
      } else {
        assert LastSome(s, f) == LastSome(init, f);
        assert forall i :: 0 <= i < n ==> init[i] == s[i];
        if LastSome(init, f).Some? {
          var i :| 0 <= i < n && f(init[i]) == LastSome(init, f) && forall j :: i < j < n ==> f(init[j]).None?;
          assert f(s[i]) == LastSome(s, f);
          assert forall j :: i < j < |s| ==> f(s[j]).None?;
        }
      }
    }
  }

  lemma LastSomeSnoc<T, U>(s: seq<T>, i: nat, f: T -> Option<U>)
    requires i < |s|
    ensures LastSome(s[..i + 1], f) == if f(s[i]).Some? then f(s[i]) else LastSome(s[..i], f)
  {
    assert s[..i + 1][..i] == s[..i];
  }
}
