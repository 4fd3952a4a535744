/**
  The list operations the documentation builder's name tables rely on:
  `list.index` (first occurrence), `list.pop(i)`, and the filter that leaves
  what is still in the supply once some names have been taken out of it.
 */
module Seqs {

  /** No element occurs twice. */
  predicate Distinct<T(==)>(s: seq<T>)
  {
    forall i, j :: 0 <= i < j < |s| ==> s[i] != s[j]
  }

  /** `s.index(x)`: the position of the first occurrence of `x`. */
  function IndexOf<T(==)>(s: seq<T>, x: T): (i: nat)
    requires x in s
    ensures i < |s| && s[i] == x
  {
    if s[0] == x then 0 else 1 + IndexOf(s[1..], x)
  }

  /** In a sequence without repeats, the only position holding `s[i]` is `i`. */
  lemma IndexOfDistinct<T>(s: seq<T>, i: nat)
    requires Distinct(s) && i < |s|
    ensures IndexOf(s, s[i]) == i
  {
  }

  /** `s.pop(i)`, as far as the list left behind is concerned. */
  function RemoveAt<T>(s: seq<T>, i: nat): (r: seq<T>)
    requires i < |s|
    ensures |r| == |s| - 1
    ensures multiset(r) == multiset(s) - multiset{s[i]}
  {
    assert s == s[..i] + [s[i]] + s[i + 1..];
    s[..i] + s[i + 1..]
  }

  /** The elements of `s` that are not in `taken`, in their order in `s`. */
  function Without<T(==)>(s: seq<T>, taken: seq<T>): (r: seq<T>)
    ensures |r| <= |s|
  {
    if s == [] then []
    else (if s[0] in taken then [] else [s[0]]) + Without(s[1..], taken)
  }

  lemma {:induction false} WithoutMembership<T>(s: seq<T>, taken: seq<T>, x: T)
    ensures x in Without(s, taken) <==> x in s && x !in taken
  {
    if s != [] {
      WithoutMembership(s[1..], taken, x);
      assert s == [s[0]] + s[1..];
    }
  }

  lemma {:induction false} WithoutDistinct<T>(s: seq<T>, taken: seq<T>)
    requires Distinct(s)
    ensures Distinct(Without(s, taken))
  {
    if s != [] {
      WithoutDistinct(s[1..], taken);
      WithoutMembership(s[1..], taken, s[0]);
      var head: seq<T> := if s[0] in taken then [] else [s[0]];
      var r := Without(s[1..], taken);
      forall i, j | 0 <= i < j < |head + r| ensures (head + r)[i] != (head + r)[j] {
        if i < |head| {
          assert (head + r)[j] in r;
        }
      }
    }
  }

  /** Taking one more name from the supply leaves what `list.pop` leaves. */
  lemma {:induction false} WithoutSnoc<T>(s: seq<T>, taken: seq<T>, x: T)
    requires Distinct(s) && x in Without(s, taken)
    ensures RemoveAt(Without(s, taken), IndexOf(Without(s, taken), x)) == Without(s, taken + [x])
  {
    WithoutMembership(s, taken, x);
    if s[0] == x {
      WithoutSnocAtHead(s, taken, x);
    } else {
      WithoutMembership(s[1..], taken, x);
      assert s == [s[0]] + s[1..];
      DistinctTail(s);
      WithoutSnoc(s[1..], taken, x);
      WithoutSnocPastHead(s, taken, x);
    }
  }

  /** `WithoutSnoc` carried past a first name that is not the one taken. */
  lemma WithoutSnocPastHead<T>(s: seq<T>, taken: seq<T>, x: T)
    requires s != [] && s[0] != x && x in Without(s[1..], taken)
    requires RemoveAt(Without(s[1..], taken), IndexOf(Without(s[1..], taken), x)) == Without(s[1..], taken + [x])
    ensures RemoveAt(Without(s, taken), IndexOf(Without(s, taken), x)) == Without(s, taken + [x])
  {
    var t := Without(s[1..], taken);
    var head: seq<T> := if s[0] in taken then [] else [s[0]];
    assert Without(s, taken) == head + t;
    assert Without(s, taken + [x]) == head + Without(s[1..], taken + [x]);
    if s[0] !in taken {
      RemoveAfterHead(s[0], t, x);
    } else {
      assert head + t == t;
    }
  }

  lemma DistinctTail<T>(s: seq<T>)
    requires Distinct(s) && s != []
    ensures Distinct(s[1..])
  {
    forall i, j | 0 <= i < j < |s[1..]| ensures s[1..][i] != s[1..][j] {
      assert s[1..][i] == s[i + 1] && s[1..][j] == s[j + 1];
    }
  }

  lemma WithoutSnocAtHead<T>(s: seq<T>, taken: seq<T>, x: T)
    requires Distinct(s) && s != [] && s[0] == x && x !in taken
    ensures Without(s, taken) == [x] + Without(s[1..], taken)
    ensures RemoveAt(Without(s, taken), IndexOf(Without(s, taken), x)) == Without(s, taken + [x])
  {
    var t := Without(s[1..], taken);
    assert x !in s[1..];
    WithoutIgnores(s[1..], taken, x);
    assert RemoveAt([x] + t, 0) == t;
  }

  lemma RemoveAfterHead<T>(h: T, t: seq<T>, x: T)
    requires h != x && x in t
    ensures RemoveAt([h] + t, IndexOf([h] + t, x)) == [h] + RemoveAt(t, IndexOf(t, x))
  {
    assert ([h] + t)[1..] == t;
  }

  /** Taking a name the sequence does not hold changes nothing. */
  lemma {:induction false} WithoutIgnores<T>(s: seq<T>, taken: seq<T>, x: T)
    requires x !in s
    ensures Without(s, taken + [x]) == Without(s, taken)
  {
    if s != [] {
      WithoutIgnores(s[1..], taken, x);
    }
  }

  /**
    Taking the distinct names `taken`, all present in `s`, out of `s` and
    putting them in front rearranges `s` and nothing more.
   */
  lemma {:induction false} TakenFirstIsPermutation<T>(s: seq<T>, taken: seq<T>)
    requires Distinct(s) && Distinct(taken)
    requires forall k :: 0 <= k < |taken| ==> taken[k] in s
    ensures multiset(taken + Without(s, taken)) == multiset(s)
  {
    if taken == [] {
      WithoutNothing(s);
    } else {
      var n := |taken| - 1;
      var x := taken[n];
      var before := taken[..n];
      assert taken == before + [x];
      assert Distinct(before);
      TakenFirstIsPermutation(s, before);
      WithoutMembership(s, before, x);
      WithoutSnoc(s, before, x);
      var w := Without(s, before);
      var i := IndexOf(w, x);
      assert multiset(Without(s, taken)) == multiset(w) - multiset{x};
      assert multiset(taken + Without(s, taken)) == multiset(before) + multiset{x} + multiset(Without(s, taken));
    }
  }

  lemma {:induction false} WithoutNothing<T>(s: seq<T>)
    ensures Without(s, []) == s
  {
    if s != [] {
      WithoutNothing(s[1..]);
      assert s == [s[0]] + s[1..];
    }
  }

  /** What is left keeps its relative order from `s`. */
  lemma {:induction false} WithoutKeepsOrder<T>(s: seq<T>, taken: seq<T>, i: nat, j: nat)
    requires Distinct(s)
    requires i < j < |Without(s, taken)|
    ensures Without(s, taken)[i] in s && Without(s, taken)[j] in s
    ensures IndexOf(s, Without(s, taken)[i]) < IndexOf(s, Without(s, taken)[j])
  {
    var w := Without(s, taken);
    var t := Without(s[1..], taken);
    var a, b := w[i], w[j];
    WithoutMembership(s, taken, a);
    WithoutMembership(s, taken, b);
    DistinctTail(s);
    if s[0] in taken {
      assert w == t;
      WithoutKeepsOrder(s[1..], taken, i, j);
      ShiftedOrder(s, a, b);
    } else if i == 0 {
      assert w == [s[0]] + t;
      assert a == s[0] && b == t[j - 1];
      WithoutMembership(s[1..], taken, b);
      ShiftedIndex(s, b);
      assert IndexOf(s, a) == 0;
    } else {
      assert w == [s[0]] + t;
      assert a == t[i - 1] && b == t[j - 1];
      WithoutKeepsOrder(s[1..], taken, i - 1, j - 1);
      ShiftedOrder(s, a, b);
    }
  }

  lemma ShiftedOrder<T>(s: seq<T>, a: T, b: T)
    requires Distinct(s) && |s| > 0 && a in s[1..] && b in s[1..]
    requires IndexOf(s[1..], a) < IndexOf(s[1..], b)
    ensures IndexOf(s, a) < IndexOf(s, b)
  {
    ShiftedIndex(s, a);
    ShiftedIndex(s, b);
  }

  lemma ShiftedIndex<T>(s: seq<T>, x: T)
    requires Distinct(s) && |s| > 0 && x in s[1..]
    ensures IndexOf(s, x) == 1 + IndexOf(s[1..], x)
  {
    assert s[0] != x by {
      var k :| 0 <= k < |s[1..]| && s[1..][k] == x;
      assert s[k + 1] == x;
    }
  }

  /** Filtering one more element at the end. */
  lemma {:induction false} WithoutAppend<T>(s: seq<T>, x: T, taken: seq<T>)
    ensures Without(s + [x], taken) == Without(s, taken) + (if x in taken then [] else [x])
  {
    if s == [] {
      assert [x][1..] == [];
      assert s + [x] == [x];
    } else {
      var head: seq<T> := if s[0] in taken then [] else [s[0]];
      var last: seq<T> := if x in taken then [] else [x];
      assert (s + [x])[0] == s[0] && (s + [x])[1..] == s[1..] + [x];
      assert Without(s + [x], taken) == head + Without(s[1..] + [x], taken);
      WithoutAppend(s[1..], x, taken);
      ConcatAssoc(head, Without(s[1..], taken), last);
    }
  }

  /** The taken names in front of what is left repeat nothing. */
  lemma TakenFirstDistinct<T>(s: seq<T>, taken: seq<T>)
    requires Distinct(s) && Distinct(taken)
    ensures Distinct(taken + Without(s, taken))
  {
    var w := Without(s, taken);
    WithoutDistinct(s, taken);
    forall i, j | 0 <= i < j < |taken + w| ensures (taken + w)[i] != (taken + w)[j] {
      if i < |taken| && j >= |taken| {
        WithoutMembership(s, taken, w[j - |taken|]);
      }
    }
  }

  /** Every element of `order` is in `s` and none occurs twice. */
  predicate AllPresentOnce<T(==)>(s: seq<T>, order: seq<T>)
  {
    Distinct(order) && forall x :: x in order ==> x in s
  }

  /** Two runs are present once together when each is and they share nothing. */
  lemma AllPresentOnceAppend<T>(s: seq<T>, a: seq<T>, b: seq<T>)
    ensures AllPresentOnce(s, a + b) <==> AllPresentOnce(s, a) && AllPresentOnce(s, b) && forall x :: x in a ==> x !in b
  {
    if Distinct(a + b) {
      forall i, j | 0 <= i < j < |a| ensures a[i] != a[j] {
        assert (a + b)[i] == a[i] && (a + b)[j] == a[j];
      }
      forall i, j | 0 <= i < j < |b| ensures b[i] != b[j] {
        assert (a + b)[|a| + i] == b[i] && (a + b)[|a| + j] == b[j];
      }
      forall i, j | 0 <= i < |a| && 0 <= j < |b| ensures a[i] != b[j] {
        assert (a + b)[i] == a[i] && (a + b)[|a| + j] == b[j];
      }
    }
    if Distinct(a) && Distinct(b) && forall x :: x in a ==> x !in b {
      forall i, j | 0 <= i < j < |a + b| ensures (a + b)[i] != (a + b)[j] {
        if i < |a| && j >= |a| {
          assert (a + b)[i] in a && (a + b)[j] == b[j - |a|];
        } else if i >= |a| {
          assert (a + b)[i] == b[i - |a|] && (a + b)[j] == b[j - |a|];
        }
      }
    }
  }

  /**
    One more name can be taken from the supply exactly when it keeps the taken
    names present and distinct; taking it pops it from the supply.
   */
  lemma TakeOne<T>(s: seq<T>, taken: seq<T>, x: T)
    requires Distinct(s) && AllPresentOnce(s, taken)
    ensures x in Without(s, taken) <==> AllPresentOnce(s, taken + [x])
    ensures x in Without(s, taken) ==>
              RemoveAt(Without(s, taken), IndexOf(Without(s, taken), x)) == Without(s, taken + [x])
  {
    WithoutMembership(s, taken, x);
    AllPresentOnceSnoc(s, taken, x);
    if x in Without(s, taken) {
      WithoutSnoc(s, taken, x);
    }
  }

  /** One more element keeps a run present once exactly when it is present and new. */
  lemma AllPresentOnceSnoc<T>(s: seq<T>, taken: seq<T>, x: T)
    requires AllPresentOnce(s, taken)
    ensures AllPresentOnce(s, taken + [x]) <==> x in s && x !in taken
  {
    var t := taken + [x];
    assert t[|taken|] == x;
    if x in taken {
      var k :| 0 <= k < |taken| && taken[k] == x;
      assert t[k] == t[|taken|];
    } else if x in s {
      forall i, j | 0 <= i < j < |t| ensures t[i] != t[j] {
        assert t[i] == taken[i];
        if j < |taken| {
          assert t[j] == taken[j];
        }
      }
      forall y | y in t ensures y in s {
        if y != x {
          assert y in taken;
        }
      }
    }
  }

  /** The values aligned with `names`, rearranged to follow `picked`. */
  function Realign<T(==), U>(names: seq<T>, values: seq<U>, picked: seq<T>): (r: seq<U>)
    requires |values| == |names|
    requires forall x :: x in picked ==> x in names
    ensures |r| == |picked|
  {
    if picked == [] then []
    else
      var n := |picked| - 1;
      Realign(names, values, picked[..n]) + [values[IndexOf(names, picked[n])]]
  }

  /** Position `j` of the rearranged values holds the value of `picked[j]`. */
  lemma {:induction false} RealignAt<T, U>(names: seq<T>, values: seq<U>, picked: seq<T>)
    requires |values| == |names|
    requires forall x :: x in picked ==> x in names
    ensures forall j :: 0 <= j < |picked| ==> Realign(names, values, picked)[j] == values[IndexOf(names, picked[j])]
  {
    if picked != [] {
      var n := |picked| - 1;
      assert forall x :: x in picked[..n] ==> x in picked;
      RealignAt(names, values, picked[..n]);
    }
  }

  lemma RealignSnoc<T, U>(names: seq<T>, values: seq<U>, picked: seq<T>, x: T)
    requires |values| == |names|
    requires forall y :: y in picked ==> y in names
    requires x in names
    ensures Realign(names, values, picked + [x]) == Realign(names, values, picked) + [values[IndexOf(names, x)]]
  {
    assert (picked + [x])[..|picked|] == picked;
  }

  lemma SplitAt<T>(s: seq<T>, n: nat)
    requires n <= |s|
    ensures s == s[..n] + s[n..]
  {
  }

  lemma PrefixSnoc<T>(s: seq<T>, k: nat)
    requires k < |s|
    ensures s[..k + 1] == s[..k] + [s[k]]
  {
  }

  lemma ConcatAssoc<T>(a: seq<T>, b: seq<T>, c: seq<T>)
    ensures a + (b + c) == (a + b) + c
  {
  }

  lemma PrefixOfPrefix<T>(s: seq<T>, k: nat)
    requires k < |s|
    ensures s[..k + 1][..k] == s[..k]
  {
  }

  lemma MultisetSnoc<T>(s: seq<T>, x: T)
    requires s != []
    ensures multiset(s)[x] == multiset(s[..|s| - 1])[x] + if s[|s| - 1] == x then 1 else 0
  {
    assert s == s[..|s| - 1] + [s[|s| - 1]];
  }

  lemma PrefixAll<T>(s: seq<T>)
    ensures s[..|s|] == s
  {
  }

  lemma PrefixOfConcat<T>(a: seq<T>, b: seq<T>, n: nat)
    requires n <= |a|
    ensures (a + b)[..n] == a[..n]
  {
  }

  lemma SuffixCons<T>(s: seq<T>, k: nat)
    requires k < |s|
    ensures s[k..] == [s[k]] + s[k + 1..]
  {
  }

  lemma SliceOfSlice<T>(s: seq<T>, a: nat, b: nat)
    requires a <= b < |s|
    ensures s[a..b + 1][..b - a] == s[a..b]
  {
  }

  /** The position of the first element satisfying `p`, or the length of `s`. */
  function FirstWhere<T>(s: seq<T>, p: T -> bool): (n: nat)
    ensures n <= |s|
  {
    if s == [] then 0
    else if p(s[0]) then 0
    else 1 + FirstWhere(s[1..], p)
  }

  /** No element before `FirstWhere` satisfies `p`, and the one at it does. */
  lemma {:induction false} FirstWhereFirst<T>(s: seq<T>, p: T -> bool)
    ensures forall k :: 0 <= k < FirstWhere(s, p) ==> !p(s[k])
    ensures FirstWhere(s, p) < |s| ==> p(s[FirstWhere(s, p)])
  {
    if s != [] && !p(s[0]) {
      var rest := s[1..];
      FirstWhereFirst(rest, p);
      var n := FirstWhere(rest, p);
      assert FirstWhere(s, p) == n + 1;
      forall k | 0 <= k < n + 1
        ensures !p(s[k])
      {
        if k > 0 {
          assert s[k] == rest[k - 1];
        }
      }
      if n < |rest| {
        assert s[n + 1] == rest[n];
      }
    }
  }

  /** `FirstWhere` is the one position before which nothing satisfies `p` and at which something does. */
  lemma FirstWhereUnique<T>(s: seq<T>, p: T -> bool, n: nat)
    requires n <= |s|
    requires forall k :: 0 <= k < n ==> !p(s[k])
    requires n < |s| ==> p(s[n])
    ensures FirstWhere(s, p) == n
  {
    FirstWhereFirst(s, p);
  }
}
