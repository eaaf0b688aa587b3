// Sequences without duplicates, sums over sequences and the option type shared by the other modules.
module Collections {

  datatype Option<+T> = None | Some(value: T)

  ghost predicate NoDuplicates<T>(s: seq<T>) {
    forall i, j | 0 <= i < j < |s| :: s[i] != s[j]
  }

  ghost function Elements<T>(s: seq<T>): set<T> {
    set x | x in s
  }

  // `s` with every occurrence of `x` removed.
  function Without<T(==, !new)>(s: seq<T>, x: T): (r: seq<T>)
    ensures forall y :: y in r <==> y in s && y != x
    ensures |r| <= |s|
    ensures x !in s ==> r == s
  {
    if s == [] then []
    else if s[0] == x then Without(s[1..], x)
    else [s[0]] + Without(s[1..], x)
  }

  // The first `n` elements of `s`, or all of them when there are fewer.
  function Take<T>(n: nat, s: seq<T>): seq<T> {
    if |s| <= n then s else s[..n]
  }

  lemma {:induction false} WithoutKeepsDistinct<T(!new)>(s: seq<T>, x: T)
    requires NoDuplicates(s)
    ensures NoDuplicates(Without(s, x))
    ensures x in s ==> |Without(s, x)| == |s| - 1
  {
    if s != [] {
      assert s[0] !in s[1..];
      WithoutKeepsDistinct(s[1..], x);
    }
  }

  lemma {:induction false} WithoutAppend<T(!new)>(s: seq<T>, t: seq<T>, x: T)
    ensures Without(s + t, x) == Without(s, x) + Without(t, x)
  {
    if s == [] {
      assert s + t == t;
    } else {
      assert (s + t)[1..] == s[1..] + t;
      WithoutAppend(s[1..], t, x);
    }
  }

  lemma {:induction false} WithoutAt<T(!new)>(s: seq<T>, i: nat)
    requires NoDuplicates(s) && i < |s|
    ensures Without(s, s[i]) == s[..i] + s[i + 1..]
  {
    assert s == s[..i] + [s[i]] + s[i + 1..];
    WithoutAppend(s[..i] + [s[i]], s[i + 1..], s[i]);
    WithoutAppend(s[..i], [s[i]], s[i]);
  }

  lemma {:induction false} DistinctLength<T>(s: seq<T>)
    requires NoDuplicates(s)
    ensures |Elements(s)| == |s|
  {
    if s == [] {
      assert Elements(s) == {};
    } else {
      DistinctLength(s[1..]);
      assert s[0] !in s[1..];
      assert Elements(s) == {s[0]} + Elements(s[1..]);
    }
  }

  lemma {:induction false} SubsetSize<T>(a: set<T>, b: set<T>)
    requires a <= b
    ensures |a| <= |b|
  {
    if a != {} {
      var x :| x in a;
      SubsetSize(a - {x}, b - {x});
    }
  }

  lemma {:induction false} SubsetOfSameSize<T>(a: set<T>, b: set<T>)
    requires a <= b && |a| == |b|
    ensures a == b
  {
    if b != {} {
      var x :| x in b;
      if x in a {
        SubsetOfSameSize(a - {x}, b - {x});
      } else {
        SubsetSize(a, b - {x});
      }
    }
  }

  lemma InsertedSize<K, V>(m: map<K, V>, k: K, v: V)
    ensures m[k := v].Keys == m.Keys + {k}
    ensures |m[k := v]| == if k in m then |m| else |m| + 1
  {
    assert m[k := v].Keys == m.Keys + {k};
    if k in m {
      assert m.Keys + {k} == m.Keys;
    }
  }

  // A function that is injective on `a` and maps it into `b` shows |a| <= |b|.
  lemma {:induction false} InjectionSize<T, U>(a: set<T>, b: set<U>, f: T -> U)
    requires forall x | x in a :: f(x) in b
    requires forall x, y | x in a && y in a && f(x) == f(y) :: x == y
    ensures |a| <= |b|
  {
    if a != {} {
      var x :| x in a;
      InjectionSize(a - {x}, b - {f(x)}, f);
    }
  }

  // The sum of `g` over `s`.
  function Sum<T>(s: seq<T>, g: T -> nat): nat {
    if s == [] then 0 else Sum(s[..|s| - 1], g) + g(s[|s| - 1])
  }

  lemma {:induction false} SumUpdate<T>(s: seq<T>, i: nat, x: T, g: T -> nat)
    requires i < |s|
    ensures Sum(s[i := x], g) + g(s[i]) == Sum(s, g) + g(x)
  {
    var last := |s| - 1;
    if i == last {
      assert s[i := x][..last] == s[..last];
    } else {
      assert s[i := x][..last] == s[..last][i := x];
      SumUpdate(s[..last], i, x, g);
    }
  }

  lemma SumAppend<T>(s: seq<T>, x: T, g: T -> nat)
    ensures Sum(s + [x], g) == Sum(s, g) + g(x)
  {
  }

  lemma {:induction false} SumAtMost<T>(s: seq<T>, g: T -> nat, bound: nat)
    requires forall i | 0 <= i < |s| :: g(s[i]) <= bound
    ensures Sum(s, g) <= |s| * bound
  {
    if s != [] {
      var front := s[..|s| - 1];
      assert forall i | 0 <= i < |front| :: front[i] == s[i];
      SumAtMost(front, g, bound);
    }
  }
}
