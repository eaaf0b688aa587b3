// Strings in lexicographic order, as sort.Strings leaves them.
module SortedStrings {
  import opened Collections

  predicate Less(a: string, b: string) {
    b != "" && (a == "" || a[0] < b[0] || (a[0] == b[0] && Less(a[1..], b[1..])))
  }

  lemma {:induction false} LessIsTotal(a: string, b: string)
    ensures Less(a, b) || Less(b, a) || a == b
    ensures !(Less(a, b) && Less(b, a)) && !Less(a, a)
  {
    if a != "" {
      LessIsTotal(a[1..], a[1..]);
      if b != "" {
        LessIsTotal(a[1..], b[1..]);
        assert a == [a[0]] + a[1..] && b == [b[0]] + b[1..];
      }
    }
  }

  lemma {:induction false} LessIsTransitive(a: string, b: string, c: string)
    requires Less(a, b) && Less(b, c)
    ensures Less(a, c)
  {
    if a != "" && a[0] == b[0] && b[0] == c[0] {
      LessIsTransitive(a[1..], b[1..], c[1..]);
    }
  }

  // After what they have in common, the first text ends or goes on with a lesser character.
  ghost predicate Precedes(a: string, b: string, common: int) {
    && 0 <= common <= |a| && common <= |b| && a[..common] == b[..common]
    && common < |b| && (common == |a| || a[common] < b[common])
  }

  lemma PrecedesShares(a: string, b: string, common: int)
    requires Precedes(a, b, common)
    ensures common == 0 || (a != "" && b != "" && a[0] == b[0])
  {
    if common > 0 {
      assert a[..common][0] == b[..common][0];
    }
  }

  lemma {:induction false} LessIsLexicographic(a: string, b: string)
    ensures Less(a, b) <==> exists common :: Precedes(a, b, common)
  {
    if a == "" || b == "" || a[0] != b[0] {
      assert Precedes(a, b, 0) <==> Less(a, b);
      forall common | Precedes(a, b, common)
        ensures common == 0
      {
        PrecedesShares(a, b, common);
      }
    } else {
      LessIsLexicographic(a[1..], b[1..]);
      forall common | Precedes(a, b, common)
        ensures common > 0 && Precedes(a[1..], b[1..], common - 1)
      {
        assert a[1..][..common - 1] == a[..common][1..] && b[1..][..common - 1] == b[..common][1..];
      }
      forall common | Precedes(a[1..], b[1..], common)
        ensures Precedes(a, b, common + 1)
      {
        assert a[..common + 1] == [a[0]] + a[1..][..common] && b[..common + 1] == [b[0]] + b[1..][..common];
      }
    }
  }

  ghost predicate StrictlySorted(list: seq<string>) {
    forall i, j | 0 <= i < j < |list| :: Less(list[i], list[j])
  }

  ghost predicate ComesBefore(a: string, b: string) {
    exists common :: Precedes(a, b, common)
  }

  lemma SortedIsAlphabetical(list: seq<string>)
    ensures StrictlySorted(list) <==> forall i, j | 0 <= i < j < |list| :: ComesBefore(list[i], list[j])
  {
    forall i, j | 0 <= i < j < |list|
      ensures Less(list[i], list[j]) <==> ComesBefore(list[i], list[j])
    {
      LessIsLexicographic(list[i], list[j]);
    }
  }

  // A strictly sorted list is determined by its members.
  lemma {:induction false} SortedIsUnique(a: seq<string>, b: seq<string>)
    requires StrictlySorted(a) && StrictlySorted(b)
    requires forall x :: x in a <==> x in b
    ensures a == b
  {
    if a == [] {
      assert forall i | 0 <= i < |b| :: b[i] in b;
      assert b == [];
    } else {
      assert a[0] in b;
      var k :| 0 <= k < |b| && b[k] == a[0];
      assert b[0] in a;
      var m :| 0 <= m < |a| && a[m] == b[0];
      LessIsTotal(a[0], b[0]);
      assert a[0] == b[0];
      forall x
        ensures x in a[1..] <==> x in b[1..]
      {
        TailMembers(a, x);
        TailMembers(b, x);
      }
      SortedIsUnique(a[1..], b[1..]);
      assert a == [a[0]] + a[1..] && b == [b[0]] + b[1..];
    }
  }

  lemma TailMembers(list: seq<string>, x: string)
    requires StrictlySorted(list) && list != []
    ensures x in list[1..] <==> x in list && x != list[0]
  {
    LessIsTotal(x, x);
    if x in list[1..] {
      var i :| 0 <= i < |list[1..]| && list[1..][i] == x;
      assert Less(list[0], list[i + 1]);
    }
  }

  // Puts a new string in its place.
  function Insert(list: seq<string>, x: string): (r: seq<string>)
    requires StrictlySorted(list) && x !in list
    ensures StrictlySorted(r) && forall y :: y in r <==> y in list || y == x
  {
    if list == [] then [x]
    else if Less(x, list[0]) then
      InsertFront(list, x);
      [x] + list
    else
      LessIsTotal(x, list[0]);
      InsertBehind(list, x, Insert(list[1..], x));
      [list[0]] + Insert(list[1..], x)
  }

  lemma InsertFront(list: seq<string>, x: string)
    requires StrictlySorted(list) && list != [] && Less(x, list[0])
    ensures StrictlySorted([x] + list)
  {
    forall i | 0 <= i < |list|
      ensures Less(x, list[i])
    {
      if i > 0 { LessIsTransitive(x, list[0], list[i]); }
    }
  }

  lemma InsertBehind(list: seq<string>, x: string, rest: seq<string>)
    requires StrictlySorted(list) && list != [] && Less(list[0], x)
    requires StrictlySorted(rest) && forall y :: y in rest <==> y in list[1..] || y == x
    ensures StrictlySorted([list[0]] + rest) && forall y :: y in [list[0]] + rest <==> y in list || y == x
  {
    forall i | 0 <= i < |rest|
      ensures Less(list[0], rest[i])
    {
      assert rest[i] in rest;
      if rest[i] != x {
        var k :| 0 <= k < |list[1..]| && list[1..][k] == rest[i];
        assert Less(list[0], list[k + 1]);
      }
    }
    assert list == [list[0]] + list[1..];
  }

  ghost predicate IsSortedOf(list: seq<string>, names: set<string>) {
    StrictlySorted(list) && forall x :: x in list <==> x in names
  }

  function Sort(list: seq<string>): (r: seq<string>)
    requires NoDuplicates(list)
    ensures StrictlySorted(r) && forall x :: x in r <==> x in list
  {
    if list == [] then []
    else
      var n := |list| - 1;
      assert list == list[..n] + [list[n]] && list[n] !in list[..n];
      Insert(Sort(list[..n]), list[n])
  }

  // Lists a set, in whatever order, and sorts the list.
  method SortKeys(names: set<string>) returns (list: seq<string>)
    ensures IsSortedOf(list, names)
  {
    list := [];
    var rest := names;
    while rest != {}
      invariant rest <= names && NoDuplicates(list)
      invariant forall x :: x in list <==> x in names - rest
      decreases rest
    {
      var name :| name in rest;
      assert name !in list;
      list := list + [name];
      rest := rest - {name};
    }
    list := Sort(list);
  }
}
