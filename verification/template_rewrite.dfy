// The rewrite of the controller template: counting and replacing substrings the way Go's strings package does.
module TemplateRewrite {
  import opened Text

  // Non-overlapping occurrences, from the left.
  function Count(s: string, x: string): nat
    requires x != ""
  {
    if |s| < |x| then 0
    else if x <= s then 1 + Count(s[|x|..], x)
    else Count(s[1..], x)
  }

  function ReplaceAll(s: string, x: string, y: string): string
    requires x != ""
  {
    if |s| < |x| then s
    else if x <= s then y + ReplaceAll(s[|x|..], x, y)
    else [s[0]] + ReplaceAll(s[1..], x, y)
  }

  function ReplaceFirst(s: string, x: string, y: string): string
    requires x != ""
  {
    if |s| < |x| then s
    else if x <= s then y + s[|x|..]
    else [s[0]] + ReplaceFirst(s[1..], x, y)
  }

  // One of two texts continues the other.
  predicate Compatible(a: string, b: string) {
    a <= b || b <= a
  }

  // No occurrence of b, in any continuation of a, begins inside a.
  ghost predicate Clear(a: string, b: string) {
    forall j | 0 <= j < |a| :: !Compatible(a[j..], b)
  }

  lemma {:induction false} CountClear(a: string, b: string, x: string)
    requires x != "" && Clear(a, x)
    ensures Count(a + b, x) == Count(b, x)
  {
    if a == "" {
      assert a + b == b;
    } else {
      assert !Compatible(a[0..], x);
      assert (a + b)[1..] == a[1..] + b;
      ClearTail(a, x);
      CountClear(a[1..], b, x);
      if |a + b| < |x| {
        CountShort(b, x);
      }
    }
  }

  lemma CountShort(s: string, x: string)
    requires x != "" && |s| < |x|
    ensures Count(s, x) == 0
  {
  }

  // A count of zero means what it says.
  lemma {:induction false} CountZero(s: string, x: string)
    requires x != ""
    ensures Count(s, x) == 0 <==> !HasSlice(s, x)
  {
    if |s| >= |x| {
      assert StandsAt(s, x, 0) <==> x <= s;
      if !(x <= s) {
        CountZero(s[1..], x);
        forall i | 0 < i <= |s| - |x|
          ensures StandsAt(s, x, i) <==> StandsAt(s[1..], x, i - 1)
        {
          assert s[1..][i - 1..i - 1 + |x|] == s[i..i + |x|];
        }
        forall i | StandsAt(s[1..], x, i)
          ensures StandsAt(s, x, i + 1)
        {
          assert s[1..][i..i + |x|] == s[i + 1..i + 1 + |x|];
        }
      }
    }
  }

  lemma ClearTail(a: string, x: string)
    requires a != "" && Clear(a, x)
    ensures Clear(a[1..], x)
  {
  }

  lemma ReplaceAtOther(s: string, x: string, y: string)
    requires x != "" && s != "" && !(x <= s)
    ensures ReplaceAll(s, x, y) == [s[0]] + ReplaceAll(s[1..], x, y)
  {
    assert s == [s[0]] + s[1..];
  }

  // Text in which no occurrence of x can begin passes through a replacement.
  lemma {:induction false} ReplacePasses(a: string, b: string, x: string, y: string)
    requires x != "" && Clear(a, x)
    ensures ReplaceAll(a + b, x, y) == a + ReplaceAll(b, x, y)
  {
    if a == "" {
      assert a + b == b;
    } else {
      assert !Compatible(a[0..], x);
      assert (a + b)[1..] == a[1..] + b;
      ClearTail(a, x);
      ReplacePasses(a[1..], b, x, y);
      assert a + ReplaceAll(b, x, y) == [a[0]] + (a[1..] + ReplaceAll(b, x, y));
      ReplaceAtOther(a + b, x, y);
    }
  }

  lemma PrefixIsCompatible(w: string, y: string, rest: string)
    requires w <= y + rest
    ensures Compatible(w, y)
  {
  }

  // What stands at the front after a replacement stood there before, if the replacement cannot be mistaken for it.
  lemma {:induction false} FrontIsOld(w: string, s: string, x: string, y: string)
    requires x != "" && Clear(w, y) && w <= ReplaceAll(s, x, y)
    ensures w <= s
  {
    assert w[0..] == w;
    if w != "" && |s| >= |x| {
      if x <= s {
        PrefixIsCompatible(w, y, ReplaceAll(s[|x|..], x, y));
      } else {
        ClearTail(w, y);
        assert ReplaceAll(s, x, y)[1..] == ReplaceAll(s[1..], x, y);
        FrontIsOld(w[1..], s[1..], x, y);
        assert w == [w[0]] + w[1..] && s == [s[0]] + s[1..];
      }
    }
  }

  // Replacing x leaves no x behind: the replacement neither contains one nor joins one with its surroundings.
  lemma {:induction false} ReplaceRemovesAll(s: string, x: string, y: string)
    requires x != "" && Clear(y, x) && Clear(x[1..], y)
    ensures Count(ReplaceAll(s, x, y), x) == 0
  {
    if |s| >= |x| {
      if x <= s {
        ReplaceRemovesAll(s[|x|..], x, y);
        CountClear(y, ReplaceAll(s[|x|..], x, y), x);
      } else {
        var r := ReplaceAll(s, x, y);
        ReplaceRemovesAll(s[1..], x, y);
        assert r[1..] == ReplaceAll(s[1..], x, y);
        if x <= r {
          assert x[1..] <= r[1..];
          FrontIsOld(x[1..], s[1..], x, y);
        }
      }
    }
  }

  // Replacing x neither removes nor adds an occurrence of z, if the three cannot overlap.
  lemma {:induction false} ReplaceKeepsOthers(s: string, x: string, y: string, z: string)
    requires x != "" && z != ""
    requires Clear(x, z) && Clear(y, z) && Clear(z, x) && Clear(z, y)
    ensures Count(ReplaceAll(s, x, y), z) == Count(s, z)
  {
    var r := ReplaceAll(s, x, y);
    if |s| >= |x| {
      if x <= s {
        var rest := s[|x|..];
        ReplaceKeepsOthers(rest, x, y, z);
        assert s == x + rest;
        CountClear(x, rest, z);
        CountClear(y, ReplaceAll(rest, x, y), z);
      } else if z <= s {
        var rest := s[|z|..];
        ReplaceKeepsOthers(rest, x, y, z);
        assert s == z + rest;
        ReplacePasses(z, rest, x, y);
        assert r[|z|..] == ReplaceAll(rest, x, y);
      } else {
        ReplaceKeepsOthers(s[1..], x, y, z);
        assert r[1..] == ReplaceAll(s[1..], x, y);
        if z <= r {
          FrontIsOld(z, s, x, y);
        }
        CountStep(s, z);
        CountStep(r, z);
      }
    }
  }

  lemma CountStep(s: string, x: string)
    requires x != "" && s != "" && !(x <= s)
    ensures Count(s, x) == Count(s[1..], x)
  {
  }

  // An independent account of a replacement: the same parts, with other separators.
  lemma {:induction false} ReplacePutsOthers(s: string, x: string, y: string) returns (parts: seq<string>)
    requires x != ""
    ensures |parts| == Count(s, x) + 1
    ensures Join(parts, x) == s && Join(parts, y) == ReplaceAll(s, x, y)
    ensures forall part | part in parts :: Count(part, x) == 0
  {
    if |s| < |x| {
      parts := [s];
    } else if x <= s {
      var rest := ReplacePutsOthers(s[|x|..], x, y);
      parts := [""] + rest;
      assert parts[1..] == rest;
      assert s == x + s[|x|..];
    } else {
      var rest := ReplacePutsOthers(s[1..], x, y);
      parts := [[s[0]] + rest[0]] + rest[1..];
      PrependToFirst(s[0], rest, x);
      PrependToFirst(s[0], rest, y);
      assert s == [s[0]] + s[1..];
      assert parts[0] <= s by { FirstIsPrefix(parts, x); }
      assert rest[0] in rest;
    }
  }

  lemma PrependToFirst(c: char, parts: seq<string>, separator: string)
    requires parts != []
    ensures Join([[c] + parts[0]] + parts[1..], separator) == [c] + Join(parts, separator)
  {
  }

  lemma FirstIsPrefix(parts: seq<string>, separator: string)
    requires parts != []
    ensures parts[0] <= Join(parts, separator)
  {
  }

  lemma PrependToThree(c: char, before: string, middle: string, after: string)
    ensures [c] + (before + middle + after) == ([c] + before) + middle + after
  {
  }

  lemma FirstIsLater(s: string, x: string, y: string)
    requires x != "" && Count(s, x) > 0 && !(x <= s)
    ensures s != "" && Count(s[1..], x) > 0 && ReplaceFirst(s, x, y) == [s[0]] + ReplaceFirst(s[1..], x, y)
  {
  }

  lemma ReplaceFirstAt(s: string, x: string, y: string) returns (before: string, after: string)
    requires x != "" && Count(s, x) > 0
    ensures s == before + x + after && ReplaceFirst(s, x, y) == before + y + after
  {
    if x <= s {
      before, after := "", s[|x|..];
      assert s == x + after;
    } else {
      FirstIsLater(s, x, y);
      before, after := ReplaceFirstAt(s[1..], x, y);
      PrependToThree(s[0], before, x, after);
      PrependToThree(s[0], before, y, after);
      assert s == [s[0]] + s[1..];
      before := [s[0]] + before;
    }
  }

  // No text without a line break is found across one.
  lemma {:induction false} CountLines(a: string, b: string, x: string)
    requires x != "" && '\n' !in x
    ensures Count(a + "\n" + b, x) == Count(a, x) + Count(b, x)
    decreases |a|
  {
    var s := a + "\n" + b;
    assert s[|a|] == '\n';
    if x <= s {
      assert forall i | 0 <= i < |x| :: x[i] == s[i] && x[i] != '\n';
      assert x <= a && s[|x|..] == a[|x|..] + "\n" + b;
      CountLines(a[|x|..], b, x);
    } else if a != "" {
      assert s[1..] == a[1..] + "\n" + b;
      assert !(x <= a);
      CountLines(a[1..], b, x);
    } else {
      assert s[1..] == b;
    }
  }
}
