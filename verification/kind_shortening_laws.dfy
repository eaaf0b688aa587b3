// What the shortening of a kind name keeps, over any number of cuts.
module KindShorteningLaws {
  import opened Text
  import opened KindShortening

  // Letter case apart, one of the two is a piece of the other, and neither is empty.
  ghost predicate Nested(left: string, right: string) {
    var l, r := Lower(left), Lower(right);
    l != "" && r != "" && (HasSlice(l, r) || HasSlice(r, l))
  }

  // What the guard calls a clash.
  lemma ClashMeansNested(left: string, right: string)
    ensures Clash(left, right) <==> Nested(left, right)
  {
    ContainsIsSlice(Lower(left), Lower(right));
    ContainsIsSlice(Lower(right), Lower(left));
  }

  // A window can be cut exactly when it is not at the front, its text is not empty and stands somewhere in the text
  // before it, and the tokens it leaves side by side, if there are two, are not nested.
  lemma WhatIsEligible(ts: seq<string>, start: int, end: int)
    ensures Eligible(ts, Window(start, end)) <==>
            && 1 <= start <= end < |ts|
            && Concat(ts[start..end + 1]) != ""
            && HasSlice(Lower(Concat(ts[..start])), Lower(Concat(ts[start..end + 1])))
            && (end + 1 < |ts| ==> !Nested(ts[start - 1], ts[end + 1]))
  {
    if 1 <= start <= end < |ts| {
      ContainsIsSlice(Lower(Concat(ts[..start])), Lower(Concat(ts[start..end + 1])));
      if end + 1 < |ts| {
        ClashMeansNested(ts[start - 1], ts[end + 1]);
      }
    }
  }

  lemma SpellingLength(ts: seq<string>, w: Window)
    requires InBounds(ts, w)
    ensures |Spelling(ts, w)| == |Concat(ts[w.start..w.end + 1])|
  {
  }

  // One window beats another by its longer text, then by its greater number of tokens, then by its later start.
  lemma WhatBeats(ts: seq<string>, v: Window, w: Window)
    requires InBounds(ts, v) && InBounds(ts, w)
    ensures Beats(ts, v, w) <==>
            var text, other := |Concat(ts[v.start..v.end + 1])|, |Concat(ts[w.start..w.end + 1])|;
            || text > other
            || (text == other && v.end - v.start > w.end - w.start)
            || (text == other && v.end - v.start == w.end - w.start && v.start > w.start)
  {
    SpellingLength(ts, v);
    SpellingLength(ts, w);
  }

  // How many neighbouring pairs of tokens are nested.
  ghost function Clashes(ts: seq<string>): nat {
    if |ts| < 2 then 0
    else (if Nested(ts[0], ts[1]) then 1 else 0) + Clashes(ts[1..])
  }

  lemma {:induction false} ClashesSplit(a: seq<string>, b: seq<string>)
    requires a != [] && b != []
    ensures Clashes(a + b) == Clashes(a) + (if Nested(a[|a| - 1], b[0]) then 1 else 0) + Clashes(b)
    decreases |a|
  {
    if |a| == 1 {
      assert (a + b)[1..] == b;
    } else {
      ClashesSplit(a[1..], b);
      assert (a + b)[1..] == a[1..] + b;
    }
  }

  lemma MiddleAddsNoClash(ts: seq<string>, head: seq<string>, middle: seq<string>, tail: seq<string>)
    requires ts == head + (middle + tail)
    requires head != [] && middle != [] && (tail == [] || !Nested(head[|head| - 1], tail[0]))
    ensures Clashes(head + tail) <= Clashes(ts)
  {
    ClashesSplit(head, middle + tail);
    if tail == [] {
      assert head + tail == head;
    } else {
      ClashesSplit(middle, tail);
      ClashesSplit(head, tail);
    }
  }

  lemma CutParts(ts: seq<string>, w: Window) returns (head: seq<string>, middle: seq<string>, tail: seq<string>)
    requires InBounds(ts, w)
    ensures ts == head + (middle + tail) && Cut(ts, w) == head + tail
    ensures head != [] && head[|head| - 1] == ts[w.start - 1] && middle != []
    ensures if w.end < |ts| - 1 then tail != [] && tail[0] == ts[w.end + 1] else tail == []
  {
    head, middle, tail := ts[..w.start], ts[w.start..w.end + 1], ts[w.end + 1..];
  }

  lemma EligibleLeavesNoneNested(ts: seq<string>, w: Window)
    requires Eligible(ts, w)
    ensures w.end + 1 < |ts| ==> !Nested(ts[w.start - 1], ts[w.end + 1])
  {
    WhatIsEligible(ts, w.start, w.end);
  }

  lemma CutAddsNoClash(ts: seq<string>, w: Window)
    requires Eligible(ts, w)
    ensures Clashes(Cut(ts, w)) <= Clashes(ts)
  {
    var head, middle, tail := CutParts(ts, w);
    EligibleLeavesNoneNested(ts, w);
    MiddleAddsNoClash(ts, head, middle, tail);
  }

  // Cutting neighbours apart never makes a containing pair, so a name without one never gets one.
  lemma {:induction false} ShortenAddsNoClash(ts: seq<string>)
    ensures Clashes(Shorten(ts)) <= Clashes(ts)
    decreases |ts|
  {
    if !LeftAlone(ts) {
      BestExists(ts);
      var w :| IsBest(ts, w);
      ShortenStep(ts, w);
      CutAddsNoClash(ts, w);
      ShortenAddsNoClash(Cut(ts, w));
    }
  }

  // While the tokens do not fit in 59 characters and some window can be cut, the best one goes; `kept` is what is left.
  ghost predicate CutsDown(ts: seq<string>, kept: seq<string>)
    decreases |ts|
  {
    if |Render(ts)| <= 59 || NoneEligible(ts) then kept == ts
    else exists w :: IsBest(ts, w) && CutsDown(Cut(ts, w), kept)
  }

  // The shortening leaves just that.
  lemma {:induction false} ShortenCutsDown(ts: seq<string>, kept: seq<string>)
    ensures CutsDown(ts, kept) <==> kept == Shorten(ts)
    decreases |ts|
  {
    if !LeftAlone(ts) {
      BestExists(ts);
      var w :| IsBest(ts, w);
      ShortenStep(ts, w);
      ShortenCutsDown(Cut(ts, w), kept);
      forall v | IsBest(ts, v)
        ensures v == w
      {
        BestIsUnique(ts, v, w);
      }
    }
  }

  // The surviving tokens sit at `places` in the original, in order, the first at the front.
  ghost predicate Survive(places: seq<nat>, survivors: seq<string>, ts: seq<string>) {
    && |places| == |survivors|
    && (forall i | 0 <= i < |places| :: places[i] < |ts| && survivors[i] == ts[places[i]])
    && (forall i, j | 0 <= i < j < |places| :: places[i] < places[j])
    && (|places| > 0 ==> places[0] == 0)
  }

  ghost function PlaceBefore(w: Window, place: nat): nat
    requires w.start <= w.end + 1
  {
    if place < w.start then place else place + (w.end + 1 - w.start)
  }

  lemma SurviveCut(inner: seq<nat>, survivors: seq<string>, ts: seq<string>, w: Window) returns (places: seq<nat>)
    requires InBounds(ts, w) && Survive(inner, survivors, Cut(ts, w))
    ensures Survive(places, survivors, ts)
  {
    places := seq(|inner|, i requires 0 <= i < |inner| => PlaceBefore(w, inner[i]));
    forall i | 0 <= i < |places|
      ensures places[i] < |ts| && survivors[i] == ts[places[i]]
    {
      assert survivors[i] == Cut(ts, w)[inner[i]];
    }
    forall i, j | 0 <= i < j < |places|
      ensures places[i] < places[j]
    {
      assert inner[i] < inner[j];
    }
  }

  // The tokens stay in order, and the first one is never removed.
  lemma {:induction false} ShortenKeepsOrder(ts: seq<string>) returns (places: seq<nat>)
    ensures Survive(places, Shorten(ts), ts)
    ensures ts != [] ==> Shorten(ts) != []
    decreases |ts|
  {
    if !LeftAlone(ts) {
      BestExists(ts);
      var w :| IsBest(ts, w);
      ShortenStep(ts, w);
      var inner := ShortenKeepsOrder(Cut(ts, w));
      places := SurviveCut(inner, Shorten(ts), ts, w);
    } else {
      places := seq(|ts|, i requires 0 <= i < |ts| => i);
    }
  }

  ghost function Letters(ts: seq<string>): set<char> {
    set c | c in Lower(Concat(ts))
  }

  lemma CutKeepsLetters(ts: seq<string>, w: Window)
    requires Eligible(ts, w)
    ensures Letters(Cut(ts, w)) == Letters(ts)
  {
    var head, middle, tail := ts[..w.start], ts[w.start..w.end + 1], ts[w.end + 1..];
    assert ts == head + middle + tail;
    ConcatAppend(head + middle, tail);
    ConcatAppend(head, middle);
    ConcatAppend(head, tail);
    LowerConcat(Concat(head) + Concat(middle), Concat(tail));
    LowerConcat(Concat(head), Concat(middle));
    LowerConcat(Concat(head), Concat(tail));
    PartOf(Lower(Concat(head)), Spelling(ts, w));
  }

  lemma PartOf(text: string, part: string)
    requires Contains(text, part)
    ensures forall c | c in part :: c in text
  {
  }

  // No letter or digit disappears from a name.
  lemma {:induction false} ShortenKeepsLetters(ts: seq<string>)
    ensures Letters(Shorten(ts)) == Letters(ts)
    decreases |ts|
  {
    if !LeftAlone(ts) {
      BestExists(ts);
      var w :| IsBest(ts, w);
      ShortenStep(ts, w);
      CutKeepsLetters(ts, w);
      ShortenKeepsLetters(Cut(ts, w));
    }
  }

  // The loop stops only at a name that fits or has nothing left to cut, and a name that fits is kept.
  lemma {:induction false} ShortenFitsOrIsStuck(ts: seq<string>)
    ensures |Render(Shorten(ts))| <= MAX_KIND_NAME_LENGTH || NoneEligible(Shorten(ts))
    ensures |Render(Shorten(ts))| <= |Render(ts)|
    ensures Shorten(Shorten(ts)) == Shorten(ts)
    decreases |ts|
  {
    if !LeftAlone(ts) {
      BestExists(ts);
      var w :| IsBest(ts, w);
      ShortenStep(ts, w);
      ShortenFitsOrIsStuck(Cut(ts, w));
      CutIsShorter(ts, w);
    }
  }

  // A cut takes exactly the window's text out of the rendered name.
  lemma CutIsShorter(ts: seq<string>, w: Window)
    requires Eligible(ts, w)
    ensures |Render(ts)| == |Render(Cut(ts, w))| + |Spelling(ts, w)|
  {
    var head, middle, tail := ts[..w.start], ts[w.start..w.end + 1], ts[w.end + 1..];
    assert ts == head + middle + tail;
    RenderAppend(head + middle, tail);
    RenderAppend(head, middle);
    RenderAppend(head, tail);
    LowerRender(middle);
    assert |Lower(Render(middle))| == |Lower(Concat(middle))|;
  }

  // The shortening does not always succeed: a first token that is too long by itself stays.
  lemma OverlongFirstTokenStays(ts: seq<string>)
    requires ts != [] && |ts[0]| > MAX_KIND_NAME_LENGTH
    ensures |Render(Shorten(ts))| > MAX_KIND_NAME_LENGTH
  {
    var kept := Shorten(ts);
    var places := ShortenKeepsOrder(ts);
    assert kept[0] == ts[0];
    RenderFirst(kept);
  }

  // The shortening only drops tokens.
  lemma ShortenPicks(ts: seq<string>)
    ensures forall t | t in Shorten(ts) :: t in ts
  {
    var places := ShortenKeepsOrder(ts);
    forall t | t in Shorten(ts)
      ensures t in ts
    {
      var i :| 0 <= i < |Shorten(ts)| && Shorten(ts)[i] == t;
      assert t == ts[places[i]];
    }
  }

  lemma {:induction false} ShortenIsShorter(ts: seq<string>)
    ensures |Shorten(ts)| <= |ts|
    decreases |ts|
  {
    if !LeftAlone(ts) {
      BestExists(ts);
      var w :| IsBest(ts, w);
      ShortenStep(ts, w);
      ShortenIsShorter(Cut(ts, w));
    }
  }

  // Exactly the tokens that the guard leaves alone are kept as they are.
  lemma ShortenKeepsAll(ts: seq<string>)
    ensures Shorten(ts) == ts <==> LeftAlone(ts)
  {
    if !LeftAlone(ts) {
      BestExists(ts);
      var w :| IsBest(ts, w);
      ShortenStep(ts, w);
      ShortenIsShorter(Cut(ts, w));
    }
  }

  // A doubled word that is too long with its double loses the double.
  lemma DoubleIsDropped(w: string)
    requires w != "" && |w| <= MAX_KIND_NAME_LENGTH < 2 * |w|
    ensures Shorten([w, w]) == [w]
  {
    var ts, double := [w, w], Window(1, 1);
    assert ts == [w] + [w] && [w][..0] == [];
    RenderAppend([w], [w]);
    RenderOne(w);
    assert Concat([w]) == Concat([w][..0]) + w;
    assert ts[1..2] == [w] && ts[..1] == [w] && Spelling(ts, double) == Lower(w);
    assert Lower(w)[0..] == Lower(w) && Contains(Lower(w), Lower(w));
    assert Eligible(ts, double);
    forall v | Eligible(ts, v)
      ensures v == double
    {
    }
    ShortenStep(ts, double);
    assert Cut(ts, double) == [w];
  }
}
