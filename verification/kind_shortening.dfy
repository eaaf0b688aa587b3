// Shortening of overlong kind names: the best duplicated window of tokens is cut out, again and again,
// until the name fits or nothing is left to cut.
module KindShortening {
  import opened Text

  const MAX_KIND_NAME_LENGTH := 59

  // The tokens from `start` through `end`.
  datatype Window = Window(start: int, end: int)

  ghost predicate InBounds(ts: seq<string>, w: Window) {
    1 <= w.start <= w.end < |ts|
  }

  ghost function Spelling(ts: seq<string>, w: Window): string {
    if InBounds(ts, w) then Lower(Concat(ts[w.start..w.end + 1])) else ""
  }

  // One of two neighbouring tokens contains the other.
  predicate Clash(left: string, right: string) {
    var l, r := Lower(left), Lower(right);
    l != "" && r != "" && (Contains(l, r) || Contains(r, l))
  }

  // The window repeats text of the tokens before it, and cutting it joins no clashing pair.
  ghost predicate Eligible(ts: seq<string>, w: Window) {
    && InBounds(ts, w)
    && Spelling(ts, w) != ""
    && Contains(Lower(Concat(ts[..w.start])), Spelling(ts, w))
    && (w.end < |ts| - 1 ==> !Clash(ts[w.start - 1], ts[w.end + 1]))
  }

  predicate Exceeds(length: int, size: int, start: int, length': int, size': int, start': int) {
    length > length' || (length == length' && size > size') || (length == length' && size == size' && start > start')
  }

  // Longer text first, then more tokens, then the later start.
  ghost predicate Beats(ts: seq<string>, v: Window, w: Window) {
    Exceeds(|Spelling(ts, v)|, v.end - v.start + 1, v.start, |Spelling(ts, w)|, w.end - w.start + 1, w.start)
  }

  ghost predicate IsBest(ts: seq<string>, w: Window) {
    Eligible(ts, w) && forall v | Eligible(ts, v) && v != w :: Beats(ts, w, v)
  }

  ghost predicate NoneEligible(ts: seq<string>) {
    forall w :: !Eligible(ts, w)
  }

  lemma BestIsUnique(ts: seq<string>, v: Window, w: Window)
    requires IsBest(ts, v) && IsBest(ts, w)
    ensures v == w
  {
  }

  lemma BeatsIsTransitive(ts: seq<string>, u: Window, v: Window, w: Window)
    requires Beats(ts, u, v) && Beats(ts, v, w)
    ensures Beats(ts, u, w)
  {
  }

  ghost predicate BeatsRest(ts: seq<string>, best: Window, ws: set<Window>) {
    forall w | w in ws && w != best :: Beats(ts, best, w)
  }

  lemma {:induction false} BestOfSet(ts: seq<string>, ws: set<Window>) returns (best: Window)
    requires ws != {}
    ensures best in ws && BeatsRest(ts, best, ws)
  {
    var first :| first in ws;
    if ws == {first} {
      best := first;
    } else {
      assert ws - {first} != {};
      best := BestOfSet(ts, ws - {first});
      if !Beats(ts, best, first) {
        assert Beats(ts, first, best);
        forall w | w in ws && w != first
          ensures Beats(ts, first, w)
        {
          if w != best { BeatsIsTransitive(ts, first, best, w); }
        }
        best := first;
      }
    }
  }

  // A best window exists as soon as any window is eligible.
  lemma BestExists(ts: seq<string>)
    requires !NoneEligible(ts)
    ensures exists w :: IsBest(ts, w)
  {
    var ws := set start, end | 1 <= start < |ts| && 1 <= end < |ts| && Eligible(ts, Window(start, end)) ::
                Window(start, end);
    var some :| Eligible(ts, some);
    assert some == Window(some.start, some.end) && some in ws;
    var best := BestOfSet(ts, ws);
    forall v | Eligible(ts, v) && v != best
      ensures Beats(ts, best, v)
    {
      assert v == Window(v.start, v.end) && v in ws;
    }
    assert IsBest(ts, best);
  }

  ghost function Cut(ts: seq<string>, w: Window): seq<string>
    requires InBounds(ts, w)
  {
    ts[..w.start] + ts[w.end + 1..]
  }

  // The guard of the loop fails: the name fits, or no window can be cut.
  ghost predicate LeftAlone(ts: seq<string>) {
    |Render(ts)| <= MAX_KIND_NAME_LENGTH || NoneEligible(ts)
  }

  // The tokens the shortening ends with.
  ghost function Shorten(ts: seq<string>): seq<string>
    decreases |ts|
  {
    if LeftAlone(ts) then ts
    else
      BestExists(ts);
      var w :| IsBest(ts, w);
      Shorten(Cut(ts, w))
  }

  // The windows that the scan has seen before it looks at the one from `start` through `end`.
  ghost predicate Scanned(w: Window, start: int, end: int) {
    w.start < start || (w.start == start && w.end < end)
  }

  // The best window so far; none so far is -1.
  ghost predicate BestSoFar(ts: seq<string>, best: Window, length: int, size: int, start: int, end: int) {
    if best.start == -1 then
      length == 0 && size == 0 && forall v | Eligible(ts, v) && Scanned(v, start, end) :: false
    else
      && Eligible(ts, best) && Scanned(best, start, end)
      && length == |Spelling(ts, best)| && size == best.end - best.start + 1
      && forall v | Eligible(ts, v) && Scanned(v, start, end) && v != best :: Beats(ts, best, v)
  }

  ghost predicate BestBefore(ts: seq<string>, best: Window, length: int, size: int, start: int) {
    BestSoFar(ts, best, length, size, start, start)
  }

  lemma ScanOne(ts: seq<string>, best: Window, length: int, size: int, start: int, end: int)
    requires BestSoFar(ts, best, length, size, start, end) && 1 <= start <= end < |ts|
    ensures var w := Window(start, end);
            var text := |Spelling(ts, w)|;
            if Eligible(ts, w) && Exceeds(text, end - start + 1, start, length, size, best.start)
            then BestSoFar(ts, w, text, end - start + 1, start, end + 1)
            else BestSoFar(ts, best, length, size, start, end + 1)
  {
    var w := Window(start, end);
    forall v | Eligible(ts, v) && Scanned(v, start, end + 1)
      ensures v == w || Scanned(v, start, end)
    {
    }
  }

  lemma ScanRow(ts: seq<string>, best: Window, length: int, size: int, start: int)
    requires BestSoFar(ts, best, length, size, start, |ts|)
    ensures BestBefore(ts, best, length, size, start + 1)
  {
  }

  lemma SkipRow(ts: seq<string>, best: Window, length: int, size: int, start: int)
    requires BestBefore(ts, best, length, size, start) && 1 <= start < |ts| && Lower(Concat(ts[..start])) == ""
    ensures BestBefore(ts, best, length, size, start + 1)
  {
  }

  // The nested scan finds the best window of the first n tokens, or -1 exactly when none is eligible.
  method FindBestWindow(tokens: array<string>, n: nat) returns (bestStart: int, bestEnd: int)
    requires n <= tokens.Length
    ensures bestStart == -1 <==> NoneEligible(tokens[..n])
    ensures bestStart != -1 ==> IsBest(tokens[..n], Window(bestStart, bestEnd))
  {
    ghost var ts := tokens[..n];
    bestStart, bestEnd := -1, -1;
    var bestLength, bestWindowSize := 0, 0;
    var start := 1;
    while start < n
      invariant 1 <= start
      invariant BestBefore(ts, Window(bestStart, bestEnd), bestLength, bestWindowSize, start)
    {
      var prefix := Lower(Concat(tokens[..start]));
      assert tokens[..start] == ts[..start];
      if prefix == "" {
        SkipRow(ts, Window(bestStart, bestEnd), bestLength, bestWindowSize, start);
      } else {
        bestStart, bestEnd, bestLength, bestWindowSize :=
          ScanFrom(tokens, n, start, prefix, bestStart, bestEnd, bestLength, bestWindowSize);
        ScanRow(ts, Window(bestStart, bestEnd), bestLength, bestWindowSize, start);
      }
      start := start + 1;
    }
  }

  lemma EligibleIs(ts: seq<string>, start: int, end: int, prefix: string, candidate: string)
    requires 1 <= start <= end < |ts|
    requires prefix == Lower(Concat(ts[..start])) && candidate == Spelling(ts, Window(start, end))
    ensures Eligible(ts, Window(start, end)) <==>
            && candidate != "" && Contains(prefix, candidate)
            && (end < |ts| - 1 ==> !Clash(ts[start - 1], ts[end + 1]))
  {
  }

  // The inner loop: the windows that begin at `start`.
  method ScanFrom(tokens: array<string>, n: nat, start: int, prefix: string,
                  bestStart: int, bestEnd: int, bestLength: int, bestWindowSize: int)
    returns (bestStart': int, bestEnd': int, bestLength': int, bestWindowSize': int)
    requires 1 <= start < n <= tokens.Length && prefix == Lower(Concat(tokens[..n][..start]))
    requires BestBefore(tokens[..n], Window(bestStart, bestEnd), bestLength, bestWindowSize, start)
    ensures BestSoFar(tokens[..n], Window(bestStart', bestEnd'), bestLength', bestWindowSize', start, n)
  {
    ghost var ts := tokens[..n];
    bestStart', bestEnd', bestLength', bestWindowSize' := bestStart, bestEnd, bestLength, bestWindowSize;
    var candidate := "";
    var end := start;
    while end < n
      invariant start <= end <= n
      invariant candidate == Lower(Concat(ts[start..end]))
      invariant BestSoFar(ts, Window(bestStart', bestEnd'), bestLength', bestWindowSize', start, end)
    {
      CandidateGrows(ts, start, end, candidate);
      candidate := candidate + Lower(tokens[end]);
      var clash := end < n - 1 && Clash(tokens[start - 1], tokens[end + 1]);
      var eligible := candidate != "" && Contains(prefix, candidate) && !clash;
      EligibleIs(ts, start, end, prefix, candidate);
      ScanOne(ts, Window(bestStart', bestEnd'), bestLength', bestWindowSize', start, end);
      if eligible {
        var windowSize := end - start + 1;
        if Exceeds(|candidate|, windowSize, start, bestLength', bestWindowSize', bestStart') {
          bestStart', bestEnd', bestLength', bestWindowSize' := start, end, |candidate|, windowSize;
        }
      }
      end := end + 1;
    }
  }

  lemma CandidateGrows(ts: seq<string>, start: int, end: int, candidate: string)
    requires 1 <= start <= end < |ts| && candidate == Lower(Concat(ts[start..end]))
    ensures candidate + Lower(ts[end]) == Lower(Concat(ts[start..end + 1])) == Spelling(ts, Window(start, end))
  {
    var window := ts[start..end + 1];
    assert window[..|window| - 1] == ts[start..end];
    LowerConcat(Concat(ts[start..end]), ts[end]);
  }

  // Moves the tokens after the window over it, within the same array.
  method DeleteWindow(tokens: array<string>, n: nat, start: nat, end: nat) returns (m: nat)
    requires n <= tokens.Length && InBounds(tokens[..n], Window(start, end))
    modifies tokens
    ensures m <= n && tokens[..m] == Cut(old(tokens[..n]), Window(start, end))
  {
    m := start;
    var i := end + 1;
    while i < n
      invariant end + 1 <= i <= n && m == start + (i - end - 1)
      invariant forall k | 0 <= k < start :: tokens[k] == old(tokens[k])
      invariant forall k | start <= k < m :: tokens[k] == old(tokens[k + (end + 1 - start)])
      invariant forall k | i <= k < n :: tokens[k] == old(tokens[k])
    {
      tokens[m] := tokens[i];
      m, i := m + 1, i + 1;
    }
  }

  method RenderTokens(tokens: array<string>, n: nat) returns (kindName: string)
    requires n <= tokens.Length
    ensures kindName == Render(tokens[..n])
  {
    kindName := "";
    for i := 0 to n
      invariant kindName == Render(tokens[..i])
    {
      assert tokens[..i + 1][..i] == tokens[..i];
      kindName := kindName + Title(tokens[i]);
    }
  }

  // The shortening loop.  It works on a copy, so the caller's tokens stay as they were.
  method RemoveLongestDuplicateSubstring(kindTokens: array<string>) returns (kindName: string)
    ensures kindName == Render(Shorten(kindTokens[..]))
  {
    var n := kindTokens.Length;
    var tokens := new string[n](i requires 0 <= i < n reads kindTokens => kindTokens[i]);
    assert tokens[..n] == kindTokens[..];
    kindName := RenderTokens(tokens, n);
    while |kindName| > MAX_KIND_NAME_LENGTH
      invariant 0 <= n <= tokens.Length && fresh(tokens)
      invariant kindName == Render(tokens[..n])
      invariant Shorten(tokens[..n]) == Shorten(kindTokens[..])
      decreases n
    {
      var bestStart, bestEnd := FindBestWindow(tokens, n);
      if bestStart == -1 {
        return kindName;
      }
      ghost var before := tokens[..n];
      ShortenStep(before, Window(bestStart, bestEnd));
      n := DeleteWindow(tokens, n, bestStart, bestEnd);
      kindName := RenderTokens(tokens, n);
    }
  }

  lemma ShortenStep(ts: seq<string>, w: Window)
    requires |Render(ts)| > MAX_KIND_NAME_LENGTH && IsBest(ts, w)
    ensures Shorten(ts) == Shorten(Cut(ts, w)) && |Cut(ts, w)| < |ts|
  {
    BestExists(ts);
    forall v | IsBest(ts, v)
      ensures v == w
    {
      BestIsUnique(ts, v, w);
    }
  }
}
