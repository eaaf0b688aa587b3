// From a Terraform resource name and its service group to the name of a kind.
module KindNames {
  import opened Text
  import opened KindShortening
  import opened KindShorteningLaws

  ghost predicate IsGroup(tokens: seq<string>, group: string, end: nat) {
    1 <= end <= |tokens| && Lower(Concat(tokens[..end])) == Lower(group)
  }

  // The end of the shortest prefix of tokens that spells the group; 0 when no prefix does or the group is empty.
  ghost predicate IsPrefixEnd(tokens: seq<string>, group: string, end: nat) {
    if group != "" && exists e :: IsGroup(tokens, group, e)
    then IsGroup(tokens, group, end) && forall e | IsGroup(tokens, group, e) :: end <= e
    else end == 0
  }

  // The tokens before `start` are dropped from the kind: the group's, or else just the first.
  ghost predicate IsStart(tokens: seq<string>, group: string, start: nat) {
    exists end: nat :: IsPrefixEnd(tokens, group, end) && start == if end > 0 then end else 1
  }

  function NonEmpty(tokens: seq<string>): (r: seq<string>)
    ensures forall token :: token in r <==> token in tokens && token != ""
  {
    if tokens == [] then []
    else
      var last := tokens[|tokens| - 1];
      assert last in tokens && tokens == tokens[..|tokens| - 1] + [last];
      NonEmpty(tokens[..|tokens| - 1]) + if last == "" then [] else [last]
  }

  lemma {:induction false} NonEmptyKeepsWords(tokens: seq<string>)
    requires forall token | token in tokens :: IsWord(token)
    ensures NonEmpty(tokens) == tokens
  {
    if tokens != [] {
      assert tokens[|tokens| - 1] in tokens;
      NonEmptyKeepsWords(tokens[..|tokens| - 1]);
    }
  }

  lemma {:induction false} NonEmptyKeepsText(tokens: seq<string>)
    ensures Concat(NonEmpty(tokens)) == Concat(tokens)
  {
    if tokens != [] {
      var n := |tokens| - 1;
      NonEmptyKeepsText(tokens[..n]);
      ConcatAppend(NonEmpty(tokens[..n]), if tokens[n] == "" then [] else [tokens[n]]);
      assert Concat([tokens[n]][..0]) == "" && Concat([tokens[n]]) == tokens[n];
    }
  }

  // What the name of a resource consists of, once its tokens are cut at `start`.
  ghost function Kind(resourceName: string, tokens: seq<string>, start: nat): string {
    if start >= |tokens| || NonEmpty(tokens[start..]) == [] then resourceName
    else
      var kindTokens := NonEmpty(tokens[start..]);
      if |Render(kindTokens)| > MAX_KIND_NAME_LENGTH then Render(Shorten(kindTokens)) else Render(kindTokens)
  }

  method FindPrefixEnd(tokens: seq<string>, group: string) returns (prefixEnd: nat)
    ensures IsPrefixEnd(tokens, group, prefixEnd)
  {
    var groupLower := Lower(group);
    prefixEnd := 0;
    if groupLower != "" {
      for i := 1 to |tokens| + 1
        invariant prefixEnd == 0
        invariant forall e: nat | IsGroup(tokens, group, e) :: i <= e
      {
        var candidate := Lower(Concat(tokens[..i]));
        if candidate == groupLower {
          prefixEnd := i;
          assert IsGroup(tokens, group, i);
          break;
        }
      }
    }
  }

  method DropEmpty(tokens: seq<string>) returns (kindTokens: seq<string>)
    ensures kindTokens == NonEmpty(tokens)
  {
    kindTokens := [];
    for i := 0 to |tokens|
      invariant kindTokens == NonEmpty(tokens[..i])
    {
      assert tokens[..i + 1][..i] == tokens[..i];
      if tokens[i] != "" {
        kindTokens := kindTokens + [tokens[i]];
      }
    }
    assert tokens[..|tokens|] == tokens;
  }

  lemma StartIsUnique(tokens: seq<string>, group: string, start: nat, other: nat)
    requires IsStart(tokens, group, start) && IsStart(tokens, group, other)
    ensures start == other
  {
  }

  // Without text in `rest` the kind is the name; else it spells that text, if it fits in 59 characters, and otherwise
  // what the best cuts leave of it.
  ghost predicate Spells(kindName: string, resourceName: string, rest: seq<string>) {
    if forall token | token in rest :: token == "" then kindName == resourceName
    else if |Concat(rest)| <= 59 then Lower(kindName) == Lower(Concat(rest)) && kindName == Render(NonEmpty(rest))
    else exists kept :: CutsDown(NonEmpty(rest), kept) && kindName == Render(kept)
  }

  lemma {:induction false} NothingLeft(tokens: seq<string>)
    ensures NonEmpty(tokens) == [] <==> forall token | token in tokens :: token == ""
  {
    if NonEmpty(tokens) != [] {
      assert NonEmpty(tokens)[0] in NonEmpty(tokens);
    }
  }

  lemma KindSpells(resourceName: string, tokens: seq<string>, start: nat)
    requires start <= |tokens|
    ensures Spells(Kind(resourceName, tokens, start), resourceName, tokens[start..])
  {
    var rest := tokens[start..];
    NothingLeft(rest);
    NonEmptyKeepsText(rest);
    LowerRender(NonEmpty(rest));
    assert |Render(NonEmpty(rest))| == |Lower(Render(NonEmpty(rest)))| == |Concat(rest)|;
    ShortenCutsDown(NonEmpty(rest), Shorten(NonEmpty(rest)));
  }

  // A group that no tokens from the front spell, and one that they do, the shortest of them ending at `end`.
  lemma StartWithoutPrefix(tokens: seq<string>, group: string, start: nat)
    requires IsStart(tokens, group, start)
    requires group == "" || forall e | 1 <= e <= |tokens| :: Lower(Concat(tokens[..e])) != Lower(group)
    ensures start == 1
  {
  }

  lemma StartAtShortest(tokens: seq<string>, group: string, start: nat, end: nat)
    requires IsStart(tokens, group, start)
    requires group != "" && 1 <= end <= |tokens| && Lower(Concat(tokens[..end])) == Lower(group)
    requires forall e | 1 <= e < end :: Lower(Concat(tokens[..e])) != Lower(group)
    ensures start == end
  {
    assert IsGroup(tokens, group, end);
  }

  // The kind of a name by what the group spells: the parts after the shortest run of parts from the second on that
  // spells it, or after the second part alone when there is no such run.  A name of less than three parts is kept.
  ghost predicate ByGroup(kindName: string, resourceName: string, parts: seq<string>, group: string) {
    if |parts| < 3 then kindName == resourceName
    else
      && ((group == "" || forall e | 1 <= e < |parts| :: Lower(Concat(parts[1..][..e])) != Lower(group)) ==>
            Spells(kindName, resourceName, parts[2..]))
      && forall end | 1 <= end < |parts| && group != "" && Lower(Concat(parts[1..][..end])) == Lower(group)
                      && forall e | 1 <= e < end :: Lower(Concat(parts[1..][..e])) != Lower(group) ::
           Spells(kindName, resourceName, parts[end + 1..])
  }

  lemma KindIsByGroup(resourceName: string, parts: seq<string>, group: string, start: nat)
    requires |parts| >= 3 && IsStart(parts[1..], group, start)
    ensures ByGroup(Kind(resourceName, parts[1..], start), resourceName, parts, group)
  {
    var tokens, kindName := parts[1..], Kind(resourceName, parts[1..], start);
    if group == "" || forall e | 1 <= e < |parts| :: Lower(Concat(parts[1..][..e])) != Lower(group) {
      StartWithoutPrefix(tokens, group, start);
      KindSpells(resourceName, tokens, 1);
      assert tokens[1..] == parts[2..];
    }
    forall end | 1 <= end < |parts| && group != "" && Lower(Concat(parts[1..][..end])) == Lower(group)
                 && forall e | 1 <= e < end :: Lower(Concat(parts[1..][..e])) != Lower(group)
      ensures Spells(kindName, resourceName, parts[end + 1..])
    {
      StartAtShortest(tokens, group, start, end);
      KindSpells(resourceName, tokens, end);
      assert tokens[end..] == parts[end + 1..];
    }
  }

  method GenerateKindName(resourceName: string, group: string) returns (kindName: string)
    ensures var parts := Split(resourceName, '_');
            if |parts| < 3 then kindName == resourceName
            else exists start :: IsStart(parts[1..], group, start) && kindName == Kind(resourceName, parts[1..], start)
    ensures ByGroup(kindName, resourceName, Split(resourceName, '_'), group)
  {
    var parts := Split(resourceName, '_');
    if |parts| < 3 {
      return resourceName;
    }
    var tokens := parts[1..];
    var prefixEnd := FindPrefixEnd(tokens, group);
    var start := 1;
    if prefixEnd > 0 {
      start := prefixEnd;
    }
    assert IsStart(tokens, group, start);
    KindIsByGroup(resourceName, parts, group, start);
    if start >= |tokens| {
      return resourceName;
    }
    var kindTokens := DropEmpty(tokens[start..]);
    if kindTokens == [] {
      return resourceName;
    }
    kindName := RenderKind(kindTokens);
  }

  method RenderKind(kindTokens: seq<string>) returns (kindName: string)
    ensures kindName == if |Render(kindTokens)| > MAX_KIND_NAME_LENGTH then Render(Shorten(kindTokens))
                        else Render(kindTokens)
  {
    var tokens := new string[|kindTokens|](i requires 0 <= i < |kindTokens| => kindTokens[i]);
    assert tokens[..] == tokens[..tokens.Length] == kindTokens;
    kindName := RenderTokens(tokens, tokens.Length);
    if |kindName| > MAX_KIND_NAME_LENGTH {
      kindName := RemoveLongestDuplicateSubstring(tokens);
    }
  }

  // The kind was rendered from all the tokens after `start`.
  ghost predicate Unshortened(tokens: seq<string>, start: nat) {
    && start < |tokens| && NonEmpty(tokens[start..]) != []
    && |Render(NonEmpty(tokens[start..]))| <= MAX_KIND_NAME_LENGTH
  }

  // Group and kind together spell the name after its first part exactly when the group spells the dropped tokens.
  lemma GroupAndKindSpellTheName(resourceName: string, tokens: seq<string>, group: string, start: nat)
    requires IsStart(tokens, group, start) && Unshortened(tokens, start)
    ensures Lower(group) + Lower(Kind(resourceName, tokens, start)) == Lower(Concat(tokens))
            <==> IsGroup(tokens, group, start)
  {
    var dropped, kept := Lower(Concat(tokens[..start])), Lower(Kind(resourceName, tokens, start));
    NonEmptyKeepsText(tokens[start..]);
    LowerRender(NonEmpty(tokens[start..]));
    assert tokens == tokens[..start] + tokens[start..];
    ConcatAppend(tokens[..start], tokens[start..]);
    LowerConcat(Concat(tokens[..start]), Concat(tokens[start..]));
    assert Lower(Concat(tokens)) == dropped + kept;
    if Lower(group) + kept == dropped + kept {
      assert |Lower(group)| == |dropped|;
      assert (Lower(group) + kept)[..|dropped|] == Lower(group) && (dropped + kept)[..|dropped|] == dropped;
    }
  }

  // Whenever the group spells some prefix of the tokens, nothing of the name is lost.
  lemma GroupPrefixLosesNothing(resourceName: string, tokens: seq<string>, group: string, start: nat, e: nat)
    requires IsStart(tokens, group, start) && Unshortened(tokens, start)
    requires group != "" && IsGroup(tokens, group, e)
    ensures Lower(group) + Lower(Kind(resourceName, tokens, start)) == Lower(Concat(tokens))
  {
    GroupAndKindSpellTheName(resourceName, tokens, group, start);
    assert IsGroup(tokens, group, start);
  }

  // A kind made of words reads back as the tokens that the shortening leaves: all of them, if the kind is short enough.
  lemma KindReadsBack(resourceName: string, tokens: seq<string>, start: nat)
    requires start < |tokens| && forall token | token in tokens[start..] :: IsWord(token)
    ensures Words(Kind(resourceName, tokens, start)) == Shorten(tokens[start..])
  {
    NonEmptyKeepsWords(tokens[start..]);
    ShortenPicks(tokens[start..]);
    WordsInvertsRender(Shorten(tokens[start..]));
  }

  // Kinds made of words are the same exactly when the shortening leaves the same tokens.
  lemma SameKindMeansSameTokensLeft(a: string, x: seq<string>, b: string, y: seq<string>, start: nat)
    requires start < |x| && forall token | token in x[start..] :: IsWord(token)
    requires start < |y| && forall token | token in y[start..] :: IsWord(token)
    ensures Kind(a, x, start) == Kind(b, y, start) <==> Shorten(x[start..]) == Shorten(y[start..])
  {
    KindReadsBack(a, x, start);
    KindReadsBack(b, y, start);
    NonEmptyKeepsWords(x[start..]);
    NonEmptyKeepsWords(y[start..]);
  }

  // Resource names, cut at `start`: the parts that the kind leaves out, and those it is made of.
  ghost predicate IsNamed(name: string, parts: seq<string>, start: nat) {
    Split(name, '_') == parts && |parts| > start + 1
  }

  ghost predicate OfWords(parts: seq<string>, start: nat)
    requires |parts| > start
  {
    forall token | token in parts[1..][start..] :: IsWord(token)
  }

  // Names of words that the shortening leaves alone get distinct kinds.
  lemma DistinctNamesGetDistinctKinds(a: string, b: string, x: seq<string>, y: seq<string>, start: nat)
    requires IsNamed(a, x, start) && IsNamed(b, y, start) && x[..start + 1] == y[..start + 1]
    requires OfWords(x, start) && LeftAlone(x[1..][start..])
    requires OfWords(y, start) && LeftAlone(y[1..][start..])
    ensures Kind(a, x[1..], start) == Kind(b, y[1..], start) <==> a == b
  {
    SameKindMeansSameTokensLeft(a, x[1..], b, y[1..], start);
    SuffixOfTail(x, start);
    SuffixOfTail(y, start);
    assert Join(x, "_") == a && Join(y, "_") == b;
  }

  lemma SuffixOfTail<T>(parts: seq<T>, start: nat)
    requires start + 1 <= |parts|
    ensures parts == parts[..start + 1] + parts[1..][start..]
  {
  }

  ghost predicate StartsWithLetter(tokens: seq<string>) {
    tokens != [] && tokens[0] != "" && IsLetter(tokens[0][0])
  }

  lemma RenderedStart(tokens: seq<string>)
    requires StartsWithLetter(tokens)
    ensures Render(tokens) != "" && IsUpper(Render(tokens)[0])
  {
    RenderFirst(tokens);
  }

  // A kind that starts with a letter reads back as words, and these are all there is in it.
  lemma KindIsOfWords(name: string, tokens: seq<string>, start: nat)
    requires start < |tokens| && StartsWithLetter(NonEmpty(tokens[start..]))
    ensures var words := Words(Kind(name, tokens, start));
      && words != [] && (forall word | word in words :: IsWord(word)) && Render(words) == Kind(name, tokens, start)
      && Letters(words) == Letters(tokens[start..])
  {
    var kindTokens := NonEmpty(tokens[start..]);
    var kept := Shorten(kindTokens);
    var places := ShortenKeepsOrder(kindTokens);
    RenderedStart(kept);
    RenderInvertsWords(Render(kept));
    LowerRender(Words(Render(kept)));
    LowerRender(kept);
    ShortenKeepsLetters(kindTokens);
    NonEmptyKeepsText(tokens[start..]);
  }

  lemma SeparatorInLower(s: string)
    ensures '_' in Lower(s) <==> '_' in s
  {
    forall i | 0 <= i < |s|
      ensures Lower(s)[i] == '_' <==> s[i] == '_'
    {
    }
  }

  lemma {:induction false} SeparatorInConcat(tokens: seq<string>)
    ensures '_' in Concat(tokens) <==> exists token :: token in tokens && '_' in token
  {
    if tokens != [] {
      var n := |tokens| - 1;
      SeparatorInConcat(tokens[..n]);
      assert tokens == tokens[..n] + [tokens[n]];
    }
  }

  // No separator gets into the words of a kind.
  lemma SeparatorInLetters(tokens: seq<string>)
    ensures '_' in Letters(tokens) <==> exists token :: token in tokens && '_' in token
  {
    SeparatorInLower(Concat(tokens));
    SeparatorInConcat(tokens);
  }

  lemma TailOfName<T>(x: seq<T>, start: nat, kept: seq<T>)
    requires start + 1 <= |x|
    ensures var y := x[..start + 1] + kept;
      y[..start + 1] == x[..start + 1] && y[1..] == x[1..][..start] + kept && y[1..][start..] == kept
  {
  }

  lemma WordsOfKindSplit(a: string, x: seq<string>, start: nat, words: seq<string>)
    requires IsNamed(a, x, start) && Letters(words) == Letters(x[1..][start..]) && words != []
    ensures IsNamed(Join(x[..start + 1] + words, "_"), x[..start + 1] + words, start)
  {
    SeparatorInLetters(words);
    SeparatorInLetters(x[1..][start..]);
    SplitInvertsJoin(x[..start + 1] + words, '_');
  }

  // The words of a kind that fits, or is made of words, are left alone and give that kind.
  lemma WordsGiveTheKind(a: string, tokens: seq<string>, start: nat, b: string, words: seq<string>)
    requires start < |tokens| && StartsWithLetter(NonEmpty(tokens[start..]))
    requires words == Words(Kind(a, tokens, start))
    requires |Render(words)| <= MAX_KIND_NAME_LENGTH || forall token | token in tokens[start..] :: IsWord(token)
    ensures LeftAlone(words)
    ensures Kind(b, tokens[..start] + words, start) == Kind(a, tokens, start)
  {
    KindIsOfWords(a, tokens, start);
    NonEmptyKeepsWords(words);
    assert (tokens[..start] + words)[start..] == words;
    if |Render(words)| > MAX_KIND_NAME_LENGTH {
      KindReadsBack(a, tokens, start);
      ShortenFitsOrIsStuck(tokens[start..]);
    }
  }

  // The other side: a kind that fits, or is made of words, belongs to a name of words that the shortening leaves alone,
  // and so to one only.  A name is that one exactly when it is of words and left alone itself.
  lemma NameOfTheKind(a: string, x: seq<string>, start: nat) returns (b: string, y: seq<string>)
    requires IsNamed(a, x, start) && StartsWithLetter(NonEmpty(x[1..][start..]))
    requires |Kind(a, x[1..], start)| <= MAX_KIND_NAME_LENGTH || OfWords(x, start)
    ensures IsNamed(b, y, start) && y[..start + 1] == x[..start + 1]
    ensures OfWords(y, start) && LeftAlone(y[1..][start..])
    ensures Kind(b, y[1..], start) == Kind(a, x[1..], start)
    ensures a == b <==> OfWords(x, start) && LeftAlone(x[1..][start..])
  {
    var words := Words(Kind(a, x[1..], start));
    KindIsOfWords(a, x[1..], start);
    y := x[..start + 1] + words;
    b := Join(y, "_");
    WordsOfKindSplit(a, x, start, words);
    WordsGiveTheKind(a, x[1..], start, b, words);
    TailOfName(x, start, words);
    if OfWords(x, start) && LeftAlone(x[1..][start..]) {
      DistinctNamesGetDistinctKinds(a, b, x, y, start);
    }
  }

  // Both names are cut at the same place when the group spells the parts that are left out.
  lemma SameStart(x: seq<string>, y: seq<string>, group: string, start: nat)
    requires group != "" && IsGroup(x, group, start) && IsStart(x, group, start)
    requires start <= |y| && y[..start] == x[..start]
    ensures IsStart(y, group, start)
  {
    forall e: nat | 1 <= e <= start
      ensures IsGroup(x, group, e) <==> IsGroup(y, group, e)
    {
      assert x[..start][..e] == x[..e] && y[..start][..e] == y[..e];
    }
    assert IsPrefixEnd(y, group, start);
  }

  // Resources of the group core whose names are different but whose kinds are the same.
  ghost predicate Collide(x: seq<string>, y: seq<string>) {
    var a, b := Join(["oci", "core"] + x, "_"), Join(["oci", "core"] + y, "_");
    && a != b
    && Split(a, '_')[1..] == ["core"] + x && IsStart(["core"] + x, "core", 1)
    && Split(b, '_')[1..] == ["core"] + y && IsStart(["core"] + y, "core", 1)
    && Kind(a, ["core"] + x, 1) == Kind(b, ["core"] + y, 1)
  }

  lemma CoreName(tokens: seq<string>)
    requires forall t | t in tokens :: '_' !in t
    ensures Split(Join(["oci", "core"] + tokens, "_"), '_') == ["oci", "core"] + tokens
    ensures (["oci", "core"] + tokens)[1..] == ["core"] + tokens && IsStart(["core"] + tokens, "core", 1)
  {
    SplitInvertsJoin(["oci", "core"] + tokens, '_');
    assert (["oci", "core"] + tokens)[1..] == ["core"] + tokens && (["core"] + tokens)[..1] == ["core"];
    assert Concat(["core"]) == Concat(["core"][..0]) + "core";
    assert IsGroup(["core"] + tokens, "core", 1);
    assert IsPrefixEnd(["core"] + tokens, "core", 1);
  }

  lemma SameRenderingCollides(x: seq<string>, y: seq<string>)
    requires x != y && (forall t | t in x :: '_' !in t) && (forall t | t in y :: '_' !in t)
    requires NonEmpty(x) != [] && NonEmpty(y) != []
    requires Render(Shorten(NonEmpty(x))) == Render(Shorten(NonEmpty(y)))
    ensures Collide(x, y)
  {
    CoreName(x);
    CoreName(y);
    assert (["oci", "core"] + x)[2..] == x && (["oci", "core"] + y)[2..] == y;
    assert (["core"] + x)[1..] == x && (["core"] + y)[1..] == y;
  }

  lemma NonEmptyTwo(a: string, b: string)
    requires a != "" && b != ""
    ensures NonEmpty([a]) == [a] && NonEmpty([a, b]) == [a, b]
  {
    assert [a][..0] == [] && [a, b][..1] == [a];
  }

  // Names that the shortening does not leave alone: a word of 30 to 59 characters, named once or twice.
  lemma NamesCollide(w: string)
    requires IsWord(w) && '_' !in w && |w| <= MAX_KIND_NAME_LENGTH < 2 * |w|
    ensures Collide([w], [w, w])
  {
    DoubleIsDropped(w);
    RenderOne(w);
    NonEmptyTwo(w, w);
    assert |[w]| != |[w, w]|;
    SameRenderingCollides([w], [w, w]);
  }

  lemma NumberJoins(w: string, d: string)
    requires IsWord(w) && forall c | c in d :: !IsLetter(c)
    ensures Title(w) + d == Title(w + d)
  {
    var c := UpperChar(w[0]);
    assert w == [LowerChar(c)] + w[1..];
    assert w + d == [LowerChar(c)] + (w[1..] + d);
    TitleOfWord(c, w[1..]);
    TitleOfWord(c, w[1..] + d);
  }

  lemma RenderNumberAfter(w: string, d: string)
    requires IsWord(w) && forall c | c in d :: !IsLetter(c)
    ensures Render([w, d]) == Render([w + d]) && |Render([w + d])| == |w| + |d|
  {
    NumberJoins(w, d);
    TitleOfNumber(d);
    RenderOne(w + d);
    RenderOne(d);
    RenderFirst([w, d]);
    assert [w, d][1..] == [d];
  }

  // Names not made of words: a part without letters, such as a number, apart from the word before it or joined to it.
  lemma NumbersCollide(w: string, d: string)
    requires IsWord(w) && d != "" && (forall c | c in d :: !IsLetter(c)) && '_' !in w + d
    requires |w| + |d| <= MAX_KIND_NAME_LENGTH
    ensures Collide([w, d], [w + d])
  {
    RenderNumberAfter(w, d);
    NonEmptyTwo(w, d);
    NonEmptyTwo(w + d, d);
    assert |[w, d]| != |[w + d]|;
    SameRenderingCollides([w, d], [w + d]);
  }

  // Every kind that is not the resource name itself fits, or has no duplicated window left.
  lemma KindFitsOrIsStuck(resourceName: string, tokens: seq<string>, start: nat) returns (kept: seq<string>)
    requires start < |tokens| && NonEmpty(tokens[start..]) != []
    ensures Kind(resourceName, tokens, start) == Render(kept)
    ensures |Render(kept)| <= MAX_KIND_NAME_LENGTH || NoneEligible(kept)
    ensures Letters(kept) == Letters(tokens[start..])
    ensures kept != [] && kept[0] == NonEmpty(tokens[start..])[0]
  {
    var kindTokens := NonEmpty(tokens[start..]);
    kept := Shorten(kindTokens);
    ShortenFitsOrIsStuck(kindTokens);
    ShortenKeepsLetters(kindTokens);
    NonEmptyKeepsText(tokens[start..]);
    var places := ShortenKeepsOrder(kindTokens);
  }
}
