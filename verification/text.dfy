// Text: splitting and joining, ASCII letter case, and the words that names are made of.
module Text {
  predicate IsUpper(c: char) { 'A' <= c <= 'Z' }

  predicate IsLower(c: char) { 'a' <= c <= 'z' }

  predicate IsLetter(c: char) { IsUpper(c) || IsLower(c) }

  function LowerChar(c: char): char {
    if IsUpper(c) then c - 'A' + 'a' else c
  }

  function UpperChar(c: char): char {
    if IsLower(c) then c - 'a' + 'A' else c
  }

  function Lower(s: string): (r: string)
    ensures |r| == |s|
  {
    seq(|s|, i requires 0 <= i < |s| => LowerChar(s[i]))
  }

  // Title case of one word: its first letter upper-cased and the letters after it lower-cased.
  function Title(s: string): (r: string)
    ensures |r| == |s|
  {
    if s == "" then ""
    else if IsLetter(s[0]) then [UpperChar(s[0])] + Lower(s[1..])
    else [s[0]] + Title(s[1..])
  }

  function Concat(tokens: seq<string>): string {
    if tokens == [] then "" else Concat(tokens[..|tokens| - 1]) + tokens[|tokens| - 1]
  }

  function Render(tokens: seq<string>): string {
    if tokens == [] then "" else Render(tokens[..|tokens| - 1]) + Title(tokens[|tokens| - 1])
  }

  predicate Contains(text: string, part: string) {
    exists i | 0 <= i <= |text| :: part <= text[i..]
  }

  ghost predicate StandsAt(text: string, part: string, i: int) {
    0 <= i <= |text| - |part| && text[i..i + |part|] == part
  }

  ghost predicate HasSlice(text: string, part: string) {
    exists i :: StandsAt(text, part, i)
  }

  lemma ContainsIsSlice(text: string, part: string)
    ensures Contains(text, part) <==> HasSlice(text, part)
  {
    forall i | 0 <= i <= |text|
      ensures part <= text[i..] <==> StandsAt(text, part, i)
    {
      if |part| <= |text| - i {
        assert text[i..][..|part|] == text[i..i + |part|];
      }
    }
  }

  // strings.Split with a one-character separator.
  function Split(s: string, separator: char): (parts: seq<string>)
    ensures |parts| > 0
    ensures forall part | part in parts :: separator !in part
    ensures Join(parts, [separator]) == s
  {
    if s == "" then [""]
    else
      var rest := Split(s[1..], separator);
      if s[0] == separator then
        assert ([""] + rest)[1..] == rest;
        [""] + rest
      else
        assert ([[s[0]] + rest[0]] + rest[1..])[1..] == rest[1..];
        [[s[0]] + rest[0]] + rest[1..]
  }

  function Join(parts: seq<string>, separator: string): string {
    if parts == [] then ""
    else if |parts| == 1 then parts[0]
    else parts[0] + separator + Join(parts[1..], separator)
  }

  // Only the separator-free parts of a text join back to it.
  lemma {:induction false} SplitInvertsJoin(parts: seq<string>, separator: char)
    requires parts != [] && forall part | part in parts :: separator !in part
    ensures Split(Join(parts, [separator]), separator) == parts
    decreases |parts|, |parts[0]|
  {
    var text := Join(parts, [separator]);
    if parts[0] == "" {
      if |parts| > 1 {
        SplitInvertsJoin(parts[1..], separator);
        assert text[1..] == Join(parts[1..], [separator]);
      }
    } else {
      var shorter := [parts[0][1..]] + parts[1..];
      assert shorter[1..] == parts[1..];
      assert parts[0] in parts && separator !in parts[0];
      forall part | part in shorter
        ensures separator !in part
      {
        if part != shorter[0] { assert part in parts; }
      }
      assert text[1..] == Join(shorter, [separator]);
      SplitInvertsJoin(shorter, separator);
      assert [parts[0][0]] + shorter[0] == parts[0];
    }
  }

  lemma LowerConcat(a: string, b: string)
    ensures Lower(a + b) == Lower(a) + Lower(b)
  {
  }

  lemma {:induction false} ConcatAppend(a: seq<string>, b: seq<string>)
    ensures Concat(a + b) == Concat(a) + Concat(b)
    decreases |b|
  {
    if b == [] {
      assert a + b == a;
    } else {
      var most := b[..|b| - 1];
      assert (a + b)[..|a + b| - 1] == a + most;
      ConcatAppend(a, most);
      assert Concat(a) + (Concat(most) + b[|b| - 1]) == (Concat(a) + Concat(most)) + b[|b| - 1];
    }
  }

  lemma {:induction false} RenderAppend(a: seq<string>, b: seq<string>)
    ensures Render(a + b) == Render(a) + Render(b)
    decreases |b|
  {
    if b == [] {
      assert a + b == a;
    } else {
      var most := b[..|b| - 1];
      assert (a + b)[..|a + b| - 1] == a + most;
      RenderAppend(a, most);
      assert Render(a) + (Render(most) + Title(b[|b| - 1])) == (Render(a) + Render(most)) + Title(b[|b| - 1]);
    }
  }

  lemma RenderOne(token: string)
    ensures Render([token]) == Title(token)
  {
    assert [token][..0] == [];
  }

  lemma RenderFirst(tokens: seq<string>)
    requires tokens != []
    ensures Render(tokens) == Title(tokens[0]) + Render(tokens[1..])
  {
    assert tokens == [tokens[0]] + tokens[1..];
    RenderAppend([tokens[0]], tokens[1..]);
    RenderOne(tokens[0]);
  }

  lemma {:induction false} LowerTitle(s: string)
    ensures Lower(Title(s)) == Lower(s)
  {
    if s != "" {
      LowerConcat([s[0]], s[1..]);
      assert s == [s[0]] + s[1..];
      if IsLetter(s[0]) {
        LowerConcat([UpperChar(s[0])], Lower(s[1..]));
        assert Lower(Lower(s[1..])) == Lower(s[1..]);
      } else {
        LowerTitle(s[1..]);
        LowerConcat([s[0]], Title(s[1..]));
      }
    }
  }

  // Character by character: up to the first letter a title is in capitals, and after it there are none.
  lemma {:induction false} TitleAt(s: string, i: nat)
    requires i < |s|
    ensures Title(s)[i] == if exists j :: 0 <= j < i && IsLetter(s[j]) then LowerChar(s[i]) else UpperChar(s[i])
  {
    if i > 0 && !IsLetter(s[0]) {
      TitleAt(s[1..], i - 1);
      assert Title(s)[i] == Title(s[1..])[i - 1];
      forall j | 0 <= j < i
        ensures IsLetter(s[j]) <==> j > 0 && IsLetter(s[1..][j - 1])
      {
      }
    }
  }

  lemma {:induction false} TitleOfNumber(s: string)
    requires forall c | c in s :: !IsLetter(c)
    ensures Title(s) == s && Lower(s) == s
  {
    if s != "" {
      assert s[0] in s && s == [s[0]] + s[1..];
      TitleOfNumber(s[1..]);
    }
  }

  // Rendering changes nothing but letter case.
  lemma {:induction false} LowerRender(tokens: seq<string>)
    ensures Lower(Render(tokens)) == Lower(Concat(tokens))
  {
    if tokens != [] {
      var n := |tokens| - 1;
      LowerRender(tokens[..n]);
      LowerTitle(tokens[n]);
      LowerConcat(Render(tokens[..n]), Title(tokens[n]));
      LowerConcat(Concat(tokens[..n]), tokens[n]);
    }
  }

  // A word of a resource name: a lower-case letter followed by anything but capitals.
  predicate IsWord(s: string) {
    s != "" && IsLower(s[0]) && forall c | c in s :: !IsUpper(c)
  }

  // Reads a kind back: every capital starts a new word.
  function Words(kind: string): (words: seq<string>)
    ensures kind != "" ==> words != []
  {
    if kind == "" then []
    else if |kind| == 1 || IsUpper(kind[1]) then [[LowerChar(kind[0])]] + Words(kind[1..])
    else
      var rest := Words(kind[1..]);
      [[LowerChar(kind[0])] + rest[0]] + rest[1..]
  }

  lemma {:induction false} FirstWord(c: char, tail: string, rest: string)
    requires forall d | d in tail :: !IsUpper(d)
    requires rest == "" || IsUpper(rest[0])
    ensures Words([c] + tail + rest) == [[LowerChar(c)] + tail] + Words(rest)
    decreases |tail|
  {
    var kind := [c] + tail + rest;
    if tail == "" {
      assert kind[1..] == rest;
      assert [LowerChar(c)] + tail == [LowerChar(c)];
    } else {
      assert kind[1..] == [tail[0]] + tail[1..] + rest;
      FirstWord(tail[0], tail[1..], rest);
      assert tail[0] in tail && tail == [tail[0]] + tail[1..];
      assert Words(kind[1..]) == [tail] + Words(rest);
      assert ([tail] + Words(rest))[1..] == Words(rest);
    }
  }

  // Parsing inverts rendering, so a rendered name determines its words.
  lemma {:induction false} WordsInvertsRender(tokens: seq<string>)
    requires forall token | token in tokens :: IsWord(token)
    ensures Words(Render(tokens)) == tokens
    ensures tokens != [] ==> Render(tokens) != "" && IsUpper(Render(tokens)[0])
  {
    if tokens != [] {
      WordsInvertsRender(tokens[1..]);
      RenderFirst(tokens);
      assert tokens == [tokens[0]] + tokens[1..];
      assert tokens[0] in tokens;
      RenderedWord(tokens[0], Render(tokens[1..]));
    }
  }

  lemma RenderedWord(word: string, rest: string)
    requires IsWord(word) && (rest == "" || IsUpper(rest[0]))
    ensures Words(Title(word) + rest) == [word] + Words(rest)
    ensures IsUpper(Title(word)[0])
  {
    var c, tail := UpperChar(word[0]), word[1..];
    assert Lower(tail) == tail;
    assert Title(word) == [c] + tail;
    FirstWord(c, tail, rest);
    assert word == [LowerChar(c)] + tail;
  }

  // Where the first word of a kind ends.
  lemma FirstWordEnd(kind: string) returns (n: nat)
    requires kind != ""
    ensures 1 <= n <= |kind| && (forall c | c in kind[1..n] :: !IsUpper(c)) && (n == |kind| || IsUpper(kind[n]))
  {
    n := 1;
    while n < |kind| && !IsUpper(kind[n])
      invariant 1 <= n <= |kind| && forall c | c in kind[1..n] :: !IsUpper(c)
    {
      assert kind[1..n + 1] == kind[1..n] + [kind[n]];
      n := n + 1;
    }
  }

  lemma TitleOfWord(c: char, tail: string)
    requires IsUpper(c) && forall d | d in tail :: !IsUpper(d)
    ensures IsWord([LowerChar(c)] + tail) && Title([LowerChar(c)] + tail) == [c] + tail
  {
    var word := [LowerChar(c)] + tail;
    assert word[1..] == tail && Lower(tail) == tail;
  }

  // Rendering inverts parsing, too: every text that starts with a capital is the rendering of words.
  lemma {:induction false} RenderInvertsWords(kind: string)
    requires kind != "" && IsUpper(kind[0])
    ensures forall word | word in Words(kind) :: IsWord(word)
    ensures Render(Words(kind)) == kind
    decreases |kind|
  {
    var n := FirstWordEnd(kind);
    var c, tail, rest := kind[0], kind[1..n], kind[n..];
    assert kind == [c] + tail + rest;
    FirstWord(c, tail, rest);
    TitleOfWord(c, tail);
    assert Words(kind)[1..] == Words(rest);
    RenderFirst(Words(kind));
    if rest != "" {
      RenderInvertsWords(rest);
    }
  }
}
