// The rewrite that registers the metric recorder of a generated controller with its manager.
module ControllerTemplate {
  import opened TemplateRewrite
  import opened Text

  // Longer texts are written in pieces: the verifier looks up characters in short literals only.
  const CALL := "etrics.NewMetricRecorder("
  const PACKAGE := "{{ .TypePackageAlias }}"
  const KIND := "{{ .CRD.Kind }}" + "_GroupVersionKind, "
  const CONSTRUCTOR_HEAD := CALL + PACKAGE + KIND
  const CONSTRUCTOR_TAIL := "gr, o.PollInterval)"
  const CONSTRUCTOR := "m" + CONSTRUCTOR_HEAD + "m" + CONSTRUCTOR_TAIL

  const RECORDER_REST := "etricRecorder"
  const RECORDER := "m" + RECORDER_REST

  const ANCHOR_HEAD := "\topts := []"
  const ANCHOR_TAIL := "anaged.ReconcilerOption{"
  const END := "{{- end}}"
  const OPTIONS := ANCHOR_HEAD + "m" + ANCHOR_TAIL
  const ANCHOR := END + "\n" + OPTIONS

  // The inserted block, line by line; its first line and its last two are the anchor's.
  const CONDITION := "\t{{- if or .UseTerraformPluginSDKClient" + " .UseTerraformPluginFrameworkClient }}"
  const ASSIGNMENT := "\t" + RECORDER + " := "
  const REGISTRATION := "\tif err := mgr.Add(metricRecorder); err != nil {"
  const FAILURE := "\t\treturn errors.Wrap(err, \"" + "cannot register Terraform metric recorder\")"
  const BRACE := "\t}"
  const INNER_END := "\t{{- end}}"
  const MANAGED_RECORDER :=
    Block(END, CONDITION, ASSIGNMENT + CONSTRUCTOR, REGISTRATION, FAILURE, BRACE, INNER_END, OPTIONS)

  function Block(l0: string, l1: string, l2: string, l3: string,
                 l4: string, l5: string, l6: string, l7: string): string
  {
    Lines(l0, Lines(l1, Lines(l2, Lines(l3, Lines(l4, Lines(l5, Lines(l6, l7)))))))
  }

  function Lines(line: string, rest: string): string {
    line + "\n" + rest
  }

  datatype Rewrite = Rewritten(template: string) | UnexpectedConstructors(count: nat) | UnexpectedAnchors(count: nat)

  function ControllerTemplateWithManagedMetricRecorder(t: string): Rewrite {
    var constructors := Count(t, CONSTRUCTOR);
    var anchors := Count(t, ANCHOR);
    if constructors != 4 then UnexpectedConstructors(constructors)
    else if anchors != 1 then UnexpectedAnchors(anchors)
    else Rewritten(ReplaceFirst(ReplaceAll(t, CONSTRUCTOR, RECORDER), ANCHOR, MANAGED_RECORDER))
  }

  lemma Regroup(call: string, package: string, kind: string, tail: string)
    ensures "m" + (call + package + kind) + "m" + tail == ("m" + call) + package + (kind + ("m" + tail))
  {
  }

  lemma CallText()
    ensures "m" + CALL == "metrics.NewMetricRecorder(" && "m" + CONSTRUCTOR_TAIL == "mgr, o.PollInterval)"
  {
  }

  lemma OptionsText()
    ensures OPTIONS == "\topts := []" + "managed.ReconcilerOption{"
  {
    assert "m" + ANCHOR_TAIL == "managed.ReconcilerOption{";
    assert OPTIONS == ANCHOR_HEAD + ("m" + ANCHOR_TAIL);
  }

  lemma RecorderText()
    ensures RECORDER == "metricRecorder" && ASSIGNMENT == "\tmetricRecorder := "
  {
  }

  // The texts in full: what is replaced, and by what.
  lemma ConstructorText()
    ensures CONSTRUCTOR == "metrics.NewMetricRecorder(" + "{{ .TypePackageAlias }}"
                           + ("{{ .CRD.Kind }}" + "_GroupVersionKind, " + "mgr, o.PollInterval)")
  {
    Regroup(CALL, PACKAGE, KIND, CONSTRUCTOR_TAIL);
    CallText();
  }

  lemma EightLines(l0: string, l1: string, l2: string, l3: string, l4: string, l5: string, l6: string, l7: string)
    ensures Block(l0, l1, l2, l3, l4, l5, l6, l7) == Join([l0, l1, l2, l3, l4, l5, l6, l7], "\n")
  {
    assert [l0, l1, l2, l3, l4, l5, l6, l7][1..] == [l1, l2, l3, l4, l5, l6, l7];
    assert [l1, l2, l3, l4, l5, l6, l7][1..] == [l2, l3, l4, l5, l6, l7];
    assert [l2, l3, l4, l5, l6, l7][1..] == [l3, l4, l5, l6, l7];
    assert [l3, l4, l5, l6, l7][1..] == [l4, l5, l6, l7];
    assert [l4, l5, l6, l7][1..] == [l5, l6, l7];
    assert [l5, l6, l7][1..] == [l6, l7];
    assert [l6, l7][1..] == [l7];
    assert Join([l6, l7], "\n") == Lines(l6, l7);
    assert Join([l5, l6, l7], "\n") == Lines(l5, Lines(l6, l7));
    assert Join([l4, l5, l6, l7], "\n") == Lines(l4, Lines(l5, Lines(l6, l7)));
    assert Join([l3, l4, l5, l6, l7], "\n") == Lines(l3, Lines(l4, Lines(l5, Lines(l6, l7))));
    assert Join([l2, l3, l4, l5, l6, l7], "\n") == Lines(l2, Lines(l3, Lines(l4, Lines(l5, Lines(l6, l7)))));
  }

  // The block that takes the place of the anchor, line by line.
  lemma BlockText()
    ensures MANAGED_RECORDER == Join([
      "{{- end}}",
      "\t{{- if or .UseTerraformPluginSDKClient" + " .UseTerraformPluginFrameworkClient }}",
      "\tmetricRecorder := " + CONSTRUCTOR,
      "\tif err := mgr.Add(metricRecorder); err != nil {",
      "\t\treturn errors.Wrap(err, \"" + "cannot register Terraform metric recorder\")",
      "\t}",
      "\t{{- end}}",
      "\topts := []" + "managed.ReconcilerOption{"], "\n")
  {
    RecorderText();
    OptionsText();
    EightLines(END, CONDITION, ASSIGNMENT + CONSTRUCTOR, REGISTRATION, FAILURE, BRACE, INNER_END, OPTIONS);
  }
  // b cannot begin inside a when b's first character is nowhere in a.
  lemma ClearByFirst(a: string, b: string)
    requires b != "" && b[0] !in a
    ensures Clear(a, b)
  {
  }

  // Nor when its first character stands in a at one place only, and the text there goes on differently.
  lemma ClearByOnlyPlace(a: string, left: string, right: string, b: string, k: nat)
    requires a == left + right && right != "" && b != ""
    requires b[0] !in left && b[0] !in right[1..]
    requires 0 < k < |right| && k < |b| && right[k] != b[k]
    ensures Clear(a, b)
  {
  }

  // The constructor, its replacement and the anchor: none can begin inside another.
  lemma RecorderClearOf(rest: string, b: string)
    requires 'm' !in rest && |rest| > 5 && |b| > 6 && b[0] == 'm' && b[6] != rest[5]
    ensures Clear("m" + rest, b)
  {
  }

  lemma RecorderClearOfConstructor()
    ensures Clear(RECORDER, CONSTRUCTOR)
  {
    assert RECORDER_REST[5] == 'R' && 'm' !in RECORDER_REST && CALL[5] == 's';
    ConstructorBegins();
    RecorderClearOf(RECORDER_REST, CONSTRUCTOR);
  }

  lemma ConstructorBegins()
    ensures |CONSTRUCTOR| > 6 && CONSTRUCTOR[0] == 'm' && CONSTRUCTOR[1] == 'e' && CONSTRUCTOR[6] == 's'
  {
  }

  lemma TailClearOf(head: string, tail: string, b: string)
    requires 'm' !in head && 'm' !in tail && tail != "" && tail[0] == 'g' && |b| > 1 && b[0] == 'm' && b[1] == 'e'
    ensures Clear(("m" + head + "m" + tail)[1..], b)
  {
  }

  lemma ConstructorClearOfRecorder()
    ensures Clear(CONSTRUCTOR[1..], RECORDER)
  {
    assert 'm' !in CALL && 'm' !in PACKAGE && 'm' !in KIND && 'm' !in CONSTRUCTOR_TAIL;
    assert RECORDER_REST[0] == 'e' && CONSTRUCTOR_TAIL[0] == 'g';
    TailClearOf(CONSTRUCTOR_HEAD, CONSTRUCTOR_TAIL, RECORDER);
  }

  lemma AnchorClearOf(b: string)
    requires |b| > 1 && b[0] == 'm' && b[1] == 'e'
    ensures Clear(ANCHOR, b)
  {
    assert 'm' !in END && 'm' !in ANCHOR_HEAD && 'm' !in ANCHOR_TAIL && ANCHOR_TAIL[0] == 'a';
    OptionsClearOf(END + "\n" + ANCHOR_HEAD, ANCHOR_TAIL, b);
    assert ANCHOR == END + "\n" + ANCHOR_HEAD + ("m" + ANCHOR_TAIL);
  }

  lemma OptionsClearOf(left: string, tail: string, b: string)
    requires 'm' !in left && 'm' !in tail && tail != "" && tail[0] == 'a' && |b| > 1 && b[0] == 'm' && b[1] == 'e'
    ensures Clear(left + ("m" + tail), b)
  {
  }

  lemma RecorderClearOfAnchor()
    ensures Clear(RECORDER, ANCHOR)
  {
    assert ANCHOR[0] == '{' && '{' !in RECORDER;
    ClearByFirst(RECORDER, ANCHOR);
  }

  // Nor when its third character is nowhere in a, and its first nowhere in the end of a.
  lemma TailKeepsClear(head: string, tail: string, b: string)
    requires |tail| > 2 && |b| > 2 && b[2] !in head && b[2] !in tail && b[0] !in tail
    ensures Clear(head + tail, b)
  {
  }

  lemma NoDashInConstructor()
    ensures '-' !in "m" + CONSTRUCTOR_HEAD + "m" && '-' !in CONSTRUCTOR_TAIL
  {
    assert '-' !in CALL && '-' !in PACKAGE && '-' !in KIND;
  }

  lemma AnchorBegins()
    ensures |ANCHOR| > 2 && ANCHOR[0] == '{' && ANCHOR[2] == '-'
  {
  }

  lemma ConstructorClearOfAnchor()
    ensures Clear(CONSTRUCTOR, ANCHOR)
  {
    AnchorBegins();
    NoDashInConstructor();
    assert '{' !in CONSTRUCTOR_TAIL && |CONSTRUCTOR_TAIL| > 2;
    TailKeepsClear("m" + CONSTRUCTOR_HEAD + "m", CONSTRUCTOR_TAIL, ANCHOR);
  }

  // Whatever the template, no constructor is left, and none is formed at the edges of a replacement.
  lemma NoConstructorRemains(t: string)
    ensures Count(ReplaceAll(t, CONSTRUCTOR, RECORDER), CONSTRUCTOR) == 0
  {
    RecorderClearOfConstructor();
    ConstructorClearOfRecorder();
    ReplaceRemovesAll(t, CONSTRUCTOR, RECORDER);
  }

  // Whatever the template, the anchors in it survive the first replacement, and none is formed by it.
  lemma AnchorsSurvive(t: string)
    ensures Count(ReplaceAll(t, CONSTRUCTOR, RECORDER), ANCHOR) == Count(t, ANCHOR)
  {
    ConstructorClearOfAnchor();
    RecorderClearOfAnchor();
    AnchorClearOf(CONSTRUCTOR);
    AnchorClearOf(RECORDER);
    ReplaceKeepsOthers(t, CONSTRUCTOR, RECORDER, ANCHOR);
  }

  lemma NoLineBreakInConstructor()
    ensures '\n' !in CONSTRUCTOR && |CONSTRUCTOR| > 100
  {
    assert '\n' !in CALL && '\n' !in PACKAGE && '\n' !in KIND && '\n' !in CONSTRUCTOR_TAIL;
  }

  // The line of the block that assigns the recorder holds the constructor once.
  lemma AssignmentHasOneConstructor()
    ensures Count(ASSIGNMENT + CONSTRUCTOR, CONSTRUCTOR) == 1
  {
    ConstructorBegins();
    assert RECORDER_REST[5] == 'R' && 'm' !in RECORDER_REST && 'm' !in " := ";
    CountAssigned(RECORDER_REST, CONSTRUCTOR);
    assert CONSTRUCTOR[|CONSTRUCTOR|..] == "";
  }

  lemma CountAssigned(rest: string, x: string)
    requires 'm' !in rest && |rest| > 5 && |x| > 6 && x[0] == 'm' && x[6] != rest[5]
    ensures Count("\t" + ("m" + rest) + " := " + x, x) == 1
  {
    var line := "\t" + ("m" + rest) + " := ";
    var right := "m" + (rest + " := ");
    assert line == "\t" + right && right[1..] == rest + " := ";
    ClearByOnlyPlace(line, "\t", right, x, 6);
    CountClear(line, x, x);
    assert x[|x|..] == "";
  }

  lemma CountLinesBefore(line: string, rest: string, after: string, x: string)
    requires x != "" && '\n' !in x
    ensures Count(Lines(line, rest) + after, x) == Count(line, x) + Count(rest + after, x)
  {
    CountLines(line, rest + after, x);
    assert Lines(line, rest) + after == line + "\n" + (rest + after);
  }

  // All lines of a block but the first and the last are counted one by one.
  lemma CountBlock(before: string, l0: string, l1: string, l2: string, l3: string, l4: string, l5: string, l6: string,
                   l7: string, after: string, x: string)
    requires x != "" && '\n' !in x
    requires |l1| < |x| && |l3| < |x| && |l4| < |x| && |l5| < |x| && |l6| < |x|
    ensures Count(before + Block(l0, l1, l2, l3, l4, l5, l6, l7) + after, x)
            == Count(before + Lines(l0, l7) + after, x) + Count(l2, x)
  {
    var r6 := Lines(l6, l7);
    var r5 := Lines(l5, r6);
    var r4 := Lines(l4, r5);
    var r3 := Lines(l3, r4);
    var r2 := Lines(l2, r3);
    CountLinesBefore(l6, l7, after, x);
    CountLinesBefore(l5, r6, after, x);
    CountLinesBefore(l4, r5, after, x);
    CountLinesBefore(l3, r4, after, x);
    CountLinesBefore(l2, r3, after, x);
    CountLinesBefore(l1, r2, after, x);
    CountLinesBefore(before + l0, Lines(l1, r2), after, x);
    CountLinesBefore(before + l0, l7, after, x);
    assert before + Lines(l0, Lines(l1, r2)) == Lines(before + l0, Lines(l1, r2));
    assert before + Lines(l0, l7) == Lines(before + l0, l7);
  }

  // Where the anchor stood, the block brings in exactly one constructor.
  lemma BlockBringsOneConstructor(before: string, after: string)
    ensures Count(before + MANAGED_RECORDER + after, CONSTRUCTOR) == Count(before + ANCHOR + after, CONSTRUCTOR) + 1
  {
    NoLineBreakInConstructor();
    AssignmentHasOneConstructor();
    CountBlock(before, END, CONDITION, ASSIGNMENT + CONSTRUCTOR, REGISTRATION, FAILURE, BRACE, INNER_END, OPTIONS,
               after, CONSTRUCTOR);
  }

  // Only a template with four constructors and one anchor is rewritten; any other is rejected, with the count that is
  // not as expected.
  lemma RewrittenOrRejected(t: string)
    ensures var r, constructors, anchors :=
              ControllerTemplateWithManagedMetricRecorder(t), Count(t, CONSTRUCTOR), Count(t, ANCHOR);
            && (r.Rewritten? <==> constructors == 4 && anchors == 1)
            && (r.UnexpectedConstructors? <==> constructors != 4)
            && (r.UnexpectedConstructors? ==> r.count == constructors)
            && (r.UnexpectedAnchors? ==> constructors == 4 && r.count == anchors != 1)
  {
  }

  // A rewritten template has a recorder wherever a constructor stood and the block where the anchor stood.  It holds
  // one constructor, the one in the block, so it cannot be rewritten again.
  lemma RewrittenOnce(t: string) returns (parts: seq<string>, before: string, after: string)
    requires Count(t, CONSTRUCTOR) == 4 && Count(t, ANCHOR) == 1
    ensures |parts| == 5 && Join(parts, CONSTRUCTOR) == t && Join(parts, RECORDER) == before + ANCHOR + after
    ensures var r := ControllerTemplateWithManagedMetricRecorder(t);
            && r == Rewritten(before + MANAGED_RECORDER + after)
            && Count(r.template, CONSTRUCTOR) == 1
            && ControllerTemplateWithManagedMetricRecorder(r.template) == UnexpectedConstructors(1)
  {
    NoConstructorRemains(t);
    AnchorsSurvive(t);
    parts := ReplacePutsOthers(t, CONSTRUCTOR, RECORDER);
    before, after := ReplaceFirstAt(ReplaceAll(t, CONSTRUCTOR, RECORDER), ANCHOR, MANAGED_RECORDER);
    BlockBringsOneConstructor(before, after);
  }
}
