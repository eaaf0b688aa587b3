// The deep clone that shields generation schemas from the live provider they are given to.
module GenerationSchema {
  import opened SchemaHeap

  // append([]string(nil), source...): nil for an empty slice, else a new one with the same strings.
  method CloneStrings(source: array?<string>) returns (result: array?<string>)
    ensures Strings(result) == Strings(source)
    ensures result == null <==> source == null || source.Length == 0
    ensures result != null ==> fresh(result)
  {
    result := null;
    if source != null && source.Length > 0 {
      result := new string[source.Length](i requires 0 <= i < source.Length reads source => source[i]);
    }
  }

  twostate predicate AllFresh(new s: Slices) {
    && (s.computedWhen != null ==> fresh(s.computedWhen)) && (s.conflictsWith != null ==> fresh(s.conflictsWith))
    && (s.exactlyOneOf != null ==> fresh(s.exactlyOneOf)) && (s.atLeastOneOf != null ==> fresh(s.atLeastOneOf))
    && (s.requiredWith != null ==> fresh(s.requiredWith))
  }

  method CloneSlices(source: Schema, ghost lists: Lists) returns (slices: Slices)
    requires HoldsLists(
      Slices(source.computedWhen, source.conflictsWith, source.exactlyOneOf, source.atLeastOneOf, source.requiredWith),
      lists)
    ensures AllFresh(slices) && UnsharedSlices(slices) && HoldsLists(slices, lists)
  {
    var computedWhen := CloneStrings(source.computedWhen);
    var conflictsWith := CloneStrings(source.conflictsWith);
    var exactlyOneOf := CloneStrings(source.exactlyOneOf);
    var atLeastOneOf := CloneStrings(source.atLeastOneOf);
    var requiredWith := CloneStrings(source.requiredWith);
    slices := Slices(computedWhen, conflictsWith, exactlyOneOf, atLeastOneOf, requiredWith);
  }

  // A structure whose nodes are all its own.
  ghost predicate Owned(shape: Shape) {
    Contained(shape) && Unshared(shape)
  }

  twostate lemma AllFreshIsFresh(new s: Slices)
    requires AllFresh(s)
    ensures fresh(SliceObjects(s))
  {
  }

  ghost predicate Outside(s: Slices, region: set<object>) {
    && (s.computedWhen == null || s.computedWhen !in region) && (s.conflictsWith == null || s.conflictsWith !in region)
    && (s.exactlyOneOf == null || s.exactlyOneOf !in region) && (s.atLeastOneOf == null || s.atLeastOneOf !in region)
    && (s.requiredWith == null || s.requiredWith !in region)
  }

  lemma OutsideIsDisjoint(s: Slices, region: set<object>)
    requires Outside(s, region)
    ensures SliceObjects(s) !! region
  {
  }

  lemma OwnedSchema(node: Schema, slices: Slices, elem: Shape)
    requires Owned(elem) && UnsharedSlices(slices) && Outside(slices, Region(elem)) && node !in Region(elem)
    ensures Owned(SchemaAt(node, slices, elem, {node} + (SliceObjects(slices) + Region(elem))))
  {
    OutsideIsDisjoint(slices, Region(elem));
  }

  // The shallow copy, with the slices and the element replaced.
  method CloneNode(source: Schema, slices: Slices, elem: Elem) returns (node: Schema)
    ensures fresh(node) && PointsTo(node, slices, elem)
    ensures node.kind == source.kind && node.sensitive == source.sensitive && node.rest == source.rest
  {
    node := new Schema.CopyOf(source);
    node.computedWhen, node.conflictsWith := slices.computedWhen, slices.conflictsWith;
    node.exactlyOneOf := slices.exactlyOneOf;
    node.atLeastOneOf, node.requiredWith, node.elem := slices.atLeastOneOf, slices.requiredWith, elem;
  }

  // Everything that the copy of a schema points to.
  method CloneContents(source: Schema, ghost shape: Shape, ghost tree: Tree)
    returns (slices: Slices, clone: Elem, ghost elem: Shape)
    requires SchemaIs(source, shape) && Contained(shape) && Holds(shape, tree)
    ensures UnsharedSlices(slices) && Outside(slices, Region(elem)) && HoldsLists(slices, tree.lists)
    ensures ElemIs(clone, elem) && Owned(elem) && Holds(elem, tree.elem)
    ensures fresh(SliceObjects(slices) + Region(elem))
    decreases shape, 0
  {
    slices := CloneSlices(source, tree.lists);
    clone, elem := CloneElem(source.elem, shape.elem, tree.elem);
    AllFreshIsFresh(slices);
  }

  lemma HoldsSchema(node: Schema, slices: Slices, elem: Shape, region: set<object>, tree: Tree)
    requires region == {node} + (SliceObjects(slices) + Region(elem))
    requires Owned(elem) && UnsharedSlices(slices) && Outside(slices, Region(elem)) && node !in Region(elem)
    requires HoldsNode(node, slices, elem, tree) && HoldsLists(slices, tree.lists) && Holds(elem, tree.elem)
    ensures Owned(SchemaAt(node, slices, elem, region)) && Holds(SchemaAt(node, slices, elem, region), tree)
  {
    OwnedSchema(node, slices, elem);
  }

  method CopyNode(source: Schema, slices: Slices, clone: Elem, ghost elem: Shape, ghost tree: Tree)
    returns (result: Schema, ghost copy: Shape)
    requires ElemIs(clone, elem) && Owned(elem) && UnsharedSlices(slices) && Outside(slices, Region(elem))
    requires tree.SchemaTree? && HoldsLists(slices, tree.lists) && Holds(elem, tree.elem)
    requires tree.kind == source.kind && tree.sensitive == source.sensitive && tree.rest == source.rest
    ensures fresh(result) && SchemaIs(result, copy) && Owned(copy) && Holds(copy, tree)
    ensures Region(copy) == {result} + (SliceObjects(slices) + Region(elem))
  {
    result := CloneNode(source, slices, clone);
    ghost var region := {result} + (SliceObjects(slices) + Region(elem));
    assert HoldsLists(slices, tree.lists) && Holds(elem, tree.elem);
    HoldsSchema(result, slices, elem, region, tree);
    copy := SchemaAt(result, slices, elem, region);
  }

  method CloneGenerationSchema(source: Schema?, ghost shape: Shape, ghost tree: Tree)
    returns (result: Schema?, ghost copy: Shape)
    requires SchemaIs(source, shape) && Contained(shape) && Holds(shape, tree)
    ensures SchemaIs(result, copy) && Owned(copy) && fresh(Region(copy)) && Holds(copy, tree)
    decreases shape, 1
  {
    if source == null {
      return null, NilSchema;
    }
    ghost var elem;
    var slices, clone;
    slices, clone, elem := CloneContents(source, shape, tree);
    result, copy := CopyNode(source, slices, clone, elem, tree);
  }

  // The type switch: a value type or a nil interface is shared with the source as it is.
  method CloneElem(source: Elem, ghost shape: Shape, ghost tree: Tree) returns (result: Elem, ghost copy: Shape)
    requires ElemIs(source, shape) && Contained(shape) && Holds(shape, tree)
    ensures ElemIs(result, copy) && Owned(copy) && fresh(Region(copy)) && Holds(copy, tree)
    decreases shape, 2
  {
    result, copy := source, shape;
    match source {
      case ElemSchema(element) =>
        var clone;
        clone, copy := CloneGenerationSchema(element, shape, tree);
        result := ElemSchema(clone);
      case ElemResource(element) =>
        var clone;
        clone, copy := CloneGenerationResource(element, shape, tree);
        result := ElemResource(clone);
      case _ =>
    }
  }

  method CloneGenerationResource(source: Resource?, ghost shape: Shape, ghost tree: Tree)
    returns (result: Resource?, ghost copy: Shape)
    requires ResourceIs(source, shape) && Contained(shape) && Holds(shape, tree)
    ensures ResourceIs(result, copy) && Owned(copy) && fresh(Region(copy)) && Holds(copy, tree)
    decreases shape, 1
  {
    if source == null {
      return null, NilResource;
    }
    var node := new Resource.CopyOf(source);
    ghost var fields;
    var schema;
    schema, fields := CloneGenerationSchemaMap(source.schema, shape.schemaMap, tree.schemaMap);
    node.schema := schema;
    result := node;
    copy := ResourceAt(node, fields, {node} + Region(fields));
  }

  lemma OwnedWithField(shape: Shape, name: string, part: Shape)
    requires shape.MapAt? && Owned(shape) && name !in shape.fields && Owned(part) && Region(part) !! Region(shape)
    ensures Owned(MapAt(shape.node, shape.fields[name := part], Region(shape) + Region(part)))
  {
  }

  // Stores a clone under a new name.
  method AddField(target: SchemaMap, name: string, field: Schema?, ghost shape: Shape, ghost tree: Tree,
                  ghost part: Shape, ghost partTree: Tree)
    returns (ghost copy: Shape)
    requires MapIs(target, shape) && Owned(shape) && Holds(shape, tree) && name !in shape.fields
    requires SchemaIs(field, part) && Owned(part) && Holds(part, partTree) && Region(part) !! Region(shape)
    modifies target
    ensures MapIs(target, copy) && Owned(copy) && Region(copy) == Region(shape) + Region(part)
    ensures Holds(copy, MapTree(tree.fields[name := partTree]))
  {
    target.fields := target.fields[name := field];
    OwnedWithField(shape, name, part);
    copy := MapAt(target, shape.fields[name := part], Region(shape) + Region(part));
    HoldsFields(copy, MapTree(tree.fields[name := partTree]));
  }

  // One round of the loop over the fields.
  method CloneField(source: SchemaMap, target: SchemaMap, name: string, ghost shape: Shape, ghost tree: Tree,
                    ghost copied: Shape, ghost done: Tree)
    returns (ghost copy: Shape)
    requires MapIs(source, shape) && Contained(shape) && Holds(shape, tree) && name in shape.fields
    requires MapIs(target, copied) && Owned(copied) && Holds(copied, done) && name !in copied.fields
    requires target !in Region(shape)
    modifies target
    ensures MapIs(target, copy) && Owned(copy) && fresh(Region(copy) - Region(copied))
    ensures Holds(copy, MapTree(done.fields[name := tree.fields[name]]))
    decreases shape, 0, 0
  {
    ghost var part;
    var clone;
    clone, part := CloneGenerationSchema(source.fields[name], shape.fields[name], tree.fields[name]);
    copy := AddField(target, name, clone, copied, done, part, tree.fields[name]);
  }

  // All fields but the named ones.
  ghost predicate Filled(done: Tree, tree: Tree, names: set<string>) {
    && done.MapTree? && tree.MapTree? && done.fields.Keys == tree.fields.Keys - names
    && forall k | k in done.fields :: done.fields[k] == tree.fields[k]
  }

  lemma FillOne(done: Tree, tree: Tree, names: set<string>, name: string)
    requires Filled(done, tree, names) && name in names && names <= tree.fields.Keys
    ensures name !in done.fields && Filled(MapTree(done.fields[name := tree.fields[name]]), tree, names - {name})
  {
  }

  lemma FilledAll(done: Tree, tree: Tree)
    requires Filled(done, tree, {})
    ensures done == tree
  {
  }

  method CloneFields(source: SchemaMap, ghost shape: Shape, ghost tree: Tree)
    returns (target: SchemaMap, ghost copy: Shape)
    requires MapIs(source, shape) && Contained(shape) && Holds(shape, tree)
    ensures MapIs(target, copy) && Owned(copy) && fresh(Region(copy)) && Holds(copy, tree)
    decreases shape, 0, 1
  {
    target := new SchemaMap();
    copy := MapAt(target, map[], {target});
    ghost var done := MapTree(map[]);
    var names := source.fields.Keys;
    while names != {}
      invariant names <= shape.fields.Keys && MapIs(target, copy)
      invariant Owned(copy) && fresh(Region(copy)) && Holds(copy, done)
      invariant Filled(done, tree, names)
      decreases names
    {
      var name :| name in names;
      FillOne(done, tree, names, name);
      copy := CloneField(source, target, name, shape, tree, copy, done);
      done := MapTree(done.fields[name := tree.fields[name]]);
      names := names - {name};
    }
    FilledAll(done, tree);
  }

  method CloneGenerationSchemaMap(source: SchemaMap?, ghost shape: Shape, ghost tree: Tree)
    returns (result: SchemaMap?, ghost copy: Shape)
    requires MapIs(source, shape) && Contained(shape) && Holds(shape, tree)
    ensures MapIs(result, copy) && Owned(copy) && fresh(Region(copy)) && Holds(copy, tree)
    decreases shape, 0, 2
  {
    if source == null {
      return null, NilMap;
    }
    result, copy := CloneFields(source, shape, tree);
  }
}
