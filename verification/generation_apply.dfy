// The loop that gives live resources clones of generated schemas, and a later write to such a clone.
module GenerationApply {
  import opened Collections
  import opened GenerationSchema
  import opened SchemaHeap

  type Resources = map<string, Resource?>

  // The names that are given a schema: those that both maps have a resource for.
  predicate Applies(sdk: Resources, generation: Resources, name: string) {
    name in sdk && name in generation && sdk[name] != null && generation[name] != null
  }

  // Replaces the schema of one live resource; none of its other fields are touched.
  method ApplyOne(sdkResource: Resource, generationResource: Resource, ghost shape: Shape, ghost tree: Tree)
    returns (ghost copy: Shape)
    requires ResourceIs(generationResource, shape) && Contained(shape) && Holds(shape, tree)
    modifies sdkResource`schema
    ensures MapIs(sdkResource.schema, copy) && Owned(copy) && fresh(Region(copy)) && Holds(copy, tree.schemaMap)
  {
    var schema;
    schema, copy := CloneGenerationSchemaMap(generationResource.schema, shape.schemaMap, tree.schemaMap);
    sdkResource.schema := schema;
  }

  // Structures that contain a live resource.

  // The shape of a structure once the schema of `r`, wherever it occurs, has become `fields`.
  ghost function Rebound(shape: Shape, r: Resource, fields: Shape): Shape {
    if r !in Region(shape) then shape
    else
      match shape
      case SchemaAt(node, slices, elem, region) =>
        SchemaAt(node, slices, Rebound(elem, r, fields), region + Region(fields))
      case ResourceAt(node, schemaMap, region) =>
        ResourceAt(node, if node == r then fields else Rebound(schemaMap, r, fields), region + Region(fields))
      case MapAt(node, shapes, region) =>
        MapAt(node, map k | k in shapes :: Rebound(shapes[k], r, fields), region + Region(fields))
      case _ => shape
  }

  // And what it reads as.
  ghost function ReboundTree(shape: Shape, tree: Tree, r: Resource, fieldsTree: Tree): Tree
    decreases shape
  {
    if r !in Region(shape) then tree
    else
      match shape
      case SchemaAt(_, _, elem, _) =>
        if tree.SchemaTree? then tree.(elem := ReboundTree(elem, tree.elem, r, fieldsTree)) else tree
      case ResourceAt(node, schemaMap, _) =>
        if !tree.ResourceTree? then tree
        else tree.(schemaMap := if node == r then fieldsTree else ReboundTree(schemaMap, tree.schemaMap, r, fieldsTree))
      case MapAt(_, shapes, _) =>
        if tree.MapTree? && tree.fields.Keys == shapes.Keys
        then MapTree(map k | k in shapes :: ReboundTree(shapes[k], tree.fields[k], r, fieldsTree))
        else tree
      case _ => tree
  }

  lemma {:induction false} ReboundContained(shape: Shape, r: Resource, fields: Shape)
    requires Contained(shape) && Contained(fields)
    ensures Contained(Rebound(shape, r, fields)) && Region(Rebound(shape, r, fields)) <= Region(shape) + Region(fields)
    decreases shape
  {
    if r in Region(shape) {
      match shape
      case SchemaAt(_, _, elem, _) => ReboundContained(elem, r, fields);
      case ResourceAt(_, schemaMap, _) => ReboundContained(schemaMap, r, fields);
      case MapAt(_, shapes, _) =>
        forall k | k in shapes { ReboundContained(shapes[k], r, fields); }
      case _ =>
    }
  }

  // The structure reads as the tree, whatever the schema of `r` may be.
  ghost predicate HoldsBut(shape: Shape, tree: Tree, r: Resource)
    requires Contained(shape)
    reads Region(shape) - {r}, r`rest
    decreases shape
  {
    if r !in Region(shape) then Holds(shape, tree)
    else
      match shape
      case SchemaAt(node, slices, elem, _) =>
        HoldsNode(node, slices, elem, tree) && HoldsLists(slices, tree.lists) && HoldsBut(elem, tree.elem, r)
      case ResourceAt(node, schemaMap, _) =>
        && tree.ResourceTree? && node.rest == tree.rest
        && (node != r ==> MapIs(node.schema, schemaMap) && HoldsBut(schemaMap, tree.schemaMap, r))
      case MapAt(node, shapes, _) =>
        && tree.MapTree? && FieldsAre(node.fields, shapes) && tree.fields.Keys == shapes.Keys
        && forall k | k in shapes :: HoldsBut(shapes[k], tree.fields[k], r)
      case _ => true
  }

  lemma {:induction false} HoldsMeansHoldsBut(shape: Shape, tree: Tree, r: Resource)
    requires Contained(shape) && Holds(shape, tree)
    ensures HoldsBut(shape, tree, r)
    decreases shape
  {
    match shape
    case SchemaAt(_, _, elem, _) => HoldsMeansHoldsBut(elem, tree.elem, r);
    case ResourceAt(_, schemaMap, _) => HoldsMeansHoldsBut(schemaMap, tree.schemaMap, r);
    case MapAt(_, shapes, _) => forall k | k in shapes { HoldsMeansHoldsBut(shapes[k], tree.fields[k], r); }
    case _ =>
  }

  // Rebinding does not move a field.
  lemma ReboundFieldsAre(fields: map<string, Schema?>, shapes: map<string, Shape>, r: Resource, schemaMap: Shape)
    requires FieldsAre(fields, shapes)
    ensures FieldsAre(fields, map k | k in shapes :: Rebound(shapes[k], r, schemaMap))
  {
    var now := map k | k in shapes :: Rebound(shapes[k], r, schemaMap);
    forall k | k in fields
      ensures SchemaIs(fields[k], now[k])
    {
      assert SchemaIs(fields[k], shapes[k]);
    }
  }

  // Once the schema of `r` is `fields`, a structure reads with the tree of `fields` at `r`.
  lemma {:induction false} HoldsRebound(shape: Shape, tree: Tree, r: Resource, fields: Shape, fieldsTree: Tree)
    requires Contained(shape) && Contained(fields) && HoldsBut(shape, tree, r)
    requires MapIs(r.schema, fields) && Holds(fields, fieldsTree)
    ensures Contained(Rebound(shape, r, fields))
    ensures Holds(Rebound(shape, r, fields), ReboundTree(shape, tree, r, fieldsTree))
    decreases shape
  {
    ReboundContained(shape, r, fields);
    if r in Region(shape) {
      match shape
      case SchemaAt(_, _, elem, _) => HoldsRebound(elem, tree.elem, r, fields, fieldsTree);
      case ResourceAt(node, schemaMap, _) =>
        if node != r {
          HoldsRebound(schemaMap, tree.schemaMap, r, fields, fieldsTree);
        }
      case MapAt(_, shapes, _) =>
        forall k | k in shapes
          ensures Contained(Rebound(shapes[k], r, fields))
          ensures Holds(Rebound(shapes[k], r, fields), ReboundTree(shapes[k], tree.fields[k], r, fieldsTree))
        {
          HoldsRebound(shapes[k], tree.fields[k], r, fields, fieldsTree);
        }
        ReboundFieldsAre(shape.node.fields, shapes, r, fields);
        HoldsFields(Rebound(shape, r, fields), ReboundTree(shape, tree, r, fieldsTree));
      case _ =>
    }
  }

  // The loop on values.

  // A clone that was made for a live resource, and what it reads as.
  datatype Given = Given(schema: Shape, tree: Tree)

  // What the heap holds at the generated resources, and the clones that live resources have.
  datatype State = State(generated: map<string, Snapshot>, given: map<Resource, Given>)

  // The state once `r` has a clone.
  ghost function GiveTo(state: State, r: Resource, given: Given): State {
    State(map n | n in state.generated :: ReboundAt(state.generated[n], r, given), state.given[r := given])
  }

  ghost function ReboundAt(at: Snapshot, r: Resource, given: Given): Snapshot {
    Snapshot(Rebound(at.resource, r, given.schema), ReboundTree(at.resource, at.tree, r, given.tree))
  }

  // One round: `copy` is what the live resource of the name gets, if there is one; it reads as the schema that the
  // generated resource of the name has at that moment.
  ghost function Round(sdk: Resources, generation: Resources, state: State, name: string, copy: Shape): State {
    if Applies(sdk, generation, name) && name in state.generated && state.generated[name].tree.ResourceTree?
    then GiveTo(state, sdk[name], Given(copy, state.generated[name].tree.schemaMap))
    else state
  }

  // All rounds, for the names in that order.
  ghost function Replay(sdk: Resources, generation: Resources, state: State,
                        names: seq<string>, copies: seq<Shape>): State
    requires |names| == |copies|
  {
    if names == [] then state
    else
      var last := |names| - 1;
      Round(sdk, generation, Replay(sdk, generation, state, names[..last], copies[..last]), names[last], copies[last])
  }

  // The loop on the heap.

  ghost function Regions(generated: map<string, Snapshot>): set<object> {
    set n, o | n in generated && o in Region(generated[n].resource) :: o
  }

  // The heap holds at a generated resource what the snapshot says.
  ghost predicate IsAt(resource: Resource?, at: Snapshot)
    reads Region(at.resource)
  {
    ResourceIs(resource, at.resource) && Contained(at.resource) && Holds(at.resource, at.tree)
  }

  ghost predicate AllAt(generation: Resources, generated: map<string, Snapshot>)
    reads Regions(generated)
  {
    generated.Keys == generation.Keys && forall n | n in generation :: IsAt(generation[n], generated[n])
  }

  // The schema of a live resource is a clone.
  ghost predicate IsGiven(r: Resource, given: Given)
    requires Contained(given.schema)
    reads r, Region(given.schema)
  {
    MapIs(r.schema, given.schema) && Unshared(given.schema) && Holds(given.schema, given.tree)
  }

  // Clones for several resources that share no node, all within one region.
  ghost predicate Separate(given: map<Resource, Given>, region: set<object>) {
    && (forall r | r in given :: Contained(given[r].schema) && Region(given[r].schema) <= region)
    && (forall q, r | q in given && r in given && q != r :: Region(given[q].schema) !! Region(given[r].schema))
  }

  lemma SeparateMore(given: map<Resource, Given>, region: set<object>, r: Resource, one: Given)
    requires Separate(given, region) && Contained(one.schema) && Region(one.schema) !! region
    ensures Separate(given[r := one], region + Region(one.schema))
  {
  }

  ghost predicate AllGiven(given: map<Resource, Given>, region: set<object>)
    requires Separate(given, region)
    reads given.Keys, region
  {
    forall r | r in given :: IsGiven(r, given[r])
  }

  // The heap holds the state, with all clones in the region.
  ghost predicate IsState(generation: Resources, state: State, region: set<object>)
    reads Regions(state.generated), state.given.Keys, region
  {
    AllAt(generation, state.generated) && Separate(state.given, region) && AllGiven(state.given, region)
  }

  // One live resource gets a clone, which shares nothing with the clones before it.
  method ApplyStep(r: Resource, generation: Resources, name: string, ghost state: State, ghost region: set<object>)
    returns (ghost copy: Shape)
    requires name in generation && generation[name] != null && r !in region && IsState(generation, state, region)
    modifies r`schema
    ensures fresh(Region(copy)) && state.generated[name].tree.ResourceTree?
    ensures var one := Given(copy, state.generated[name].tree.schemaMap);
      IsState(generation, GiveTo(state, r, one), region + Region(copy))
  {
    forall n | n in generation
      ensures IsAt(generation[n], state.generated[n])
      ensures HoldsBut(state.generated[n].resource, state.generated[n].tree, r)
    {
      HoldsMeansHoldsBut(state.generated[n].resource, state.generated[n].tree, r);
    }
    copy := ApplyOne(r, generation[name], state.generated[name].resource, state.generated[name].tree);
    ghost var one := Given(copy, state.generated[name].tree.schemaMap);
    forall n | n in generation
      ensures IsAt(generation[n], ReboundAt(state.generated[n], r, one))
    {
      HoldsRebound(state.generated[n].resource, state.generated[n].tree, r, one.schema, one.tree);
    }
    SeparateMore(state.given, region, r, one);
    ghost var given := state.given[r := one];
    forall q | q in given
      ensures IsGiven(q, given[q])
    {
      if q != r {
        assert IsGiven(q, state.given[q]);
      }
    }
  }

  // The live resources that one name gives a schema to.
  ghost function Targets(sdk: Resources, generation: Resources, name: string): set<Resource> {
    if Applies(sdk, generation, name) then {sdk[name]} else {}
  }

  lemma TargetsLive(sdk: Resources, generation: Resources, live: set<Resource>, name: string)
    requires forall n | Applies(sdk, generation, n) :: sdk[n] in live
    ensures Targets(sdk, generation, name) <= live
  {
  }

  // One round of the loop; the clone shares nothing with the clones before it.
  method ApplyRound(sdk: Resources, generation: Resources, name: string, ghost live: set<Resource>,
                    ghost state: State, ghost region: set<object>)
    returns (ghost copy: Shape)
    requires name in generation && IsState(generation, state, region)
    requires Targets(sdk, generation, name) <= live && live !! region
    modifies Targets(sdk, generation, name)`schema
    ensures fresh(Region(copy))
    ensures IsState(generation, Round(sdk, generation, state, name, copy), region + Region(copy))
    ensures Round(sdk, generation, state, name, copy).given.Keys
         == state.given.Keys + Targets(sdk, generation, name)
  {
    copy := NilMap;
    assert region + Region(copy) == region;
    if Applies(sdk, generation, name) {
      copy := ApplyStep(sdk[name], generation, name, state, region);
    }
  }

  // Every live resource of a name in `names` has a clone, and no other resource has one.
  ghost predicate GivenFor(sdk: Resources, generation: Resources, names: seq<string>, given: map<Resource, Given>) {
    && (forall n | n in names && n in sdk && n in generation && sdk[n] != null && generation[n] != null ::
          sdk[n] in given)
    && (forall r | r in given :: IsNamed(sdk, generation, r))
  }

  ghost predicate IsNamed(sdk: Resources, generation: Resources, r: Resource) {
    exists n :: n in sdk && n in generation && sdk[n] == r && generation[n] != null
  }

  lemma GivenForMore(sdk: Resources, generation: Resources, names: seq<string>, name: string,
                     given: map<Resource, Given>, given': map<Resource, Given>)
    requires GivenFor(sdk, generation, names, given)
    requires given'.Keys == given.Keys + Targets(sdk, generation, name)
    ensures GivenFor(sdk, generation, names + [name], given')
  {
    forall r | r in given'
      ensures IsNamed(sdk, generation, r)
    {
      if r !in given {
        assert Applies(sdk, generation, name) && sdk[name] == r;
      }
    }
  }

  // The names visited so far and those still to come.
  ghost predicate Visits(keys: set<string>, visited: seq<string>, todo: set<string>) {
    NoDuplicates(visited) && Elements(visited) !! todo && Elements(visited) + todo == keys
  }

  lemma VisitsOneMore(keys: set<string>, visited: seq<string>, todo: set<string>, name: string)
    requires Visits(keys, visited, todo) && name in todo
    ensures Visits(keys, visited + [name], todo - {name})
  {
    assert Elements(visited + [name]) == Elements(visited) + {name};
    assert name !in Elements(visited);
    assert Elements(visited + [name]) + (todo - {name}) == keys;
  }

  // The state that the names visited so far lead to.
  ghost predicate Reached(sdk: Resources, generation: Resources, initial: State, names: seq<string>, copies: seq<Shape>,
                          state: State) {
    && |copies| == |names| && state == Replay(sdk, generation, initial, names, copies)
    && GivenFor(sdk, generation, names, state.given)
  }

  lemma ReachedOneMore(sdk: Resources, generation: Resources, initial: State, names: seq<string>, copies: seq<Shape>,
                       state: State, name: string, copy: Shape)
    requires Reached(sdk, generation, initial, names, copies, state)
    requires Round(sdk, generation, state, name, copy).given.Keys
          == state.given.Keys + Targets(sdk, generation, name)
    ensures Reached(sdk, generation, initial, names + [name], copies + [copy],
                    Round(sdk, generation, state, name, copy))
  {
    assert (names + [name])[..|names|] == names && (copies + [copy])[..|copies|] == copies;
    GivenForMore(sdk, generation, names, name, state.given, Round(sdk, generation, state, name, copy).given);
  }

  // In some order of the names every live resource that a generated resource exists for gets its own clone of what
  // that one reads as in its turn; the replay says what that is, and what the generated resources read as in the end.
  // Nothing but the schemas of those live resources is written.
  method ApplyGenerationResourceSchemas(sdk: Resources, generation: Resources,
                                        ghost live: set<Resource>, ghost generated: map<string, Snapshot>)
    returns (ghost names: seq<string>, ghost copies: seq<Shape>, ghost region: set<object>)
    requires AllAt(generation, generated)
    requires forall n | Applies(sdk, generation, n) :: sdk[n] in live
    modifies live`schema
    ensures NoDuplicates(names) && Elements(names) == generation.Keys && |copies| == |names| && fresh(region)
    ensures var after := Replay(sdk, generation, State(generated, map[]), names, copies);
      && IsState(generation, after, region) && GivenFor(sdk, generation, names, after.given)
      && forall r | r in live && r !in after.given :: r.schema == old(r.schema)
  {
    names, copies, region := [], [], {};
    ghost var initial := State(generated, map[]);
    ghost var state := initial;
    var todo := generation.Keys;
    while todo != {}
      invariant Visits(generation.Keys, names, todo) && Reached(sdk, generation, initial, names, copies, state)
      invariant fresh(region) && live !! region && IsState(generation, state, region)
      invariant forall r | r in live && r !in state.given :: r.schema == old(r.schema)
      decreases todo
    {
      var name :| name in todo;
      TargetsLive(sdk, generation, live, name);
      ghost var copy := ApplyRound(sdk, generation, name, live, state, region);
      assert fresh(region + Region(copy));
      VisitsOneMore(generation.Keys, names, todo, name);
      ReachedOneMore(sdk, generation, initial, names, copies, state, name, copy);
      state := Round(sdk, generation, state, name, copy);
      names, copies, region, todo := names + [name], copies + [copy], region + Region(copy), todo - {name};
    }
  }

  // Every clone reads as the schema that was generated for a name of its live resource.
  ghost predicate AsGenerated(sdk: Resources, generation: Resources, generated: map<string, Snapshot>,
                              given: map<Resource, Given>) {
    forall r | r in given :: IsFor(sdk, generation, generated, r, given[r].tree)
  }

  ghost predicate IsFor(sdk: Resources, generation: Resources, generated: map<string, Snapshot>,
                        r: Resource, tree: Tree) {
    exists n :: Applies(sdk, generation, n) && sdk[n] == r && n in generated && generated[n].tree.ResourceTree?
             && generated[n].tree.schemaMap == tree
  }

  // When no live resource is part of a generated one, the order of the names does not matter: the generated resources
  // stay as they are, and every clone is one of what was generated.
  lemma {:induction false} SeparateSourcesAreCloned(sdk: Resources, generation: Resources, live: set<Resource>,
                                                    generated: map<string, Snapshot>,
                                                    names: seq<string>, copies: seq<Shape>)
    requires |names| == |copies|
    requires forall n | Applies(sdk, generation, n) :: sdk[n] in live
    requires forall n | n in generated :: live !! Region(generated[n].resource)
    ensures var after := Replay(sdk, generation, State(generated, map[]), names, copies);
      after.generated == generated && AsGenerated(sdk, generation, generated, after.given)
  {
    if names != [] {
      var last := |names| - 1;
      SeparateSourcesAreCloned(sdk, generation, live, generated, names[..last], copies[..last]);
      var before := Replay(sdk, generation, State(generated, map[]), names[..last], copies[..last]);
      var after := Replay(sdk, generation, State(generated, map[]), names, copies);
      forall r | r in after.given
        ensures IsFor(sdk, generation, generated, r, after.given[r].tree)
      {
        if after != before && r == sdk[names[last]] {
          assert Applies(sdk, generation, names[last]);
        } else {
          assert IsFor(sdk, generation, generated, r, before.given[r].tree);
        }
      }
    }
  }

  // Otherwise it does.  When the generated resource of `second` is the live one of `first`, the live resource of
  // `second` gets what was generated for `first` in one order, and what was generated for `second` in the other.
  lemma OrderMatters(sdk: Resources, generation: Resources, state: State, first: string, second: string,
                     copies: seq<Shape>)
    requires Applies(sdk, generation, first) && Applies(sdk, generation, second) && |copies| == 2
    requires state.generated.Keys == generation.Keys
    requires forall n | n in generation ::
      state.generated[n].tree.ResourceTree? && ResourceIs(generation[n], state.generated[n].resource)
    requires Contained(state.generated[second].resource)
    requires generation[second] == sdk[first] && sdk[second] != sdk[first]
    ensures ReadsAs(Replay(sdk, generation, state, [first, second], copies), sdk[second], state.generated[first].tree)
    ensures ReadsAs(Replay(sdk, generation, state, [second, first], copies), sdk[second], state.generated[second].tree)
  {
    ReplayTwo(sdk, generation, state, first, second, copies);
    ReplayTwo(sdk, generation, state, second, first, copies);
  }

  ghost predicate ReadsAs(state: State, r: Resource, source: Tree) {
    r in state.given && source.ResourceTree? && state.given[r].tree == source.schemaMap
  }

  lemma ReplayTwo(sdk: Resources, generation: Resources, state: State, first: string, second: string,
                  copies: seq<Shape>)
    requires |copies| == 2
    ensures Replay(sdk, generation, state, [first, second], copies)
         == Round(sdk, generation, Round(sdk, generation, state, first, copies[0]), second, copies[1])
  {
    assert [first, second][..1] == [first] && [first][..0] == [];
    assert Replay(sdk, generation, state, [first], copies[..1]) == Round(sdk, generation, state, first, copies[0]);
  }

  // A structure reads as one tree only.
  lemma {:induction false} HoldsDetermines(shape: Shape, tree: Tree, tree': Tree)
    requires Contained(shape) && Holds(shape, tree) && Holds(shape, tree')
    ensures tree == tree'
    decreases shape
  {
    match shape
    case SchemaAt(_, _, elem, _) => HoldsDetermines(elem, tree.elem, tree'.elem);
    case ResourceAt(_, schemaMap, _) => HoldsDetermines(schemaMap, tree.schemaMap, tree'.schemaMap);
    case MapAt(_, shapes, _) =>
      forall k | k in shapes { HoldsDetermines(shapes[k], tree.fields[k], tree'.fields[k]); }
    case _ =>
  }

  // Why the order matters otherwise.  Here `b` is the live resource of one name, whose generated resource is `a`, and
  // the generated resource of another, whose live resource is `c`.  In this order `c` gets what was meant for `b`.
  method AliasedSourceIsLost(a: Resource, b: Resource, c: Resource, ghost shape: Shape, ghost tree: Tree,
                             ghost own: Shape, ghost ownTree: Tree)
    returns (ghost copyB: Shape, ghost copyC: Shape)
    requires ResourceIs(a, shape) && Contained(shape) && Holds(shape, tree)
    requires ResourceIs(b, own) && Contained(own) && Holds(own, ownTree) && ownTree.schemaMap != tree.schemaMap
    requires b != c
    modifies b`schema, c`schema
    ensures MapIs(b.schema, copyB) && Owned(copyB) && Holds(copyB, tree.schemaMap)
    ensures MapIs(c.schema, copyC) && Owned(copyC) && Holds(copyC, tree.schemaMap)
    ensures !Holds(copyC, ownTree.schemaMap)
  {
    copyB := ApplyOne(b, a, shape, tree);
    ghost var overwritten := ResourceAt(b, copyB, {b} + Region(copyB));
    copyC := ApplyOne(c, b, overwritten, ResourceTree(b.rest, tree.schemaMap));
    if Holds(copyC, ownTree.schemaMap) {
      HoldsDetermines(copyC, tree.schemaMap, ownTree.schemaMap);
    }
  }

  // In the other order both get their own.
  method AliasedSourceInTime(a: Resource, b: Resource, c: Resource, ghost shape: Shape, ghost tree: Tree,
                             ghost own: Shape, ghost ownTree: Tree)
    returns (ghost copyB: Shape, ghost copyC: Shape)
    requires ResourceIs(a, shape) && Contained(shape) && Holds(shape, tree)
    requires ResourceIs(b, own) && Contained(own) && Holds(own, ownTree) && ownTree.schemaMap != tree.schemaMap
    requires b != c && c !in Region(shape)
    modifies b`schema, c`schema
    ensures MapIs(b.schema, copyB) && Owned(copyB) && Holds(copyB, tree.schemaMap)
    ensures MapIs(c.schema, copyC) && Owned(copyC) && Holds(copyC, ownTree.schemaMap)
    ensures !Holds(copyC, tree.schemaMap)
  {
    copyC := ApplyOne(c, b, own, ownTree);
    copyB := ApplyOne(b, a, shape, tree);
    if Holds(copyC, tree.schemaMap) {
      HoldsDetermines(copyC, tree.schemaMap, ownTree.schemaMap);
    }
  }

  method MarkField(field: Schema, ghost part: Shape, ghost tree: Tree)
    requires SchemaIs(field, part) && Owned(part) && Holds(part, tree)
    modifies field`sensitive
    ensures tree.SchemaTree? && Holds(part, tree.(sensitive := true))
  {
    field.sensitive := true;
    assert HoldsLists(part.slices, tree.lists) && Holds(part.elem, tree.elem);
  }

  lemma FieldsApart(copy: Shape, tree: Tree, name: string)
    requires copy.MapAt? && Owned(copy) && Holds(copy, tree) && name in copy.fields && copy.fields[name].SchemaAt?
    ensures Owned(copy.fields[name]) && Holds(copy.fields[name], tree.fields[name])
    ensures copy.fields[name].schema in Region(copy.fields[name])
    ensures copy.node !in Region(copy.fields[name])
    ensures forall k | k in copy.fields && k != name :: copy.fields[name].schema !in Region(copy.fields[k])
  {
  }

  // Marks one field of a clone sensitive.  Nothing else in the clone changes, and nothing outside it does.
  method MarkSensitive(fields: SchemaMap, name: string, ghost field: Schema, ghost copy: Shape, ghost tree: Tree,
                       ghost outside: Shape, ghost outsideTree: Tree)
    requires MapIs(fields, copy) && Owned(copy) && Holds(copy, tree)
    requires Contained(outside) && Region(outside) !! Region(copy) && Holds(outside, outsideTree)
    requires name in fields.fields && fields.fields[name] == field
    modifies field`sensitive
    ensures tree.fields[name].SchemaTree?
    ensures Holds(copy, MapTree(tree.fields[name := tree.fields[name].(sensitive := true)]))
    ensures Holds(outside, outsideTree)
  {
    FieldsApart(copy, tree, name);
    MarkField(fields.fields[name], copy.fields[name], tree.fields[name]);
    assert forall k | k in copy.fields && k != name :: Holds(copy.fields[k], tree.fields[k]);
    HoldsFields(copy, MapTree(tree.fields[name := tree.fields[name].(sensitive := true)]));
  }
}
