// Granular merge strategies for the scalar maps of an SDKv2 schema.
module ServerSideApply {
  import opened Text
  import opened SchemaHeap

  datatype MergeStrategy = MergeStrategy(mapMergeStrategy: string)

  type Strategies = map<string, MergeStrategy>

  const GRANULAR := MergeStrategy("granular")

  class ResourceConfig {
    var terraformResource: Resource?
    ghost const schema: Snapshot  // what the Terraform resource holds
    var hasStrategies: bool  // whether the map of strategies has been made
    var strategies: Strategies

    constructor (terraformResource: Resource?, ghost schema: Snapshot)
      ensures this.terraformResource == terraformResource && this.schema == schema && !hasStrategies
    {
      this.terraformResource, this.schema, hasStrategies, strategies := terraformResource, schema, false, map[];
    }
  }

  function JoinTerraformFieldPath(prefix: string, name: string): string {
    if prefix == "" then name else Join([prefix, name], ".")
  }

  predicate IsScalar(t: ValueType) {
    t == TypeString || t == TypeBool || t == TypeInt || t == TypeFloat
  }

  function ElemSchemas(e: Elem): set<object> {
    if e.ElemSchema? && e.schema != null then {e.schema} else {}
  }

  predicate IsSDKv2ScalarMap(f: Schema)
    reads f, ElemSchemas(f.elem)
  {
    if f.sensitive || f.kind != TypeMap then false
    else
      match f.elem
      case NoElem => true
      case ElemType(t) => IsScalar(t)
      case ElemSchema(s) => s != null && IsScalar(s.kind)
      case ElemResource(_) => false
  }

  // The same, said of what the schema holds.
  ghost predicate IsScalarMap(field: Tree) {
    && field.SchemaTree? && field.kind == TypeMap && !field.sensitive
    && (field.elem.NoElemTree? || (field.elem.TypeTree? && IsScalar(field.elem.valueType))
        || (field.elem.SchemaTree? && IsScalar(field.elem.kind)))
  }

  lemma ScalarMapIsRead(f: Schema, shape: Shape, tree: Tree)
    requires SchemaIs(f, shape) && Contained(shape) && Holds(shape, tree)
    ensures IsSDKv2ScalarMap(f) <==> IsScalarMap(tree)
  {
  }

  // The paths of the scalar maps at or below one field.
  ghost function FieldPaths(field: Tree, path: string): set<string>
    decreases field, 1
  {
    (if IsScalarMap(field) then {path} else {}) +
    (if field.SchemaTree? && field.elem.ResourceTree? then Paths(field.elem.schemaMap, path) else {})
  }

  ghost function Paths(fields: Tree, prefix: string): set<string>
    decreases fields, 0
  {
    if fields.MapTree? then
      set k, p | k in fields.fields && p in FieldPaths(fields.fields[k], JoinTerraformFieldPath(prefix, k)) :: p
    else {}
  }

  // The old strategies, and granular ones for those paths that had none.
  ghost function Configured(strategies: Strategies, paths: set<string>): Strategies {
    map p | p in strategies.Keys + paths :: if p in strategies then strategies[p] else GRANULAR
  }

  // No interface that the walk looks into holds a nil resource pointer; it looks into no schema that is an element.
  ghost predicate NoNilResource(tree: Tree) {
    match tree
    case SchemaTree(_, _, _, _, elem) => elem.SchemaTree? || NoNilResource(elem)
    case ResourceTree(_, fields) => NoNilResource(fields)
    case MapTree(fields) => forall k | k in fields :: NoNilResource(fields[k])
    case tree => tree != NilResourceTree
  }

  lemma ConfiguredNothing(strategies: Strategies)
    ensures Configured(strategies, {}) == strategies
  {
  }

  // Configuring is the same whatever the order, and however often.
  lemma ConfiguredTwice(strategies: Strategies, a: set<string>, b: set<string>)
    ensures Configured(Configured(strategies, a), b) == Configured(strategies, a + b)
  {
  }

  ghost function PathsAmong(fields: Tree, names: set<string>, prefix: string): set<string> {
    if fields.MapTree? then
      set k, p | k in names && k in fields.fields
                 && p in FieldPaths(fields.fields[k], JoinTerraformFieldPath(prefix, k)) :: p
    else {}
  }

  lemma PathsGrow(fields: Tree, names: set<string>, name: string, prefix: string)
    requires fields.MapTree? && name in fields.fields
    ensures PathsAmong(fields, names + {name}, prefix)
            == PathsAmong(fields, names, prefix) + FieldPaths(fields.fields[name], JoinTerraformFieldPath(prefix, name))
  {
  }

  lemma PathsAtTheEnds(fields: Tree, prefix: string)
    requires fields.MapTree?
    ensures PathsAmong(fields, {}, prefix) == {}
    ensures PathsAmong(fields, fields.fields.Keys, prefix) == Paths(fields, prefix)
  {
  }

  lemma MoveOne<T>(done: set<T>, rest: set<T>, x: T)
    requires x in rest
    ensures (done + {x}) + (rest - {x}) == done + rest
  {
  }

  method MarkGranular(path: string, r: ResourceConfig)
    modifies r`strategies
    ensures r.strategies == Configured(old(r.strategies), {path})
  {
    if path !in r.strategies {
      r.strategies := r.strategies[path := GRANULAR];
    }
  }

  // A map that is not sensitive, and whose element is absent, or is or has a type of strings, booleans or numbers.
  ghost predicate HoldsScalars(field: Tree) {
    && field.SchemaTree? && field.kind == TypeMap && !field.sensitive
    && match field.elem
       case NoElemTree => true
       case TypeTree(t) => t in {TypeString, TypeBool, TypeInt, TypeFloat}
       case SchemaTree(kind, _, _, _, _) => kind in {TypeString, TypeBool, TypeInt, TypeFloat}
       case _ => false
  }

  // The names that lead from a resource's fields, through nested resources, to a scalar map.
  ghost predicate IsScalarRoute(fields: Tree, route: seq<string>)
    decreases |route|
  {
    && route != [] && fields.MapTree? && route[0] in fields.fields
    && var field := fields.fields[route[0]];
       if |route| == 1 then HoldsScalars(field)
       else field.SchemaTree? && field.elem.ResourceTree? && IsScalarRoute(field.elem.schemaMap, route[1..])
  }

  ghost function PathOf(prefix: string, route: seq<string>): string
    decreases |route|
  {
    if route == [] then prefix else PathOf(JoinTerraformFieldPath(prefix, route[0]), route[1..])
  }

  ghost predicate Leads(fields: Tree, prefix: string, route: seq<string>, path: string) {
    IsScalarRoute(fields, route) && PathOf(prefix, route) == path
  }

  // The configured paths are those of the scalar maps that a route leads to, and no others.
  lemma {:induction false} PathsAreRoutes(fields: Tree, prefix: string, path: string)
    ensures path in Paths(fields, prefix) <==> exists route :: Leads(fields, prefix, route, path)
    decreases fields
  {
    if path in Paths(fields, prefix) {
      var k :| k in fields.fields && path in FieldPaths(fields.fields[k], JoinTerraformFieldPath(prefix, k));
      var field, here := fields.fields[k], JoinTerraformFieldPath(prefix, k);
      if field.SchemaTree? && field.elem.ResourceTree? && path in Paths(field.elem.schemaMap, here) {
        PathsAreRoutes(field.elem.schemaMap, here, path);
        var rest :| Leads(field.elem.schemaMap, here, rest, path);
        assert ([k] + rest)[1..] == rest;
        assert Leads(fields, prefix, [k] + rest, path);
      } else {
        assert PathOf(here, [k][1..]) == here;
        assert Leads(fields, prefix, [k], path);
      }
    }
    forall route | Leads(fields, prefix, route, path)
      ensures path in Paths(fields, prefix)
    {
      var field, here := fields.fields[route[0]], JoinTerraformFieldPath(prefix, route[0]);
      assert PathOf(here, route[1..]) == path;
      if |route| > 1 {
        PathsAreRoutes(field.elem.schemaMap, here, path);
        assert Leads(field.elem.schemaMap, here, route[1..], path);
      }
      assert path in FieldPaths(field, here);
    }
  }

  // What a walk does: old entries stay, and the new ones are granular, at the paths of the scalar maps alone.
  ghost predicate Gains(before: Strategies, after: Strategies, fields: Tree, prefix: string) {
    && (forall p | p in before :: p in after && after[p] == before[p])
    && (forall p | p in after && p !in before :: after[p] == MergeStrategy("granular"))
    && (forall p :: p in after <==> p in before || exists route :: Leads(fields, prefix, route, p))
  }

  lemma ConfiguredGains(before: Strategies, fields: Tree, prefix: string)
    ensures Gains(before, Configured(before, Paths(fields, prefix)), fields, prefix)
  {
    var after := Configured(before, Paths(fields, prefix));
    forall p
      ensures p in after <==> p in before || exists route :: Leads(fields, prefix, route, p)
    {
      PathsAreRoutes(fields, prefix, p);
    }
  }

  // Visits the fields in any order, and configures exactly the paths of the schema's scalar maps.
  method WalkSDKv2SchemaForScalarMaps(s: Resource, prefix: string, r: ResourceConfig,
                                      ghost shape: Shape, ghost tree: Tree)
    requires ResourceIs(s, shape) && Contained(shape) && Holds(shape, tree)
    requires NoNilResource(tree) && r !in Region(shape)
    modifies r`strategies
    ensures r.strategies == Configured(old(r.strategies), Paths(tree.schemaMap, prefix))
    ensures Gains(old(r.strategies), r.strategies, tree.schemaMap, prefix)
    decreases shape, 1
  {
    ConfiguredGains(r.strategies, tree.schemaMap, prefix);
    ConfiguredNothing(r.strategies);
    if s.schema != null {
      WalkFields(s.schema, prefix, r, shape.schemaMap, tree.schemaMap);
    }
  }

  method WalkFields(fields: SchemaMap, prefix: string, r: ResourceConfig, ghost shape: Shape, ghost tree: Tree)
    requires MapIs(fields, shape) && Contained(shape) && Holds(shape, tree)
    requires NoNilResource(tree) && r !in Region(shape)
    modifies r`strategies
    ensures r.strategies == Configured(old(r.strategies), Paths(tree, prefix))
    decreases shape, 1
  {
    ghost var before := r.strategies;
    ConfiguredNothing(before);
    ghost var done: set<string> := {};
    PathsAtTheEnds(tree, prefix);
    var names := fields.fields.Keys;
    while names != {}
      invariant done + names == tree.fields.Keys
      invariant r.strategies == Configured(before, PathsAmong(tree, done, prefix))
      decreases names
    {
      var name :| name in names;
      MoveOne(done, names, name);
      VisitName(fields.fields, name, prefix, r, shape.fields, tree, before, done);
      names, done := names - {name}, done + {name};
    }
  }

  // One round of the loop over the fields.
  method VisitName(fields: map<string, Schema?>, name: string, prefix: string, r: ResourceConfig,
                   ghost shapes: map<string, Shape>, ghost tree: Tree,
                   ghost before: Strategies, ghost done: set<string>)
    requires FieldsAre(fields, shapes) && tree.MapTree? && tree.fields.Keys == shapes.Keys
    requires forall k | k in shapes :: Contained(shapes[k])
    requires forall k | k in shapes :: Holds(shapes[k], tree.fields[k])
    requires forall k | k in shapes :: NoNilResource(tree.fields[k]) && r !in Region(shapes[k])
    requires name in fields && r.strategies == Configured(before, PathsAmong(tree, done, prefix))
    modifies r`strategies
    ensures r.strategies == Configured(before, PathsAmong(tree, done + {name}, prefix))
    decreases shapes[name], 1
  {
    PathsGrow(tree, done, name, prefix);
    ConfiguredTwice(before, PathsAmong(tree, done, prefix),
                    FieldPaths(tree.fields[name], JoinTerraformFieldPath(prefix, name)));
    VisitField(fields[name], JoinTerraformFieldPath(prefix, name), r, shapes[name], tree.fields[name]);
  }

  method VisitField(f: Schema?, path: string, r: ResourceConfig, ghost shape: Shape, ghost tree: Tree)
    requires SchemaIs(f, shape) && Contained(shape) && Holds(shape, tree)
    requires NoNilResource(tree) && r !in Region(shape)
    modifies r`strategies
    ensures r.strategies == Configured(old(r.strategies), FieldPaths(tree, path))
    decreases shape, 0
  {
    ghost var before := r.strategies;
    ConfiguredNothing(before);
    if f == null {
      return;
    }
    ScalarMapIsRead(f, shape, tree);
    ghost var here: set<string> := {};
    if IsSDKv2ScalarMap(f) {
      MarkGranular(path, r);
      here := {path};
    }
    if f.elem.ElemResource? {
      ConfiguredTwice(before, here, Paths(tree.elem.schemaMap, path));
      WalkSDKv2SchemaForScalarMaps(f.elem.resource, path, r, shape.elem, tree.elem);
    }
  }

  predicate IsPlainName(name: string) {
    name != "" && '.' !in name
  }

  lemma {:induction false} PathOfPlainNames(prefix: string, route: seq<string>)
    requires prefix != "" && route != [] && forall name | name in route :: IsPlainName(name)
    ensures PathOf(prefix, route) == prefix + "." + Join(route, ".")
    decreases |route|
  {
    var here := JoinTerraformFieldPath(prefix, route[0]);
    assert [prefix, route[0]][1..] == [route[0]];
    assert here == prefix + "." + route[0] by {
      assert Join([route[0]], ".") == route[0];
    }
    if |route| > 1 {
      PathOfPlainNames(here, route[1..]);
      assert here + "." + Join(route[1..], ".") == prefix + "." + (route[0] + "." + Join(route[1..], "."));
    }
  }

  lemma RootPath(route: seq<string>)
    requires route != [] && forall name | name in route :: IsPlainName(name)
    ensures PathOf("", route) == Join(route, ".")
  {
    assert route[0] in route;
    if |route| > 1 {
      PathOfPlainNames(route[0], route[1..]);
    }
  }

  // Distinct fields get distinct paths as long as no name is empty or holds a dot.
  lemma PathsAreUnambiguous(a: seq<string>, b: seq<string>)
    requires a != [] && forall name | name in a :: IsPlainName(name)
    requires b != [] && forall name | name in b :: IsPlainName(name)
    requires PathOf("", a) == PathOf("", b)
    ensures a == b
  {
    RootPath(a);
    RootPath(b);
    SplitInvertsJoin(a, '.');
    SplitInvertsJoin(b, '.');
  }

  // No name that the walk meets is empty or holds a dot.
  ghost predicate PlainNames(fields: Tree) {
    fields.MapTree? ==>
      forall k | k in fields.fields ::
        && IsPlainName(k)
        && (fields.fields[k].SchemaTree? && fields.fields[k].elem.ResourceTree?
            ==> PlainNames(fields.fields[k].elem.schemaMap))
  }

  // The names lead to this field.
  ghost predicate IsRoute(fields: Tree, route: seq<string>, field: Tree)
    decreases |route|
  {
    && route != [] && fields.MapTree? && route[0] in fields.fields
    && var next := fields.fields[route[0]];
       if |route| == 1 then field == next
       else next.SchemaTree? && next.elem.ResourceTree? && IsRoute(next.elem.schemaMap, route[1..], field)
  }

  lemma {:induction false} PlainRoute(fields: Tree, route: seq<string>, field: Tree)
    requires PlainNames(fields) && IsRoute(fields, route, field)
    ensures forall name | name in route :: IsPlainName(name)
    ensures IsScalarRoute(fields, route) <==> HoldsScalars(field)
    decreases |route|
  {
    if |route| > 1 {
      PlainRoute(fields.fields[route[0]].elem.schemaMap, route[1..], field);
      assert route == [route[0]] + route[1..];
    }
  }

  lemma {:induction false} ScalarRouteIsRoute(fields: Tree, route: seq<string>) returns (field: Tree)
    requires IsScalarRoute(fields, route)
    ensures IsRoute(fields, route, field)
    decreases |route|
  {
    field := fields.fields[route[0]];
    if |route| > 1 {
      field := ScalarRouteIsRoute(field.elem.schemaMap, route[1..]);
    }
  }

  // With plain names a field, however deep, has an entry exactly when it is a map that is not sensitive and has no
  // element, or one that is or has the type string, bool, int or float.
  lemma OnlyScalarMapsAreConfigured(fields: Tree, route: seq<string>, field: Tree)
    requires PlainNames(fields) && IsRoute(fields, route, field)
    ensures PathOf("", route) in Paths(fields, "") <==>
            && field.SchemaTree? && field.kind == TypeMap && !field.sensitive
            && (|| field.elem == NoElemTree
                || (field.elem.TypeTree? && field.elem.valueType in {TypeString, TypeBool, TypeInt, TypeFloat})
                || (field.elem.SchemaTree? && field.elem.kind in {TypeString, TypeBool, TypeInt, TypeFloat}))
  {
    var path := PathOf("", route);
    PlainRoute(fields, route, field);
    PathsAreRoutes(fields, "", path);
    if HoldsScalars(field) {
      assert Leads(fields, "", route, path);
    }
    if path in Paths(fields, "") {
      var other :| Leads(fields, "", other, path);
      var there := ScalarRouteIsRoute(fields, other);
      PlainRoute(fields, other, there);
      PathsAreUnambiguous(route, other);
    }
  }

  // A dot in a name is enough to confuse two fields.
  lemma DottedNamesCollide(a: string, b: string)
    requires a != ""
    ensures PathOf("", [a + "." + b]) == PathOf("", [a, b]) && [a + "." + b] != [a, b]
  {
    var dotted := a + "." + b;
    assert [a, b][1..] == [b] && [b][1..] == [] && [dotted][1..] == [];
    assert Join([a, b], ".") == a + "." + Join([b], ".");
    assert PathOf(a, [b]) == PathOf(dotted, []);
    assert PathOf("", [a, b]) == PathOf(a, [b]);
  }

  // So is an empty name at the root.
  lemma EmptyNamesCollide(route: seq<string>)
    ensures PathOf("", [""] + route) == PathOf("", route) && [""] + route != route
  {
    assert ([""] + route)[1..] == route;
    assert |[""] + route| != |route|;
  }

  ghost function MadeStrategies(r: ResourceConfig): Strategies
    reads r
  {
    if r.hasStrategies then r.strategies else map[]
  }

  ghost function SchemaPaths(resource: Tree): set<string> {
    if resource.ResourceTree? then Paths(resource.schemaMap, "") else {}
  }

  // The configuration's resource holds what its snapshot says, and is not made of configurations.
  ghost predicate Described(r: ResourceConfig, configs: set<ResourceConfig>)
    reads r, Region(r.schema.resource)
  {
    r.terraformResource != null ==>
      && ResourceIs(r.terraformResource, r.schema.resource) && Contained(r.schema.resource)
      && Holds(r.schema.resource, r.schema.tree) && NoNilResource(r.schema.tree) && configs !! Region(r.schema.resource)
  }

  ghost predicate AllDescribed(configs: set<ResourceConfig>)
    reads configs, set c, o | c in configs && o in Region(c.schema.resource) :: o
  {
    forall c | c in configs :: Described(c, configs)
  }

  // A resource without a schema is left as it is; any other has strategies for exactly its scalar maps.
  twostate predicate IsConfigured(r: ResourceConfig)
    reads r
  {
    if r.terraformResource == null then unchanged(r)
    else r.hasStrategies && r.strategies == Configured(old(MadeStrategies(r)), SchemaPaths(r.schema.tree))
  }

  // The strategies, made if there were none, gain what a walk from the root gives.
  method ConfigureForResource(r: ResourceConfig, ghost configs: set<ResourceConfig>)
    requires Described(r, configs) && r in configs
    modifies r`strategies, r`hasStrategies
    ensures IsConfigured(r)
    ensures r.terraformResource != null ==>
      && r.hasStrategies && r.schema.tree.ResourceTree?
      && Gains(if old(r.hasStrategies) then old(r.strategies) else map[], r.strategies, r.schema.tree.schemaMap, "")
  {
    if r.terraformResource == null {
      return;
    }
    if !r.hasStrategies {
      r.hasStrategies, r.strategies := true, map[];
    }
    WalkSDKv2SchemaForScalarMaps(r.terraformResource, "", r, r.schema.resource, r.schema.tree);
  }

  lemma ConfiguredAgain(strategies: Strategies, paths: set<string>)
    ensures Configured(Configured(strategies, paths), paths) == Configured(strategies, paths)
  {
  }

  // A configuration that may have been configured before, from strategies `made`, comes out the same.
  method ConfigureOnceMore(r: ResourceConfig, ghost configs: set<ResourceConfig>, ghost made: Strategies)
    requires r in configs && Described(r, configs)
    requires MadeStrategies(r) == made || MadeStrategies(r) == Configured(made, SchemaPaths(r.schema.tree))
    modifies r`strategies, r`hasStrategies
    ensures if r.terraformResource == null then unchanged(r)
            else r.hasStrategies && r.strategies == Configured(made, SchemaPaths(r.schema.tree))
  {
    ConfiguredAgain(made, SchemaPaths(r.schema.tree));
    ConfigureForResource(r, configs);
  }

  type Configs = map<string, ResourceConfig?>

  // The configurations that the names already visited stand for are among those visited.
  ghost predicate VisitedBut(resources: Configs, names: set<string>, visited: set<ResourceConfig>) {
    forall n | n in resources && n !in names && resources[n] != null :: resources[n] in visited
  }

  ghost predicate IsNamed(resources: Configs, c: ResourceConfig) {
    exists n :: n in resources && resources[n] == c
  }

  lemma VisitedOneMore(resources: Configs, names: set<string>, name: string, visited: set<ResourceConfig>)
    requires VisitedBut(resources, names, visited) && name in names && names <= resources.Keys
    ensures VisitedBut(resources, names - {name}, visited + One(resources[name]))
    ensures names - {name} <= resources.Keys
    ensures resources[name] != null ==> IsNamed(resources, resources[name])
  {
  }

  ghost function One(r: ResourceConfig?): set<ResourceConfig> {
    if r == null then {} else {r}
  }

  // Configures every resource of the provider, in any order.  Names that share a configuration do no harm.
  method ConfigureProvider(resources: Configs, ghost configs: set<ResourceConfig>)
    requires forall n | n in resources && resources[n] != null :: resources[n] in configs
    requires AllDescribed(configs)
    modifies configs`strategies, configs`hasStrategies
    ensures forall n | n in resources && resources[n] != null :: IsConfigured(resources[n])
    ensures forall c | c in configs && !IsNamed(resources, c) :: unchanged(c)
  {
    ghost var visited: set<ResourceConfig> := {};
    var names := resources.Keys;
    while names != {}
      invariant names <= resources.Keys && VisitedBut(resources, names, visited) && visited <= configs
      invariant forall c | c in visited :: IsNamed(resources, c) && IsConfigured(c)
      invariant forall c | c in configs && c !in visited :: unchanged(c)
      decreases names
    {
      var name :| name in names;
      VisitedOneMore(resources, names, name, visited);
      visited := visited + One(resources[name]);
      names := names - {name};
      if resources[name] != null {
        var r: ResourceConfig := resources[name];
        assert Described(r, configs) by {
          assert old(Described(r, configs));
        }
        ConfigureOnceMore(r, configs, old(MadeStrategies(r)));
      }
    }
  }
}
