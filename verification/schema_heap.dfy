// Terraform schemas as they live on the heap: schemas, resources, maps of fields and slices of strings,
// all reached through pointers that may be nil and may be shared.
module SchemaHeap {
  datatype ValueType = TypeInvalid | TypeBool | TypeInt | TypeFloat | TypeString | TypeList | TypeMap | TypeSet

  // What the interface-typed element of a schema holds; a nil pointer in it is not a nil interface.
  datatype Elem =
    | NoElem
    | ElemType(valueType: ValueType)
    | ElemSchema(schema: Schema?)
    | ElemResource(resource: Resource?)

  class Schema {
    var kind: ValueType
    var sensitive: bool
    var rest: string  // the fields that are copied as values
    var elem: Elem
    var computedWhen: array?<string>
    var conflictsWith: array?<string>
    var exactlyOneOf: array?<string>
    var atLeastOneOf: array?<string>
    var requiredWith: array?<string>

    constructor CopyOf(source: Schema)
      ensures kind == source.kind && sensitive == source.sensitive && rest == source.rest && elem == source.elem
    {
      kind, sensitive, rest, elem := source.kind, source.sensitive, source.rest, source.elem;
      computedWhen, conflictsWith, exactlyOneOf := source.computedWhen, source.conflictsWith, source.exactlyOneOf;
      atLeastOneOf, requiredWith := source.atLeastOneOf, source.requiredWith;
    }
  }

  class SchemaMap {
    var fields: map<string, Schema?>

    constructor ()
      ensures fields == map[]
    {
      fields := map[];
    }
  }

  class Resource {
    var schema: SchemaMap?
    var rest: string

    constructor CopyOf(source: Resource)
      ensures schema == source.schema && rest == source.rest
    {
      schema, rest := source.schema, source.rest;
    }
  }

  datatype Slices = Slices(
    computedWhen: array?<string>, conflictsWith: array?<string>, exactlyOneOf: array?<string>,
    atLeastOneOf: array?<string>, requiredWith: array?<string>)

  // The nodes that unfolding a pointer meets, with a region of the heap that holds them.  A structure that has
  // a shape is acyclic; it may be a DAG.
  datatype Shape =
    | NilSchema
    | SchemaAt(schema: Schema, slices: Slices, elem: Shape, region: set<object>)
    | NilResource
    | ResourceAt(resource: Resource, schemaMap: Shape, region: set<object>)
    | NilMap
    | MapAt(node: SchemaMap, fields: map<string, Shape>, region: set<object>)
    | NoElemAt
    | TypeAt(valueType: ValueType)

  // The array behind a slice.
  ghost function Backing(a: array?<string>): set<object> {
    if a == null then {} else {a}
  }

  ghost function SliceObjects(s: Slices): set<object> {
    Backing(s.computedWhen) + Backing(s.conflictsWith) + Backing(s.exactlyOneOf) + Backing(s.atLeastOneOf) +
    Backing(s.requiredWith)
  }

  ghost function Region(shape: Shape): set<object> {
    if shape.SchemaAt? || shape.ResourceAt? || shape.MapAt? then shape.region else {}
  }

  ghost predicate Contained(shape: Shape) {
    match shape
    case SchemaAt(node, slices, elem, region) =>
      {node} + SliceObjects(slices) + Region(elem) <= region && Contained(elem)
    case ResourceAt(node, fields, region) => {node} + Region(fields) <= region && Contained(fields)
    case MapAt(node, fields, region) =>
      node in region && forall k | k in fields :: Region(fields[k]) <= region && Contained(fields[k])
    case _ => true
  }

  ghost predicate SchemaIs(s: Schema?, shape: Shape) {
    if s == null then shape.NilSchema? else shape.SchemaAt? && shape.schema == s
  }

  ghost predicate ResourceIs(r: Resource?, shape: Shape) {
    if r == null then shape.NilResource? else shape.ResourceAt? && shape.resource == r
  }

  ghost predicate MapIs(m: SchemaMap?, shape: Shape) {
    if m == null then shape.NilMap? else shape.MapAt? && shape.node == m
  }

  ghost predicate ElemIs(e: Elem, shape: Shape) {
    match e
    case NoElem => shape == NoElemAt
    case ElemType(t) => shape == TypeAt(t)
    case ElemSchema(s) => SchemaIs(s, shape)
    case ElemResource(r) => ResourceIs(r, shape)
  }

  ghost predicate FieldsAre(fields: map<string, Schema?>, shapes: map<string, Shape>) {
    fields.Keys == shapes.Keys && forall k | k in fields :: SchemaIs(fields[k], shapes[k])
  }

  // No two pointers of the shape lead to the same node.
  ghost predicate Unshared(shape: Shape) {
    match shape
    case SchemaAt(node, slices, elem, _) =>
      {node} + SliceObjects(slices) !! Region(elem) && UnsharedSlices(slices) && Unshared(elem)
    case ResourceAt(node, fields, _) => node !in Region(fields) && Unshared(fields)
    case MapAt(node, fields, _) =>
      && (forall k | k in fields :: Unshared(fields[k]) && node !in Region(fields[k]))
      && (forall j, k | j in fields && k in fields && j != k :: Region(fields[j]) !! Region(fields[k]))
    case _ => true
  }

  ghost predicate Apart(a: array?<string>, b: array?<string>) {
    a == null || a != b
  }

  ghost predicate UnsharedSlices(s: Slices) {
    && Apart(s.computedWhen, s.conflictsWith) && Apart(s.computedWhen, s.exactlyOneOf)
    && Apart(s.computedWhen, s.atLeastOneOf) && Apart(s.computedWhen, s.requiredWith)
    && Apart(s.conflictsWith, s.exactlyOneOf) && Apart(s.conflictsWith, s.atLeastOneOf)
    && Apart(s.conflictsWith, s.requiredWith) && Apart(s.exactlyOneOf, s.atLeastOneOf)
    && Apart(s.exactlyOneOf, s.requiredWith) && Apart(s.atLeastOneOf, s.requiredWith)
  }

  // What a structure says, whatever its nodes are; a nil slice says the same as an empty one.
  datatype Tree =
    | NilSchemaTree
    | SchemaTree(kind: ValueType, sensitive: bool, rest: string, lists: Lists, elem: Tree)
    | NilResourceTree
    | ResourceTree(rest: string, schemaMap: Tree)
    | NilMapTree
    | MapTree(fields: map<string, Tree>)
    | NoElemTree
    | TypeTree(valueType: ValueType)

  datatype Lists = Lists(
    computedWhen: seq<string>, conflictsWith: seq<string>, exactlyOneOf: seq<string>,
    atLeastOneOf: seq<string>, requiredWith: seq<string>)

  ghost function Strings(a: array?<string>): seq<string>
    reads a
  {
    if a == null then [] else a[..]
  }

  ghost predicate HoldsLists(s: Slices, l: Lists)
    reads SliceObjects(s)
  {
    && Strings(s.computedWhen) == l.computedWhen && Strings(s.conflictsWith) == l.conflictsWith
    && Strings(s.exactlyOneOf) == l.exactlyOneOf && Strings(s.atLeastOneOf) == l.atLeastOneOf
    && Strings(s.requiredWith) == l.requiredWith
  }

  ghost predicate PointsTo(s: Schema, slices: Slices, elem: Elem)
    reads s
  {
    && s.computedWhen == slices.computedWhen && s.conflictsWith == slices.conflictsWith
    && s.exactlyOneOf == slices.exactlyOneOf && s.atLeastOneOf == slices.atLeastOneOf
    && s.requiredWith == slices.requiredWith && s.elem == elem
  }

  ghost predicate HoldsNode(s: Schema, slices: Slices, elem: Shape, tree: Tree)
    reads s
  {
    && PointsTo(s, slices, s.elem) && ElemIs(s.elem, elem)
    && tree.SchemaTree? && s.kind == tree.kind && s.sensitive == tree.sensitive && s.rest == tree.rest
  }

  // The heap's pointers are those of the shape, and what they lead to reads as the tree.
  ghost predicate Holds(shape: Shape, tree: Tree)
    requires Contained(shape)
    reads Region(shape)
    decreases shape
  {
    match shape
    case NilSchema => tree == NilSchemaTree
    case SchemaAt(node, slices, elem, _) =>
      HoldsNode(node, slices, elem, tree) && HoldsLists(slices, tree.lists) && Holds(elem, tree.elem)
    case NilResource => tree == NilResourceTree
    case ResourceAt(node, fields, _) =>
      tree.ResourceTree? && node.rest == tree.rest && MapIs(node.schema, fields) && Holds(fields, tree.schemaMap)
    case NilMap => tree == NilMapTree
    case MapAt(node, fields, _) =>
      && tree.MapTree? && FieldsAre(node.fields, fields) && tree.fields.Keys == fields.Keys
      && forall k | k in fields :: Holds(fields[k], tree.fields[k])
    case NoElemAt => tree == NoElemTree
    case TypeAt(t) => tree == TypeTree(t)
  }

  // A map of fields reads as the trees of its fields.
  lemma HoldsFields(shape: Shape, tree: Tree)
    requires Contained(shape) && shape.MapAt? && tree.MapTree? && tree.fields.Keys == shape.fields.Keys
    requires FieldsAre(shape.node.fields, shape.fields)
    requires forall k | k in shape.fields :: Holds(shape.fields[k], tree.fields[k])
    ensures Holds(shape, tree)
  {
  }

  // What the heap holds at a resource.
  datatype Snapshot = Snapshot(resource: Shape, tree: Tree)
}
