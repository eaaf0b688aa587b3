// The manifest of Terraform resources per service: collected from generated controllers, checked against the
// namespaced ones, and written out in order.
module RuntimeManifest {
  import opened Collections
  import opened SortedStrings

  // A generated file: the parts of its path and the resources that its text looks up.
  datatype SourceFile = SourceFile(parts: seq<string>, lookups: seq<string>)

  datatype Error =
    | NoService(parts: seq<string>)
    | WrongLookups(parts: seq<string>, count: nat)
    | NoControllers
    | CountsDiffer(service: string, cluster: nat, namespaced: nat)
    | NoCounterpart(service: string, resource: string)
    | OnlyNamespaced(services: Resources)

  datatype Result<T> = Ok(value: T) | Err(error: Error)

  type Resources = map<string, set<string>>

  const CONTROLLER := "zz_controller.go"

  const MONOLITH := "monolith"

  predicate IsController(file: SourceFile) {
    file.parts != [] && file.parts[|file.parts| - 1] == CONTROLLER
  }

  predicate IsWellFormed(file: SourceFile) {
    |file.parts| >= 3 && |file.lookups| == 1
  }

  function FileError(file: SourceFile): Error {
    if |file.parts| < 3 then NoService(file.parts) else WrongLookups(file.parts, |file.lookups|)
  }

  // The service and the resource of every controller; the order of the files is not part of it.
  ghost function Pairs(files: seq<SourceFile>): set<(string, string)> {
    set file | file in files && IsController(file) && IsWellFormed(file) :: (file.parts[0], file.lookups[0])
  }

  ghost predicate Groups(resources: Resources, pairs: set<(string, string)>) {
    && (forall s, r :: (s, r) in pairs <==> s in resources && r in resources[s])
    && (forall s | s in resources :: resources[s] != {})
  }

  ghost predicate IsFirstBad(files: seq<SourceFile>, i: int) {
    && 0 <= i < |files| && IsController(files[i]) && !IsWellFormed(files[i])
    && forall j | 0 <= j < i :: IsController(files[j]) ==> IsWellFormed(files[j])
  }

  ghost predicate AllGood(files: seq<SourceFile>) {
    forall file | file in files :: IsController(file) ==> IsWellFormed(file)
  }

  method AddResource(resources: Resources, service: string, resource: string, ghost pairs: set<(string, string)>)
    returns (r: Resources)
    requires Groups(resources, pairs)
    ensures Groups(r, pairs + {(service, resource)})
  {
    var known := if service in resources then resources[service] else {};
    r := resources[service := known + {resource}];
    forall s, x
      ensures (s, x) in pairs + {(service, resource)} <==> s in r && x in r[s]
    {
      assert (s, x) in pairs <==> s in resources && x in resources[s];
    }
  }

  // Walks the files and stops at the first malformed controller.
  method CollectResources(files: seq<SourceFile>) returns (r: Result<Resources>)
    ensures r.Ok? <==> AllGood(files)
    ensures r.Ok? ==> Groups(r.value, Pairs(files))
    ensures r.Err? ==> exists i :: IsFirstBad(files, i) && r.error == FileError(files[i])
  {
    var resources: Resources := map[];
    for i := 0 to |files|
      invariant AllGood(files[..i])
      invariant Groups(resources, Pairs(files[..i]))
    {
      var file := files[i];
      assert files[..i + 1] == files[..i] + [file];
      if IsController(file) {
        if !IsWellFormed(file) {
          assert forall j | 0 <= j < i :: files[j] in files[..i];
          assert IsFirstBad(files, i) && file in files;
          return Err(FileError(file));
        }
        assert Pairs(files[..i + 1]) == Pairs(files[..i]) + {(file.parts[0], file.lookups[0])};
        resources := AddResource(resources, file.parts[0], file.lookups[0], Pairs(files[..i]));
      } else {
        assert Pairs(files[..i + 1]) == Pairs(files[..i]);
      }
    }
    assert files[..|files|] == files;
    r := Ok(resources);
  }

  function Get(resources: Resources, service: string): set<string> {
    if service in resources then resources[service] else {}
  }

  // What the check accepts: each cluster service has the same resources on the other side, which has no other service.
  ghost predicate Agree(cluster: Resources, namespaced: Resources) {
    && namespaced.Keys <= cluster.Keys
    && forall s | s in cluster :: cluster[s] == Get(namespaced, s)
  }

  ghost predicate Differs(e: Error, service: string, resources: set<string>, namespaced: set<string>) {
    match e
    case CountsDiffer(s, c, n) => s == service && c == |resources| && n == |namespaced| && c != n
    case NoCounterpart(s, r) => s == service && r in resources && r !in namespaced
    case _ => false
  }

  // The error names a real difference.
  ghost predicate Explains(e: Error, cluster: Resources, namespaced: Resources) {
    || (exists s | s in cluster :: Differs(e, s, cluster[s], Get(namespaced, s)))
    || (e == OnlyNamespaced(namespaced - cluster.Keys) && !(namespaced.Keys <= cluster.Keys))
  }

  method CompareService(service: string, resources: set<string>, namespaced: set<string>) returns (r: Result<()>)
    ensures r.Ok? <==> resources == namespaced
    ensures r.Err? ==> Differs(r.error, service, resources, namespaced)
    ensures |resources| != |namespaced| ==> r == Err(CountsDiffer(service, |resources|, |namespaced|))
    ensures r.Err? && |resources| == |namespaced| ==>
      r.error.NoCounterpart? && r.error.resource in resources - namespaced
  {
    if |namespaced| != |resources| {
      return Err(CountsDiffer(service, |resources|, |namespaced|));
    }
    var rest := resources;
    while rest != {}
      invariant rest <= resources && resources - rest <= namespaced
      decreases rest
    {
      var resource :| resource in rest;
      if resource !in namespaced {
        return Err(NoCounterpart(service, resource));
      }
      rest := rest - {resource};
    }
    SubsetOfSameSize(resources, namespaced);
    r := Ok(());
  }

  // Compares and deletes service by service, in any order.
  method CompareServices(cluster: Resources, namespacedResources: Resources)
    returns (r: Result<()>, namespaced: Resources)
    ensures r.Ok? <==> forall s | s in cluster :: cluster[s] == Get(namespacedResources, s)
    ensures r.Ok? ==> namespaced == namespacedResources - cluster.Keys
    ensures r.Err? ==> exists s | s in cluster :: Differs(r.error, s, cluster[s], Get(namespacedResources, s))
  {
    namespaced := namespacedResources;
    var services := cluster.Keys;
    while services != {}
      invariant services <= cluster.Keys
      invariant namespaced.Keys == namespacedResources.Keys - (cluster.Keys - services)
      invariant forall s | s in namespaced :: namespaced[s] == namespacedResources[s]
      invariant forall s | s in cluster && s !in services :: cluster[s] == Get(namespacedResources, s)
      decreases services
    {
      var service :| service in services;
      r := CompareService(service, cluster[service], Get(namespaced, service));
      if r.Err? {
        return;
      }
      namespaced := namespaced - {service};
      services := services - {service};
    }
    r := Ok(());
  }

  lemma LeftOver<K, V>(m: map<K, V>, keys: set<K>)
    ensures |m - keys| == 0 <==> m.Keys <= keys
  {
    var rest := m - keys;
    assert rest.Keys == m.Keys - keys && |rest| == |rest.Keys|;
    if m.Keys <= keys {
      assert rest.Keys == {};
    } else {
      var k :| k in m.Keys && k !in keys;
      assert k in rest.Keys;
    }
  }

  // What is left over after the comparison has no counterpart.
  method ValidateNamespaced(cluster: Resources, namespacedResources: Resources) returns (r: Result<()>)
    ensures r.Ok? <==> Agree(cluster, namespacedResources)
    ensures r.Err? ==> Explains(r.error, cluster, namespacedResources)
  {
    var namespaced;
    r, namespaced := CompareServices(cluster, namespacedResources);
    LeftOver(namespacedResources, cluster.Keys);
    if r.Ok? && |namespaced| != 0 {
      r := Err(OnlyNamespaced(namespaced));
    }
  }

  // Since no collected service is empty, acceptance is equality.
  lemma AgreementIsEquality(cluster: Resources, namespaced: Resources)
    requires forall s | s in cluster :: cluster[s] != {}
    ensures Agree(cluster, namespaced) <==> cluster == namespaced
  {
  }

  // In general a service without resources needs no counterpart.
  lemma AgreementInGeneral(cluster: Resources, namespaced: Resources)
    requires forall s | s in namespaced :: namespaced[s] != {}
    ensures Agree(cluster, namespaced) <==> namespaced == map s | s in cluster && cluster[s] != {} :: cluster[s]
  {
  }

  datatype Row = Row(service: string, resources: seq<string>)

  // One row per service and one for all of them, everything in order.  A service called like the latter gives way.
  ghost predicate IsManifest(rows: seq<Row>, pairs: set<(string, string)>) {
    && StrictlySorted(ServicesOf(rows))
    && (forall s :: s in ServicesOf(rows) <==> s == MONOLITH || exists x :: (s, x) in pairs)
    && forall row | row in rows :: IsRow(row, pairs)
  }

  ghost predicate IsRow(row: Row, pairs: set<(string, string)>) {
    && StrictlySorted(row.resources)
    && forall x :: x in row.resources <==>
         if row.service == MONOLITH then exists s :: (s, x) in pairs else (row.service, x) in pairs
  }

  function ServicesOf(rows: seq<Row>): seq<string> {
    seq(|rows|, i requires 0 <= i < |rows| => rows[i].service)
  }

  // The manifest depends on the pairs alone: not on the order of a walk, nor on that of a map.
  lemma ManifestIsUnique(a: seq<Row>, b: seq<Row>, pairs: set<(string, string)>)
    requires IsManifest(a, pairs) && IsManifest(b, pairs)
    ensures a == b
  {
    SortedIsUnique(ServicesOf(a), ServicesOf(b));
    forall i | 0 <= i < |a|
      ensures a[i] == b[i]
    {
      assert ServicesOf(a)[i] == ServicesOf(b)[i];
      assert a[i] in a && b[i] in b;
      SortedIsUnique(a[i].resources, b[i].resources);
    }
  }

  ghost function AllResources(pairs: set<(string, string)>): set<string> {
    set pair | pair in pairs :: pair.1
  }

  method Union(resources: Resources, ghost pairs: set<(string, string)>) returns (all: set<string>)
    requires Groups(resources, pairs)
    ensures all == AllResources(pairs)
  {
    all := set s, x | s in resources && x in resources[s] :: x;
    forall x
      ensures x in all <==> x in AllResources(pairs)
    {
      if x in all {
        var s :| s in resources && x in resources[s];
        assert (s, x) in pairs && (s, x).1 == x;
      }
      if x in AllResources(pairs) {
        var pair :| pair in pairs && pair.1 == x;
        assert pair == (pair.0, x);
      }
    }
  }

  method WriteRows(resources: Resources) returns (rows: seq<Row>)
    ensures IsSortedOf(ServicesOf(rows), resources.Keys)
    ensures forall row | row in rows :: row.service in resources && IsSortedOf(row.resources, resources[row.service])
  {
    var services := SortKeys(resources.Keys);
    rows := [];
    for i := 0 to |services|
      invariant ServicesOf(rows) == services[..i]
      invariant forall row | row in rows ::
                  row.service in resources && IsSortedOf(row.resources, resources[row.service])
    {
      assert services[i] in services;
      var list := SortKeys(resources[services[i]]);
      rows := rows + [Row(services[i], list)];
    }
  }

  // The error a failing generation stops at: the checks come in this order.
  ghost predicate IsReason(e: Error, cluster: seq<SourceFile>, namespaced: seq<SourceFile>) {
    if !AllGood(cluster) then exists i :: IsFirstBad(cluster, i) && e == FileError(cluster[i])
    else if Pairs(cluster) == {} then e == NoControllers
    else if !AllGood(namespaced) then exists i :: IsFirstBad(namespaced, i) && e == FileError(namespaced[i])
    else exists c, n :: Groups(c, Pairs(cluster)) && Groups(n, Pairs(namespaced)) && Explains(e, c, n)
  }

  // Grouped resources and pairs determine each other.
  lemma GroupsDetermine(a: Resources, p: set<(string, string)>, b: Resources, q: set<(string, string)>)
    requires Groups(a, p) && Groups(b, q)
    ensures a == b <==> p == q
  {
    if p == q {
      forall s | s in a
        ensures s in b && a[s] == b[s]
      {
        var x :| x in a[s];
        assert (s, x) in p;
        assert forall y :: y in a[s] <==> (s, y) in p;
      }
      forall s | s in b
        ensures s in a
      {
        var x :| x in b[s];
        assert (s, x) in q;
      }
    }
    if a == b {
      forall pair
        ensures pair in p <==> pair in q
      {
        assert pair == (pair.0, pair.1);
      }
    }
  }

  // The file looks up the resource, and only that, in a controller of the service that its path begins with.
  ghost predicate Controls(file: SourceFile, service: string, resource: string) {
    && |file.parts| >= 3 && file.parts[|file.parts| - 1] == "zz_controller.go" && file.parts[0] == service
    && file.lookups == [resource]
  }

  lemma PairIsControlled(files: seq<SourceFile>, service: string, resource: string)
    ensures (service, resource) in Pairs(files) <==> exists file :: file in files && Controls(file, service, resource)
  {
    if (service, resource) in Pairs(files) {
      var file :| file in files && IsController(file) && IsWellFormed(file)
                  && (file.parts[0], file.lookups[0]) == (service, resource);
      assert Controls(file, service, resource);
    }
    if exists file :: file in files && Controls(file, service, resource) {
      var file :| file in files && Controls(file, service, resource);
      assert IsController(file) && IsWellFormed(file) && (file.parts[0], file.lookups[0]) == (service, resource);
    }
  }

  // Who controls the resource, for a service or, in the row of all, for any.
  ghost predicate IsControlled(files: seq<SourceFile>, service: string, resource: string) {
    exists file, s :: file in files && Controls(file, s, resource) && (s == service || service == "monolith")
  }

  lemma RowSays(files: seq<SourceFile>, row: Row, resource: string)
    requires IsRow(row, Pairs(files))
    ensures resource in row.resources <==> IsControlled(files, row.service, resource)
  {
    if resource in row.resources {
      var s :| (s, resource) in Pairs(files) && (s == row.service || row.service == "monolith");
      PairIsControlled(files, s, resource);
    }
    forall file, s | file in files && Controls(file, s, resource)
      ensures (s, resource) in Pairs(files)
    {
      PairIsControlled(files, s, resource);
    }
  }

  ghost predicate HasRow(rows: seq<Row>, service: string) {
    exists row :: row in rows && row.service == service
  }

  lemma RowOf(rows: seq<Row>, service: string)
    requires service in ServicesOf(rows)
    ensures HasRow(rows, service)
  {
    var i :| 0 <= i < |rows| && ServicesOf(rows)[i] == service;
    assert rows[i] in rows && rows[i].service == service;
  }

  // What the manifest of a set of files says: the resources that are controlled, in alphabetical order, service by
  // service and for all of them.
  lemma ManifestSays(files: seq<SourceFile>, rows: seq<Row>, row: Row)
    requires IsManifest(rows, Pairs(files)) && row in rows
    ensures forall x :: x in row.resources <==> IsControlled(files, row.service, x)
    ensures forall i, j | 0 <= i < j < |row.resources| :: ComesBefore(row.resources[i], row.resources[j])
    ensures forall i, j | 0 <= i < j < |rows| :: ComesBefore(rows[i].service, rows[j].service)
    ensures row.service == "monolith" || row.resources != []
    ensures forall file, s, x | file in files && Controls(file, s, x) :: HasRow(rows, s) && HasRow(rows, "monolith")
  {
    forall file, s, x | file in files && Controls(file, s, x)
      ensures HasRow(rows, s) && HasRow(rows, "monolith")
    {
      PairIsControlled(files, s, x);
      RowOf(rows, s);
      RowOf(rows, "monolith");
    }
    forall x
      ensures x in row.resources <==> IsControlled(files, row.service, x)
    {
      RowSays(files, row, x);
    }
    SortedIsAlphabetical(row.resources);
    SortedIsAlphabetical(ServicesOf(rows));
    assert forall i | 0 <= i < |rows| :: ServicesOf(rows)[i] == rows[i].service;
    assert row.service in ServicesOf(rows) by {
      var i :| 0 <= i < |rows| && rows[i] == row;
      assert ServicesOf(rows)[i] == row.service;
    }
  }

  // A controller is malformed when its path has less than three parts, or else when it does not look up one resource.
  lemma MalformedMeans(files: seq<SourceFile>, i: nat)
    requires IsFirstBad(files, i)
    ensures files[i].parts != [] && files[i].parts[|files[i].parts| - 1] == "zz_controller.go"
    ensures if |files[i].parts| <= 2 then FileError(files[i]) == NoService(files[i].parts)
            else FileError(files[i]) == WrongLookups(files[i].parts, |files[i].lookups|) && |files[i].lookups| != 1
    ensures forall j | 0 <= j < i ::
      files[j].parts != [] && files[j].parts[|files[j].parts| - 1] == "zz_controller.go"
      ==> |files[j].parts| >= 3 && |files[j].lookups| == 1
  {
  }

  // Validation and manifest together.
  method GenerateRuntimeTerraformResourceManifest(cluster: seq<SourceFile>, namespaced: seq<SourceFile>)
    returns (r: Result<seq<Row>>)
    ensures r.Ok? <==> AllGood(cluster) && AllGood(namespaced) && Pairs(cluster) == Pairs(namespaced) != {}
    ensures r.Ok? ==> IsManifest(r.value, Pairs(cluster))
    ensures r.Err? ==> IsReason(r.error, cluster, namespaced)
    ensures AllGood(cluster) && Pairs(cluster) == {} ==> r == Err(NoControllers)
    ensures !AllGood(cluster) ==> exists i :: IsFirstBad(cluster, i) && r == Err(FileError(cluster[i]))
    ensures AllGood(cluster) && Pairs(cluster) != {} && !AllGood(namespaced) ==>
      exists i :: IsFirstBad(namespaced, i) && r == Err(FileError(namespaced[i]))
  {
    var collected := CollectResources(cluster);
    if collected.Err? {
      return Err(collected.error);
    }
    var resources := collected.value;
    if resources == map[] {
      return Err(NoControllers);
    }
    var other := CollectResources(namespaced);
    if other.Err? {
      return Err(other.error);
    }
    GroupsDetermine(resources, Pairs(cluster), other.value, Pairs(namespaced));
    AgreementIsEquality(resources, other.value);
    var valid := ValidateNamespaced(resources, other.value);
    if valid.Err? {
      return Err(valid.error);
    }
    var all := Union(resources, Pairs(cluster));
    var rows := WriteRows(resources[MONOLITH := all]);
    r := Ok(rows);
  }
}
