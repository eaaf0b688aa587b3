// Which API package the resources of a group live in.
module ApiPackages {
  datatype Scope = Cluster | Namespaced

  datatype ApiPackage = ApiPackage(scope: Scope, service: string, version: string)

  datatype Result = Ok(pkg: ApiPackage) | UnsupportedGroup(group: string) | NoServiceInGroup(group: string)

  const CLUSTER_SUFFIX := ".oci.upbound.io"
  const NAMESPACED_SUFFIX := ".oci.m.upbound.io"

  function Suffix(scope: Scope): string {
    if scope == Cluster then CLUSTER_SUFFIX else NAMESPACED_SUFFIX
  }

  predicate HasSuffix(s: string, suffix: string) {
    |s| >= |suffix| && s[|s| - |suffix|..] == suffix
  }

  function TrimSuffix(s: string, suffix: string): string {
    if HasSuffix(s, suffix) then s[..|s| - |suffix|] else s
  }

  function ApiPackageForGroup(group: string, version: string): Result {
    if HasSuffix(group, NAMESPACED_SUFFIX) then ServicePackage(group, Namespaced, version)
    else if HasSuffix(group, CLUSTER_SUFFIX) then ServicePackage(group, Cluster, version)
    else UnsupportedGroup(group)
  }

  function ServicePackage(group: string, scope: Scope, version: string): Result {
    var service := TrimSuffix(group, Suffix(scope));
    if service == "" || '.' in service then NoServiceInGroup(group) else Ok(ApiPackage(scope, service, version))
  }

  lemma SuffixesDiffer(s: string, t: string)
    ensures s + CLUSTER_SUFFIX != t + NAMESPACED_SUFFIX
  {
    var a, b := s + CLUSTER_SUFFIX, t + NAMESPACED_SUFFIX;
    if |a| == |b| {
      assert a[|a| - 12] == CLUSTER_SUFFIX[3] == 'i';
      assert b[|b| - 12] == NAMESPACED_SUFFIX[5] == 'm';
    }
  }

  lemma SuffixSplits(group: string, suffix: string)
    ensures HasSuffix(group, suffix) ==> group == TrimSuffix(group, suffix) + suffix
    ensures forall s :: group == s + suffix ==> HasSuffix(group, suffix) && TrimSuffix(group, suffix) == s
  {
  }

  // A group with neither suffix is not supported; one with nothing or with a dot before its suffix has no service.
  lemma OtherGroupsAreRejected(group: string, version: string)
    ensures ApiPackageForGroup(group, version) == UnsupportedGroup(group)
            <==> forall s :: group != s + ".oci.upbound.io" && group != s + ".oci.m.upbound.io"
    ensures ApiPackageForGroup(group, version) == NoServiceInGroup(group)
            <==> exists s :: (s == "" || '.' in s)
                   && (group == s + ".oci.upbound.io" || group == s + ".oci.m.upbound.io")
  {
    SuffixSplits(group, CLUSTER_SUFFIX);
    SuffixSplits(group, NAMESPACED_SUFFIX);
    SuffixesDiffer(TrimSuffix(group, CLUSTER_SUFFIX), TrimSuffix(group, NAMESPACED_SUFFIX));
  }

  // A group belongs to a package exactly when it spells the package's service and the suffix of its scope.
  lemma GroupsSpellPackages(group: string, version: string, pkg: ApiPackage)
    ensures ApiPackageForGroup(group, version) == Ok(pkg)
            <==> group == pkg.service + (if pkg.scope == Cluster then ".oci.upbound.io" else ".oci.m.upbound.io")
                 && pkg.service != "" && '.' !in pkg.service && pkg.version == version
  {
    SuffixSplits(group, CLUSTER_SUFFIX);
    SuffixSplits(group, NAMESPACED_SUFFIX);
    SuffixesDiffer(TrimSuffix(group, CLUSTER_SUFFIX), TrimSuffix(group, NAMESPACED_SUFFIX));
  }
}
