/**
 * The read-only view of the OSGi installer that the web console plugin renders:
 * registered resources, resources with a lifecycle state, resource groups and the
 * installation state snapshot with its three sequences.
 */
module Installer {
  import opened Wrappers

  /** Resource type names of the installer API (InstallableResource.TYPE_*). */
  const TYPE_BUNDLE: string := "bundle"
  const TYPE_CONFIG: string := "config"
  const TYPE_FILE: string := "file"
  const TYPE_PROPERTIES: string := "properties"

  /** Lifecycle states of a resource (the installer API's ResourceState enum). */
  datatype ResourceState = INSTALL | UNINSTALL | INSTALLED | UNINSTALLED | IGNORED

  /** The name of an enum constant, as `toString()` gives it. */
  function StateName(s: ResourceState): string
  {
    match s
    case INSTALL => "INSTALL"
    case UNINSTALL => "UNINSTALL"
    case INSTALLED => "INSTALLED"
    case UNINSTALLED => "UNINSTALLED"
    case IGNORED => "IGNORED"
  }

  /** Distinct states have distinct names. */
  lemma StateNamesDistinct(s: ResourceState, t: ResourceState)
    ensures StateName(s) == StateName(t) <==> s == t
  {
  }

  /**
   * A resource the installer knows about but has not transformed yet: its type, its entity id
   * (possibly with a namespace prefix ending in ':'), its URL, its digest and its priority.
   */
  datatype RegisteredResource = RegisteredResource(
    rtype: string,
    entityId: string,
    url: string,
    digest: string,
    priority: int)

  /**
   * A transformed resource. The two attributes the console reads (install-excluded and
   * install-info) are kept as their `toString()` text, `None` when the attribute is absent.
   */
  datatype Resource = Resource(
    registered: RegisteredResource,
    version: Option<string>,
    state: ResourceState,
    error: Option<string>,
    excluded: Option<string>,
    info: Option<string>,
    lastChange: int)

  /** Competing resources for one entity; the first one is the one the installer acts on. */
  datatype ResourceGroup = ResourceGroup(resources: seq<Resource>, alias: Option<string>)

  /** The snapshot the installer hands out for one request. */
  datatype InstallationState = InstallationState(
    activeResources: seq<ResourceGroup>,
    installedResources: seq<ResourceGroup>,
    untransformedResources: seq<RegisteredResource>)

  /** Every group has a first resource: the renderers take it without checking. */
  predicate AllNonEmpty(gs: seq<ResourceGroup>)
  {
    forall i :: 0 <= i < |gs| ==> |gs[i].resources| > 0
  }

  /** The raw type of each active group's first resource. */
  function FirstTypes(gs: seq<ResourceGroup>): (ts: seq<string>)
    requires AllNonEmpty(gs)
    ensures |ts| == |gs|
  {
    seq(|gs|, i requires 0 <= i < |gs| && AllNonEmpty(gs) => gs[i].resources[0].registered.rtype)
  }

  /** The raw types of the first resources of the non-empty processed groups, in order. */
  function ProcessedTypes(gs: seq<ResourceGroup>): seq<string>
  {
    if gs == [] then []
    else
      var g := gs[|gs| - 1];
      ProcessedTypes(gs[..|gs| - 1]) + (if |g.resources| > 0 then [g.resources[0].registered.rtype] else [])
  }

  predicate AllEmpty(gs: seq<ResourceGroup>)
  {
    forall i :: 0 <= i < |gs| ==> |gs[i].resources| == 0
  }

  /** The entries a processed group is listed with: one per resource, plus one per attribute of the first. */
  function GroupRowCount(g: ResourceGroup): nat
  {
    if |g.resources| == 0 then 0
    else
      |g.resources|
        + (if g.resources[0].excluded.Some? then 1 else 0)
        + (if g.resources[0].info.Some? then 1 else 0)
  }

  function ProcessedRowCount(gs: seq<ResourceGroup>): nat
  {
    if gs == [] then 0 else ProcessedRowCount(gs[..|gs| - 1]) + GroupRowCount(gs[|gs| - 1])
  }

  /** What a processed group adds: its first resource's type and its entries, nothing when it is empty. */
  lemma ProcessedTypesSnoc(gs: seq<ResourceGroup>, g: ResourceGroup)
    ensures ProcessedTypes(gs + [g])
      == ProcessedTypes(gs) + (if |g.resources| > 0 then [g.resources[0].registered.rtype] else [])
    ensures ProcessedRowCount(gs + [g]) == ProcessedRowCount(gs) + GroupRowCount(g)
  {
    assert (gs + [g])[..|gs|] == gs;
  }

  /** The raw types of the untransformed resources. */
  function UntransformedTypes(rs: seq<RegisteredResource>): (ts: seq<string>)
    ensures |ts| == |rs|
  {
    seq(|rs|, i requires 0 <= i < |rs| => rs[i].rtype)
  }
}
