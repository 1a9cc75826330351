/** `check_gke_public_nodes`: every GKE cluster with its endpoint and whether
    it has a private cluster configuration. */
module GkeCheck {
  import opened Values
  import opened Gcp
  import opened Results

  const Category := "GKE"
  const CheckName := "GKE clusters"
  const DisabledNote := "GKE API not enabled"

  /** The clusters the check goes on with after its inner `try`: the zonal
      listing; on an `HttpError` the listing by location; if that raises too,
      none. Any other exception from the zonal listing escapes to the outer
      handler. */
  function ListClusters(api: GkeApi): Outcome<seq<Cluster>>
  {
    match api.zonalListing
    case Ok(cs) => Ok(cs)
    case Raised(HttpError(_)) =>
      (match api.locationListing
       case Ok(cs) => Ok(cs)
       case Raised(_) => Ok([]))
    case Raised(OtherError(m)) => Raised(OtherError(m))
  }

  /** `{"cluster": ..., "endpoint": ..., "privateClusterConfig": bool(...)}`. */
  function ClusterEntry(c: Cluster): Record
  {
    map["cluster" := c.name,
        "endpoint" := c.endpoint,
        "privateClusterConfig" := Bool(Truthy(c.privateClusterConfig))]
  }

  /** What `check_gke_public_nodes` returns for the provider `p`. */
  function GkeReport(p: Provider): (r: CheckResult)
    ensures r.category == Category && r.check == CheckName
    ensures Clean(r)
    ensures !IsServiceEnabled(p.probe("container")) ==> NoteOnly(r, DisabledNote)
    ensures IsServiceEnabled(p.probe("container")) && p.gke.client.Raised? ==> NoteOnly(r, p.gke.client.fault.message)
    ensures IsServiceEnabled(p.probe("container")) && p.gke.client.Ok? && p.gke.zonalListing.Ok? ==>
      r.notes == "" && |r.resources| == |p.gke.zonalListing.value| &&
      forall k :: 0 <= k < |r.resources| ==> r.resources[k] == ClusterEntry(p.gke.zonalListing.value[k])
  {
    if !IsServiceEnabled(p.probe("container")) then
      MkResult(Category, CheckName, None, Some(DisabledNote))
    else if p.gke.client.Raised? then
      MkResult(Category, CheckName, None, Some(p.gke.client.fault.message))
    else
      match ListClusters(p.gke)
      case Raised(e) => MkResult(Category, CheckName, None, Some(e.message))
      case Ok(clusters) =>
        MkResult(Category, CheckName, Some(seq(|clusters|, k requires 0 <= k < |clusters| => ClusterEntry(clusters[k]))), None)
  }

  /** When the zonal listing raises an `HttpError`, the clusters come from the
      listing by location; when that raises as well the check reports nothing
      and has no note. */
  lemma FallbackListing(p: Provider)
    requires IsServiceEnabled(p.probe("container")) && p.gke.client.Ok?
    requires p.gke.zonalListing.Raised? && p.gke.zonalListing.fault.HttpError?
    ensures p.gke.locationListing.Raised? ==> NoteOnly(GkeReport(p), "")
    ensures p.gke.locationListing.Ok? ==>
      var r := GkeReport(p);
      r.notes == "" && |r.resources| == |p.gke.locationListing.value| &&
      forall k :: 0 <= k < |r.resources| ==> r.resources[k] == ClusterEntry(p.gke.locationListing.value[k])
  {
  }

  /** Any other exception from the zonal listing becomes the note, and the
      listing by location is not consulted. */
  lemma NonHttpErrorIsReported(p: Provider)
    requires IsServiceEnabled(p.probe("container")) && p.gke.client.Ok?
    requires p.gke.zonalListing.Raised? && p.gke.zonalListing.fault.OtherError?
    ensures NoteOnly(GkeReport(p), p.gke.zonalListing.fault.message)
    ensures forall api: GkeApi :: api.client == p.gke.client && api.zonalListing == p.gke.zonalListing ==>
      GkeReport(p.(gke := api)) == GkeReport(p)
  {
  }

  /** `privateClusterConfig` is reported true exactly when the cluster has a
      configuration object with at least one field. */
  lemma PrivateFlagMeansConfigured(c: Cluster)
    requires c.privateClusterConfig.Null? || c.privateClusterConfig.Obj?
    ensures ClusterEntry(c)["privateClusterConfig"] == Bool(true) <==>
      c.privateClusterConfig.Obj? && c.privateClusterConfig.fields != map[]
    ensures ClusterEntry(c)["cluster"] == c.name && ClusterEntry(c)["endpoint"] == c.endpoint
  {
  }

  /** The loop of `check_gke_public_nodes`. */
  method CheckGkePublicNodes(p: Provider) returns (r: CheckResult)
    ensures r == GkeReport(p)
  {
    if !IsServiceEnabled(p.probe("container")) {
      return MkResult(Category, CheckName, None, Some(DisabledNote));
    }
    if p.gke.client.Raised? {
      return MkResult(Category, CheckName, None, Some(p.gke.client.fault.message));
    }
    var clusters: seq<Cluster> := [];
    match p.gke.zonalListing {
      case Ok(cs) =>
        clusters := cs;
      case Raised(HttpError(_)) =>
        match p.gke.locationListing {
          case Ok(cs) => clusters := cs;
          case Raised(_) => clusters := [];
        }
      case Raised(OtherError(m)) =>
        return MkResult(Category, CheckName, None, Some(m));
    }
    assert ListClusters(p.gke) == Ok(clusters);
    var results: seq<Record> := [];
    for i := 0 to |clusters|
      invariant |results| == i
      invariant forall k :: 0 <= k < i ==> results[k] == ClusterEntry(clusters[k])
    {
      var c := clusters[i];
      var endpoint := c.endpoint;
      var privateConfig := c.privateClusterConfig;
      results := results + [map["cluster" := c.name, "endpoint" := endpoint, "privateClusterConfig" := Bool(Truthy(privateConfig))]];
    }
    r := MkResult(Category, CheckName, Some(results), None);
  }
}
