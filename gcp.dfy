/** What the cloud provider hands to the checks. Network clients are not
    modelled: each call the checks make is replaced by its outcome, either the
    payload it returned or the exception it raised. */
module Gcp {
  import opened Values

  /** An exception raised by a provider call; `message` is its `str(e)`.
      Only the GKE check tells an `HttpError` apart from other exceptions. */
  datatype Fault = HttpError(message: string) | OtherError(message: string)

  /** The outcome of one provider call. */
  datatype Outcome<T> = Ok(value: T) | Raised(fault: Fault)

  /** An entry of a Cloud SQL instance's `ipAddresses` list. */
  datatype IpMapping = IpMapping(ipAddress: Value, ipType: Value)

  /** A Cloud SQL instance as listed by the SQL Admin API; an absent
      `ipAddresses` list is the empty one. */
  datatype SqlInstance = SqlInstance(name: Value, region: Value, ipAddresses: seq<IpMapping>)

  /** A GKE cluster as listed by the container API. */
  datatype Cluster = Cluster(name: Value, endpoint: Value, privateClusterConfig: Value)

  /** An IAM policy binding; an absent `members` list is the empty one. */
  datatype Binding = Binding(role: Value, members: seq<string>)

  /** A storage bucket with the outcome of reading its IAM policy. */
  datatype Bucket = Bucket(name: string, policy: Outcome<seq<Binding>>)

  /** A Compute Engine instance; `machineType` is the full resource URL. */
  datatype Vm = Vm(name: string, status: string, machineType: string)

  /** A zone with the outcome of listing its instances. */
  datatype Zone = Zone(name: string, instances: Outcome<seq<Vm>>)

  /** The calls of the GKE check: building the client, the zonal listing
      (`zones/-`) and the fallback listing by location (`locations/-`). */
  datatype GkeApi = GkeApi(
    client: Outcome<()>,
    zonalListing: Outcome<seq<Cluster>>,
    locationListing: Outcome<seq<Cluster>>)

  /** Everything the five checks read from the provider.
      `probe(api)` is the Service Usage response for `<api>.googleapis.com`;
      `sql` covers building the SQL Admin client and listing instances;
      `buckets` covers building the storage client and listing buckets;
      `iamPolicy` covers building the resource manager client and reading the
      project policy; `zones` covers building the compute clients and listing
      zones. */
  datatype Provider = Provider(
    probe: string -> Outcome<Record>,
    sql: Outcome<seq<SqlInstance>>,
    gke: GkeApi,
    buckets: Outcome<seq<Bucket>>,
    iamPolicy: Outcome<seq<Binding>>,
    zones: Outcome<seq<Zone>>)
}
