# GCP security audit: a Dafny model of the audit pipeline

The audited program is a small web service. On request it runs five security
checks against a Google Cloud project, one after the other:

- Cloud SQL instances and their IP addresses;
- GKE clusters and whether they have a private configuration;
- storage buckets whose IAM policy grants a role to `allUsers` or
  `allAuthenticatedUsers`;
- the members of the project's `roles/owner` bindings;
- Compute Engine instances, zone by zone.

It collects the five results in a fixed order and flattens them into rows for
a spreadsheet.

This project models that pipeline in `main.py` and proves its properties:

- Every check returns the uniform record `{category, check, resources, notes}`
  that `mk_result` builds.
- A check whose API is disabled, or whose provider call raised, returns data
  rather than raising: no resources and a note. There are three exceptions.
  In GKE, when the zonal listing raises an `HttpError` and the fallback
  listing by location raises too, the result has no resources and an empty
  note. In Cloud Storage, a bucket whose policy read raised is skipped without
  a note, and the other buckets are still reported. In Compute Engine, the
  `compute_v1` import sits outside the `try`, so an `ImportError` would escape
  `check_vms`; that case is not modelled (see "Left out").
- Each check's list-building loop is a Dafny method. It is proved equal to a
  reference function, and the properties are proved about that function.
- `run_all_checks` returns five results in the order Cloud SQL, GKE, Cloud
  Storage, IAM, Compute Engine VM.
- The export emits one row per resource entry, ordered by result and then by
  entry. Results without resources give no rows.

Provider calls are not modelled as network operations. Each call a check makes
is an input of type `Outcome<T>`: either `Ok(payload)` or `Raised(fault)`,
where the fault's `message` stands for `str(e)`. The `Provider` datatype in
`gcp.dfy` bundles these inputs. Its `probe(api)` is the Service Usage response
that `is_service_enabled(api)` reads.

Files:

- `values.dfy`: Python values and dicts (`Value`, `Record`, `dict.get`,
  truthiness).
- `gcp.dfy`: provider payloads and call outcomes.
- `results.dfy`: `mk_result` and `is_service_enabled`.
- `sql_check.dfy`, `gke_check.dfy`, `bucket_check.dfy`, `iam_check.dfy`,
  `vm_check.dfy`: one module per check.
- `audit.dfy`: `run_all_checks`.
- `export.dfy`: the row-flattening loop of `download_excel`.

The checks run one after another inside the request, and nothing catches an
exception that escapes a check. The export merges each resource's fields into
its row as columns.

One property of the code is worth noting. Every result of every check either
has no resources or has an empty note, so every exported row has an empty
`Notes` cell (`Export.ExportedNotesAreEmpty`).

## Model

| member | source | states |
|---|---|---|
| `Results.MkResult` | main.py:50-56 | category and check pass through unchanged; missing resources become `[]` and missing notes become `""` |
| `Results.IsServiceEnabled` | main.py:65-73 | an API counts as enabled only when the Service Usage call succeeded and its `state` is `ENABLED`; any exception means disabled |
| `SqlCheck.SqlReport` | main.py:78-100 | category is always Cloud SQL; the disabled path is named "SQL Instances with public IPs" and the other paths "SQL Instances"; disabled gives no resources and the note "Cloud SQL API not enabled"; a raised listing gives no resources and the exception text; otherwise one entry per instance, in order, with an empty note |
| `SqlCheck.InstanceEntryFields` | main.py:86-97 | an instance entry has exactly the keys instance, region and ipAddresses; it keeps the name and region and lists the instance's IP mappings in order, each as ipAddress and type |
| `SqlCheck.CheckSqlPublicIps` | main.py:78-100 | the nested loops build exactly `SqlReport` |
| `GkeCheck.GkeReport` | main.py:102-129 | always category GKE and check "GKE clusters"; disabled gives the note "GKE API not enabled"; a client build failure gives its exception text; a successful zonal listing gives one entry per cluster, in order, with no note |
| `GkeCheck.FallbackListing` | main.py:108-116 | after an `HttpError` from the zonal listing, clusters come from the listing by location; if that also raises, the result has no resources and an empty note |
| `GkeCheck.NonHttpErrorIsReported` | main.py:108-129 | any other exception from the zonal listing becomes the note, and the result does not depend on the listing by location |
| `GkeCheck.PrivateFlagMeansConfigured` | main.py:119-126 | `privateClusterConfig` is reported true exactly when the cluster has a non-empty configuration object; name and endpoint are passed through |
| `GkeCheck.CheckGkePublicNodes` | main.py:102-129 | the try/fallback logic and the loop build exactly `GkeReport` |
| `BucketCheck.AnyPublicIff` | main.py:144 | the scan of a binding's members finds a public principal exactly when one of them is `allUsers` or `allAuthenticatedUsers` |
| `BucketCheck.FirstPublicBinding` | main.py:142-146 | finds the first binding with a member `allUsers` or `allAuthenticatedUsers`; returns none exactly when no binding has one |
| `BucketCheck.Exposure` | main.py:139-148 | a bucket is reported exactly when its policy was read and some binding is public; the entry names the bucket and is built from its first public binding |
| `BucketCheck.PublicBucketsAppend` | main.py:137-149 | entries follow bucket order: the entries of two bucket lists joined are the two entry lists joined |
| `BucketCheck.AtMostOncePerBucket` | main.py:138-148 | no bucket name occurs more often among the entries than among the buckets, and there are no more entries than buckets |
| `BucketCheck.ExposedIsReported` | main.py:138-148 | every exposed bucket's entry is in the output |
| `BucketCheck.ReportedIsExposed` | main.py:138-148 | every output entry is the entry of some listed bucket |
| `BucketCheck.BucketsReport` | main.py:131-151 | disabled gives the note "Storage API not enabled"; a failed bucket listing gives its exception text; otherwise the entries of the exposed buckets, with an empty note |
| `BucketCheck.FindPublicBinding` | main.py:142-146 | the binding loop, which stops at the first public binding, finds exactly `FirstPublicBinding` |
| `BucketCheck.CheckBucketsPublic` | main.py:131-151 | the bucket loop, which skips buckets whose policy read raised, builds exactly `BucketsReport` |
| `IamCheck.OwnerMembersAppend` | main.py:160-162 | owners are listed binding by binding, in binding order |
| `IamCheck.OwnerMemberIff` | main.py:159-163 | a principal is listed exactly when some `roles/owner` binding names it |
| `IamCheck.OwnerDuplicatesKept` | main.py:160-162 | a principal appears once per occurrence in the owner bindings; duplicates are kept |
| `IamCheck.OwnersReport` | main.py:153-166 | disabled gives the note "CRM API not enabled"; a failed policy read gives its exception text; otherwise one `{"member": o}` entry per listed owner, in order, with an empty note |
| `IamCheck.CheckServiceAccountsWithOwner` | main.py:153-166 | the extend loop and the list comprehension build exactly `OwnersReport` |
| `VmCheck.LastSegmentIsFinalSegment` | main.py:180 | `split('/')[-1]` contains no `/`, is a suffix of the input, and is preceded by a `/` unless it is the whole input |
| `VmCheck.LastSegmentAfterSlash` | main.py:180 | the last segment of a prefix, a `/` and a text without `/` is that text |
| `VmCheck.FailsIffSomeZoneFails` | main.py:174-184 | the instance listing fails exactly when some zone's listing raised |
| `VmCheck.FirstFailingZone` | main.py:174-184 | a failed instance listing carries the exception of the first zone whose listing raised |
| `VmCheck.AllZonesListed` | main.py:174-181 | when every zone lists, the listing succeeds with as many entries as instances |
| `VmCheck.InstancePosition` | main.py:174-181 | when every zone lists, instance `j` of zone `i` gives the entry right after those of all earlier zones, built from that zone's name and that instance |
| `VmCheck.VmReport` | main.py:168-184 | no capability probe; a failed zone listing or zone instance listing gives its exception text as the only output; otherwise all entries, with an empty note |
| `VmCheck.CheckVms` | main.py:168-184 | the nested loops with early exit on the first failing zone build exactly `VmReport` |
| `Audit.RunAllChecks` | main.py:189-196 | exactly five results, in the category order Cloud SQL, GKE, Cloud Storage, IAM, Compute Engine VM |
| `Audit.CheckNames` | main.py:189-196 | the five results carry their checks' names; only the SQL name depends on whether its API is enabled |
| `Audit.AllResultsClean` | main.py:189-196 | no result pairs resources with a note |
| `Audit.SqlFailureStaysInItsSlot` | main.py:189-196 | whatever the SQL listing returns, the other four results are unchanged |
| `Audit.ZoneFailureStaysInItsSlot` | main.py:189-196 | whatever the zone listing returns, the first four results are unchanged |
| `Audit.NothingEnabled` | main.py:189-196 | with every API disabled and the zone listing failing, each result carries only its fixed note or the fault text |
| `Export.MakeRow` | main.py:213-215 | a row has the resource's keys plus Category, Check and Notes; resource fields override Category and Check; Notes is always the parent's notes |
| `Export.FlattenAppend` | main.py:210-216 | the rows of joined result lists are the joined row lists |
| `Export.RowCount` | main.py:211-216 | there is exactly one row per resource entry over all results |
| `Export.RowPosition` | main.py:211-216 | entry `j` of result `i` gives the row after the rows of all earlier results |
| `Export.RowOrigin` | main.py:211-216 | every row is the row of some resource entry of some result |
| `Export.NoteOnlyResultsVanish` | main.py:212 | results without resources contribute no rows; if no result has resources there are no rows |
| `Export.FlattenResults` | main.py:210-216 | the nested loop, with the dict update order, builds exactly `Flatten` |
| `Export.CleanResultsGiveEmptyNotes` | main.py:210-216 | when no result pairs resources with a note, every row has an empty Notes cell |
| `Export.ExportedNotesAreEmpty` | main.py:207-216 | every row exported from an audit has an empty Notes cell |
| `Export.DownloadRows` | main.py:206-216 | running the five check methods and then the flattening loop gives the rows of `Flatten(RunAllChecks(p))` |

## Left out

- The Flask app, its routes and the HTML template: presentation.
- The pandas DataFrame, the Excel serialisation, `BytesIO` and `send_file`: a
  foreign library. The model stops at the list of row dicts.
- The timestamped file name: it depends on the wall clock.
- Credentials, `PROJECT_ID`, `discovery.build`, `storage.Client` and the
  compute clients are network clients. Each call is an `Outcome` input, and a
  failed client build is folded into the outcome of the call that follows it.
  GKE is the exception: its client build failure goes to the outer handler,
  not to the fallback listing, so it is a separate input.
- Payload shapes: provider payloads are taken in their documented shapes.
  Scalar fields are `Value`, with `Null` for an absent key. List fields are
  sequences, so an absent list and an empty one are the same input. A
  malformed payload, such as a non-list where a list is expected, would raise
  inside the check with a Python message that the model cannot reproduce.
- Dict key order: it decides the spreadsheet's column order, and Dafny maps
  are unordered.
- Member order: bucket binding members are a set in the storage library.
  `list(...)` of it is taken in the order the provider gives.
- Pagination: compute listings are paged iterators. A listing that raises
  part-way discards the whole check's entries, so a listing is modelled as all
  or nothing.
- `check_vms` imports `compute_v1` outside its `try`. An `ImportError` would
  escape `check_vms` and `run_all_checks` and fail the request. This is not
  modelled.
- The SQL and GKE checks report every instance and every cluster, whatever
  their IP type or endpoint. This is modelled as written; the check names do
  not narrow it.
