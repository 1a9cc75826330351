/** `check_buckets_public`: buckets whose IAM policy grants a role to
    `allUsers` or `allAuthenticatedUsers`. */
module BucketCheck {
  import opened Values
  import opened Gcp
  import opened Results

  const Category := "Cloud Storage"
  const CheckName := "Buckets"
  const DisabledNote := "Storage API not enabled"

  /** The two principals that make a binding public. */
  predicate PublicPrincipal(m: string)
  {
    m == "allUsers" || m == "allAuthenticatedUsers"
  }

  /** `any(m in ('allUsers', 'allAuthenticatedUsers') for m in members)`. */
  predicate AnyPublic(members: seq<string>)
  {
    members != [] && (PublicPrincipal(members[0]) || AnyPublic(members[1..]))
  }

  /** The scan finds a public principal exactly when the list holds one. */
  lemma {:induction false} AnyPublicIff(members: seq<string>)
    ensures AnyPublic(members) <==> exists m :: m in members && PublicPrincipal(m)
  {
    if members != [] {
      AnyPublicIff(members[1..]);
      if exists m :: m in members && PublicPrincipal(m) {
        var m :| m in members && PublicPrincipal(m);
        if m != members[0] {
          assert m in members[1..];
        }
      }
    }
  }

  /** A binding that names a public principal among its members. */
  predicate IsPublicBinding(b: Binding)
  {
    AnyPublic(b.members)
  }

  /** The index of the first public binding, if there is one. */
  function FirstPublicBinding(bindings: seq<Binding>): (found: Option<nat>)
    ensures found.None? <==> forall k :: 0 <= k < |bindings| ==> !IsPublicBinding(bindings[k])
    ensures found.Some? ==>
      found.value < |bindings| && IsPublicBinding(bindings[found.value]) &&
      forall k :: 0 <= k < found.value ==> !IsPublicBinding(bindings[k])
  {
    if bindings == [] then None
    else if IsPublicBinding(bindings[0]) then Some(0)
    else match FirstPublicBinding(bindings[1..])
      case None => None
      case Some(i) => Some(i + 1)
  }

  /** `{"bucket": ..., "role": ..., "members": [...]}` for a bucket and the
      binding that exposes it. */
  function BucketEntry(b: Bucket, bind: Binding): Record
  {
    map["bucket" := Str(b.name), "role" := bind.role, "members" := StrList(bind.members)]
  }

  /** The entry reported for one bucket: none when reading its policy raised or
      no binding is public, otherwise the entry for its first public binding. */
  function Exposure(b: Bucket): (e: Option<Record>)
    ensures e.Some? <==> b.policy.Ok? && FirstPublicBinding(b.policy.value).Some?
    ensures e.Some? ==> "bucket" in e.value && e.value["bucket"] == Str(b.name)
    ensures e.Some? ==> e.value == BucketEntry(b, b.policy.value[FirstPublicBinding(b.policy.value).value])
  {
    match b.policy
    case Raised(_) => None
    case Ok(bindings) =>
      match FirstPublicBinding(bindings)
      case None => None
      case Some(k) => Some(BucketEntry(b, bindings[k]))
  }

  function ExposureList(b: Bucket): seq<Record>
  {
    match Exposure(b) case Some(e) => [e] case None => []
  }

  /** The entries of the buckets, in bucket order. */
  function PublicBuckets(buckets: seq<Bucket>): seq<Record>
  {
    if buckets == [] then [] else ExposureList(buckets[0]) + PublicBuckets(buckets[1..])
  }

  lemma {:induction false} PublicBucketsAppend(a: seq<Bucket>, b: seq<Bucket>)
    ensures PublicBuckets(a + b) == PublicBuckets(a) + PublicBuckets(b)
  {
    if a == [] {
      assert a + b == b;
    } else {
      assert (a + b)[1..] == a[1..] + b;
      PublicBucketsAppend(a[1..], b);
    }
  }

  /** The bucket names of a list of entries. */
  function EntryBuckets(entries: seq<Record>): seq<Value>
  {
    seq(|entries|, k requires 0 <= k < |entries| => Get(entries[k], "bucket"))
  }

  function BucketNames(buckets: seq<Bucket>): seq<Value>
  {
    seq(|buckets|, k requires 0 <= k < |buckets| => Str(buckets[k].name))
  }

  lemma EntryBucketsAppend(a: seq<Record>, b: seq<Record>)
    ensures EntryBuckets(a + b) == EntryBuckets(a) + EntryBuckets(b)
  {
  }

  lemma ExposureListName(b: Bucket)
    ensures |ExposureList(b)| <= 1
    ensures multiset(EntryBuckets(ExposureList(b))) <= multiset{Str(b.name)}
  {
    var e := Exposure(b);
    if e.Some? {
      assert EntryBuckets([e.value]) == [Str(b.name)];
    }
  }

  lemma BucketNamesCons(buckets: seq<Bucket>)
    requires buckets != []
    ensures multiset(BucketNames(buckets)) == multiset{Str(buckets[0].name)} + multiset(BucketNames(buckets[1..]))
  {
    assert BucketNames(buckets) == [Str(buckets[0].name)] + BucketNames(buckets[1..]);
  }

  lemma EntryBucketsCons(buckets: seq<Bucket>)
    requires buckets != []
    ensures multiset(EntryBuckets(PublicBuckets(buckets))) ==
      multiset(EntryBuckets(ExposureList(buckets[0]))) + multiset(EntryBuckets(PublicBuckets(buckets[1..])))
  {
    EntryBucketsAppend(ExposureList(buckets[0]), PublicBuckets(buckets[1..]));
  }

  /** Each bucket is reported at most once: no name occurs more often among
      the entries than among the buckets. */
  lemma {:induction false} AtMostOncePerBucket(buckets: seq<Bucket>)
    ensures multiset(EntryBuckets(PublicBuckets(buckets))) <= multiset(BucketNames(buckets))
    ensures |PublicBuckets(buckets)| <= |buckets|
  {
    if buckets != [] {
      AtMostOncePerBucket(buckets[1..]);
      ExposureListName(buckets[0]);
      BucketNamesCons(buckets);
      EntryBucketsCons(buckets);
    }
  }

  /** Every exposed bucket's entry is reported. */
  lemma {:induction false} ExposedIsReported(buckets: seq<Bucket>, k: nat)
    requires k < |buckets| && Exposure(buckets[k]).Some?
    ensures Exposure(buckets[k]).value in PublicBuckets(buckets)
  {
    if k > 0 {
      ExposedIsReported(buckets[1..], k - 1);
      assert buckets[1..][k - 1] == buckets[k];
    }
  }

  /** Every reported entry is the entry of one of the buckets. */
  lemma {:induction false} ReportedIsExposed(buckets: seq<Bucket>, e: Record)
    requires e in PublicBuckets(buckets)
    ensures exists k :: 0 <= k < |buckets| && Exposure(buckets[k]) == Some(e)
  {
    if e in ExposureList(buckets[0]) {
      assert Exposure(buckets[0]) == Some(e);
    } else {
      ReportedIsExposed(buckets[1..], e);
      var k :| 0 <= k < |buckets[1..]| && Exposure(buckets[1..][k]) == Some(e);
      assert Exposure(buckets[k + 1]) == Some(e);
    }
  }

  /** What `check_buckets_public` returns for the provider `p`. */
  function BucketsReport(p: Provider): (r: CheckResult)
    ensures r.category == Category && r.check == CheckName
    ensures Clean(r)
    ensures !IsServiceEnabled(p.probe("storage")) ==> NoteOnly(r, DisabledNote)
    ensures IsServiceEnabled(p.probe("storage")) && p.buckets.Raised? ==> NoteOnly(r, p.buckets.fault.message)
    ensures IsServiceEnabled(p.probe("storage")) && p.buckets.Ok? ==> r.notes == "" && r.resources == PublicBuckets(p.buckets.value)
  {
    if !IsServiceEnabled(p.probe("storage")) then
      MkResult(Category, CheckName, None, Some(DisabledNote))
    else
      match p.buckets
      case Raised(e) => MkResult(Category, CheckName, None, Some(e.message))
      case Ok(buckets) => MkResult(Category, CheckName, Some(PublicBuckets(buckets)), None)
  }

  lemma PublicBucketsSingle(b: Bucket)
    ensures PublicBuckets([b]) == ExposureList(b)
  {
    assert [b][1..] == [];
    assert ExposureList(b) + [] == ExposureList(b);
  }

  lemma PublicBucketsSnoc(buckets: seq<Bucket>, i: nat)
    requires i < |buckets|
    ensures PublicBuckets(buckets[..i + 1]) == PublicBuckets(buckets[..i]) + ExposureList(buckets[i])
  {
    var prefix := buckets[..i];
    assert buckets[..i + 1] == prefix + [buckets[i]];
    PublicBucketsAppend(prefix, [buckets[i]]);
    PublicBucketsSingle(buckets[i]);
  }

  /** The scan of one bucket's bindings, which stops at the first binding
      that names a public principal. */
  method FindPublicBinding(bindings: seq<Binding>) returns (found: Option<nat>)
    ensures found == FirstPublicBinding(bindings)
  {
    found := None;
    for j := 0 to |bindings|
      invariant forall k :: 0 <= k < j ==> !IsPublicBinding(bindings[k])
    {
      var members := bindings[j].members;
      if AnyPublic(members) {
        found := Some(j);
        break;
      }
    }
    var first := FirstPublicBinding(bindings);
    assert first.Some? && first.value < |bindings| ==> !(found.Some? && found.value < first.value);
  }

  /** The loop of `check_buckets_public`: a bucket whose policy read raised is
      skipped; otherwise it is reported with its first public binding. */
  method CheckBucketsPublic(p: Provider) returns (r: CheckResult)
    ensures r == BucketsReport(p)
  {
    if !IsServiceEnabled(p.probe("storage")) {
      return MkResult(Category, CheckName, None, Some(DisabledNote));
    }
    if p.buckets.Raised? {
      return MkResult(Category, CheckName, None, Some(p.buckets.fault.message));
    }
    var buckets := p.buckets.value;
    var results: seq<Record> := [];
    for i := 0 to |buckets|
      invariant results == PublicBuckets(buckets[..i])
    {
      var b := buckets[i];
      PublicBucketsSnoc(buckets, i);
      if b.policy.Raised? {
        continue;
      }
      var bindings := b.policy.value;
      var found := FindPublicBinding(bindings);
      if found.Some? {
        var bind := bindings[found.value];
        results := results + [map["bucket" := Str(b.name), "role" := bind.role, "members" := StrList(bind.members)]];
      }
    }
    assert buckets[..|buckets|] == buckets;
    r := MkResult(Category, CheckName, Some(results), None);
  }
}
