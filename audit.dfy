/** `run_all_checks`: the five checks, one after the other, in a fixed order. */
module Audit {
  import opened Values
  import opened Gcp
  import opened Results
  import SqlCheck
  import GkeCheck
  import BucketCheck
  import IamCheck
  import VmCheck

  /** The categories of the results, in the order they are returned. */
  const Categories: seq<string> :=
    [SqlCheck.Category, GkeCheck.Category, BucketCheck.Category, IamCheck.Category, VmCheck.Category]

  /** The results of one audit of the provider `p`, one per category in the
      order of `Categories`. */
  function RunAllChecks(p: Provider): (results: seq<CheckResult>)
    ensures |results| == |Categories| == 5
    ensures results[0].category == Categories[0] && results[1].category == Categories[1]
    ensures results[2].category == Categories[2] && results[3].category == Categories[3]
    ensures results[4].category == Categories[4]
  {
    [SqlCheck.SqlReport(p),
     GkeCheck.GkeReport(p),
     BucketCheck.BucketsReport(p),
     IamCheck.OwnersReport(p),
     VmCheck.VmReport(p)]
  }

  /** The check names of the five results; only the SQL one depends on the
      capability probe. */
  lemma CheckNames(p: Provider)
    ensures var results := RunAllChecks(p);
      (results[0].check == SqlCheck.CheckName || results[0].check == SqlCheck.DisabledCheckName) &&
      results[1].check == GkeCheck.CheckName && results[2].check == BucketCheck.CheckName &&
      results[3].check == IamCheck.CheckName && results[4].check == VmCheck.CheckName
  {
  }

  /** No result carries both resources and a note. */
  lemma AllResultsClean(p: Provider)
    ensures forall r :: r in RunAllChecks(p) ==> Clean(r)
  {
    var sql, gke, buckets := SqlCheck.SqlReport(p), GkeCheck.GkeReport(p), BucketCheck.BucketsReport(p);
    var owners, vms := IamCheck.OwnersReport(p), VmCheck.VmReport(p);
    assert Clean(sql) && Clean(gke) && Clean(buckets) && Clean(owners) && Clean(vms);
    assert RunAllChecks(p) == [sql, gke, buckets, owners, vms];
  }

  /** A check's failure stays in its own slot: whatever the SQL listing
      returns, every other check's result is unchanged. */
  lemma SqlFailureStaysInItsSlot(p: Provider, sql: Outcome<seq<SqlInstance>>)
    ensures RunAllChecks(p.(sql := sql))[1..] == RunAllChecks(p)[1..]
  {
    var q := p.(sql := sql);
    assert GkeCheck.GkeReport(q) == GkeCheck.GkeReport(p);
    assert BucketCheck.BucketsReport(q) == BucketCheck.BucketsReport(p);
    assert IamCheck.OwnersReport(q) == IamCheck.OwnersReport(p);
    assert VmCheck.VmReport(q) == VmCheck.VmReport(p);
  }

  /** The same for the zone listing of the VM check, which has the last slot. */
  lemma ZoneFailureStaysInItsSlot(p: Provider, zones: Outcome<seq<Zone>>)
    ensures RunAllChecks(p.(zones := zones))[..4] == RunAllChecks(p)[..4]
  {
    var z := p.(zones := zones);
    assert SqlCheck.SqlReport(z) == SqlCheck.SqlReport(p);
    assert GkeCheck.GkeReport(z) == GkeCheck.GkeReport(p);
    assert BucketCheck.BucketsReport(z) == BucketCheck.BucketsReport(p);
    assert IamCheck.OwnersReport(z) == IamCheck.OwnersReport(p);
  }

  /** With every API disabled and the zone listing failing, each result is a
      fixed note and nothing else. */
  lemma NothingEnabled(p: Provider)
    requires forall api :: !IsServiceEnabled(p.probe(api))
    requires p.zones.Raised?
    ensures var results := RunAllChecks(p);
      NoteOnly(results[0], SqlCheck.DisabledNote) &&
      results[0].check == SqlCheck.DisabledCheckName &&
      NoteOnly(results[1], GkeCheck.DisabledNote) &&
      NoteOnly(results[2], BucketCheck.DisabledNote) &&
      NoteOnly(results[3], IamCheck.DisabledNote) &&
      NoteOnly(results[4], p.zones.fault.message)
  {
    assert !IsServiceEnabled(p.probe("sqladmin"));
    assert !IsServiceEnabled(p.probe("container"));
    assert !IsServiceEnabled(p.probe("storage"));
    assert !IsServiceEnabled(p.probe("cloudresourcemanager"));
  }
}
