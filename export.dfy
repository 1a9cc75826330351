/** The flattening loop of `download_excel`: one row per resource entry. */
module Export {
  import opened Values
  import opened Gcp
  import opened Results
  import Audit
  import SqlCheck
  import GkeCheck
  import BucketCheck
  import IamCheck
  import VmCheck

  /** The row for one resource entry: `Category` and `Check` first, then the
      entry's own fields over them, then `Notes` over everything. */
  function MakeRow(item: CheckResult, resource: Record): (row: Record)
    ensures row.Keys == resource.Keys + {"Category", "Check", "Notes"}
    ensures row["Notes"] == Str(item.notes)
    ensures forall k :: k in resource && k != "Notes" ==> row[k] == resource[k]
    ensures "Category" !in resource ==> row["Category"] == Str(item.category)
    ensures "Check" !in resource ==> row["Check"] == Str(item.check)
  {
    (map["Category" := Str(item.category), "Check" := Str(item.check)] + resource)["Notes" := Str(item.notes)]
  }

  /** The rows of one result, in resource order. */
  function RowsOf(item: CheckResult): seq<Record>
  {
    seq(|item.resources|, j requires 0 <= j < |item.resources| => MakeRow(item, item.resources[j]))
  }

  /** The rows of all results, result by result. */
  function Flatten(results: seq<CheckResult>): seq<Record>
  {
    if results == [] then [] else RowsOf(results[0]) + Flatten(results[1..])
  }

  /** The number of resource entries over all results. */
  function TotalResources(results: seq<CheckResult>): nat
  {
    if results == [] then 0 else |results[0].resources| + TotalResources(results[1..])
  }

  lemma {:induction false} FlattenAppend(a: seq<CheckResult>, b: seq<CheckResult>)
    ensures Flatten(a + b) == Flatten(a) + Flatten(b)
  {
    if a == [] {
      assert a + b == b;
    } else {
      assert (a + b)[1..] == a[1..] + b;
      FlattenAppend(a[1..], b);
    }
  }

  /** One row per resource entry. */
  lemma {:induction false} RowCount(results: seq<CheckResult>)
    ensures |Flatten(results)| == TotalResources(results)
  {
    if results != [] {
      RowCount(results[1..]);
    }
  }

  /** Rows are ordered by result and then by resource: the `j`-th entry of the
      `i`-th result gives the row after those of all earlier results. */
  lemma RowPosition(results: seq<CheckResult>, i: nat, j: nat)
    requires i < |results| && j < |results[i].resources|
    ensures TotalResources(results[..i]) + j < |Flatten(results)|
    ensures Flatten(results)[TotalResources(results[..i]) + j] == MakeRow(results[i], results[i].resources[j])
  {
    FlattenAppend(results[..i], results[i..]);
    assert results[..i] + results[i..] == results;
    assert results[i..][1..] == results[i + 1..];
    RowCount(results[..i]);
  }

  /** Every row is the row of some resource entry of some result. */
  lemma {:induction false} RowOrigin(results: seq<CheckResult>)
    ensures forall row :: row in Flatten(results) ==>
      exists i, j :: 0 <= i < |results| && 0 <= j < |results[i].resources| &&
        row == MakeRow(results[i], results[i].resources[j])
  {
    if results != [] {
      RowOrigin(results[1..]);
      forall row | row in Flatten(results)
        ensures exists i, j ::
          0 <= i < |results| && 0 <= j < |results[i].resources| && row == MakeRow(results[i], results[i].resources[j])
      {
        if row in RowsOf(results[0]) {
          var j :| 0 <= j < |results[0].resources| && RowsOf(results[0])[j] == row;
          assert row == MakeRow(results[0], results[0].resources[j]);
        } else {
          assert row in Flatten(results[1..]);
          var i, j :| 0 <= i < |results[1..]| && 0 <= j < |results[1..][i].resources| &&
            row == MakeRow(results[1..][i], results[1..][i].resources[j]);
          assert results[1..][i] == results[i + 1];
        }
      }
    }
  }

  /** The results that have at least one resource entry, in order. */
  function WithFindings(results: seq<CheckResult>): seq<CheckResult>
  {
    if results == [] then []
    else (if results[0].resources != [] then [results[0]] else []) + WithFindings(results[1..])
  }

  /** Results with no resources, such as note-only ones from a disabled API
      or a caught exception, contribute no rows at all. */
  lemma {:induction false} NoteOnlyResultsVanish(results: seq<CheckResult>)
    ensures Flatten(results) == Flatten(WithFindings(results))
    ensures (forall k :: 0 <= k < |results| ==> results[k].resources == []) ==> Flatten(results) == []
  {
    if results != [] {
      NoteOnlyResultsVanish(results[1..]);
      var head := if results[0].resources != [] then [results[0]] else [];
      FlattenAppend(head, WithFindings(results[1..]));
      if results[0].resources == [] {
        assert RowsOf(results[0]) == [];
        assert Flatten(head) == [];
      } else {
        assert Flatten(head) == RowsOf(results[0]) + Flatten([]);
      }
      if forall k :: 0 <= k < |results| ==> results[k].resources == [] {
        assert forall k :: 0 <= k < |results[1..]| ==> results[1..][k] == results[k + 1];
        assert RowsOf(results[0]) == [];
      }
    }
  }

  lemma FlattenSnoc(results: seq<CheckResult>, i: nat)
    requires i < |results|
    ensures Flatten(results[..i + 1]) == Flatten(results[..i]) + RowsOf(results[i])
  {
    FlattenAppend(results[..i], [results[i]]);
    assert results[..i + 1] == results[..i] + [results[i]];
    assert Flatten([results[i]]) == RowsOf(results[i]) + Flatten([]);
  }

  lemma RowsOfSnoc(item: CheckResult, j: nat)
    requires j < |item.resources|
    ensures RowsOf(item)[..j + 1] == RowsOf(item)[..j] + [MakeRow(item, item.resources[j])]
  {
    assert RowsOf(item)[..j + 1] == RowsOf(item)[..j] + [RowsOf(item)[j]];
  }

  /** The flattening loop of `download_excel`. */
  method FlattenResults(results: seq<CheckResult>) returns (rows: seq<Record>)
    ensures rows == Flatten(results)
  {
    rows := [];
    for i := 0 to |results|
      invariant rows == Flatten(results[..i])
    {
      var item := results[i];
      FlattenSnoc(results, i);
      ghost var before := rows;
      for j := 0 to |item.resources|
        invariant rows == before + RowsOf(item)[..j]
      {
        var r := item.resources[j];
        var row := map["Category" := Str(item.category), "Check" := Str(item.check)];
        row := row + r;
        row := row["Notes" := Str(item.notes)];
        RowsOfSnoc(item, j);
        rows := rows + [row];
      }
      assert RowsOf(item)[..|item.resources|] == RowsOf(item);
    }
    assert results[..|results|] == results;
  }

  /** When no result carries both resources and a note, every row's `Notes`
      cell is empty. */
  lemma CleanResultsGiveEmptyNotes(results: seq<CheckResult>)
    requires forall r :: r in results ==> Clean(r)
    ensures forall row :: row in Flatten(results) ==> "Notes" in row && row["Notes"] == Str("")
  {
    RowOrigin(results);
    forall row | row in Flatten(results) ensures "Notes" in row && row["Notes"] == Str("") {
      var i, j :| 0 <= i < |results| && 0 <= j < |results[i].resources| &&
        row == MakeRow(results[i], results[i].resources[j]);
      assert results[i] in results;
    }
  }

  /** Every exported row of an audit has an empty `Notes` cell: a check only
      sets a note when it reports no resources, and such results give no rows. */
  lemma ExportedNotesAreEmpty(p: Provider)
    ensures forall row :: row in Flatten(Audit.RunAllChecks(p)) ==> "Notes" in row && row["Notes"] == Str("")
  {
    Audit.AllResultsClean(p);
    CleanResultsGiveEmptyNotes(Audit.RunAllChecks(p));
  }

  /** `download_excel` up to the rows handed to the spreadsheet writer: run
      the five checks in order, then flatten. */
  method DownloadRows(p: Provider) returns (rows: seq<Record>)
    ensures rows == Flatten(Audit.RunAllChecks(p))
  {
    var sql := SqlCheck.CheckSqlPublicIps(p);
    var gke := GkeCheck.CheckGkePublicNodes(p);
    var buckets := BucketCheck.CheckBucketsPublic(p);
    var owners := IamCheck.CheckServiceAccountsWithOwner(p);
    var vms := VmCheck.CheckVms(p);
    rows := FlattenResults([sql, gke, buckets, owners, vms]);
  }
}
