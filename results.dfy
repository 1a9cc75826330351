/** The uniform record every check returns, and the capability probe that
    decides whether a check queries its API at all. */
module Results {
  import opened Values
  import opened Gcp

  /** `{category, check, resources, notes}` as built by `mk_result`. */
  datatype CheckResult = CheckResult(category: string, check: string, resources: seq<Record>, notes: string)

  /** `mk_result(category, check, resources=None, notes=None)`: a missing
      resource list becomes `[]` and missing notes become `""`. Passing an
      empty list or an empty string gives the same result as passing nothing,
      as with Python's `x or default`. */
  function MkResult(category: string, check: string, resources: Option<seq<Record>>, notes: Option<string>): (r: CheckResult)
    ensures r.category == category && r.check == check
    ensures resources.None? ==> r.resources == []
    ensures resources.Some? ==> r.resources == resources.value
    ensures notes.None? ==> r.notes == ""
    ensures notes.Some? ==> r.notes == notes.value
  {
    CheckResult(
      category,
      check,
      match resources case Some(rs) => rs case None => [],
      match notes case Some(n) => n case None => "")
  }

  /** A result that carries no findings and only an explanation. */
  predicate NoteOnly(r: CheckResult, note: string)
  {
    r.resources == [] && r.notes == note
  }

  /** A result that never pairs findings with a note. */
  predicate Clean(r: CheckResult)
  {
    |r.resources| == 0 || |r.notes| == 0
  }

  /** `is_service_enabled`: true exactly when the Service Usage call succeeded
      and reported state `ENABLED`; any exception counts as disabled. */
  function IsServiceEnabled(response: Outcome<Record>): (enabled: bool)
    ensures response.Raised? ==> !enabled
    ensures response.Ok? ==> (enabled <==> "state" in response.value && response.value["state"] == Str("ENABLED"))
  {
    match response
    case Raised(_) => false
    case Ok(resp) => Get(resp, "state") == Str("ENABLED")
  }
}
