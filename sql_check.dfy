/** `check_sql_public_ips`: every Cloud SQL instance with its region and IP list. */
module SqlCheck {
  import opened Values
  import opened Gcp
  import opened Results

  const Category := "Cloud SQL"
  /** The disabled path names the check differently from the other two paths. */
  const DisabledCheckName := "SQL Instances with public IPs"
  const CheckName := "SQL Instances"
  const DisabledNote := "Cloud SQL API not enabled"

  /** `{"ipAddress": ..., "type": ...}` for one IP mapping. */
  function IpEntry(ip: IpMapping): Record
  {
    map["ipAddress" := ip.ipAddress, "type" := ip.ipType]
  }

  /** `{"instance": ..., "region": ..., "ipAddresses": [...]}` for one instance. */
  function InstanceEntry(inst: SqlInstance): Record
  {
    map["instance" := inst.name,
        "region" := inst.region,
        "ipAddresses" := Arr(seq(|inst.ipAddresses|, k requires 0 <= k < |inst.ipAddresses| => Obj(IpEntry(inst.ipAddresses[k]))))]
  }

  /** What `check_sql_public_ips` returns for the provider `p`. */
  function SqlReport(p: Provider): (r: CheckResult)
    ensures r.category == Category
    ensures r.check == if IsServiceEnabled(p.probe("sqladmin")) then CheckName else DisabledCheckName
    ensures Clean(r)
    ensures !IsServiceEnabled(p.probe("sqladmin")) ==> NoteOnly(r, DisabledNote)
    ensures IsServiceEnabled(p.probe("sqladmin")) && p.sql.Raised? ==> NoteOnly(r, p.sql.fault.message)
    ensures IsServiceEnabled(p.probe("sqladmin")) && p.sql.Ok? ==>
      r.notes == "" && |r.resources| == |p.sql.value| &&
      forall k :: 0 <= k < |p.sql.value| ==> r.resources[k] == InstanceEntry(p.sql.value[k])
  {
    if !IsServiceEnabled(p.probe("sqladmin")) then
      MkResult(Category, DisabledCheckName, None, Some(DisabledNote))
    else
      match p.sql
      case Raised(e) => MkResult(Category, CheckName, None, Some(e.message))
      case Ok(items) =>
        MkResult(Category, CheckName, Some(seq(|items|, k requires 0 <= k < |items| => InstanceEntry(items[k]))), None)
  }

  /** Every reported instance keeps its name and region and lists exactly its
      IP mappings, in the provider's order. */
  lemma InstanceEntryFields(inst: SqlInstance)
    ensures InstanceEntry(inst).Keys == {"instance", "region", "ipAddresses"}
    ensures InstanceEntry(inst)["instance"] == inst.name && InstanceEntry(inst)["region"] == inst.region
    ensures var ips := InstanceEntry(inst)["ipAddresses"];
      ips.Arr? && |ips.items| == |inst.ipAddresses| &&
      forall k :: 0 <= k < |ips.items| ==>
        ips.items[k] == Obj(map["ipAddress" := inst.ipAddresses[k].ipAddress, "type" := inst.ipAddresses[k].ipType])
  {
  }

  /** The loop of `check_sql_public_ips`. */
  method CheckSqlPublicIps(p: Provider) returns (r: CheckResult)
    ensures r == SqlReport(p)
  {
    if !IsServiceEnabled(p.probe("sqladmin")) {
      return MkResult(Category, DisabledCheckName, None, Some(DisabledNote));
    }
    match p.sql {
      case Raised(e) =>
        r := MkResult(Category, CheckName, None, Some(e.message));
      case Ok(items) =>
        var public: seq<Record> := [];
        for i := 0 to |items|
          invariant |public| == i
          invariant forall k :: 0 <= k < i ==> public[k] == InstanceEntry(items[k])
        {
          var inst := items[i];
          var ips: seq<Value> := [];
          for j := 0 to |inst.ipAddresses|
            invariant |ips| == j
            invariant forall k :: 0 <= k < j ==> ips[k] == Obj(IpEntry(inst.ipAddresses[k]))
          {
            var ip := inst.ipAddresses[j];
            ips := ips + [Obj(map["ipAddress" := ip.ipAddress, "type" := ip.ipType])];
          }
          assert ips == seq(|inst.ipAddresses|, k requires 0 <= k < |inst.ipAddresses| => Obj(IpEntry(inst.ipAddresses[k])));
          public := public + [map["instance" := inst.name, "region" := inst.region, "ipAddresses" := Arr(ips)]];
        }
        r := MkResult(Category, CheckName, Some(public), None);
    }
  }
}
