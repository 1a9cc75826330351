/** `check_service_accounts_with_owner`: every member of a `roles/owner`
    binding of the project's IAM policy. */
module IamCheck {
  import opened Values
  import opened Gcp
  import opened Results

  const Category := "IAM"
  const CheckName := "Service Accounts with roles/owner"
  const DisabledNote := "CRM API not enabled"
  const OwnerRole := "roles/owner"

  predicate IsOwnerBinding(b: Binding)
  {
    b.role == Str(OwnerRole)
  }

  /** The members of the owner bindings, in binding order and then member
      order, duplicates kept. */
  function OwnerMembers(bindings: seq<Binding>): seq<string>
  {
    if bindings == [] then []
    else (if IsOwnerBinding(bindings[0]) then bindings[0].members else []) + OwnerMembers(bindings[1..])
  }

  /** Owners are listed binding by binding. */
  lemma {:induction false} OwnerMembersAppend(a: seq<Binding>, b: seq<Binding>)
    ensures OwnerMembers(a + b) == OwnerMembers(a) + OwnerMembers(b)
  {
    if a == [] {
      assert a + b == b;
    } else {
      assert (a + b)[1..] == a[1..] + b;
      OwnerMembersAppend(a[1..], b);
    }
  }

  /** A principal is listed exactly when some owner binding names it. */
  lemma {:induction false} OwnerMemberIff(bindings: seq<Binding>, m: string)
    ensures m in OwnerMembers(bindings) <==>
      exists k :: 0 <= k < |bindings| && IsOwnerBinding(bindings[k]) && m in bindings[k].members
  {
    if bindings != [] {
      OwnerMemberIff(bindings[1..], m);
      if m in OwnerMembers(bindings[1..]) {
        var k :| 0 <= k < |bindings[1..]| && IsOwnerBinding(bindings[1..][k]) && m in bindings[1..][k].members;
        assert bindings[k + 1] == bindings[1..][k];
      }
      if exists k :: 0 <= k < |bindings| && IsOwnerBinding(bindings[k]) && m in bindings[k].members {
        var k :| 0 <= k < |bindings| && IsOwnerBinding(bindings[k]) && m in bindings[k].members;
        if k > 0 {
          assert bindings[1..][k - 1] == bindings[k];
        }
      }
    }
  }

  /** A principal named by several owner bindings is listed once per binding. */
  lemma {:induction false} OwnerDuplicatesKept(bindings: seq<Binding>, m: string)
    ensures multiset(OwnerMembers(bindings))[m] ==
      OwnerOccurrences(bindings, m)
  {
    if bindings != [] {
      OwnerDuplicatesKept(bindings[1..], m);
    }
  }

  /** How often `m` occurs in the member lists of the owner bindings. */
  function OwnerOccurrences(bindings: seq<Binding>, m: string): nat
  {
    if bindings == [] then 0
    else (if IsOwnerBinding(bindings[0]) then multiset(bindings[0].members)[m] else 0) + OwnerOccurrences(bindings[1..], m)
  }

  /** `{"member": o}` for one owner. */
  function MemberEntry(o: string): Record
  {
    map["member" := Str(o)]
  }

  /** What `check_service_accounts_with_owner` returns for the provider `p`. */
  function OwnersReport(p: Provider): (r: CheckResult)
    ensures r.category == Category && r.check == CheckName
    ensures Clean(r)
    ensures !IsServiceEnabled(p.probe("cloudresourcemanager")) ==> NoteOnly(r, DisabledNote)
    ensures IsServiceEnabled(p.probe("cloudresourcemanager")) && p.iamPolicy.Raised? ==> NoteOnly(r, p.iamPolicy.fault.message)
    ensures IsServiceEnabled(p.probe("cloudresourcemanager")) && p.iamPolicy.Ok? ==>
      var owners := OwnerMembers(p.iamPolicy.value);
      r.notes == "" && |r.resources| == |owners| &&
      forall k :: 0 <= k < |owners| ==> r.resources[k] == MemberEntry(owners[k])
  {
    if !IsServiceEnabled(p.probe("cloudresourcemanager")) then
      MkResult(Category, CheckName, None, Some(DisabledNote))
    else
      match p.iamPolicy
      case Raised(e) => MkResult(Category, CheckName, None, Some(e.message))
      case Ok(bindings) =>
        var owners := OwnerMembers(bindings);
        MkResult(Category, CheckName, Some(seq(|owners|, k requires 0 <= k < |owners| => MemberEntry(owners[k]))), None)
  }

  /** The loop of `check_service_accounts_with_owner`. */
  method CheckServiceAccountsWithOwner(p: Provider) returns (r: CheckResult)
    ensures r == OwnersReport(p)
  {
    if !IsServiceEnabled(p.probe("cloudresourcemanager")) {
      return MkResult(Category, CheckName, None, Some(DisabledNote));
    }
    if p.iamPolicy.Raised? {
      return MkResult(Category, CheckName, None, Some(p.iamPolicy.fault.message));
    }
    var bindings := p.iamPolicy.value;
    var owners: seq<string> := [];
    for i := 0 to |bindings|
      invariant owners == OwnerMembers(bindings[..i])
    {
      var b := bindings[i];
      OwnerMembersAppend(bindings[..i], [b]);
      assert bindings[..i + 1] == bindings[..i] + [b];
      if b.role == Str(OwnerRole) {
        owners := owners + b.members;
      }
    }
    assert bindings[..|bindings|] == bindings;
    var results := seq(|owners|, k requires 0 <= k < |owners| => map["member" := Str(owners[k])]);
    r := MkResult(Category, CheckName, Some(results), None);
  }
}
