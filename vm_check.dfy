/** `check_vms`: every Compute Engine instance, zone by zone. This check has
    no capability probe. */
module VmCheck {
  import opened Values
  import opened Gcp
  import opened Results

  const Category := "Compute Engine VM"
  const CheckName := "VM Instances"

  /** `s.split('/')[-1]`: the text after the last `/`, or all of `s` when it
      has none. */
  function LastSegment(s: string): string
  {
    if s == "" then ""
    else if s[|s| - 1] == '/' then ""
    else LastSegment(s[..|s| - 1]) + [s[|s| - 1]]
  }

  /** Appending a character other than `/` extends the last segment by it. */
  lemma LastSegmentSnoc(init: string, c: char)
    requires c != '/'
    ensures LastSegment(init + [c]) == LastSegment(init) + [c]
  {
    var s := init + [c];
    assert s[..|s| - 1] == init;
  }

  /** The last segment contains no `/`. */
  lemma {:induction false} LastSegmentHasNoSlash(s: string)
    ensures forall k :: 0 <= k < |LastSegment(s)| ==> LastSegment(s)[k] != '/'
  {
    if s != "" && s[|s| - 1] != '/' {
      LastSegmentHasNoSlash(s[..|s| - 1]);
    }
  }

  /** The last segment is a suffix of the input and is preceded by a `/`
      unless it is the whole input. */
  lemma {:induction false} LastSegmentIsSuffix(s: string)
    ensures |LastSegment(s)| <= |s| && LastSegment(s) == s[|s| - |LastSegment(s)|..]
    ensures |LastSegment(s)| < |s| ==> s[|s| - |LastSegment(s)| - 1] == '/'
  {
    if s != "" && s[|s| - 1] != '/' {
      var init := s[..|s| - 1];
      var c := s[|s| - 1];
      LastSegmentIsSuffix(init);
      var seg := LastSegment(init);
      assert LastSegment(s) == seg + [c];
      assert s[|s| - |seg| - 1..] == s[|init| - |seg|..|init|] + [c];
      assert s[|init| - |seg|..|init|] == init[|init| - |seg|..];
      if |seg| < |init| {
        assert s[|init| - |seg| - 1] == init[|init| - |seg| - 1];
      }
    }
  }

  /** `s.split('/')[-1]` read back: the text after the last `/`. */
  lemma LastSegmentIsFinalSegment(s: string)
    ensures '/' !in LastSegment(s)
    ensures |LastSegment(s)| <= |s| && LastSegment(s) == s[|s| - |LastSegment(s)|..]
    ensures |LastSegment(s)| < |s| ==> s[|s| - |LastSegment(s)| - 1] == '/'
  {
    LastSegmentHasNoSlash(s);
    LastSegmentIsSuffix(s);
  }

  /** The last segment of `pre + "/" + t` is `t` whenever `t` has no `/`. */
  lemma {:induction false} LastSegmentAfterSlash(pre: string, t: string)
    requires forall k :: 0 <= k < |t| ==> t[k] != '/'
    ensures LastSegment(pre + ['/'] + t) == t
  {
    if t == [] {
      assert pre + ['/'] + t == pre + ['/'];
    } else {
      var init := t[..|t| - 1];
      var c := t[|t| - 1];
      LastSegmentAfterSlash(pre, init);
      assert pre + ['/'] + t == (pre + ['/'] + init) + [c];
      LastSegmentSnoc(pre + ['/'] + init, c);
      assert init + [c] == t;
    }
  }

  /** A machine type URL reduces to its final path segment. */
  lemma MachineTypeExample()
    ensures LastSegment("zones/us-central1-a/machineTypes/e2-medium") == "e2-medium"
  {
    var pre := "zones/us-central1-a/machineTypes";
    LastSegmentAfterSlash(pre, "e2-medium");
    assert pre + ['/'] + "e2-medium" == "zones/us-central1-a/machineTypes/e2-medium";
  }

  /** `{"name": ..., "zone": ..., "status": ..., "machine_type": ...}`. */
  function VmEntry(zone: string, vm: Vm): Record
  {
    map["name" := Str(vm.name),
        "zone" := Str(zone),
        "status" := Str(vm.status),
        "machine_type" := Str(LastSegment(vm.machineType))]
  }

  function ZoneEntries(zone: string, vms: seq<Vm>): seq<Record>
  {
    seq(|vms|, k requires 0 <= k < |vms| => VmEntry(zone, vms[k]))
  }

  lemma ZoneEntriesSnoc(zone: string, vms: seq<Vm>, j: nat)
    requires j < |vms|
    ensures ZoneEntries(zone, vms[..j + 1]) == ZoneEntries(zone, vms[..j]) + [VmEntry(zone, vms[j])]
  {
    var longer := ZoneEntries(zone, vms[..j + 1]);
    var joined := ZoneEntries(zone, vms[..j]) + [VmEntry(zone, vms[j])];
    assert |longer| == |joined| == j + 1;
    forall k | 0 <= k < j + 1
      ensures longer[k] == joined[k]
    {
      assert vms[..j + 1][k] == vms[k];
      if k < j {
        assert vms[..j][k] == vms[k];
        assert joined[k] == VmEntry(zone, vms[k]);
      } else {
        assert joined[k] == VmEntry(zone, vms[j]);
      }
    }
  }

  /** The entries of all zones in zone order, or the exception of the first
      zone whose listing raised. */
  function VmEntries(zones: seq<Zone>): Outcome<seq<Record>>
  {
    if zones == [] then Ok([])
    else match zones[0].instances
      case Raised(e) => Raised(e)
      case Ok(vms) =>
        match VmEntries(zones[1..])
        case Raised(e) => Raised(e)
        case Ok(rest) => Ok(ZoneEntries(zones[0].name, vms) + rest)
  }

  lemma {:induction false} VmEntriesAppend(a: seq<Zone>, b: seq<Zone>)
    ensures VmEntries(a + b) ==
      match VmEntries(a)
      case Raised(e) => Raised(e)
      case Ok(x) =>
        match VmEntries(b)
        case Raised(e) => Raised(e)
        case Ok(y) => Ok(x + y)
  {
    if a == [] {
      assert a + b == b;
      if VmEntries(b).Ok? {
        assert [] + VmEntries(b).value == VmEntries(b).value;
      }
    } else {
      assert (a + b)[1..] == a[1..] + b;
      VmEntriesAppend(a[1..], b);
      if a[0].instances.Ok? && VmEntries(a[1..]).Ok? && VmEntries(b).Ok? {
        var head := ZoneEntries(a[0].name, a[0].instances.value);
        assert head + (VmEntries(a[1..]).value + VmEntries(b).value) ==
          (head + VmEntries(a[1..]).value) + VmEntries(b).value;
      }
    }
  }

  /** The listing fails exactly when some zone's listing raised. */
  lemma {:induction false} FailsIffSomeZoneFails(zones: seq<Zone>)
    ensures VmEntries(zones).Raised? <==> exists k :: 0 <= k < |zones| && zones[k].instances.Raised?
  {
    if zones != [] {
      FailsIffSomeZoneFails(zones[1..]);
      if exists k :: 0 <= k < |zones| && zones[k].instances.Raised? {
        var k :| 0 <= k < |zones| && zones[k].instances.Raised?;
        if k > 0 {
          assert zones[1..][k - 1] == zones[k];
        }
      }
      if exists k :: 0 <= k < |zones[1..]| && zones[1..][k].instances.Raised? {
        var k :| 0 <= k < |zones[1..]| && zones[1..][k].instances.Raised?;
        assert zones[k + 1] == zones[1..][k];
      }
    }
  }

  /** A failed listing carries the exception of the first zone whose listing
      raised. */
  lemma {:induction false} FirstFailingZone(zones: seq<Zone>)
    ensures VmEntries(zones).Raised? ==>
      exists k :: 0 <= k < |zones| &&
        (forall i :: 0 <= i < k ==> zones[i].instances.Ok?) &&
        zones[k].instances.Raised? && VmEntries(zones).fault == zones[k].instances.fault
  {
    if zones != [] {
      FirstFailingZone(zones[1..]);
      if zones[0].instances.Ok? && VmEntries(zones[1..]).Raised? {
        var k :| 0 <= k < |zones[1..]| &&
          (forall i :: 0 <= i < k ==> zones[1..][i].instances.Ok?) &&
          zones[1..][k].instances.Raised? && VmEntries(zones[1..]).fault == zones[1..][k].instances.fault;
        assert zones[k + 1] == zones[1..][k];
        assert forall i :: 0 < i < k + 1 ==> zones[i] == zones[1..][i - 1];
      }
    }
  }

  /** When every zone lists, there are as many entries as instances. */
  lemma {:induction false} AllZonesListed(zones: seq<Zone>)
    requires forall k :: 0 <= k < |zones| ==> zones[k].instances.Ok?
    ensures VmEntries(zones).Ok?
    ensures |VmEntries(zones).value| == InstanceCount(zones)
  {
    if zones != [] {
      AllZonesListed(zones[1..]);
    }
  }

  function InstanceCount(zones: seq<Zone>): nat
  {
    if zones == [] then 0
    else (match zones[0].instances case Ok(vms) => |vms| case Raised(_) => 0) + InstanceCount(zones[1..])
  }

  /** When every zone lists, instance `j` of zone `i` is reported right after
      the instances of all earlier zones: entries follow zone order and then
      listing order. */
  lemma {:induction false} InstancePosition(zones: seq<Zone>, i: nat, j: nat)
    requires forall k :: 0 <= k < |zones| ==> zones[k].instances.Ok?
    requires i < |zones| && j < |zones[i].instances.value|
    ensures VmEntries(zones).Ok?
    ensures InstanceCount(zones[..i]) + j < |VmEntries(zones).value|
    ensures VmEntries(zones).value[InstanceCount(zones[..i]) + j] ==
      VmEntry(zones[i].name, zones[i].instances.value[j])
  {
    AllZonesListed(zones[1..]);
    if i == 0 {
      assert zones[..0] == [];
    } else {
      InstancePosition(zones[1..], i - 1, j);
      assert zones[1..][i - 1] == zones[i];
      assert zones[..i][1..] == zones[1..][..i - 1];
    }
  }

  /** What `check_vms` returns for the provider `p`. */
  function VmReport(p: Provider): (r: CheckResult)
    ensures r.category == Category && r.check == CheckName
    ensures Clean(r)
    ensures p.zones.Raised? ==> NoteOnly(r, p.zones.fault.message)
    ensures p.zones.Ok? && VmEntries(p.zones.value).Raised? ==> NoteOnly(r, VmEntries(p.zones.value).fault.message)
    ensures p.zones.Ok? && VmEntries(p.zones.value).Ok? ==> r.notes == "" && r.resources == VmEntries(p.zones.value).value
  {
    match p.zones
    case Raised(e) => MkResult(Category, CheckName, None, Some(e.message))
    case Ok(zones) =>
      match VmEntries(zones)
      case Raised(e) => MkResult(Category, CheckName, None, Some(e.message))
      case Ok(entries) => MkResult(Category, CheckName, Some(entries), None)
  }

  /** One more zone whose listing succeeded extends the entries. */
  lemma VmEntriesSnoc(zones: seq<Zone>, i: nat)
    requires i < |zones| && VmEntries(zones[..i]).Ok? && zones[i].instances.Ok?
    ensures VmEntries(zones[..i + 1]) ==
      Ok(VmEntries(zones[..i]).value + ZoneEntries(zones[i].name, zones[i].instances.value))
  {
    VmEntriesAppend(zones[..i], [zones[i]]);
    assert zones[..i + 1] == zones[..i] + [zones[i]];
    assert [zones[i]][1..] == [];
    assert ZoneEntries(zones[i].name, zones[i].instances.value) + [] == ZoneEntries(zones[i].name, zones[i].instances.value);
  }

  /** A zone whose listing raised, after zones that all listed, decides the
      outcome. */
  lemma VmEntriesFailAt(zones: seq<Zone>, i: nat)
    requires i < |zones| && VmEntries(zones[..i]).Ok? && zones[i].instances.Raised?
    ensures VmEntries(zones) == Raised(zones[i].instances.fault)
  {
    VmEntriesAppend(zones[..i], zones[i..]);
    assert zones[..i] + zones[i..] == zones;
  }

  /** The loops of `check_vms`: the first zone whose listing raises ends the
      check with that exception as the note. */
  method CheckVms(p: Provider) returns (r: CheckResult)
    ensures r == VmReport(p)
  {
    if p.zones.Raised? {
      return MkResult(Category, CheckName, None, Some(p.zones.fault.message));
    }
    var zones := p.zones.value;
    var results: seq<Record> := [];
    for i := 0 to |zones|
      invariant VmEntries(zones[..i]) == Ok(results)
    {
      var zone := zones[i];
      if zone.instances.Raised? {
        VmEntriesFailAt(zones, i);
        return MkResult(Category, CheckName, None, Some(zone.instances.fault.message));
      }
      var vms := zone.instances.value;
      VmEntriesSnoc(zones, i);
      ghost var before := results;
      for j := 0 to |vms|
        invariant results == before + ZoneEntries(zone.name, vms[..j])
      {
        var vm := vms[j];
        results := results + [map["name" := Str(vm.name),
                                  "zone" := Str(zone.name),
                                  "status" := Str(vm.status),
                                  "machine_type" := Str(LastSegment(vm.machineType))]];
        ZoneEntriesSnoc(zone.name, vms, j);
      }
      assert vms[..|vms|] == vms;
    }
    assert zones[..|zones|] == zones;
    r := MkResult(Category, CheckName, Some(results), None);
  }
}
