/**
 * The refinements of `deploySchema`: the port pattern and bounds of `portSchema`,
 * the duplicate-external-port check on the port-forward list, the operating
 * system's minimum storage, and the checks against the chosen hostnode (known id,
 * open ports, offered GPU model, capacities and per-GPU-count restrictions).
 *
 * Every refinement appends issues to an accumulating list; the issues are kept with
 * their zod code, their path and the message they carry, in the order they are added.
 */
module DeployValidation {
  import opened JsBuiltins
  import opened Inventory

  /** The four request fields checked against a hostnode, in the order they are checked. */
  datatype SpecField = GpuCount | Vcpu | Ram | Storage

  /** One step of an issue path (`['portForwards', 2, 'from']`, `['specs', 'ram']`, ...). */
  datatype Segment = SpecsKey | HostnodeKey | PortForwardsKey | IndexKey(i: nat) | FromKey | ToKey | FieldKey(field: SpecField)

  datatype IssueCode = InvalidString | Custom | TooSmall | TooBig

  /** The message of an issue, with the numbers it is built from. */
  datatype Message =
    | EnterValidPort                      // 'Please enter a valid port'
    | MustBeAtLeast(min: int)             // `Must be at least ${min}`
    | MustBeAtMost(max: int)              // `Must be at most ${max}`
    | DuplicateExternalPort               // 'Duplicate external ports not allowed'
    | NotEnoughStorageForOs(minimum: int) // 'Please ensure you have enough storage space ...'
    | SelectAvailableLocation             // 'Please select an available location'
    | PortUnavailable(port: string)       // `Port ${from} is unavailable`
    | LocationLacksGpu                    // 'Location does not have selected GPU'
    | TooLargeAtLocation(available: int)  // `Too large: ${totalCount}${unit} available at location`
    | BelowGpuCountMinimum(min: int)      // `Not enough ${display} for ... Minimum is ${min}${unit}`
    | AboveGpuCountMaximum(max: int)      // `Too large for ... Maximum is ${max}${unit}`

  datatype Issue = Issue(code: IssueCode, path: seq<Segment>, message: Message)

  datatype PortForward = PortForward(from: string, to: string)

  /** The parts of `DeployValues` the refinements read. */
  datatype DeployValues = DeployValues(specs: DeploySpecs, hostnode: string, os: string, portForwards: seq<PortForward>)

  // ---------------------------------------------------------------------------
  // portSchema

  /** `min === undefined || parseInt(val) >= min`; a NaN parse fails the comparison. */
  predicate AtLeast(s: string, min: Option<int>)
  {
    min.None? || (ParseInt(s).Some? && ParseInt(s).value >= min.value)
  }

  /** `max === undefined || parseInt(val) <= max`. */
  predicate AtMost(s: string, max: Option<int>)
  {
    max.None? || (ParseInt(s).Some? && ParseInt(s).value <= max.value)
  }

  /** The pattern and both bounds hold. */
  predicate PortValid(s: string, min: Option<int>, max: Option<int>)
  {
    IsPortSyntax(s) && AtLeast(s, min) && AtMost(s, max)
  }

  /**
   * `portSchema({ min, max })` on one string at `path`: the pattern check, then the two
   * refinements, which run whether or not the pattern matched.
   */
  function PortIssues(s: string, min: Option<int>, max: Option<int>, path: seq<Segment>): (issues: seq<Issue>)
    ensures forall k :: 0 <= k < |issues| ==> issues[k].path == path
    ensures issues == [] <==> PortValid(s, min, max)
  {
    (if IsPortSyntax(s) then [] else [Issue(InvalidString, path, EnterValidPort)])
    + (if AtLeast(s, min) then [] else [Issue(Custom, path, MustBeAtLeast(min.value))])
    + (if AtMost(s, max) then [] else [Issue(Custom, path, MustBeAtMost(max.value))])
  }

  /** A port string is accepted exactly when it matches `^[1-9][0-9]*$` and its decimal value is within the bounds. */
  lemma PortAccepted(s: string, min: Option<int>, max: Option<int>, path: seq<Segment>)
    ensures PortIssues(s, min, max, path) == [] <==>
      && IsPortSyntax(s) && IsDigits(s, 10)
      && (min.None? || ValueIn(s, 10) >= min.value)
      && (max.None? || ValueIn(s, 10) <= max.value)
  {
    if IsPortSyntax(s) {
      ParseIntOfPortSyntax(s);
    }
  }

  /** The `to` port (`portSchema({ min: 0, max: 65535 })`) is accepted exactly for the port syntax with value 1..65535. */
  lemma ToPortAccepted(s: string, path: seq<Segment>)
    ensures PortIssues(s, Some(0), Some(65535), path) == [] <==>
      IsPortSyntax(s) && IsDigits(s, 10) && 1 <= ValueIn(s, 10) <= 65535
  {
    PortAccepted(s, Some(0), Some(65535), path);
    if IsPortSyntax(s) {
      PortSyntaxValue(s);
    }
  }

  function FromPath(idx: nat): seq<Segment>
  {
    [PortForwardsKey, IndexKey(idx), FromKey]
  }

  function ToPath(idx: nat): seq<Segment>
  {
    [PortForwardsKey, IndexKey(idx), ToKey]
  }

  /** Each element of `portForwards`, in order: `from: portSchema()` then `to: portSchema({ min: 0, max: 65535 })`. */
  function PortForwardIssues(pfs: seq<PortForward>): seq<Issue>
  {
    if |pfs| == 0 then []
    else
      var idx := |pfs| - 1;
      PortForwardIssues(pfs[..idx])
      + PortIssues(pfs[idx].from, None, None, FromPath(idx))
      + PortIssues(pfs[idx].to, Some(0), Some(65535), ToPath(idx))
  }

  lemma {:induction false} PortForwardsValid(pfs: seq<PortForward>)
    ensures PortForwardIssues(pfs) == [] <==>
      forall idx :: 0 <= idx < |pfs| ==> PortValid(pfs[idx].from, None, None) && PortValid(pfs[idx].to, Some(0), Some(65535))
  {
    if |pfs| > 0 {
      var idx := |pfs| - 1;
      PortForwardsValid(pfs[..idx]);
      assert forall j :: 0 <= j < idx ==> pfs[..idx][j] == pfs[j];
    }
  }

  lemma PortForwardAccepted(pf: PortForward, idx: nat)
    ensures PortValid(pf.from, None, None) && PortValid(pf.to, Some(0), Some(65535)) <==>
      IsPortSyntax(pf.from) && IsPortSyntax(pf.to) && IsDigits(pf.to, 10) && ValueIn(pf.to, 10) <= 65535
  {
    PortAccepted(pf.from, None, None, FromPath(idx));
    ToPortAccepted(pf.to, ToPath(idx));
    if IsPortSyntax(pf.from) {
      PortSyntaxValue(pf.from);
    }
    if IsPortSyntax(pf.to) {
      PortSyntaxValue(pf.to);
    }
  }

  /** The element schemas accept the list exactly when every `from` has the port syntax and every `to` is also at most 65535. */
  lemma PortForwardsAccepted(pfs: seq<PortForward>)
    ensures PortForwardIssues(pfs) == [] <==>
      forall idx :: 0 <= idx < |pfs| ==>
        IsPortSyntax(pfs[idx].from) && IsPortSyntax(pfs[idx].to) && IsDigits(pfs[idx].to, 10) && ValueIn(pfs[idx].to, 10) <= 65535
  {
    PortForwardsValid(pfs);
    forall idx | 0 <= idx < |pfs| {
      PortForwardAccepted(pfs[idx], idx);
    }
  }

  // ---------------------------------------------------------------------------
  // Duplicate external ports

  /** `forwards.map(({ from }) => from)`. */
  function Froms(pfs: seq<PortForward>): seq<string>
  {
    seq(|pfs|, idx requires 0 <= idx < |pfs| => pfs[idx].from)
  }

  predicate Distinct<T(==)>(s: seq<T>)
  {
    forall i, j :: 0 <= i < j < |s| ==> s[i] != s[j]
  }

  /** Another position of the list holds the same external port as position `idx`. */
  predicate HasTwin(froms: seq<string>, idx: nat)
    requires idx < |froms|
  {
    exists idx2 :: 0 <= idx2 < |froms| && idx2 != idx && froms[idx2] == froms[idx]
  }

  function DuplicateIssue(idx: nat): Issue
  {
    Issue(Custom, FromPath(idx), DuplicateExternalPort)
  }

  /** One duplicate issue per position among the first `n` that has a twin anywhere in the list, in position order. */
  function DuplicatesUpTo(froms: seq<string>, n: nat): seq<Issue>
    requires n <= |froms|
  {
    if n == 0 then []
    else DuplicatesUpTo(froms, n - 1) + (if HasTwin(froms, n - 1) then [DuplicateIssue(n - 1)] else [])
  }

  /** Reference definition of the duplicate-port refinement: every position whose port occurs elsewhere, in order. */
  function DuplicateIssues(froms: seq<string>): seq<Issue>
  {
    DuplicatesUpTo(froms, |froms|)
  }

  /** `new Set(s).size === s.length` holds exactly when the list has no repeated element. */
  lemma {:induction false} SetSizeDistinct<T>(s: seq<T>)
    ensures |set x | x in s| <= |s|
    ensures |set x | x in s| == |s| <==> Distinct(s)
  {
    if |s| > 0 {
      var front, last := s[..|s| - 1], s[|s| - 1];
      SetSizeDistinct(front);
      assert s == front + [last];
      assert (set x | x in s) == (set x | x in front) + {last};
      if last in front {
        assert (set x | x in s) == (set x | x in front);
        var k :| 0 <= k < |front| && front[k] == last;
        assert s[k] == s[|s| - 1];
      } else {
        assert Distinct(s) <==> Distinct(front) by {
          if Distinct(front) {
            forall i, j | 0 <= i < j < |s| ensures s[i] != s[j] {
              if j == |s| - 1 {
                assert s[i] == front[i];
              } else {
                assert s[i] == front[i] && s[j] == front[j];
              }
            }
          }
          if Distinct(s) {
            forall i, j | 0 <= i < j < |front| ensures front[i] != front[j] {
              assert s[i] == front[i] && s[j] == front[j];
            }
          }
        }
      }
    }
  }

  lemma {:induction false} NoTwinsNoIssues(froms: seq<string>, n: nat)
    requires n <= |froms| && Distinct(froms)
    ensures DuplicatesUpTo(froms, n) == []
  {
    if n > 0 {
      NoTwinsNoIssues(froms, n - 1);
    }
  }

  lemma {:induction false} DuplicatesUpToExact(froms: seq<string>, n: nat, idx: nat)
    requires n <= |froms| && idx < |froms|
    ensures DuplicateIssue(idx) in DuplicatesUpTo(froms, n) <==> idx < n && HasTwin(froms, idx)
    ensures forall issue :: issue in DuplicatesUpTo(froms, n) ==> issue.message == DuplicateExternalPort
  {
    if n > 0 {
      DuplicatesUpToExact(froms, n - 1, idx);
    }
  }

  /** Exactly the positions whose `from` value occurs elsewhere in the list get a duplicate issue. */
  lemma DuplicateIssuesExact(froms: seq<string>, idx: nat)
    requires idx < |froms|
    ensures DuplicateIssue(idx) in DuplicateIssues(froms) <==> HasTwin(froms, idx)
    ensures forall issue :: issue in DuplicateIssues(froms) ==> issue.message == DuplicateExternalPort
  {
    DuplicatesUpToExact(froms, |froms|, idx);
  }

  /** The refinement raises nothing exactly when the external ports are pairwise distinct. */
  lemma DuplicateIssuesNone(froms: seq<string>)
    ensures DuplicateIssues(froms) == [] <==> Distinct(froms)
  {
    if Distinct(froms) {
      NoTwinsNoIssues(froms, |froms|);
    } else {
      var i, j :| 0 <= i < j < |froms| && froms[i] == froms[j];
      DuplicateIssuesExact(froms, i);
    }
  }

  /** `forwards.find(({ from: from2 }, idx2) => from === from2 && idx !== idx2)`: the first other position with the same port. */
  method FindTwin(froms: seq<string>, idx: nat) returns (r: Option<nat>)
    requires idx < |froms|
    ensures r.Some? ==> r.value < |froms| && r.value != idx && froms[r.value] == froms[idx]
    ensures r.Some? ==> forall k :: 0 <= k < r.value && k != idx ==> froms[k] != froms[idx]
    ensures r.None? <==> !HasTwin(froms, idx)
  {
    var idx2 := 0;
    while idx2 < |froms|
      invariant 0 <= idx2 <= |froms|
      invariant forall k :: 0 <= k < idx2 && k != idx ==> froms[k] != froms[idx]
    {
      if froms[idx] == froms[idx2] && idx != idx2 {
        return Some(idx2);
      }
      idx2 := idx2 + 1;
    }
    return None;
  }

  /** The `superRefine` on `portForwards`: an early return when the set of external ports is as large as the list. */
  method RefineDuplicatePorts(froms: seq<string>) returns (issues: seq<Issue>)
    ensures issues == DuplicateIssues(froms)
  {
    var externalPortsSet := set x | x in froms;
    if |externalPortsSet| == |froms| {
      SetSizeDistinct(froms);
      NoTwinsNoIssues(froms, |froms|);
      return [];
    }
    issues := [];
    var idx := 0;
    while idx < |froms|
      invariant 0 <= idx <= |froms|
      invariant issues == DuplicatesUpTo(froms, idx)
    {
      var twin := FindTwin(froms, idx);
      if twin.Some? {
        issues := issues + [DuplicateIssue(idx)];
      }
      idx := idx + 1;
    }
  }

  // ---------------------------------------------------------------------------
  // Operating system storage

  /** `OS_INFO[os].minStorageGB`, undefined (None) when the system has no minimum. */
  function MinStorageFor(osMinStorage: map<string, int>, os: string): Option<int>
  {
    if os in osMinStorage then Some(osMinStorage[os]) else None
  }

  /** The storage refinement: at most one `too_small` issue at `specs.storage`, raised exactly below the minimum. */
  function StorageIssues(minStorage: Option<int>, storage: int): (issues: seq<Issue>)
    ensures |issues| <= 1
    ensures issues != [] <==> minStorage.Some? && storage < minStorage.value
    ensures issues != [] ==> issues[0] == Issue(TooSmall, [SpecsKey, FieldKey(Storage)], NotEnoughStorageForOs(minStorage.value))
  {
    if minStorage.None? then []
    else if storage < minStorage.value then [Issue(TooSmall, [SpecsKey, FieldKey(Storage)], NotEnoughStorageForOs(minStorage.value))]
    else []
  }

  // ---------------------------------------------------------------------------
  // Hostnode checks

  /** `ports.includes(parseInt(from))`: NaN is never among the host's ports. */
  predicate PortListed(ports: seq<int>, from: string)
  {
    ParseInt(from).Some? && ParseInt(from).value in ports
  }

  function PortUnavailableIssue(idx: nat, from: string): Issue
  {
    Issue(Custom, FromPath(idx), PortUnavailable(from))
  }

  /** The issue of position `idx`, if the host does not list its port. */
  function PortCheck(ports: seq<int>, idx: nat, from: string): seq<Issue>
  {
    if PortListed(ports, from) then [] else [PortUnavailableIssue(idx, from)]
  }

  /** One issue per `from` port among the first `n` that the host does not list, in list order. */
  function PortsUpTo(ports: seq<int>, froms: seq<string>, n: nat): seq<Issue>
    requires n <= |froms|
  {
    if n == 0 then [] else PortsUpTo(ports, froms, n - 1) + PortCheck(ports, n - 1, froms[n - 1])
  }

  function PortAvailabilityIssues(ports: seq<int>, froms: seq<string>): seq<Issue>
  {
    PortsUpTo(ports, froms, |froms|)
  }

  /** One element of the four-entry table the source iterates over. */
  datatype ResourceCheck = ResourceCheck(field: SpecField, value: int, totalCount: int, restriction: Option<Bounds>)

  /** `restrictions?.[gpuCountString]`. */
  function RestrictionFor(specs: Specs, gpuCount: int): Option<Restriction>
  {
    if gpuCount in specs.restrictions then Some(specs.restrictions[gpuCount]) else None
  }

  /** The table: GPUs (no restriction), vCPUs, RAM and storage, with the host's capacity and the restriction for the requested GPU count. */
  function ResourceChecks(host: Hostnode, offer: GpuOffer, req: DeploySpecs): (checks: seq<ResourceCheck>)
    ensures |checks| == 4
    ensures forall k, l :: 0 <= k < l < 4 ==> checks[k].field != checks[l].field
  {
    var r := RestrictionFor(host.specs, req.gpuCount);
    [ ResourceCheck(GpuCount, req.gpuCount, offer.amount, None),
      ResourceCheck(Vcpu, req.vcpu, host.specs.cpu.amount, if r.Some? then Some(r.value.cpu) else None),
      ResourceCheck(Ram, req.ram, host.specs.ram.amount, if r.Some? then Some(r.value.ram) else None),
      ResourceCheck(Storage, req.storage, host.specs.storage.amount, if r.Some? then Some(r.value.storage) else None) ]
  }

  function TooLargeIssue(c: ResourceCheck): Issue
  {
    Issue(TooBig, [SpecsKey, FieldKey(c.field)], TooLargeAtLocation(c.totalCount))
  }

  function BelowMinimumIssue(c: ResourceCheck): Issue
    requires c.restriction.Some?
  {
    Issue(TooSmall, [SpecsKey, FieldKey(c.field)], BelowGpuCountMinimum(c.restriction.value.min))
  }

  function AboveMaximumIssue(c: ResourceCheck): Issue
    requires c.restriction.Some?
  {
    Issue(TooBig, [SpecsKey, FieldKey(c.field)], AboveGpuCountMaximum(c.restriction.value.max))
  }

  /** The issues of one table entry: above capacity; then, with a restriction, below its minimum and above its maximum. */
  function CheckIssues(c: ResourceCheck): seq<Issue>
  {
    (if c.value > c.totalCount then [TooLargeIssue(c)] else [])
    + (if c.restriction.Some? && c.value < c.restriction.value.min then [BelowMinimumIssue(c)] else [])
    + (if c.restriction.Some? && c.value > c.restriction.value.max then [AboveMaximumIssue(c)] else [])
  }

  /** The issues of the first `n` table entries, in table order. */
  function ChecksUpTo(checks: seq<ResourceCheck>, n: nat): seq<Issue>
    requires n <= |checks|
  {
    if n == 0 then [] else ChecksUpTo(checks, n - 1) + CheckIssues(checks[n - 1])
  }

  function ChecksIssues(checks: seq<ResourceCheck>): seq<Issue>
  {
    ChecksUpTo(checks, |checks|)
  }

  /** Reference definition of the hostnode refinement. */
  function HostIssues(hostnodes: Option<Inventory>, hostnodeId: string, req: DeploySpecs, froms: seq<string>): seq<Issue>
  {
    if hostnodes.None? then []
    else
      match FindHostnode(hostnodes.value, hostnodeId)
      case None => [Issue(Custom, [HostnodeKey], SelectAvailableLocation)]
      case Some(host) =>
        PortAvailabilityIssues(host.ports, froms)
        + match GpuOfferFor(host.specs, req.gpuModel)
          case None => [Issue(Custom, [HostnodeKey], LocationLacksGpu)]
          case Some(offer) => ChecksIssues(ResourceChecks(host, offer, req))
  }

  /** The port loop of the hostnode refinement: an issue for every `from` the host does not list. */
  method CheckPorts(ports: seq<int>, froms: seq<string>, issues0: seq<Issue>) returns (issues: seq<Issue>)
    ensures issues == issues0 + PortAvailabilityIssues(ports, froms)
  {
    issues := issues0;
    var idx := 0;
    while idx < |froms|
      invariant 0 <= idx <= |froms|
      invariant issues == issues0 + PortsUpTo(ports, froms, idx)
    {
      ghost var prefix := PortsUpTo(ports, froms, idx);
      if !PortListed(ports, froms[idx]) {
        issues := issues + [PortUnavailableIssue(idx, froms[idx])];
      }
      assert issues == issues0 + (prefix + PortCheck(ports, idx, froms[idx]));
      idx := idx + 1;
    }
  }

  /** The `forEach` over the four-entry table. */
  method CheckResources(checks: seq<ResourceCheck>, issues0: seq<Issue>) returns (issues: seq<Issue>)
    ensures issues == issues0 + ChecksIssues(checks)
  {
    issues := issues0;
    var k := 0;
    while k < |checks|
      invariant 0 <= k <= |checks|
      invariant issues == issues0 + ChecksUpTo(checks, k)
    {
      ghost var prefix := ChecksUpTo(checks, k);
      var c := checks[k];
      if c.value > c.totalCount {
        issues := issues + [TooLargeIssue(c)];
      }
      if c.restriction.Some? {
        if c.value < c.restriction.value.min {
          issues := issues + [BelowMinimumIssue(c)];
        }
        if c.value > c.restriction.value.max {
          issues := issues + [AboveMaximumIssue(c)];
        }
      }
      assert issues == issues0 + (prefix + CheckIssues(c));
      k := k + 1;
    }
  }

  /** The hostnode `superRefine`. */
  method RefineHost(hostnodes: Option<Inventory>, hostnodeId: string, req: DeploySpecs, froms: seq<string>)
    returns (issues: seq<Issue>)
    ensures issues == HostIssues(hostnodes, hostnodeId, req, froms)
  {
    issues := [];
    if hostnodes.None? {
      return;
    }
    var found := FindHostnode(hostnodes.value, hostnodeId);
    if found.None? {
      issues := issues + [Issue(Custom, [HostnodeKey], SelectAvailableLocation)];
      return;
    }
    var host := found.value;
    issues := CheckPorts(host.ports, froms, issues);
    var gpu := GpuOfferFor(host.specs, req.gpuModel);
    if gpu.None? {
      issues := issues + [Issue(Custom, [HostnodeKey], LocationLacksGpu)];
      return;
    }
    issues := CheckResources(ResourceChecks(host, gpu.value, req), issues);
  }

  /** Exactly the positions whose port the host does not list get an issue, and nothing else does. */
  lemma {:induction false} PortsUpToExact(ports: seq<int>, froms: seq<string>, n: nat, idx: nat)
    requires n <= |froms| && idx < |froms|
    ensures PortUnavailableIssue(idx, froms[idx]) in PortsUpTo(ports, froms, n) <==> idx < n && !PortListed(ports, froms[idx])
    ensures forall issue :: issue in PortsUpTo(ports, froms, n) ==> issue.code == Custom && issue.message.PortUnavailable?
  {
    if n > 0 {
      PortsUpToExact(ports, froms, n - 1, idx);
    }
  }

  lemma {:induction false} PortsUpToNone(ports: seq<int>, froms: seq<string>, n: nat)
    requires n <= |froms|
    ensures PortsUpTo(ports, froms, n) == [] <==> forall idx :: 0 <= idx < n ==> PortListed(ports, froms[idx])
  {
    if n > 0 {
      PortsUpToNone(ports, froms, n - 1);
      var check := PortCheck(ports, n - 1, froms[n - 1]);
      assert check == [] <==> PortListed(ports, froms[n - 1]);
      assert |PortsUpTo(ports, froms, n)| == |PortsUpTo(ports, froms, n - 1)| + |check|;
    }
  }

  /** The entry passes: within the host's capacity and, if restricted, within the restriction. */
  predicate CheckPasses(c: ResourceCheck)
  {
    c.value <= c.totalCount && (c.restriction.Some? ==> c.restriction.value.min <= c.value <= c.restriction.value.max)
  }

  /** The issues of one entry, all at its field: one per condition it fails. */
  lemma CheckIssuesOf(c: ResourceCheck)
    ensures forall issue :: issue in CheckIssues(c) ==> issue.path == [SpecsKey, FieldKey(c.field)]
    ensures TooLargeIssue(c) in CheckIssues(c) <==> c.value > c.totalCount
    ensures c.restriction.Some? ==> (BelowMinimumIssue(c) in CheckIssues(c) <==> c.value < c.restriction.value.min)
    ensures c.restriction.Some? ==> (AboveMaximumIssue(c) in CheckIssues(c) <==> c.value > c.restriction.value.max)
  {
  }

  /** An issue at the field of entry `k` can only come from entry `k`: the fields of the table are distinct. */
  lemma {:induction false} ChecksUpToField(checks: seq<ResourceCheck>, n: nat, k: nat, issue: Issue)
    requires n <= |checks| && k < |checks|
    requires forall i, j :: 0 <= i < j < |checks| ==> checks[i].field != checks[j].field
    requires issue.path == [SpecsKey, FieldKey(checks[k].field)]
    ensures issue in ChecksUpTo(checks, n) <==> k < n && issue in CheckIssues(checks[k])
  {
    if n > 0 {
      ChecksUpToField(checks, n - 1, k, issue);
      var c := checks[n - 1];
      CheckIssuesOf(c);
      if k != n - 1 {
        assert checks[k].field != c.field;
        assert issue.path[1] != FieldKey(c.field);
      }
    }
  }

  /** Every issue of the first `n` entries is about a request field. */
  lemma {:induction false} ChecksUpToPaths(checks: seq<ResourceCheck>, n: nat)
    requires n <= |checks|
    ensures forall issue :: issue in ChecksUpTo(checks, n) ==> |issue.path| == 2 && issue.path[0] == SpecsKey && issue.path[1].FieldKey?
  {
    if n > 0 {
      ChecksUpToPaths(checks, n - 1);
      var c := checks[n - 1];
      CheckIssuesOf(c);
      forall issue | issue in ChecksUpTo(checks, n)
        ensures |issue.path| == 2 && issue.path[0] == SpecsKey && issue.path[1].FieldKey?
      {
        if issue !in ChecksUpTo(checks, n - 1) {
          assert issue.path == [SpecsKey, FieldKey(c.field)];
        }
      }
    }
  }

  lemma {:induction false} ChecksUpToNone(checks: seq<ResourceCheck>, n: nat)
    requires n <= |checks|
    ensures ChecksUpTo(checks, n) == [] <==> forall k :: 0 <= k < n ==> CheckPasses(checks[k])
  {
    if n > 0 {
      ChecksUpToNone(checks, n - 1);
    }
  }

  predicate WithinBounds(value: int, b: Bounds)
  {
    b.min <= value <= b.max
  }

  /** What the hostnode refinement demands of a request on a host that offers the requested GPU model. */
  predicate FitsHost(host: Hostnode, offer: GpuOffer, req: DeploySpecs)
  {
    && req.gpuCount <= offer.amount
    && req.vcpu <= host.specs.cpu.amount
    && req.ram <= host.specs.ram.amount
    && req.storage <= host.specs.storage.amount
    && (req.gpuCount in host.specs.restrictions ==>
          var r := host.specs.restrictions[req.gpuCount];
          WithinBounds(req.vcpu, r.cpu) && WithinBounds(req.ram, r.ram) && WithinBounds(req.storage, r.storage))
  }

  /** The request names a known host, whose ports include every external port and which offers the GPU model with room for the request. */
  predicate HostAccepts(inventory: Inventory, hostnodeId: string, req: DeploySpecs, froms: seq<string>)
  {
    match FindHostnode(inventory, hostnodeId)
    case None => false
    case Some(host) =>
      && (forall idx :: 0 <= idx < |froms| ==> PortListed(host.ports, froms[idx]))
      && match GpuOfferFor(host.specs, req.gpuModel)
         case None => false
         case Some(offer) => FitsHost(host, offer, req)
  }

  lemma FitsHostChecks(host: Hostnode, offer: GpuOffer, req: DeploySpecs)
    ensures ChecksIssues(ResourceChecks(host, offer, req)) == [] <==> FitsHost(host, offer, req)
  {
    var checks := ResourceChecks(host, offer, req);
    ChecksUpToNone(checks, 4);
    assert (forall k :: 0 <= k < 4 ==> CheckPasses(checks[k])) <==>
      CheckPasses(checks[0]) && CheckPasses(checks[1]) && CheckPasses(checks[2]) && CheckPasses(checks[3]);
  }

  /** The hostnode refinement raises nothing, given the hostnode table, exactly when the request fits the host. */
  lemma HostIssuesNone(inventory: Inventory, hostnodeId: string, req: DeploySpecs, froms: seq<string>)
    ensures HostIssues(Some(inventory), hostnodeId, req, froms) == [] <==> HostAccepts(inventory, hostnodeId, req, froms)
  {
    match FindHostnode(inventory, hostnodeId)
    case None =>
    case Some(host) =>
      PortsUpToNone(host.ports, froms, |froms|);
      match GpuOfferFor(host.specs, req.gpuModel)
      case None =>
      case Some(offer) => FitsHostChecks(host, offer, req);
  }

  lemma {:induction false} PortsUpToKinds(ports: seq<int>, froms: seq<string>, n: nat)
    requires n <= |froms|
    ensures forall issue :: issue in PortsUpTo(ports, froms, n) ==> |issue.path| > 0 && issue.path[0] == PortForwardsKey
  {
    if n > 0 {
      PortsUpToKinds(ports, froms, n - 1);
    }
  }

  /** On a known host, exactly the external ports the host does not list get an issue. */
  lemma HostPortIssues(inventory: Inventory, hostnodeId: string, req: DeploySpecs, froms: seq<string>, host: Hostnode, idx: nat)
    requires FindHostnode(inventory, hostnodeId) == Some(host) && idx < |froms|
    ensures var issues := HostIssues(Some(inventory), hostnodeId, req, froms);
      PortUnavailableIssue(idx, froms[idx]) in issues <==> !PortListed(host.ports, froms[idx])
  {
    PortsUpToExact(host.ports, froms, |froms|, idx);
    match GpuOfferFor(host.specs, req.gpuModel)
    case None =>
    case Some(offer) =>
      ChecksUpToPaths(ResourceChecks(host, offer, req), 4);
  }

  /** When the host lacks the GPU model, the last issue says so and no capacity is checked. */
  lemma HostLacksGpu(inventory: Inventory, hostnodeId: string, req: DeploySpecs, froms: seq<string>, host: Hostnode)
    requires FindHostnode(inventory, hostnodeId) == Some(host) && GpuOfferFor(host.specs, req.gpuModel).None?
    ensures var issues := HostIssues(Some(inventory), hostnodeId, req, froms);
      && |issues| > 0 && issues[|issues| - 1] == Issue(Custom, [HostnodeKey], LocationLacksGpu)
      && forall issue :: issue in issues ==> !(|issue.path| > 0 && issue.path[0] == SpecsKey)
  {
    PortsUpToKinds(host.ports, froms, |froms|);
  }

  /** On a host offering the model, each capacity or restriction the request breaks gets its issue at its field. */
  lemma HostCapacityIssues(inventory: Inventory, hostnodeId: string, req: DeploySpecs, froms: seq<string>,
                           host: Hostnode, offer: GpuOffer, k: nat)
    requires FindHostnode(inventory, hostnodeId) == Some(host) && GpuOfferFor(host.specs, req.gpuModel) == Some(offer)
    requires k < 4
    ensures var issues := HostIssues(Some(inventory), hostnodeId, req, froms);
      var c := ResourceChecks(host, offer, req)[k];
      && (TooLargeIssue(c) in issues <==> c.value > c.totalCount)
      && (c.restriction.Some? ==>
            && (BelowMinimumIssue(c) in issues <==> c.value < c.restriction.value.min)
            && (AboveMaximumIssue(c) in issues <==> c.value > c.restriction.value.max))
  {
    var checks := ResourceChecks(host, offer, req);
    var c := checks[k];
    CheckIssuesOf(c);
    ChecksUpToField(checks, 4, k, TooLargeIssue(c));
    if c.restriction.Some? {
      ChecksUpToField(checks, 4, k, BelowMinimumIssue(c));
      ChecksUpToField(checks, 4, k, AboveMaximumIssue(c));
    }
    PortsUpToKinds(host.ports, froms, |froms|);
  }

  /**
   * The capacity checks, field by field: a request field above what the host has gets one
   * `too_big` issue at that field naming the host's amount (the GPU amount of the model, the
   * vCPUs, the RAM or the storage).
   */
  lemma HostCapacityByField(inventory: Inventory, hostnodeId: string, req: DeploySpecs, froms: seq<string>,
                            host: Hostnode, offer: GpuOffer)
    requires FindHostnode(inventory, hostnodeId) == Some(host) && GpuOfferFor(host.specs, req.gpuModel) == Some(offer)
    ensures var issues := HostIssues(Some(inventory), hostnodeId, req, froms);
      && (Issue(TooBig, [SpecsKey, FieldKey(GpuCount)], TooLargeAtLocation(offer.amount)) in issues <==> req.gpuCount > offer.amount)
      && (Issue(TooBig, [SpecsKey, FieldKey(Vcpu)], TooLargeAtLocation(host.specs.cpu.amount)) in issues <==> req.vcpu > host.specs.cpu.amount)
      && (Issue(TooBig, [SpecsKey, FieldKey(Ram)], TooLargeAtLocation(host.specs.ram.amount)) in issues <==> req.ram > host.specs.ram.amount)
      && (Issue(TooBig, [SpecsKey, FieldKey(Storage)], TooLargeAtLocation(host.specs.storage.amount)) in issues <==> req.storage > host.specs.storage.amount)
  {
    HostCapacityIssues(inventory, hostnodeId, req, froms, host, offer, 0);
    HostCapacityIssues(inventory, hostnodeId, req, froms, host, offer, 1);
    HostCapacityIssues(inventory, hostnodeId, req, froms, host, offer, 2);
    HostCapacityIssues(inventory, hostnodeId, req, froms, host, offer, 3);
  }

  /**
   * The restriction for the requested GPU count, field by field: vCPUs, RAM and storage below
   * its minimum get a `too_small` issue, above its maximum a `too_big` issue, at that field.
   */
  lemma HostRestrictionByField(inventory: Inventory, hostnodeId: string, req: DeploySpecs, froms: seq<string>,
                               host: Hostnode, offer: GpuOffer)
    requires FindHostnode(inventory, hostnodeId) == Some(host) && GpuOfferFor(host.specs, req.gpuModel) == Some(offer)
    requires req.gpuCount in host.specs.restrictions
    ensures var issues := HostIssues(Some(inventory), hostnodeId, req, froms);
      var r := host.specs.restrictions[req.gpuCount];
      && (Issue(TooSmall, [SpecsKey, FieldKey(Vcpu)], BelowGpuCountMinimum(r.cpu.min)) in issues <==> req.vcpu < r.cpu.min)
      && (Issue(TooBig, [SpecsKey, FieldKey(Vcpu)], AboveGpuCountMaximum(r.cpu.max)) in issues <==> req.vcpu > r.cpu.max)
      && (Issue(TooSmall, [SpecsKey, FieldKey(Ram)], BelowGpuCountMinimum(r.ram.min)) in issues <==> req.ram < r.ram.min)
      && (Issue(TooBig, [SpecsKey, FieldKey(Ram)], AboveGpuCountMaximum(r.ram.max)) in issues <==> req.ram > r.ram.max)
      && (Issue(TooSmall, [SpecsKey, FieldKey(Storage)], BelowGpuCountMinimum(r.storage.min)) in issues <==> req.storage < r.storage.min)
      && (Issue(TooBig, [SpecsKey, FieldKey(Storage)], AboveGpuCountMaximum(r.storage.max)) in issues <==> req.storage > r.storage.max)
  {
    HostCapacityIssues(inventory, hostnodeId, req, froms, host, offer, 1);
    HostCapacityIssues(inventory, hostnodeId, req, froms, host, offer, 2);
    HostCapacityIssues(inventory, hostnodeId, req, froms, host, offer, 3);
  }

  /** A restriction issue comes from a table entry that has a restriction, and sits at that entry's field. */
  lemma {:induction false} RestrictionIssuesFrom(checks: seq<ResourceCheck>, n: nat)
    requires n <= |checks|
    ensures forall issue :: issue in ChecksUpTo(checks, n) && (issue.message.BelowGpuCountMinimum? || issue.message.AboveGpuCountMaximum?) ==>
      exists k :: 0 <= k < n && checks[k].restriction.Some? && issue.path == [SpecsKey, FieldKey(checks[k].field)]
  {
    if n > 0 {
      RestrictionIssuesFrom(checks, n - 1);
      var c := checks[n - 1];
      CheckIssuesOf(c);
      forall issue | issue in ChecksUpTo(checks, n) && (issue.message.BelowGpuCountMinimum? || issue.message.AboveGpuCountMaximum?)
        ensures exists k :: 0 <= k < n && checks[k].restriction.Some? && issue.path == [SpecsKey, FieldKey(checks[k].field)]
      {
        if issue !in ChecksUpTo(checks, n - 1) {
          assert issue in CheckIssues(c);
          assert c.restriction.Some?;
          assert issue.path == [SpecsKey, FieldKey(checks[n - 1].field)];
        }
      }
    }
  }

  /**
   * Restriction issues are raised only when the host restricts the requested GPU count, and
   * never at `gpu_count`, which has no restriction.
   */
  lemma HostRestrictionIssuesOnly(inventory: Inventory, hostnodeId: string, req: DeploySpecs, froms: seq<string>,
                                  host: Hostnode, offer: GpuOffer)
    requires FindHostnode(inventory, hostnodeId) == Some(host) && GpuOfferFor(host.specs, req.gpuModel) == Some(offer)
    ensures forall issue :: issue in HostIssues(Some(inventory), hostnodeId, req, froms)
                            && (issue.message.BelowGpuCountMinimum? || issue.message.AboveGpuCountMaximum?) ==>
      req.gpuCount in host.specs.restrictions && issue.path != [SpecsKey, FieldKey(GpuCount)]
  {
    var checks := ResourceChecks(host, offer, req);
    var ports := PortAvailabilityIssues(host.ports, froms);
    if |froms| > 0 {
      PortsUpToExact(host.ports, froms, |froms|, 0);
    }
    RestrictionIssuesFrom(checks, 4);
    assert HostIssues(Some(inventory), hostnodeId, req, froms) == ports + ChecksIssues(checks);
    forall issue | issue in ports + ChecksIssues(checks) && (issue.message.BelowGpuCountMinimum? || issue.message.AboveGpuCountMaximum?)
      ensures req.gpuCount in host.specs.restrictions && issue.path != [SpecsKey, FieldKey(GpuCount)]
    {
      assert issue !in ports;
      var k :| 0 <= k < 4 && checks[k].restriction.Some? && issue.path == [SpecsKey, FieldKey(checks[k].field)];
      assert k != 0;
    }
  }

  // ---------------------------------------------------------------------------
  // The whole schema

  /**
   * The issues the refinements of `deploySchema` raise, in the order zod runs them: the
   * element schemas of `portForwards`, its duplicate check, then the two refinements of
   * the whole object.
   */
  function DeployIssues(v: DeployValues, osMinStorage: map<string, int>, hostnodes: Option<Inventory>): seq<Issue>
  {
    PortForwardIssues(v.portForwards)
    + DuplicateIssues(Froms(v.portForwards))
    + StorageIssues(MinStorageFor(osMinStorage, v.os), v.specs.storage)
    + HostIssues(hostnodes, v.hostnode, v.specs, Froms(v.portForwards))
  }

  /** The two `superRefine` bodies of the whole object, after the element checks and the duplicate check. */
  method RefineDeploy(v: DeployValues, osMinStorage: map<string, int>, hostnodes: Option<Inventory>) returns (issues: seq<Issue>)
    ensures issues == DeployIssues(v, osMinStorage, hostnodes)
  {
    var froms := Froms(v.portForwards);
    var duplicates := RefineDuplicatePorts(froms);
    issues := PortForwardIssues(v.portForwards) + duplicates;
    var minStorage := MinStorageFor(osMinStorage, v.os);
    if minStorage.Some? && v.specs.storage < minStorage.value {
      issues := issues + [Issue(TooSmall, [SpecsKey, FieldKey(Storage)], NotEnoughStorageForOs(minStorage.value))];
    }
    var hostIssues := RefineHost(hostnodes, v.hostnode, v.specs, froms);
    issues := issues + hostIssues;
  }

  /**
   * A request with the hostnode table at hand is accepted exactly when its ports are
   * well formed and pairwise distinct, its storage meets the system's minimum and it fits
   * the chosen host.
   */
  lemma DeployAccepted(v: DeployValues, osMinStorage: map<string, int>, inventory: Inventory)
    ensures DeployIssues(v, osMinStorage, Some(inventory)) == [] <==>
      && (forall idx :: 0 <= idx < |v.portForwards| ==>
            var pf := v.portForwards[idx];
            IsPortSyntax(pf.from) && IsPortSyntax(pf.to) && IsDigits(pf.to, 10) && ValueIn(pf.to, 10) <= 65535)
      && Distinct(Froms(v.portForwards))
      && (v.os in osMinStorage ==> v.specs.storage >= osMinStorage[v.os])
      && HostAccepts(inventory, v.hostnode, v.specs, Froms(v.portForwards))
  {
    PortForwardsAccepted(v.portForwards);
    DuplicateIssuesNone(Froms(v.portForwards));
    HostIssuesNone(inventory, v.hostnode, v.specs, Froms(v.portForwards));
  }
}
