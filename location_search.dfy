/**
 * `generateLocations` as the source writes it: two mutable location objects, nested
 * loops over the hostnodes and their GPU models, and `listToUpdate` aliasing the
 * object a pair belongs to. The method is proved to build, then sort, exactly the
 * tables of the reference fold `Locations.Fold`.
 */
module LocationSearch {
  import opened JsBuiltins
  import opened Inventory
  import opened Pricing
  import opened Locations
  import opened Ranking

  /** A mutable `Record<string, LocationInfo>`, its entries in insertion order. */
  class LocationDict {
    var entries: LocationTable

    constructor ()
      ensures entries == []
    {
      entries := [];
    }

    /** The branch taken by a pair that passed the filter: merge into `this[key]`, or open it. */
    method Upsert(key: LocationKey, vmPrice: real, c: Candidate)
      modifies this
      ensures entries == Merge(old(entries), key, vmPrice, c)
    {
      match FindKey(entries, key) {
        case Some(i) =>
          var info := entries[i].info;
          var stock := info.stock + c.offer.amount;
          var hostnodes := info.hostnodes;
          if !HasHostId(hostnodes, c.hostId) {
            hostnodes := hostnodes + [RefOf(c)];
          }
          entries := entries[i := LocationEntry(key, info.(stock := stock,
                                                              availability := FormatLocationAvailability(stock),
                                                              hostnodes := hostnodes))];
        case None =>
          var location := c.host.location.city + ", " + c.host.location.region + ", " + c.host.location.country;
          entries := entries + [LocationEntry(key, LocationInfo(FormatLocationAvailability(c.offer.amount), location, vmPrice,
                                                                c.model, c.offer.amount, c.host.specs.cpu.cpuType, [RefOf(c)]))];
      }
    }
  }

  /**
   * The body of the inner loop for one (hostnode, GPU model) pair: price it, pick the
   * table by model (`listToUpdate` aliases one of the two), and merge the pair into it if
   * it passes the filter. `visited` are the pairs handled before it.
   */
  method VisitPair(req: DeploySpecs, filter: Filter, locations: LocationDict, suggestedLocations: LocationDict,
                   c: Candidate, ghost visited: seq<Candidate>)
    requires locations != suggestedLocations
    requires locations.entries == Fold(req, filter, visited, true)
    requires suggestedLocations.entries == Fold(req, filter, visited, false)
    modifies locations, suggestedLocations
    ensures locations.entries == Fold(req, filter, visited + [c], true)
    ensures suggestedLocations.entries == Fold(req, filter, visited + [c], false)
  {
    var vmPrice := PriceOf(req, c.host, c.offer);
    var listToUpdate := if req.gpuModel == c.model then locations else suggestedLocations;
    var currentLocationId := LocationKey(c.host.location.id, vmPrice);
    FoldSnoc(req, filter, visited, c, true);
    FoldSnoc(req, filter, visited, c, false);
    if Passes(req, filter, c.offer) {
      listToUpdate.Upsert(currentLocationId, vmPrice, c);
    }
  }

  /**
   * The inner loop of generateLocations: every GPU model of one hostnode, in key order,
   * handled by `VisitPair`. `before` are the pairs visited so far.
   */
  method VisitHostnode(req: DeploySpecs, filter: Filter, locations: LocationDict, suggestedLocations: LocationDict,
                       hostnodeId: string, hostnode: Hostnode, ghost before: seq<Candidate>)
    requires locations != suggestedLocations
    requires locations.entries == Fold(req, filter, before, true)
    requires suggestedLocations.entries == Fold(req, filter, before, false)
    modifies locations, suggestedLocations
    ensures locations.entries == Fold(req, filter, before + HostCandidates(hostnodeId, hostnode), true)
    ensures suggestedLocations.entries == Fold(req, filter, before + HostCandidates(hostnodeId, hostnode), false)
  {
    ghost var pairs := HostCandidates(hostnodeId, hostnode);
    var j := 0;
    assert before + pairs[..0] == before;
    while j < |hostnode.specs.gpu|
      invariant 0 <= j <= |hostnode.specs.gpu|
      invariant locations.entries == Fold(req, filter, before + pairs[..j], true)
      invariant suggestedLocations.entries == Fold(req, filter, before + pairs[..j], false)
    {
      var (hostnodeGpu, offer) := hostnode.specs.gpu[j];
      var c := Candidate(hostnodeId, hostnode, hostnodeGpu, offer);
      assert pairs[j] == c;
      assert before + pairs[..j + 1] == (before + pairs[..j]) + [c];
      VisitPair(req, filter, locations, suggestedLocations, c, before + pairs[..j]);
      j := j + 1;
    }
    assert pairs[..|pairs|] == pairs;
  }

  /**
   * `gpuDisplayNames` is the display-name table of the GPU catalogue; the source reads
   * the requested model's entry unconditionally.
   */
  method GenerateLocations(req: DeploySpecs, gpuDisplayNames: map<string, string>, hosts: Inventory)
    returns (locations: LocationTable, suggestedLocations: LocationTable)
    requires req.gpuModel in gpuDisplayNames
    ensures locations == SortLocations(Fold(req, FilterFor(req, gpuDisplayNames[req.gpuModel]), Candidates(hosts), true))
    ensures suggestedLocations == SortLocations(Fold(req, FilterFor(req, gpuDisplayNames[req.gpuModel]), Candidates(hosts), false))
    ensures Sorted(locations) && Sorted(suggestedLocations)
    ensures forall k :: 0 <= k < |locations| ==> locations[k].info.gpuType == req.gpuModel
    ensures forall k :: 0 <= k < |suggestedLocations| ==> suggestedLocations[k].info.gpuType != req.gpuModel
  {
    // `getVRAM(gpu_model)` and `GPU_INFO[gpu_model].displayName.includes('RTX')` do not depend on the pair
    var filter := Filter(GetVRAM(req.gpuModel), Includes(gpuDisplayNames[req.gpuModel], "RTX"));
    var locs := new LocationDict();
    var suggested := new LocationDict();
    var i := 0;
    while i < |hosts|
      invariant 0 <= i <= |hosts|
      invariant locs.entries == Fold(req, filter, Candidates(hosts[..i]), true)
      invariant suggested.entries == Fold(req, filter, Candidates(hosts[..i]), false)
    {
      var (hostnodeId, hostnode) := hosts[i];
      VisitHostnode(req, filter, locs, suggested, hostnodeId, hostnode, Candidates(hosts[..i]));
      CandidatesSnoc(hosts, i);
      i := i + 1;
    }
    assert hosts[..|hosts|] == hosts;
    locations := SortLocations(locs.entries);
    suggestedLocations := SortLocations(suggested.entries);
    ShownTable(req, filter, Candidates(hosts), true);
    ShownTable(req, filter, Candidates(hosts), false);
  }

  /** A table as shown: sorted, and still labelled with the requested model exactly when it is `locations`. */
  lemma ShownTable(req: DeploySpecs, filter: Filter, cs: seq<Candidate>, isMain: bool)
    ensures var sorted := SortLocations(Fold(req, filter, cs, isMain));
      && Sorted(sorted)
      && forall k :: 0 <= k < |sorted| ==> (sorted[k].info.gpuType == req.gpuModel) == isMain
  {
    var t := Fold(req, filter, cs, isMain);
    var sorted := SortLocations(t);
    SortLocationsSorted(t);
    forall k | 0 <= k < |sorted| ensures (sorted[k].info.gpuType == req.gpuModel) == isMain {
      assert sorted[k] in multiset(t);
      var i :| 0 <= i < |t| && t[i] == sorted[k];
      LocationFacts(req, filter, cs, isMain, i);
    }
  }
}
