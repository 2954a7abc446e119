/**
 * The location aggregation of the custom-spec deploy flow (`generateLocations`).
 *
 * Every (hostnode, offered GPU model) pair is visited in inventory order. A pair
 * that passes the filter (enough GPUs, enough VRAM, RTX when an RTX model is
 * requested) goes to the `locations` table when it offers the requested model and
 * to the `suggestedLocations` table otherwise; inside a table, pairs with the same
 * merge key (site id, exact total price) are merged into one location.
 *
 * `Fold` is the reference definition of one table; `TableMatches` states what an
 * aggregated table holds in terms of the pairs alone, and `FoldTaggedMatches` proves it.
 */
module Locations {
  import opened JsBuiltins
  import opened Inventory
  import opened Pricing

  /** A hostnode as listed inside a location (`LocationInfo['hostnodes'][number]`). */
  datatype HostRef = HostRef(id: string, ports: seq<int>, specs: Specs, reserved: bool, uptime: real)

  /** The merge key `location.id + price.toString()`, kept as the pair it encodes. */
  datatype LocationKey = LocationKey(siteId: string, price: real)

  datatype LocationInfo = LocationInfo(
    availability: Availability,
    location: string,
    price: real,
    gpuType: string,
    stock: int,
    cpuType: string,
    hostnodes: seq<HostRef>)

  datatype LocationEntry = LocationEntry(key: LocationKey, info: LocationInfo)

  /** `Record<string, LocationInfo>` in insertion order. */
  type LocationTable = seq<LocationEntry>

  /** One (hostnode, offered GPU model) pair visited by the nested loops. */
  datatype Candidate = Candidate(hostId: string, host: Hostnode, model: string, offer: GpuOffer)

  /** The pairs of one hostnode, in the key order of `specs.gpu`. */
  function HostCandidates(id: string, host: Hostnode): seq<Candidate>
  {
    seq(|host.specs.gpu|, j requires 0 <= j < |host.specs.gpu| => Candidate(id, host, host.specs.gpu[j].0, host.specs.gpu[j].1))
  }

  /** All pairs, in the order the nested `for…in` loops visit them. */
  function Candidates(hosts: Inventory): seq<Candidate>
  {
    if |hosts| == 0 then []
    else Candidates(hosts[..|hosts| - 1]) + HostCandidates(hosts[|hosts| - 1].0, hosts[|hosts| - 1].1)
  }

  /**
   * The parts of the filter that depend on the request only: the VRAM its model id
   * names (`getVRAM(gpu_model)`, None for NaN) and whether its model's display name
   * contains "RTX". They are the same for every pair.
   */
  datatype Filter = Filter(minVram: Option<int>, rtxOnly: bool)

  function FilterFor(req: DeploySpecs, displayName: string): (f: Filter)
    ensures f.minVram == GetVRAM(req.gpuModel)
    ensures f.rtxOnly <==> exists i :: OccursAt(displayName, "RTX", i)
  {
    Filter(GetVRAM(req.gpuModel), Includes(displayName, "RTX"))
  }

  /**
   * The filter of generateLocations: a pair is kept unless it has fewer GPUs than
   * requested, less VRAM than the requested model's id names (a comparison with NaN
   * is false), or is not an RTX card while an RTX model is requested.
   */
  predicate Passes(req: DeploySpecs, filter: Filter, offer: GpuOffer)
  {
    !(offer.amount < req.gpuCount
      || (filter.minVram.Some? && offer.vram < filter.minVram.value)
      || (filter.rtxOnly && !offer.rtx))
  }

  /** The total of `calculateVMPrice` for the request on this hostnode with this GPU model. */
  function PriceOf(req: DeploySpecs, host: Hostnode, offer: GpuOffer): real
  {
    CalculateVMPrice(UnitPrices(offer.price, host.specs.ram.price, host.specs.cpu.price, host.specs.storage.price), req).total
  }

  function KeyOf(req: DeploySpecs, c: Candidate): LocationKey
  {
    LocationKey(c.host.location.id, PriceOf(req, c.host, c.offer))
  }

  /** The pair passes the filter and belongs to `locations` (isMain) or to `suggestedLocations`. */
  predicate InBucket(req: DeploySpecs, filter: Filter, c: Candidate, isMain: bool)
  {
    Passes(req, filter, c.offer) && (c.model == req.gpuModel) == isMain
  }

  function RefOf(c: Candidate): HostRef
  {
    HostRef(c.hostId, c.host.ports, c.host.specs, c.host.status.reserved, c.host.status.uptime)
  }

  /** `${city}, ${region}, ${country}`. */
  function LocationLabel(site: Site): string
  {
    site.city + ", " + site.region + ", " + site.country
  }

  /** `hostnodes.find((node) => node.id === id)` finds something. */
  predicate HasHostId(refs: seq<HostRef>, id: string)
  {
    exists k :: 0 <= k < |refs| && refs[k].id == id
  }

  predicate HostIdsDistinct(refs: seq<HostRef>)
  {
    forall i, j :: 0 <= i < j < |refs| ==> refs[i].id != refs[j].id
  }

  predicate KeysUnique(t: LocationTable)
  {
    forall i, j :: 0 <= i < j < |t| ==> t[i].key != t[j].key
  }

  /** `table[key]`: the index of the entry stored under `key`, if any. */
  function FindKey(t: LocationTable, key: LocationKey): (r: Option<nat>)
    ensures r.Some? ==> r.value < |t| && t[r.value].key == key
    ensures r.None? <==> forall i :: 0 <= i < |t| ==> t[i].key != key
  {
    if |t| == 0 then None
    else if t[|t| - 1].key == key then Some(|t| - 1)
    else FindKey(t[..|t| - 1], key)
  }

  /** The location a pair creates when its key is new. */
  function NewInfo(price: real, c: Candidate): LocationInfo
  {
    LocationInfo(FormatLocationAvailability(c.offer.amount), LocationLabel(c.host.location), price,
                 c.model, c.offer.amount, c.host.specs.cpu.cpuType, [RefOf(c)])
  }

  /** Merging a pair into an existing location: add its GPUs to the stock, relabel, list its host once. */
  function AddToInfo(info: LocationInfo, c: Candidate): LocationInfo
  {
    var stock := info.stock + c.offer.amount;
    info.(stock := stock,
          availability := FormatLocationAvailability(stock),
          hostnodes := if HasHostId(info.hostnodes, c.hostId) then info.hostnodes else info.hostnodes + [RefOf(c)])
  }

  /** One update of a table by a pair whose key and price are given. */
  function Merge(t: LocationTable, key: LocationKey, price: real, c: Candidate): LocationTable
  {
    match FindKey(t, key)
    case Some(i) => t[i := LocationEntry(key, AddToInfo(t[i].info, c))]
    case None => t + [LocationEntry(key, NewInfo(price, c))]
  }

  /** A pair together with the key it is merged under in one table, or None when it is not in that table. */
  datatype Tagged = Tagged(c: Candidate, key: Option<LocationKey>)

  /** Where a pair lands in the table `isMain` selects. */
  function Tag(req: DeploySpecs, filter: Filter, c: Candidate, isMain: bool): Option<LocationKey>
  {
    if InBucket(req, filter, c, isMain) then Some(KeyOf(req, c)) else None
  }

  function Tagging(req: DeploySpecs, filter: Filter, cs: seq<Candidate>, isMain: bool): seq<Tagged>
  {
    seq(|cs|, k requires 0 <= k < |cs| => Tagged(cs[k], Tag(req, filter, cs[k], isMain)))
  }

  /** The table built from tagged pairs, one update per pair in order. */
  function FoldTagged(ts: seq<Tagged>): LocationTable
  {
    if |ts| == 0 then []
    else
      var t := FoldTagged(ts[..|ts| - 1]);
      var x := ts[|ts| - 1];
      match x.key
      case Some(key) => Merge(t, key, key.price, x.c)
      case None => t
  }

  /** Reference definition: the table (isMain: `locations`, else `suggestedLocations`) after the pairs `cs`. */
  function Fold(req: DeploySpecs, filter: Filter, cs: seq<Candidate>, isMain: bool): LocationTable
  {
    FoldTagged(Tagging(req, filter, cs, isMain))
  }

  /** One more pair updates the table it belongs to and leaves the other one alone. */
  lemma FoldSnoc(req: DeploySpecs, filter: Filter, cs: seq<Candidate>, c: Candidate, isMain: bool)
    ensures Fold(req, filter, cs + [c], isMain)
         == if InBucket(req, filter, c, isMain)
            then Merge(Fold(req, filter, cs, isMain), KeyOf(req, c), KeyOf(req, c).price, c)
            else Fold(req, filter, cs, isMain)
  {
    var ts := Tagging(req, filter, cs, isMain);
    var ts' := Tagging(req, filter, cs + [c], isMain);
    assert ts' == ts + [Tagged(c, Tag(req, filter, c, isMain))];
    assert ts'[..|ts'| - 1] == ts;
  }

  // ---------------------------------------------------------------------------
  // What a table holds, stated through the pairs alone

  /** The pairs tagged with `key`, in visiting order. */
  function Contributors(ts: seq<Tagged>, key: LocationKey): seq<Candidate>
  {
    if |ts| == 0 then []
    else
      var x := ts[|ts| - 1];
      Contributors(ts[..|ts| - 1], key) + (if x.key == Some(key) then [x.c] else [])
  }

  lemma CandidatesSnoc(hosts: Inventory, i: nat)
    requires i < |hosts|
    ensures Candidates(hosts[..i + 1]) == Candidates(hosts[..i]) + HostCandidates(hosts[i].0, hosts[i].1)
  {
    assert hosts[..i + 1][..i] == hosts[..i];
  }

  /** The number of GPUs offered by a list of pairs. */
  function TotalAmount(cs: seq<Candidate>): int
  {
    if |cs| == 0 then 0 else TotalAmount(cs[..|cs| - 1]) + cs[|cs| - 1].offer.amount
  }

  /** A location is the merge of its contributing pairs. */
  ghost predicate EntryMatches(e: LocationEntry, contributors: seq<Candidate>)
  {
    && |contributors| > 0
    && e.info.stock == TotalAmount(contributors)
    && e.info.availability == FormatLocationAvailability(e.info.stock)
    && e.info.price == e.key.price
    && e.info.gpuType == contributors[0].model
    && e.info.location == LocationLabel(contributors[0].host.location)
    && e.info.cpuType == contributors[0].host.specs.cpu.cpuType
    && |e.info.hostnodes| > 0 && e.info.hostnodes[0] == RefOf(contributors[0])
    && ListsHosts(e.info.hostnodes, contributors)
  }

  /** `hs` lists the hostnode of every pair in `cons` exactly once, and nothing else. */
  ghost predicate ListsHosts(hs: seq<HostRef>, cons: seq<Candidate>)
  {
    && HostIdsDistinct(hs)
    && HostsFromPairs(hs, cons)
    && PairsListed(hs, cons)
  }

  /** The hostnode of every pair in `cons` is listed in `hs`. */
  ghost predicate PairsListed(hs: seq<HostRef>, cons: seq<Candidate>)
  {
    forall m :: 0 <= m < |cons| ==> HasHostId(hs, cons[m].hostId)
  }

  /** The hostnodes of the pairs `cons`, one per pair, in order. */
  function RefsOf(cons: seq<Candidate>): (refs: seq<HostRef>)
    ensures |refs| == |cons|
  {
    if |cons| == 0 then [] else RefsOf(cons[..|cons| - 1]) + [RefOf(cons[|cons| - 1])]
  }

  /** Every hostnode listed in `hs` is the hostnode of some pair in `cons`. */
  ghost predicate HostsFromPairs(hs: seq<HostRef>, cons: seq<Candidate>)
  {
    forall k :: 0 <= k < |hs| ==> hs[k] in RefsOf(cons)
  }

  /** A key has an entry exactly when some pair is tagged with it. */
  ghost predicate KeysCovered(t: LocationTable, ts: seq<Tagged>)
  {
    forall key :: FindKey(t, key).Some? <==> Contributors(ts, key) != []
  }

  /** Each entry is the merge of exactly the pairs tagged with its key. */
  ghost predicate EntriesMatch(t: LocationTable, ts: seq<Tagged>)
  {
    forall i :: 0 <= i < |t| ==> EntryMatches(t[i], Contributors(ts, t[i].key))
  }

  /**
   * The table aggregated from `ts`: one entry per key that some pair is tagged with,
   * and nothing else; each entry is the merge of exactly the pairs with its key.
   */
  ghost predicate TableMatches(t: LocationTable, ts: seq<Tagged>)
  {
    KeysUnique(t) && KeysCovered(t, ts) && EntriesMatch(t, ts)
  }

  lemma ContributorsSnoc(ts: seq<Tagged>, x: Tagged, key: LocationKey)
    ensures Contributors(ts + [x], key) == Contributors(ts, key) + (if x.key == Some(key) then [x.c] else [])
  {
    assert (ts + [x])[..|ts|] == ts;
  }

  lemma TotalAmountSnoc(cs: seq<Candidate>, c: Candidate)
    ensures TotalAmount(cs + [c]) == TotalAmount(cs) + c.offer.amount
  {
    assert (cs + [c])[..|cs|] == cs;
  }

  /** Every contributor of a key is a pair tagged with that key. */
  lemma {:induction false} ContributorsBelong(ts: seq<Tagged>, key: LocationKey)
    ensures forall m :: 0 <= m < |Contributors(ts, key)| ==>
      exists k :: 0 <= k < |ts| && ts[k] == Tagged(Contributors(ts, key)[m], Some(key))
  {
    if |ts| > 0 {
      var front, x := ts[..|ts| - 1], ts[|ts| - 1];
      ContributorsBelong(front, key);
      assert Contributors(ts, key) == Contributors(front, key) + (if x.key == Some(key) then [x.c] else []);
      forall m | 0 <= m < |Contributors(ts, key)|
        ensures exists k :: 0 <= k < |ts| && ts[k] == Tagged(Contributors(ts, key)[m], Some(key))
      {
        if m < |Contributors(front, key)| {
          var k :| 0 <= k < |front| && front[k] == Tagged(Contributors(front, key)[m], Some(key));
          assert ts[k] == front[k];
        } else {
          assert ts[|ts| - 1] == Tagged(Contributors(ts, key)[m], Some(key));
        }
      }
    } else {
      assert Contributors(ts, key) == [];
    }
  }

  /** Every tagged pair is among the contributors of its key. */
  lemma {:induction false} ContributorsInclude(ts: seq<Tagged>, k: nat)
    requires k < |ts| && ts[k].key.Some?
    ensures ts[k].c in Contributors(ts, ts[k].key.value)
  {
    if k < |ts| - 1 {
      ContributorsInclude(ts[..|ts| - 1], k);
    }
  }

  /** A pair outside the table changes nothing. */
  lemma SkipPreserves(t: LocationTable, ts: seq<Tagged>, x: Tagged)
    requires TableMatches(t, ts) && x.key.None?
    ensures TableMatches(t, ts + [x])
  {
    forall key ensures Contributors(ts + [x], key) == Contributors(ts, key) {
      ContributorsSnoc(ts, x, key);
    }
    assert KeysCovered(t, ts + [x]);
    assert EntriesMatch(t, ts + [x]);
  }

  /** Every listed hostnode still comes from a pair after one more pair is merged. */
  lemma HostsFromPairsSnoc(hs: seq<HostRef>, cons: seq<Candidate>, c: Candidate)
    requires HostsFromPairs(hs, cons)
    ensures HostsFromPairs(if HasHostId(hs, c.hostId) then hs else hs + [RefOf(c)], cons + [c])
  {
    assert (cons + [c])[..|cons|] == cons;
    assert RefsOf(cons + [c]) == RefsOf(cons) + [RefOf(c)];
  }

  /** After one more pair is merged, every pair's hostnode is still listed. */
  lemma PairsListedSnoc(hs: seq<HostRef>, cons: seq<Candidate>, c: Candidate)
    requires PairsListed(hs, cons)
    ensures PairsListed(if HasHostId(hs, c.hostId) then hs else hs + [RefOf(c)], cons + [c])
  {
    var cons' := cons + [c];
    var hs' := if HasHostId(hs, c.hostId) then hs else hs + [RefOf(c)];
    forall m | 0 <= m < |cons'| ensures HasHostId(hs', cons'[m].hostId) {
      if m < |cons| {
        assert cons'[m] == cons[m] && HasHostId(hs, cons[m].hostId);
        var k :| 0 <= k < |hs| && hs[k].id == cons[m].hostId;
        assert hs'[k] == hs[k];
      } else if !HasHostId(hs, c.hostId) {
        assert hs'[|hs|].id == c.hostId;
      }
    }
  }

  /** A hostnode is added only when its id is not yet listed, so ids stay distinct. */
  lemma HostIdsDistinctSnoc(hs: seq<HostRef>, c: Candidate)
    requires HostIdsDistinct(hs)
    ensures HostIdsDistinct(if HasHostId(hs, c.hostId) then hs else hs + [RefOf(c)])
  {
    if !HasHostId(hs, c.hostId) {
      var hs' := hs + [RefOf(c)];
      assert forall k :: 0 <= k < |hs| ==> hs'[k] == hs[k] && hs[k].id != c.hostId;
    }
  }

  /** Listing one more pair's hostnode unless it is already listed keeps the list exact. */
  lemma ListsHostsSnoc(hs: seq<HostRef>, cons: seq<Candidate>, c: Candidate)
    requires ListsHosts(hs, cons)
    ensures ListsHosts(if HasHostId(hs, c.hostId) then hs else hs + [RefOf(c)], cons + [c])
  {
    HostsFromPairsSnoc(hs, cons, c);
    PairsListedSnoc(hs, cons, c);
    HostIdsDistinctSnoc(hs, c);
  }

  /** Merging one more pair into a location keeps it the merge of its contributors. */
  lemma AddToInfoMatches(e: LocationEntry, cons: seq<Candidate>, c: Candidate)
    requires EntryMatches(e, cons)
    ensures EntryMatches(LocationEntry(e.key, AddToInfo(e.info, c)), cons + [c])
  {
    TotalAmountSnoc(cons, c);
    ListsHostsSnoc(e.info.hostnodes, cons, c);
    assert (cons + [c])[0] == cons[0];
  }

  /** A location opened by one pair is the merge of that pair alone. */
  lemma NewInfoMatches(key: LocationKey, c: Candidate)
    ensures EntryMatches(LocationEntry(key, NewInfo(key.price, c)), [c])
  {
    var e := LocationEntry(key, NewInfo(key.price, c));
    assert TotalAmount([c]) == c.offer.amount by { TotalAmountSnoc([], c); assert [] + [c] == [c]; }
    assert RefOf([c][0]) == e.info.hostnodes[0];
    assert e.info.hostnodes[0].id == c.hostId;
  }

  /** Tables with the same key at every index answer every lookup alike. */
  lemma {:induction false} SameKeysSameLookups(t: LocationTable, t': LocationTable)
    requires |t'| == |t| && forall j :: 0 <= j < |t| ==> t'[j].key == t[j].key
    ensures forall key :: FindKey(t', key) == FindKey(t, key)
  {
    if |t| > 0 {
      SameKeysSameLookups(t[..|t| - 1], t'[..|t| - 1]);
    }
  }

  /** Replacing the entry a pair is merged into keeps the keys. */
  lemma ReplaceEntryKeys(t: LocationTable, ts: seq<Tagged>, x: Tagged, i: nat, t': LocationTable)
    requires KeysUnique(t) && KeysCovered(t, ts)
    requires i < |t| && x.key == Some(t[i].key)
    requires |t'| == |t| && forall j :: 0 <= j < |t| ==> t'[j].key == t[j].key
    ensures KeysUnique(t') && KeysCovered(t', ts + [x])
  {
    SameKeysSameLookups(t, t');
    forall key ensures FindKey(t', key).Some? <==> Contributors(ts + [x], key) != [] {
      ContributorsSnoc(ts, x, key);
      if key == t[i].key {
        assert FindKey(t, key).Some?;
      }
    }
  }

  /** A pair tagged with another key leaves an entry matched. */
  lemma EntryUnaffected(e: LocationEntry, ts: seq<Tagged>, x: Tagged)
    requires EntryMatches(e, Contributors(ts, e.key)) && x.key != Some(e.key)
    ensures EntryMatches(e, Contributors(ts + [x], e.key))
  {
    ContributorsSnoc(ts, x, e.key);
    assert Contributors(ts + [x], e.key) == Contributors(ts, e.key);
  }

  /** Replacing the entry a pair is merged into by the merge of its pairs leaves the other entries matched. */
  lemma ReplaceEntryEntries(t: LocationTable, ts: seq<Tagged>, x: Tagged, i: nat, t': LocationTable)
    requires KeysUnique(t) && EntriesMatch(t, ts)
    requires i < |t| && x.key == Some(t[i].key)
    requires |t'| == |t| && t'[i].key == t[i].key && forall j :: 0 <= j < |t| && j != i ==> t'[j] == t[j]
    requires EntryMatches(t'[i], Contributors(ts, t[i].key) + [x.c])
    ensures EntriesMatch(t', ts + [x])
  {
    forall j | 0 <= j < |t'| ensures EntryMatches(t'[j], Contributors(ts + [x], t'[j].key)) {
      if j == i {
        ContributorsSnoc(ts, x, t[i].key);
        assert Contributors(ts + [x], t[i].key) == Contributors(ts, t[i].key) + [x.c];
      } else {
        assert t'[j] == t[j] && t[j].key != t[i].key;
        EntryUnaffected(t[j], ts, x);
      }
    }
  }

  /** A pair whose key is already present is merged into that entry. */
  lemma MergeExistingPreserves(t: LocationTable, ts: seq<Tagged>, x: Tagged, i: nat)
    requires TableMatches(t, ts)
    requires i < |t| && x.key == Some(t[i].key)
    ensures TableMatches(t[i := LocationEntry(t[i].key, AddToInfo(t[i].info, x.c))], ts + [x])
  {
    var t' := t[i := LocationEntry(t[i].key, AddToInfo(t[i].info, x.c))];
    AddToInfoMatches(t[i], Contributors(ts, t[i].key), x.c);
    ReplaceEntryKeys(t, ts, x, i, t');
    ReplaceEntryEntries(t, ts, x, i, t');
  }

  /** Opening a new entry adds exactly the new key. */
  lemma AppendEntryKeys(t: LocationTable, ts: seq<Tagged>, x: Tagged, t': LocationTable)
    requires KeysUnique(t) && KeysCovered(t, ts)
    requires x.key.Some? && Contributors(ts, x.key.value) == []
    requires forall j :: 0 <= j < |t| ==> t[j].key != x.key.value
    requires |t'| == |t| + 1 && t'[..|t|] == t && t'[|t|].key == x.key.value
    ensures KeysUnique(t') && KeysCovered(t', ts + [x])
  {
    var key0 := x.key.value;
    assert forall j :: 0 <= j < |t| ==> t'[j] == t[j];
    forall key ensures FindKey(t', key).Some? <==> Contributors(ts + [x], key) != [] {
      ContributorsSnoc(ts, x, key);
      if key != key0 {
        assert FindKey(t', key) == FindKey(t, key);
      }
    }
  }

  /** Opening a new entry leaves the old entries as they were. */
  lemma AppendEntryEntries(t: LocationTable, ts: seq<Tagged>, x: Tagged, t': LocationTable)
    requires EntriesMatch(t, ts)
    requires x.key.Some? && Contributors(ts, x.key.value) == []
    requires forall j :: 0 <= j < |t| ==> t[j].key != x.key.value
    requires |t'| == |t| + 1 && t'[..|t|] == t && t'[|t|].key == x.key.value
    requires EntryMatches(t'[|t|], [x.c])
    ensures EntriesMatch(t', ts + [x])
  {
    var key0 := x.key.value;
    forall j | 0 <= j < |t'| ensures EntryMatches(t'[j], Contributors(ts + [x], t'[j].key)) {
      if j < |t| {
        assert t'[j] == t[j];
        EntryUnaffected(t[j], ts, x);
      } else {
        ContributorsSnoc(ts, x, key0);
      }
    }
  }

  /** A pair with a new key opens a new entry at the end. */
  lemma MergeNewPreserves(t: LocationTable, ts: seq<Tagged>, x: Tagged, key0: LocationKey)
    requires TableMatches(t, ts)
    requires x.key == Some(key0) && FindKey(t, key0).None?
    ensures TableMatches(t + [LocationEntry(key0, NewInfo(key0.price, x.c))], ts + [x])
  {
    var t' := t + [LocationEntry(key0, NewInfo(key0.price, x.c))];
    assert t'[..|t|] == t;
    NewInfoMatches(key0, x.c);
    assert Contributors(ts, key0) == [];
    AppendEntryKeys(t, ts, x, t');
    AppendEntryEntries(t, ts, x, t');
  }

  /** The fold builds exactly the table `TableMatches` describes. */
  lemma {:induction false} FoldTaggedMatches(ts: seq<Tagged>)
    ensures TableMatches(FoldTagged(ts), ts)
  {
    if |ts| > 0 {
      var front, x := ts[..|ts| - 1], ts[|ts| - 1];
      assert ts == front + [x];
      FoldTaggedMatches(front);
      var t := FoldTagged(front);
      match x.key
      case None => SkipPreserves(t, front, x);
      case Some(key) =>
        match FindKey(t, key)
        case Some(i) => MergeExistingPreserves(t, front, x, i);
        case None => MergeNewPreserves(t, front, x, key);
    }
  }

  // ---------------------------------------------------------------------------
  // Consequences for the tables the page shows

  /** Pairs that each offer at least `g` GPUs offer at least `n * g` together. */
  lemma {:induction false} TotalAmountAtLeast(cs: seq<Candidate>, g: int)
    requires forall m :: 0 <= m < |cs| ==> cs[m].offer.amount >= g
    ensures TotalAmount(cs) >= |cs| * g
  {
    if |cs| > 0 {
      TotalAmountAtLeast(cs[..|cs| - 1], g);
    }
  }

  lemma NonEmptyTotalAtLeast(cs: seq<Candidate>, g: int)
    requires |cs| > 0 && g >= 0
    requires forall m :: 0 <= m < |cs| ==> cs[m].offer.amount >= g
    ensures TotalAmount(cs) >= g
  {
    TotalAmountAtLeast(cs, g);
    assert |cs| * g == g + (|cs| - 1) * g;
    assert (|cs| - 1) * g >= 0;
  }

  /** The pairs merged into the location stored under `key` of the table `isMain` selects. */
  function MergedPairs(req: DeploySpecs, filter: Filter, cs: seq<Candidate>, isMain: bool, key: LocationKey): seq<Candidate>
  {
    Contributors(Tagging(req, filter, cs, isMain), key)
  }

  /** Every pair merged under `key` is one of the pairs, passed the filter and has that key. */
  lemma MergedPairsBelong(req: DeploySpecs, filter: Filter, cs: seq<Candidate>, isMain: bool, key: LocationKey)
    ensures var pairs := MergedPairs(req, filter, cs, isMain, key);
      forall m :: 0 <= m < |pairs| ==> pairs[m] in cs && InBucket(req, filter, pairs[m], isMain) && KeyOf(req, pairs[m]) == key
  {
    var ts := Tagging(req, filter, cs, isMain);
    var pairs := Contributors(ts, key);
    ContributorsBelong(ts, key);
    forall m | 0 <= m < |pairs|
      ensures pairs[m] in cs && InBucket(req, filter, pairs[m], isMain) && KeyOf(req, pairs[m]) == key
    {
      var k :| 0 <= k < |ts| && ts[k] == Tagged(pairs[m], Some(key));
      assert ts[k] == Tagged(cs[k], Tag(req, filter, cs[k], isMain));
    }
  }

  /** Each location of a table is the merge of the pairs merged under its key. */
  lemma FoldEntryMatches(req: DeploySpecs, filter: Filter, cs: seq<Candidate>, isMain: bool, i: nat)
    requires i < |Fold(req, filter, cs, isMain)|
    ensures EntryMatches(Fold(req, filter, cs, isMain)[i], MergedPairs(req, filter, cs, isMain, Fold(req, filter, cs, isMain)[i].key))
  {
    var ts := Tagging(req, filter, cs, isMain);
    FoldTaggedMatches(ts);
    assert EntriesMatch(FoldTagged(ts), ts);
  }

  /**
   * What each aggregated location promises: it is the merge of a non-empty list of
   * pairs, every one of which passed the filter, offered the requested model exactly
   * when the table is `locations`, and has the location's site and price; its stock
   * is the number of GPUs those pairs offer (so at least the requested count), its
   * label matches its stock, and it lists each hostnode once.
   */
  lemma LocationFacts(req: DeploySpecs, filter: Filter, cs: seq<Candidate>, isMain: bool, i: nat)
    requires i < |Fold(req, filter, cs, isMain)|
    ensures var e := Fold(req, filter, cs, isMain)[i];
      var pairs := MergedPairs(req, filter, cs, isMain, e.key);
      && |pairs| > 0
      && e.info.stock == TotalAmount(pairs)
      && (e.info.gpuType == req.gpuModel) == isMain
      && e.info.availability == FormatLocationAvailability(e.info.stock)
      && e.info.price == e.key.price
      && (req.gpuCount >= 0 ==> e.info.stock >= req.gpuCount)
      && HostIdsDistinct(e.info.hostnodes)
      && forall m :: 0 <= m < |pairs| ==>
           pairs[m] in cs && Passes(req, filter, pairs[m].offer) && (pairs[m].model == req.gpuModel) == isMain
           && pairs[m].host.location.id == e.key.siteId && PriceOf(req, pairs[m].host, pairs[m].offer) == e.info.price
  {
    var e := Fold(req, filter, cs, isMain)[i];
    var pairs := MergedPairs(req, filter, cs, isMain, e.key);
    FoldEntryMatches(req, filter, cs, isMain, i);
    MergedPairsBelong(req, filter, cs, isMain, e.key);
    if req.gpuCount >= 0 {
      NonEmptyTotalAtLeast(pairs, req.gpuCount);
    }
  }

  /** No passing pair is lost: its (site, price) key has a location in its table. */
  lemma LocationsCoverPairs(req: DeploySpecs, filter: Filter, cs: seq<Candidate>, isMain: bool, k: nat)
    requires k < |cs| && InBucket(req, filter, cs[k], isMain)
    ensures FindKey(Fold(req, filter, cs, isMain), KeyOf(req, cs[k])).Some?
  {
    var ts := Tagging(req, filter, cs, isMain);
    FoldTaggedMatches(ts);
    assert ts[k] == Tagged(cs[k], Some(KeyOf(req, cs[k])));
    ContributorsInclude(ts, k);
  }
}
