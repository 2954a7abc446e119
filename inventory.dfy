/**
 * The hostnode inventory the provider returns (`HostnodeEntry` records keyed by
 * hostnode id) and the hardware request a user builds in the deploy form.
 * JavaScript objects become sequences of (key, value) pairs so that their
 * iteration order is explicit: the aggregation, the ranking ties and the preset
 * tie-break all depend on it.
 */
module Inventory {
  import opened JsBuiltins

  /** One GPU model offered by a hostnode (`specs.gpu[model]`). */
  datatype GpuOffer = GpuOffer(amount: int, price: real, pcie: bool, gtx: bool, rtx: bool, vram: int)

  datatype Cpu = Cpu(amount: int, cpuType: string, price: real)

  /** RAM (GB) or storage (GB) capacity with its unit price. */
  datatype Resource = Resource(amount: int, price: real)

  datatype Bounds = Bounds(min: int, max: int)

  /** Extra bounds on vCPU, RAM and storage that apply to one requested GPU count. */
  datatype Restriction = Restriction(cpu: Bounds, ram: Bounds, storage: Bounds)

  datatype Specs = Specs(
    cpu: Cpu,
    ram: Resource,
    storage: Resource,
    gpu: seq<(string, GpuOffer)>,          // GPU model id -> offer, in key order
    restrictions: map<int, Restriction>)   // GPU count -> bounds; absent counts have none

  datatype Site = Site(id: string, country: string, region: string, city: string)

  datatype Status = Status(online: bool, listed: bool, reserved: bool, uptime: real)

  datatype Hostnode = Hostnode(location: Site, ports: seq<int>, specs: Specs, status: Status)

  /** `Record<string, HostnodeEntry>`: hostnode id -> entry, in key order. */
  type Inventory = seq<(string, Hostnode)>

  /** The hardware part of a deploy request (`DeployValues['specs']`). */
  datatype DeploySpecs = DeploySpecs(gpuModel: string, gpuCount: int, ram: int, vcpu: int, storage: int)

  /** A JavaScript object never holds the same key twice. */
  predicate KeysDistinct<V>(entries: seq<(string, V)>)
  {
    forall i, j :: 0 <= i < j < |entries| ==> entries[i].0 != entries[j].0
  }

  /** `object[key]` on an object given as its entries: the value stored under `key`, if any. */
  function Lookup<V>(entries: seq<(string, V)>, key: string): (r: Option<V>)
    ensures r.None? <==> forall k :: 0 <= k < |entries| ==> entries[k].0 != key
    ensures r.Some? ==> exists k :: 0 <= k < |entries| && entries[k] == (key, r.value)
  {
    if |entries| == 0 then None
    else if entries[0].0 == key then Some(entries[0].1)
    else
      var r := Lookup(entries[1..], key);
      assert forall k :: 1 <= k < |entries| ==> entries[k] == entries[1..][k - 1];
      r
  }

  /** With distinct keys, a lookup finds exactly the entry stored under that key. */
  lemma {:induction false} LookupDistinct<V>(entries: seq<(string, V)>, k: nat)
    requires KeysDistinct(entries) && k < |entries|
    ensures Lookup(entries, entries[k].0) == Some(entries[k].1)
  {
    if k > 0 {
      assert entries[0].0 != entries[k].0;
      LookupDistinct(entries[1..], k - 1);
    }
  }

  /** `specs.gpu[model]`. */
  function GpuOfferFor(specs: Specs, model: string): Option<GpuOffer>
  {
    Lookup(specs.gpu, model)
  }

  /** `hostnodes[id]`. */
  function FindHostnode(inventory: Inventory, id: string): Option<Hostnode>
  {
    Lookup(inventory, id)
  }
}
