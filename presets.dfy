/**
 * The preset flow: for every fixed configuration of the catalogue, the cheapest host
 * that can run it while keeping a reserve of RAM, vCPUs and storage for each of its
 * GPUs the configuration leaves unused; then the in-stock configurations as shown.
 */
module Presets {
  import opened JsBuiltins
  import opened Inventory
  import Pricing

  /** Reserve kept per unused GPU of a host. */
  const SaveRamAmount := 64
  const SaveCpuAmount := 16
  const SaveStorageAmount := 600

  /** The preset model of the catalogue. */
  const PresetModel := "h100-sxm5-80gb"

  datatype DeployConfiguration = DeployConfiguration(
    gpuCount: int,
    gpuModel: string,
    ram: int,
    vcpu: int,
    storage: int,
    nvlink: bool,
    bandwidth: int,
    stock: bool,
    hostnode: Option<string>,  // null until a host is chosen
    price: real)

  function Preset(gpuCount: int, ram: int, vcpu: int, storage: int, nvlink: bool, bandwidth: int): DeployConfiguration
  {
    DeployConfiguration(gpuCount, PresetModel, ram, vcpu, storage, nvlink, bandwidth, false, None, 0.0)
  }

  /** `getDefaultConfigurations`: eight presets, none in stock, no host, price 0. */
  function DefaultConfigurations(): (configs: seq<DeployConfiguration>)
    ensures |configs| == 8
    ensures forall i :: 0 <= i < |configs| ==>
      configs[i].gpuModel == PresetModel && !configs[i].stock && configs[i].hostnode.None? && configs[i].price == 0.0
  {
    [ Preset(1, 62, 12, 600, false, 10),
      Preset(1, 124, 24, 1200, false, 10),
      Preset(2, 124, 24, 1200, false, 10),
      Preset(2, 248, 48, 2400, false, 10),
      Preset(4, 248, 48, 2400, false, 10),
      Preset(4, 496, 96, 4800, false, 10),
      Preset(8, 496, 96, 4800, true, 100),
      Preset(8, 906, 208, 11680, true, 100) ]
  }

  /** `roundValue` of api.ts: `Math.round(value * 100) / 100`. */
  function RoundValue(value: real): (r: real)
    ensures value - 0.005 < r <= value + 0.005
    ensures Pricing.OnGrid(r, 100.0)
  {
    var n := MathRound(value * 100.0);
    assert (n as real / 100.0) * 100.0 == n as real;
    n as real / 100.0
  }

  /** The rounding picks the one hundredth in (value - 1/200, value + 1/200]. */
  lemma RoundValueIsNearestHundredth(value: real, r: real)
    requires Pricing.OnGrid(r, 100.0) && value - 0.005 < r <= value + 0.005
    ensures RoundValue(value) == r
  {
    var n := (r * 100.0).Floor;
    MathRoundUnique(value * 100.0, n);
  }

  /** Every host of the inventory offers `model`: the source reads `specs.gpu[model].amount` unguarded. */
  predicate OffersModel(hosts: Inventory, model: string)
  {
    forall k :: 0 <= k < |hosts| ==> GpuOfferFor(hosts[k].1.specs, model).Some?
  }

  /** Host ids are non-empty strings, so a chosen id is never mistaken for "no host yet". */
  predicate IdsNonEmpty(hosts: Inventory)
  {
    forall k :: 0 <= k < |hosts| ==> hosts[k].0 != ""
  }

  /**
   * The host passes every test of the matcher. Passing means exactly: at least the
   * requested GPUs, and each resource covering the request plus the reserve for every
   * GPU left unused (which makes the plain capacity tests redundant).
   */
  function Eligible(specs: Specs, offer: GpuOffer, cfg: DeployConfiguration): (ok: bool)
    ensures var unused := offer.amount - cfg.gpuCount;
      ok <==>
        && unused >= 0
        && specs.ram.amount >= cfg.ram + SaveRamAmount * unused
        && specs.cpu.amount >= cfg.vcpu + SaveCpuAmount * unused
        && specs.storage.amount >= cfg.storage + SaveStorageAmount * unused
  {
    var unused := offer.amount - cfg.gpuCount;
    !(|| offer.amount < cfg.gpuCount
      || specs.ram.amount < cfg.ram
      || specs.ram.amount - cfg.ram - SaveRamAmount * unused < 0
      || specs.cpu.amount < cfg.vcpu
      || specs.cpu.amount - cfg.vcpu - SaveCpuAmount * unused < 0
      || specs.storage.amount < cfg.storage
      || specs.storage.amount - cfg.storage - SaveStorageAmount * unused < 0)
  }

  /** The matcher's price: the whole sum, rounded once to hundredths. */
  function PresetPrice(specs: Specs, offer: GpuOffer, cfg: DeployConfiguration): real
  {
    RoundValue(specs.ram.price * cfg.ram as real + specs.cpu.price * cfg.vcpu as real
               + specs.storage.price * cfg.storage as real + offer.price * cfg.gpuCount as real)
  }

  /** The host's GPU count of `model`, the figure the matcher compares; 0 when the model is not offered. */
  function AmountOf(hostnode: Hostnode, model: string): int
  {
    match GpuOfferFor(hostnode.specs, model)
    case Some(offer) => offer.amount
    case None => 0
  }

  /** What the matcher compares between eligible hosts: the price and the GPU amount of the model. */
  datatype Bid = Bid(price: real, amount: int)

  /** The bid of one host for a configuration, or None when the host is not eligible. */
  function HostBid(hostnode: Hostnode, cfg: DeployConfiguration): Option<Bid>
    requires GpuOfferFor(hostnode.specs, cfg.gpuModel).Some?
  {
    var offer := GpuOfferFor(hostnode.specs, cfg.gpuModel).value;
    if Eligible(hostnode.specs, offer, cfg) then Some(Bid(PresetPrice(hostnode.specs, offer, cfg), offer.amount)) else None
  }

  function Bids(hosts: Inventory, cfg: DeployConfiguration): seq<Option<Bid>>
    requires OffersModel(hosts, cfg.gpuModel)
  {
    seq(|hosts|, k requires 0 <= k < |hosts| => HostBid(hosts[k].1, cfg))
  }

  /** The matcher's replacement test: cheaper, or fewer GPUs of the model at no higher price. */
  predicate Beats(x: Bid, y: Bid)
  {
    x.price < y.price || (x.amount < y.amount && x.price <= y.price)
  }

  /** The position of the host the matcher holds after the first `n` hosts, if any. */
  function BestUpTo(bids: seq<Option<Bid>>, n: nat): (best: Option<nat>)
    requires n <= |bids|
    ensures best.Some? ==> best.value < n && bids[best.value].Some?
  {
    if n == 0 then None
    else
      var prev := BestUpTo(bids, n - 1);
      if bids[n - 1].None? then prev
      else if prev.None? || Beats(bids[n - 1].value, bids[prev.value].value) then Some(n - 1)
      else prev
  }

  /** The order the matcher ends up minimising: price, then GPU amount, then position. */
  predicate LexNoWorse(x: (real, int, int), y: (real, int, int))
  {
    x.0 < y.0 || (x.0 == y.0 && (x.1 < y.1 || (x.1 == y.1 && x.2 <= y.2)))
  }

  lemma LexNoWorseTransitive(x: (real, int, int), y: (real, int, int), z: (real, int, int))
    requires LexNoWorse(x, y) && LexNoWorse(y, z)
    ensures LexNoWorse(x, z)
  {
  }

  /** Bid `b` is ordered no later than bid `k` by (price, GPU amount, position). */
  predicate NoWorse(bids: seq<Option<Bid>>, b: nat, k: nat)
    requires b < |bids| && k < |bids| && bids[b].Some? && bids[k].Some?
  {
    LexNoWorse((bids[b].value.price, bids[b].value.amount, b), (bids[k].value.price, bids[k].value.amount, k))
  }

  /**
   * The matcher finds a host exactly when one is eligible, and the host it keeps is the
   * least eligible host by price, then by GPU amount, then by position.
   */
  lemma {:induction false} BestIsFirstCheapest(bids: seq<Option<Bid>>, n: nat)
    requires n <= |bids|
    ensures BestUpTo(bids, n).None? <==> forall k :: 0 <= k < n ==> bids[k].None?
    ensures BestUpTo(bids, n).Some? ==>
      forall k :: 0 <= k < n && bids[k].Some? ==> NoWorse(bids, BestUpTo(bids, n).value, k)
  {
    if n > 0 {
      BestIsFirstCheapest(bids, n - 1);
      var prev := BestUpTo(bids, n - 1);
      var last := n - 1;
      if bids[last].Some? && prev.Some? {
        var b := prev.value;
        if Beats(bids[last].value, bids[b].value) {
          assert NoWorse(bids, last, b);
          forall k | 0 <= k < last && bids[k].Some? ensures NoWorse(bids, last, k) {
            LexNoWorseTransitive((bids[last].value.price, bids[last].value.amount, last),
                                 (bids[b].value.price, bids[b].value.amount, b),
                                 (bids[k].value.price, bids[k].value.amount, k));
          }
        } else {
          assert NoWorse(bids, b, last);
        }
      }
    }
  }

  /**
   * One pass of the matcher's inner loop: the host is skipped unless eligible; the first
   * eligible host is taken; a later one replaces the kept host when it is cheaper, or has
   * fewer GPUs of the model at no higher price.
   */
  method ConsiderHostnode(cfg: DeployConfiguration, hostnodeId: string, hostnode: Hostnode,
                          bestHostnode: Option<string>, bestHostnodeConfig: Option<Hostnode>, bestHostnodePrice: real,
                          ghost hosts: Inventory, ghost i: nat)
    returns (nextHostnode: Option<string>, nextHostnodeConfig: Option<Hostnode>, nextHostnodePrice: real)
    requires i < |hosts| && hosts[i] == (hostnodeId, hostnode) && OffersModel(hosts, cfg.gpuModel) && IdsNonEmpty(hosts)
    requires Holding(hosts, cfg, i, bestHostnode, bestHostnodeConfig, bestHostnodePrice)
    ensures Holding(hosts, cfg, i + 1, nextHostnode, nextHostnodeConfig, nextHostnodePrice)
  {
    ghost var bids := Bids(hosts, cfg);
    nextHostnode, nextHostnodeConfig, nextHostnodePrice := bestHostnode, bestHostnodeConfig, bestHostnodePrice;
    var specs := hostnode.specs;
    var gpu := GpuOfferFor(specs, cfg.gpuModel).value;
    if Eligible(specs, gpu, cfg) {
      var price := PresetPrice(specs, gpu, cfg);
      if nextHostnode.None? || nextHostnode.value == "" {
        nextHostnode := Some(hostnodeId);
        nextHostnodeConfig := Some(hostnode);
        nextHostnodePrice := price;
      }
      var bestGpu := GpuOfferFor(nextHostnodeConfig.value.specs, cfg.gpuModel).value;
      if || price < nextHostnodePrice
         || (&& gpu.amount < bestGpu.amount
             && gpu.amount >= cfg.gpuCount && specs.ram.amount >= cfg.ram
             && specs.cpu.amount >= cfg.vcpu && specs.storage.amount >= cfg.storage
             && price <= nextHostnodePrice)
      {
        nextHostnode := Some(hostnodeId);
        nextHostnodeConfig := Some(hostnode);
        nextHostnodePrice := price;
      }
    }
  }

  /** The host id and price the matcher ends with: null and -1 when no host is eligible. */
  function Chosen(hosts: Inventory, cfg: DeployConfiguration): (Option<string>, real)
    requires OffersModel(hosts, cfg.gpuModel)
  {
    var bids := Bids(hosts, cfg);
    match BestUpTo(bids, |hosts|)
    case None => (None, -1.0)
    case Some(b) => (Some(hosts[b].0), bids[b].value.price)
  }

  /** The matcher's variables after the first `n` hosts hold the host `BestUpTo` names, with its bid. */
  predicate Holding(hosts: Inventory, cfg: DeployConfiguration, n: nat,
                    bestHostnode: Option<string>, bestHostnodeConfig: Option<Hostnode>, bestHostnodePrice: real)
    requires n <= |hosts| && OffersModel(hosts, cfg.gpuModel)
  {
    var bids := Bids(hosts, cfg);
    match BestUpTo(bids, n)
    case None => bestHostnode.None? && bestHostnodeConfig.None? && bestHostnodePrice == -1.0
    case Some(b) =>
      && bestHostnode == Some(hosts[b].0) && bestHostnodeConfig == Some(hosts[b].1)
      && bids[b] == Some(Bid(bestHostnodePrice, AmountOf(hosts[b].1, cfg.gpuModel)))
  }

  /**
   * The inner loop of `generateDeployConfigurations` for one configuration: the host id,
   * the host and the price of the best host so far, starting from null, null and -1.
   */
  method BestHostnode(hosts: Inventory, cfg: DeployConfiguration) returns (bestHostnode: Option<string>, bestHostnodePrice: real)
    requires OffersModel(hosts, cfg.gpuModel) && IdsNonEmpty(hosts)
    ensures (bestHostnode, bestHostnodePrice) == Chosen(hosts, cfg)
  {
    bestHostnode := None;
    var bestHostnodeConfig: Option<Hostnode> := None;
    bestHostnodePrice := -1.0;
    var i := 0;
    while i < |hosts|
      invariant 0 <= i <= |hosts|
      invariant Holding(hosts, cfg, i, bestHostnode, bestHostnodeConfig, bestHostnodePrice)
    {
      var (hostnodeId, hostnode) := hosts[i];
      bestHostnode, bestHostnodeConfig, bestHostnodePrice :=
        ConsiderHostnode(cfg, hostnodeId, hostnode, bestHostnode, bestHostnodeConfig, bestHostnodePrice, hosts, i);
      i := i + 1;
    }
  }

  /** One configuration after the matcher: the best host's id, in stock, at its price; unchanged if no host is eligible. */
  function Configure(cfg: DeployConfiguration, hosts: Inventory): DeployConfiguration
    requires OffersModel(hosts, cfg.gpuModel)
  {
    match Chosen(hosts, cfg)
    case (None, _) => cfg
    case (Some(id), price) => cfg.(hostnode := Some(id), stock := true, price := price)
  }

  /** With no eligible host the matcher keeps nothing, so the configuration is left as it was. */
  lemma ConfigureWithoutHost(cfg: DeployConfiguration, hosts: Inventory)
    requires OffersModel(hosts, cfg.gpuModel)
    requires forall k :: 0 <= k < |hosts| ==> HostBid(hosts[k].1, cfg).None?
    ensures Configure(cfg, hosts) == cfg
  {
    var bids := Bids(hosts, cfg);
    forall k | 0 <= k < |hosts| ensures bids[k].None? {
      assert bids[k] == HostBid(hosts[k].1, cfg);
    }
    BestIsFirstCheapest(bids, |hosts|);
  }

  /**
   * With an eligible host the configuration is in stock and names the host that is least by
   * (price, GPU amount, position) among the eligible ones, at that host's price.
   */
  lemma ConfigureWithHost(cfg: DeployConfiguration, hosts: Inventory, k: nat)
    requires OffersModel(hosts, cfg.gpuModel)
    requires k < |hosts| && HostBid(hosts[k].1, cfg).Some?
    ensures var r := Configure(cfg, hosts);
      var bids := Bids(hosts, cfg);
      && r.stock
      && exists b :: 0 <= b < |hosts| && bids[b].Some? && r.hostnode == Some(hosts[b].0) && r.price == bids[b].value.price
           && forall k :: 0 <= k < |hosts| && bids[k].Some? ==> NoWorse(bids, b, k)
  {
    var bids := Bids(hosts, cfg);
    assert bids[k] == HostBid(hosts[k].1, cfg);
    BestIsFirstCheapest(bids, |hosts|);
    var b := BestUpTo(bids, |hosts|).value;
    assert Configure(cfg, hosts) == cfg.(hostnode := Some(hosts[b].0), stock := true, price := bids[b].value.price);
  }

  /**
   * A configuration is matched exactly when some host is eligible for it; it then names an
   * eligible host with the least price, the fewest GPUs among those, and the first of
   * those; the fields describing the configuration never change.
   */
  lemma ConfigureMatches(cfg: DeployConfiguration, hosts: Inventory)
    requires OffersModel(hosts, cfg.gpuModel)
    ensures var r := Configure(cfg, hosts);
      && r.gpuCount == cfg.gpuCount && r.gpuModel == cfg.gpuModel && r.ram == cfg.ram && r.vcpu == cfg.vcpu
      && r.storage == cfg.storage && r.nvlink == cfg.nvlink && r.bandwidth == cfg.bandwidth
    ensures (forall k :: 0 <= k < |hosts| ==> HostBid(hosts[k].1, cfg).None?) ==> Configure(cfg, hosts) == cfg
    ensures (exists k :: 0 <= k < |hosts| && HostBid(hosts[k].1, cfg).Some?) ==>
      var r := Configure(cfg, hosts);
      var bids := Bids(hosts, cfg);
      && r.stock
      && exists b :: 0 <= b < |hosts| && bids[b].Some? && r.hostnode == Some(hosts[b].0) && r.price == bids[b].value.price
           && forall k :: 0 <= k < |hosts| && bids[k].Some? ==> NoWorse(bids, b, k)
  {
    if exists k :: 0 <= k < |hosts| && HostBid(hosts[k].1, cfg).Some? {
      var k :| 0 <= k < |hosts| && HostBid(hosts[k].1, cfg).Some?;
      ConfigureWithHost(cfg, hosts, k);
    } else {
      ConfigureWithoutHost(cfg, hosts);
    }
  }

  /** `generateDeployConfigurations`: the catalogue, each configuration completed in place by the matcher. */
  method GenerateDeployConfigurations(hosts: Inventory) returns (configs: seq<DeployConfiguration>)
    requires OffersModel(hosts, PresetModel) && IdsNonEmpty(hosts)
    ensures |configs| == |DefaultConfigurations()|
    ensures forall i :: 0 <= i < |configs| ==> configs[i] == Configure(DefaultConfigurations()[i], hosts)
  {
    configs := DefaultConfigurations();
    ghost var defaults := configs;
    var i := 0;
    while i < |configs|
      invariant 0 <= i <= |configs| == |defaults|
      invariant forall j :: 0 <= j < i ==> configs[j] == Configure(defaults[j], hosts)
      invariant forall j :: i <= j < |configs| ==> configs[j] == defaults[j]
    {
      var configuration := configs[i];
      var bestHostnode, bestHostnodePrice := BestHostnode(hosts, configuration);
      if bestHostnode.Some? {
        configs := configs[i := configuration.(hostnode := bestHostnode, stock := true, price := bestHostnodePrice)];
      }
      i := i + 1;
    }
  }

  /** The model as shown: the first "h100", "-sxm5-" and "gb" replaced, in that order. */
  function DisplayModel(model: string): string
  {
    ReplaceFirst(ReplaceFirst(ReplaceFirst(model, "h100", "H100"), "-sxm5-", " SXM5 "), "gb", "GB")
  }

  /** `getDisplayConfigurations`: the in-stock configurations, in order, with their model as shown. */
  function DisplayConfigurations(configs: seq<DeployConfiguration>): (shown: seq<DeployConfiguration>)
    ensures |shown| <= |configs|
    ensures forall j :: 0 <= j < |shown| ==> shown[j].stock
  {
    if |configs| == 0 then []
    else
      (if configs[0].stock then [configs[0].(gpuModel := DisplayModel(configs[0].gpuModel))] else [])
      + DisplayConfigurations(configs[1..])
  }

  /** Showing a list shows its parts in order: the filter keeps the order of the configurations. */
  lemma {:induction false} DisplayConfigurationsAppend(a: seq<DeployConfiguration>, b: seq<DeployConfiguration>)
    ensures DisplayConfigurations(a + b) == DisplayConfigurations(a) + DisplayConfigurations(b)
  {
    if |a| == 0 {
      assert a + b == b;
    } else {
      assert (a + b)[0] == a[0];
      assert (a + b)[1..] == a[1..] + b;
      DisplayConfigurationsAppend(a[1..], b);
    }
  }

  /** Exactly the in-stock configurations are shown, each with every other field unchanged. */
  lemma {:induction false} DisplayConfigurationsExact(configs: seq<DeployConfiguration>, c: DeployConfiguration)
    ensures c in DisplayConfigurations(configs) <==>
      exists k :: 0 <= k < |configs| && configs[k].stock && c == configs[k].(gpuModel := DisplayModel(configs[k].gpuModel))
  {
    if |configs| > 0 {
      DisplayConfigurationsExact(configs[1..], c);
      if c in DisplayConfigurations(configs[1..]) {
        var k :| 0 <= k < |configs[1..]| && configs[1..][k].stock
                 && c == configs[1..][k].(gpuModel := DisplayModel(configs[1..][k].gpuModel));
        assert configs[k + 1] == configs[1..][k];
      }
      if exists k :: 0 <= k < |configs| && configs[k].stock && c == configs[k].(gpuModel := DisplayModel(configs[k].gpuModel)) {
        var k :| 0 <= k < |configs| && configs[k].stock && c == configs[k].(gpuModel := DisplayModel(configs[k].gpuModel));
        if k > 0 {
          assert configs[1..][k - 1] == configs[k];
        }
      }
    }
  }

  lemma ReplaceH100(rest: string)
    ensures ReplaceFirst("h100" + rest, "h100", "H100") == "H100" + rest
  {
    ReplaceFirstAfter("", "h100", rest, "H100");
    assert "" + ("h100" + rest) == "h100" + rest;
    assert "" + ("H100" + rest) == "H100" + rest;
  }

  lemma ReplaceSxm5(rest: string)
    ensures ReplaceFirst("H100" + ("-sxm5-" + rest), "-sxm5-", " SXM5 ") == "H100" + (" SXM5 " + rest)
  {
    ReplaceFirstAfter("H100", "-sxm5-", rest, " SXM5 ");
  }

  lemma ReplaceGb(prefix: string, digits: string)
    requires IsDigits(digits, 10) && forall j :: 0 <= j < |prefix| ==> prefix[j] != 'g'
    ensures ReplaceFirst(prefix + digits + "gb", "gb", "GB") == prefix + digits + "GB"
  {
    var s := prefix + digits + "gb";
    var n := |prefix| + |digits|;
    forall j | 0 <= j < n ensures s[j] != 'g' {
      if j >= |prefix| {
        assert s[j] == digits[j - |prefix|];
        assert DigitOf(digits[j - |prefix|], 10).Some?;
      } else {
        assert s[j] == prefix[j];
      }
    }
    assert s[n..n + 2] == "gb";
    ReplaceFirstAtFirstStart(s, "gb", "GB", n);
    assert s[..n] == prefix + digits && s[n + 2..] == [];
  }

  /** A model id `h100-sxm5-<N>gb`, such as the catalogue's, is shown as `H100 SXM5 <N>GB`. */
  lemma DisplaySxm5Model(digits: string)
    requires IsDigits(digits, 10)
    ensures DisplayModel("h100-sxm5-" + digits + "gb") == "H100 SXM5 " + digits + "GB"
  {
    var tail := digits + "gb";
    assert "h100-sxm5-" + digits + "gb" == "h100" + ("-sxm5-" + tail);
    ReplaceH100("-sxm5-" + tail);
    ReplaceSxm5(tail);
    assert "H100" + (" SXM5 " + tail) == "H100 SXM5 " + digits + "gb";
    ReplaceGb("H100 SXM5 ", digits);
  }
}
