/**
 * The pure helpers of the custom-spec deploy flow: the stock label of a location,
 * rounding to thousandths, the per-resource price breakdown of a request on one
 * host, and reading a GPU's VRAM from its model id.
 */
module Pricing {
  import opened JsBuiltins
  import opened Inventory

  /** The stock label shown on a location ('Low Stock', 'Medium Stock', 'High Stock'). */
  datatype Availability = LowStock | MediumStock | HighStock

  function FormatLocationAvailability(stock: int): (a: Availability)
    ensures a == HighStock <==> stock >= 8
    ensures a == MediumStock <==> 4 <= stock < 8
    ensures a == LowStock <==> stock < 4
  {
    if stock >= 8 then HighStock
    else if stock >= 4 && stock < 8 then MediumStock
    else LowStock
  }

  /** `r` is a whole number of 1/`scale` steps. */
  predicate OnGrid(r: real, scale: real)
  {
    (r * scale).Floor as real == r * scale
  }

  lemma OnGridSum(a: real, b: real, scale: real)
    requires OnGrid(a, scale) && OnGrid(b, scale)
    ensures OnGrid(a + b, scale)
  {
    var m, n := (a * scale).Floor, (b * scale).Floor;
    assert (a + b) * scale == a * scale + b * scale;
    assert (a + b) * scale == (m + n) as real;
  }

  /** `roundValue` of deploy.ts: `Math.round(value * 1000) / 1000`. */
  function RoundValue(value: real): (r: real)
    ensures value - 0.0005 < r <= value + 0.0005
    ensures OnGrid(r, 1000.0)
  {
    var n := MathRound(value * 1000.0);
    assert (n as real / 1000.0) * 1000.0 == n as real;
    n as real / 1000.0
  }

  /** The rounding picks the one thousandth in (value - 1/2000, value + 1/2000]. */
  lemma RoundValueIsNearestThousandth(value: real, r: real)
    requires OnGrid(r, 1000.0) && value - 0.0005 < r <= value + 0.0005
    ensures RoundValue(value) == r
  {
    var n := (r * 1000.0).Floor;
    MathRoundUnique(value * 1000.0, n);
  }

  /** The unit prices of one (hostnode, GPU model) pair. */
  datatype UnitPrices = UnitPrices(gpuPrice: real, ramPrice: real, cpuPrice: real, storagePrice: real)

  /** The breakdown `calculateVMPrice` returns. */
  datatype VMPrice = VMPrice(gpuTotal: real, ramTotal: real, cpuTotal: real, storageTotal: real, total: real)

  /** The cost of a request before any rounding. */
  function ExactCost(prices: UnitPrices, specs: DeploySpecs): real
  {
    prices.gpuPrice * specs.gpuCount as real + prices.ramPrice * specs.ram as real
    + prices.cpuPrice * specs.vcpu as real + prices.storagePrice * specs.storage as real
  }

  /**
   * `calculateVMPrice`: the four unrounded per-resource products, and a total that
   * adds them up after rounding EACH to thousandths (the sum itself is not rounded
   * again).
   */
  function CalculateVMPrice(prices: UnitPrices, specs: DeploySpecs): (p: VMPrice)
    ensures p.gpuTotal == prices.gpuPrice * specs.gpuCount as real
    ensures p.ramTotal == prices.ramPrice * specs.ram as real
    ensures p.cpuTotal == prices.cpuPrice * specs.vcpu as real
    ensures p.storageTotal == prices.storagePrice * specs.storage as real
    ensures p.total == RoundValue(p.gpuTotal) + RoundValue(p.ramTotal) + RoundValue(p.cpuTotal) + RoundValue(p.storageTotal)
  {
    var gpuTotal := prices.gpuPrice * specs.gpuCount as real;
    var ramTotal := prices.ramPrice * specs.ram as real;
    var cpuTotal := prices.cpuPrice * specs.vcpu as real;
    var storageTotal := prices.storagePrice * specs.storage as real;
    var total := 0.0 + RoundValue(gpuTotal) + RoundValue(ramTotal) + RoundValue(cpuTotal) + RoundValue(storageTotal);
    VMPrice(gpuTotal, ramTotal, cpuTotal, storageTotal, total)
  }

  /**
   * The total is a whole number of thousandths within 2/1000 of the exact cost: each
   * of the four roundings moves its term by at most half a thousandth.
   */
  lemma VMPriceNearExactCost(prices: UnitPrices, specs: DeploySpecs)
    ensures var total := CalculateVMPrice(prices, specs).total;
      OnGrid(total, 1000.0) && ExactCost(prices, specs) - 0.002 < total <= ExactCost(prices, specs) + 0.002
  {
    var p := CalculateVMPrice(prices, specs);
    var g, r, c, s := RoundValue(p.gpuTotal), RoundValue(p.ramTotal), RoundValue(p.cpuTotal), RoundValue(p.storageTotal);
    OnGridSum(g, r, 1000.0);
    OnGridSum(g + r, c, 1000.0);
    OnGridSum(g + r + c, s, 1000.0);
  }

  /**
   * `getVRAM`: the last `-`-separated field of the model id, with its first "gb"
   * removed, read as a number; None stands for NaN.
   */
  function GetVRAM(model: string): Option<int>
  {
    NumberOfDigits(ReplaceFirst(LastSegment(model, '-'), "gb", ""))
  }

  /** Removing the first "gb" from `<digits>gb` leaves the digits. */
  lemma StripGbSuffix(digits: string)
    requires IsDigits(digits, 10)
    ensures ReplaceFirst(digits + "gb", "gb", "") == digits
  {
    var tail := digits + "gb";
    forall j | 0 <= j < |digits| ensures !OccursAt(tail, "gb", j) {
      assert DigitOf(digits[j], 10).Some?;
      assert tail[j] == digits[j];
    }
    assert tail[|digits|..|digits| + 2] == "gb";
    ReplaceFirstAt(tail, "gb", "", |digits|);
    assert tail[..|digits|] == digits;
  }

  /** Model ids end in `-<N>gb`, and that is the VRAM read back. */
  lemma GetVRAMOfModelId(prefix: string, digits: string)
    requires IsDigits(digits, 10)
    ensures GetVRAM(prefix + "-" + digits + "gb") == Some(ValueIn(digits, 10))
  {
    var tail := digits + "gb";
    forall i | 0 <= i < |tail| ensures tail[i] != '-' {
      if i < |digits| { assert DigitOf(digits[i], 10).Some?; }
    }
    LastSegmentAfterSeparator(prefix, '-', tail);
    assert prefix + "-" + digits + "gb" == prefix + ['-'] + tail;
    StripGbSuffix(digits);
  }
}
