# GPU host matching and pricing, modelled in Dafny

This project models the logic of the TensorDock dashboard that turns the
provider's hostnode inventory into choices the user can deploy. It has two
flows.

**Custom-spec flow** (`web/src/util/api/deploy.ts`). The user picks a GPU model,
a GPU count, vCPUs, RAM and storage.
- `calculateVMPrice` prices the request on every (hostnode, GPU model) pair:
  four unrounded per-resource products, and a total that adds them up after
  rounding each to thousandths.
- `generateLocations` drops the pairs that cannot serve the request: too few
  GPUs, too little VRAM (read from the model id by `getVRAM`), or a non-RTX card
  for an RTX request.
- It sends each remaining pair to `locations` (the requested model) or to
  `suggestedLocations` (any other model). Pairs with the same site and the same
  total price merge into one location, whose stock is the sum of their GPUs and
  whose label comes from `formatLocationAvailability`.
- `sortLocations` orders each table stably: locations with a reserved hostnode
  first, then by price.
- The refinements of `deploySchema` validate a deploy request:
  - port syntax and bounds;
  - duplicate external ports;
  - the operating system's minimum storage;
  - the chosen hostnode: it exists, offers the ports and the GPU model, and has
    room under its capacities and per-GPU-count restrictions.

**Preset flow** (`web/src/util/api.ts`). For each of eight fixed H100
configurations, `generateDeployConfigurations` picks the host that qualifies.
- An eligible host has room for the configuration plus a reserve of 64 GB RAM,
  16 vCPUs and 600 GB storage per GPU the configuration leaves unused.
- Among eligible hosts it takes the cheapest, at a price rounded once to
  hundredths. Ties go to fewer GPUs, then to the first host in inventory order.
- `getDisplayConfigurations` keeps the configurations that found a host and
  rewrites the model id for display.

## How the project is organised

| file | module | contents |
|---|---|---|
| `js_builtins.dfy` | `JsBuiltins` | The JavaScript built-ins the code relies on: `Math.round`, string `indexOf`, `includes` and `replace`, the last field of `split`, `Number` on digit strings, `parseInt`, and the port pattern `^[1-9][0-9]*$`. |
| `inventory.dfy` | `Inventory` | Hostnode entries and the deploy request. A JavaScript object is a sequence of (key, value) pairs in iteration order, and `Lookup` is `object[key]`. |
| `pricing.dfy` | `Pricing` | `formatLocationAvailability`, `roundValue` to thousandths, `calculateVMPrice`, `getVRAM`. |
| `locations.dfy` | `Locations` | The reference definition `Fold` of the two location tables, and what every aggregated location holds, in terms of the pairs alone. |
| `ranking.dfy` | `Ranking` | `sortLocations` as a stable insertion sort: ordered, a permutation, and stable. |
| `location_search.dfy` | `LocationSearch` | `generateLocations` as the source writes it, imperatively. It uses two mutable location dictionaries and nested loops, and `listToUpdate` aliases one of the two dictionaries. It is proved to build exactly the tables `Fold` defines. |
| `validation.dfy` | `DeployValidation` | The refinements of `deploySchema`, as accumulating methods. Each is proved equal to a reference list of issues and characterised by lemmas. |
| `presets.dfy` | `Presets` | The preset catalogue, `roundValue` to hundredths, the matcher (loop methods proved against `Chosen`), and `getDisplayConfigurations`. |

Prices are exact `real`s and counts are unbounded `int`s. Validation issues are
kept with their zod code, their path and their message, in the order they are
added.

## Model

| member | source | states |
|---|---|---|
| JsBuiltins.MathRound | web/src/util/api/deploy.ts:151 | `Math.round` returns the integer in (x − 1/2, x + 1/2], so a half rounds toward +∞. |
| JsBuiltins.MathRoundUnique | web/src/util/api.ts:81 | That integer is unique: any integer in the window is the result. |
| JsBuiltins.IndexOf | web/src/util/api/deploy.ts:263 | `indexOf` returns the first index where the pattern occurs, and None only when it occurs nowhere. |
| JsBuiltins.ReplaceFirst | web/src/util/api.ts:190-192 | `replace` with a string pattern leaves the string unchanged when the pattern does not occur. |
| JsBuiltins.ReplaceFirstAt | web/src/util/api.ts:190-192 | When the pattern first occurs at i, `replace` splices the replacement in at i and nowhere else. |
| JsBuiltins.ReplaceFirstAfter | web/src/util/api.ts:190-191 | When no character before the pattern can start it, `replace` rewrites the occurrence right after that prefix. |
| JsBuiltins.LastSegment | web/src/util/api/deploy.ts:188-189 | The last element of `split(sep)` is the longest separator-free suffix, and a separator precedes it. |
| JsBuiltins.NumberOfDigits | web/src/util/api/deploy.ts:189 | `Number` of a digit string is its positional decimal value `ValueIn(s, 10)`, the value `parseInt` also reads; any other string is NaN (None). |
| JsBuiltins.ParseIntSkipsWhitespace | web/src/util/api/deploy.ts:325 | `parseInt` ignores leading white space. |
| JsBuiltins.ParseIntOfPortSyntax | web/src/util/api/deploy.ts:323-330 | On a string matching `^[1-9][0-9]*$`, `parseInt` reads its decimal value, which is at least 1. |
| JsBuiltins.ParseIntReadsLeadingNumber | web/src/util/api/deploy.ts:435 | `parseInt` reads a leading number and stops at the first non-digit. |
| Inventory.Lookup | web/src/util/api/deploy.ts:424 | `key in object`: None exactly when no entry has the key; otherwise an entry with that key holds the value. |
| Inventory.LookupDistinct | web/src/util/api/deploy.ts:453 | With distinct keys, the lookup finds exactly the entry stored under the key. |
| Pricing.FormatLocationAvailability | web/src/util/api/deploy.ts:141-145 | "High Stock" iff stock ≥ 8, "Medium Stock" iff 4 ≤ stock < 8, "Low Stock" iff stock < 4. |
| Pricing.RoundValue | web/src/util/api/deploy.ts:150-152 | The result is a whole number of thousandths within (v − 0.0005, v + 0.0005]. |
| Pricing.RoundValueIsNearestThousandth | web/src/util/api/deploy.ts:150-152 | It is the unique such thousandth. |
| Pricing.CalculateVMPrice | web/src/util/api/deploy.ts:154-185 | The per-resource fields are the unrounded products. The total is the sum of the four products each rounded to thousandths, and the sum is not rounded again. |
| Pricing.VMPriceNearExactCost | web/src/util/api/deploy.ts:154-185 | The total is a whole number of thousandths within 0.002 of the exact cost. |
| Pricing.StripGbSuffix | web/src/util/api/deploy.ts:189 | Removing the first "gb" from `<digits>gb` leaves the digits. |
| Pricing.GetVRAMOfModelId | web/src/util/api/deploy.ts:187-190 | For a model id `<prefix>-<digits>gb`, `getVRAM` is the value of the digits ("h100-sxm5-80gb" → 80). |
| Locations.FilterFor | web/src/util/api/deploy.ts:259-268 | The filter's VRAM floor is `getVRAM` of the requested model. It is RTX-only iff the model's display name contains "RTX". |
| Locations.FindKey | web/src/util/api/deploy.ts:270 | `table[key]` finds an entry with that key, and finds none exactly when no entry has it. |
| Locations.FoldSnoc | web/src/util/api/deploy.ts:241-311 | A pair that passes the filter is merged into the table its model selects, under the key (site, total price). A pair that fails leaves both tables unchanged. |
| Locations.FoldTaggedMatches | web/src/util/api/deploy.ts:270-311 | Each aggregated table has one entry per (site, price) key that some passing pair has. Each entry is the merge of exactly those pairs. |
| Locations.MergedPairsBelong | web/src/util/api/deploy.ts:256-268 | Every pair merged into a location is an input pair that passed the filter, is in that table's bucket, and has the location's key. |
| Locations.LocationFacts | web/src/util/api/deploy.ts:251-311 | Each location merges a non-empty list of passing pairs with its site and price. Its stock is their total GPU amount, so it is at least the requested count. Its label matches its stock. Its GPU type equals the requested model iff the table is `locations`. It lists each hostnode id once. |
| Locations.LocationsCoverPairs | web/src/util/api/deploy.ts:270-311 | Every passing pair has a location under its (site, price) key: no pair is lost. |
| Ranking.Insert | web/src/util/api/deploy.ts:192-207 | Inserting adds exactly the one entry (multiset). |
| Ranking.SortLocations | web/src/util/api/deploy.ts:192-207 | The sorted table is a permutation of the input. |
| Ranking.InsertSorted | web/src/util/api/deploy.ts:194-206 | Inserting into an ordered table keeps it ordered. |
| Ranking.SortLocationsSorted | web/src/util/api/deploy.ts:192-207 | The result is ordered by the comparator: reserved locations precede all others, and each group is ordered by price. |
| Ranking.InsertStable | web/src/util/api/deploy.ts:194-206 | Insertion keeps the relative order of every group of ties. |
| Ranking.SortLocationsStable | web/src/util/api/deploy.ts:192-207 | Entries that tie on (reserved, price) keep their input order, as `Array.prototype.sort` guarantees. |
| LocationSearch.LocationDict.constructor | web/src/util/api/deploy.ts:234-235 | A location dictionary starts empty. |
| LocationSearch.LocationDict.Upsert | web/src/util/api/deploy.ts:270-311 | The in-place update of `listToUpdate[currentLocationId]` has the new entries of `Merge`: it adds stock, relabels and pushes an unseen hostnode, or creates the entry. |
| LocationSearch.VisitPair | web/src/util/api/deploy.ts:241-311 | One inner-loop iteration updates both dictionaries as `Fold` does for one more pair, through the aliasing `listToUpdate`. |
| LocationSearch.VisitHostnode | web/src/util/api/deploy.ts:240-312 | The inner loop leaves both dictionaries equal to `Fold` over all pairs visited so far. |
| LocationSearch.GenerateLocations | web/src/util/api/deploy.ts:230-318 | The two returned tables are the sorted `Fold` tables. They are ordered, every entry of `locations` has the requested model and no entry of `suggestedLocations` has it. |
| LocationSearch.ShownTable | web/src/util/api/deploy.ts:314-317 | A sorted table is ordered, and keeps "GPU type is the requested model" exactly for `locations`. |
| DeployValidation.PortIssues | web/src/util/api/deploy.ts:320-331 | `portSchema` raises issues only at the field's path, and raises none iff the pattern and both bounds hold. |
| DeployValidation.PortAccepted | web/src/util/api/deploy.ts:320-331 | A port string is accepted iff it matches `^[1-9][0-9]*$` and its decimal value is within the given bounds. |
| DeployValidation.ToPortAccepted | web/src/util/api/deploy.ts:372 | The `to` port is accepted iff it matches the pattern and its value is in 1..65535. |
| DeployValidation.PortForwardsValid | web/src/util/api/deploy.ts:368-374 | The element schemas raise nothing iff every `from` and `to` passes its port schema. |
| DeployValidation.PortForwardsAccepted | web/src/util/api/deploy.ts:368-374 | That is, iff every `from` matches the pattern and every `to` matches it and is at most 65535. |
| DeployValidation.SetSizeDistinct | web/src/util/api/deploy.ts:376-377 | `new Set(froms).size === froms.length` iff the external ports are pairwise distinct. |
| DeployValidation.DuplicateIssuesExact | web/src/util/api/deploy.ts:379-390 | Exactly the positions whose `from` occurs at another position get a "Duplicate external ports" issue. |
| DeployValidation.DuplicateIssuesNone | web/src/util/api/deploy.ts:375-391 | No duplicate issue is raised iff the external ports are pairwise distinct. |
| DeployValidation.FindTwin | web/src/util/api/deploy.ts:381-383 | `forwards.find` returns the first other position holding the same port, and None exactly when there is none. |
| DeployValidation.RefineDuplicatePorts | web/src/util/api/deploy.ts:375-391 | The refinement, with its early return on distinct ports, raises exactly the reference duplicate issues. |
| DeployValidation.StorageIssues | web/src/util/api/deploy.ts:404-418 | At most one `too_small` issue at `specs.storage`, raised iff the OS has a minimum and storage is below it. |
| DeployValidation.ResourceChecks | web/src/util/api/deploy.ts:462-493 | The table has four entries with distinct fields: GPU count, vCPU, RAM, storage. `HostCapacityByField` and `HostRestrictionByField` state the value, capacity and restriction each one checks. |
| DeployValidation.CheckPorts | web/src/util/api/deploy.ts:434-442 | The port loop appends one issue per `from` the host does not list, in order. |
| DeployValidation.CheckResources | web/src/util/api/deploy.ts:494-529 | The `forEach` appends each entry's capacity and restriction issues, in table order. |
| DeployValidation.RefineHost | web/src/util/api/deploy.ts:419-530 | The hostnode refinement raises exactly the reference issues: none without an inventory; one issue for an unknown id; otherwise the port issues, then either the missing-GPU issue or the resource issues. |
| DeployValidation.PortsUpToExact | web/src/util/api/deploy.ts:434-442 | A position gets a "Port … is unavailable" issue iff the host does not list its parsed port. Every issue of the loop is of that kind. |
| DeployValidation.PortsUpToNone | web/src/util/api/deploy.ts:434-442 | The port loop raises nothing iff the host lists every external port. |
| DeployValidation.CheckIssuesOf | web/src/util/api/deploy.ts:496-527 | An entry raises `too_big` iff the value exceeds capacity. With a restriction, it also raises `too_small` iff the value is below the minimum and `too_big` iff it is above the maximum. All of these are at its field. |
| DeployValidation.ChecksUpToField | web/src/util/api/deploy.ts:494-529 | An issue at an entry's field comes only from that entry. |
| DeployValidation.ChecksUpToPaths | web/src/util/api/deploy.ts:503 | Every resource issue is at `['specs', field]`. |
| DeployValidation.ChecksUpToNone | web/src/util/api/deploy.ts:494-529 | The resource checks raise nothing iff every entry is within capacity and within its restriction. |
| DeployValidation.FitsHostChecks | web/src/util/api/deploy.ts:462-529 | The resource checks raise nothing iff the request fits the host's capacities and the restriction for its GPU count. |
| DeployValidation.HostIssuesNone | web/src/util/api/deploy.ts:419-530 | Given an inventory, the hostnode refinement raises nothing iff the host exists, lists every external port, offers the GPU model and fits the request. |
| DeployValidation.HostPortIssues | web/src/util/api/deploy.ts:434-442 | On a known host, exactly the unlisted external ports get an issue. |
| DeployValidation.HostLacksGpu | web/src/util/api/deploy.ts:452-460 | If the host lacks the GPU model, the last issue says so and no resource issue is raised. |
| DeployValidation.HostCapacityIssues | web/src/util/api/deploy.ts:462-529 | On a host offering the model, each capacity or restriction the request breaks gets its issue, and each kept one does not. |
| DeployValidation.HostCapacityByField | web/src/util/api/deploy.ts:462-505 | On a host offering the model, a `too_big` issue at a field, naming the host's amount, is raised iff the request exceeds it. The fields and amounts are: `gpu_count` against the model's GPU amount, `vcpu` against the CPU amount, `ram` against RAM and `storage` against storage. |
| DeployValidation.HostRestrictionByField | web/src/util/api/deploy.ts:472-527 | When the host restricts the requested GPU count, `vcpu`, `ram` and `storage` each get a `too_small` issue iff below that restriction's minimum, and a `too_big` issue iff above its maximum. |
| DeployValidation.RestrictionIssuesFrom | web/src/util/api/deploy.ts:507-527 | A restriction issue comes only from a table entry that has a restriction, and sits at that entry's field. |
| DeployValidation.HostRestrictionIssuesOnly | web/src/util/api/deploy.ts:465-507 | Restriction issues are raised only when the host restricts the requested GPU count, and never at `gpu_count`, which has no restriction. |
| DeployValidation.RefineDeploy | web/src/util/api/deploy.ts:368-530 | The refinements together raise the reference issues, in zod's order. |
| DeployValidation.DeployAccepted | web/src/util/api/deploy.ts:368-530 | With an inventory, a request raises no refinement issue iff its ports are well formed and distinct, its storage meets the OS minimum and it fits the chosen host. |
| Presets.DefaultConfigurations | web/src/constants/datacenter.ts:57-154 | Eight presets of the H100 SXM5 model, none in stock, no host, price 0. |
| Presets.RoundValue | web/src/util/api.ts:80-82 | The result is a whole number of hundredths within (v − 0.005, v + 0.005]. |
| Presets.RoundValueIsNearestHundredth | web/src/util/api.ts:80-82 | It is the unique such hundredth. |
| Presets.Eligible | web/src/util/api.ts:102-124 | The seven-way test passes iff the host has at least the requested GPUs and each of RAM, vCPU and storage covers the request plus 64/16/600 per unused GPU. |
| Presets.BestIsFirstCheapest | web/src/util/api.ts:126-165 | The matcher finds a host iff one is eligible. The kept host is least by (price, GPU amount, position) among eligible hosts. |
| Presets.ConsiderHostnode | web/src/util/api.ts:101-165 | One iteration keeps the matcher's three variables holding the best host so far, with its price. |
| Presets.BestHostnode | web/src/util/api.ts:97-166 | The inner loop ends with `Chosen`: the id and price of the best eligible host, or null and −1. |
| Presets.ConfigureWithoutHost | web/src/util/api.ts:168 | With no eligible host, the configuration keeps its defaults. |
| Presets.ConfigureWithHost | web/src/util/api.ts:168-172 | With an eligible host, the configuration is in stock and names the least eligible host by (price, GPU amount, position), at that host's price. |
| Presets.ConfigureMatches | web/src/util/api.ts:168-172 | The descriptive fields never change. With no eligible host the configuration is unchanged. Otherwise it is in stock, names an eligible host of least price, then fewest GPUs, then first position, and carries that host's rounded price. |
| Presets.GenerateDeployConfigurations | web/src/util/api.ts:89-176 | It returns as many configurations as the catalogue, in order, each completed as `Configure` defines. |
| Presets.DisplayConfigurations | web/src/util/api.ts:181-195 | It shows no more configurations than it is given, and all of them are in stock. |
| Presets.DisplayConfigurationsAppend | web/src/util/api.ts:184-185 | Showing a concatenation shows its parts in order, so the filter keeps the input order. |
| Presets.DisplayConfigurationsExact | web/src/util/api.ts:181-195 | A configuration is shown iff it is an in-stock input with only its model rewritten. |
| Presets.ReplaceH100 | web/src/util/api.ts:190 | The first "h100" of `h100…` becomes "H100". |
| Presets.ReplaceSxm5 | web/src/util/api.ts:191 | The first "-sxm5-" after "H100" becomes " SXM5 ". |
| Presets.ReplaceGb | web/src/util/api.ts:192 | The first "gb" after the digits becomes "GB". |
| Presets.DisplaySxm5Model | web/src/util/api.ts:189-192 | `h100-sxm5-<N>gb` is shown as `H100 SXM5 <N>GB`, so the catalogue's "h100-sxm5-80gb" becomes "H100 SXM5 80GB". |

## Left out

- Network code is not modelled: `fetchHostnodeStock`, `fetchInstantVMStock` and `deploy` in `deploy.ts`, and `fetchHostnodeStock` in `api.ts`. The inventory is a parameter.
- Floating point: prices are exact reals, so IEEE-754 rounding of the products and sums is not modelled.
- Static tables are parameters: GPU display names (`gpuDisplayNames`) and OS minimum storage (`osMinStorage`). `GenerateLocations` requires the requested model to be in the display-name table, because the source reads that entry unguarded.
- LocationSearch.GenerateLocations: the merge key `location.id + vmPrice.toString()` is modelled as the pair (site id, price). Two different pairs whose concatenations happen to be equal strings would merge in JavaScript but not here.
- LocationSearch.GenerateLocations: the tables are sequences in insertion (then sorted) order. JavaScript enumerates integer-like object keys first, in numeric order, both in `Object.entries` and after `Object.fromEntries`. A location key that reads as an integer would be listed differently.
- Inventory.Lookup: `hostnodeId in hostnodes` is also true for keys inherited from `Object.prototype` (such as "constructor"). Only own keys are modelled.
- Pricing.GetVRAM: `Number` is modelled on digit strings only (the empty string reads as 0). Any other last field is NaN, although JavaScript would also accept decimals, white space or hex. That case cannot occur for the catalogue's model ids, which end in `-<N>gb`.
- Presets.GenerateDeployConfigurations: `OffersModel` (every host offers the preset model) is a precondition. The source throws when `specs.gpu[model]` is undefined.
- Presets.GenerateDeployConfigurations: `IdsNonEmpty` (host ids are non-empty) is a precondition. The source's falsy test would treat an empty id as "no host yet".
- Presets.DisplayConfigurations: its own contract gives only the bound and the in-stock property. The exact characterisation is in `DisplayConfigurationsExact` and `DisplayConfigurationsAppend`. `DisplayModel` is proved on the ids `h100-sxm5-<N>gb`, not on arbitrary strings.
- DeployValidation.RefineDeploy: the base field schemas of `deploySchema` are zod library behaviour and are not modelled: numbers at least 1, the GPU and OS enums, password rules, server name, cloud-init script and the instant-VM union. The model takes well-typed values. A type error would abort the object, and zod would then skip every refinement. Issues from the port schemas only mark the object dirty, and the refinements still run.
- DeployValidation.RefineHost: the `fatal` flag on port issues is not modelled. It only stops refinements that would run later, and none do.
- DeployValidation.RefineHost: the GPU count is used as an integer key of the restrictions. A fractional `gpu_count`, which `toFixed(0)` would round to a key, is not modelled.
- DeployValidation.Issue: messages are constructors holding the numbers they print. Their exact wording is not modelled: units, display names, plural "GPUs", `toFixed(0)`. Neither are zod's `minimum`, `maximum`, `inclusive` and `type` fields.
