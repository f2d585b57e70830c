# grok-burnrate pricing core in Dafny

This project models the two pieces of pricing logic in grok-burnrate, a tool
that reports the hourly cost of an AWS account's EC2 instances to a Grok
server.

**The price-table builder** (`price_table_builder.py`, module
`PriceTableBuilder`).
- `buildLookupTable` walks the products of an AWS EC2 offer document in order.
- It passes over any product whose `productFamily` is not "Compute Instance" and any product located in "AWS GovCloud (US)".
- For every other product it requires the location, instance type and OS to be ASCII. The document comes from `json.loads`, so they are `unicode`, and `str()` raises `UnicodeEncodeError` on anything else.
- It also requires exactly one on-demand term, one price dimension and one price per unit, and the currency must be "USD".
- It stores `{"USD": amount}` under the key `(instanceType, regionCode, lower-cased operatingSystem)`.
- The region code comes from a fixed table of ten location names.
- The first exception raised ends the build. Each raise site is one constructor of `BuildError`.
- `BuildLookupTable` is the loop, written as a method. `ProductEntry` is its body. Both are proved equal to the specification functions `Build` and `Entry`.

**The serialised table** (module `PriceTables`).
- `dump` writes the table as a list of `(key, value)` pairs sorted by key. This is `Dump`: a list sorted strictly by Python's tuple order on keys, holding exactly one pair per entry.
- `load` turns such a list back into a dict. This is `Load`: the last pair of a key wins.
- Both round trips are proved: `LoadDump` and `DumpLoad`.

**The burn-rate pass** (`calculate_burn_rate.py`, module `BurnRate`).
- `getBurnRate` prices one instance from `COST_MATRIX` (the constant `CostMatrix`, whose two regions hold 37 and 36 prices).
  - A stopped instance costs 0.0.
  - An instance type missing from a region's dict costs the 50.00 sentinel.
  - A running instance in a region missing from the matrix raises. The `.get` default is the string "us-west-2", so the second `.get` is called on a string and raises `AttributeError`. This is `StrHasNoGet`.
- `getDataByRegions` runs over the regions.
  - For each region whose instances could be listed, it counts stopped and running instances, sums the running instances' rates, and stores one record.
  - A region whose connection or listing raised `EC2ResponseError` is passed over.
  - The `AttributeError` above is not caught, so it ends the whole pass.
- The boto inventory is an input: a sequence of `RegionInventory`, each either `Unavailable` (the `EC2ResponseError`) or `Listed` with its reservations.
- The pricing functions and the methods take the price matrix as a parameter `matrix`. The program always passes `COST_MATRIX`. The facts about `COST_MATRIX` itself are stated about `CostMatrix`: `CostMatrixBounds`, `BurnRateFromMatrix`, `R3XlargeRates`, `CostMatrixRegions` and `WestCoastExample`.
- `GetDataByRegions` is the loop over regions. `CountRegion` is the loop over reservations and `CountInstances` the loop over one reservation's instances. Each is proved equal to the specification functions `RegionalData` and `RegionTally`.

The burn-rate pass prices instances from `COST_MATRIX` only; it never reads the table that the builder produces. The model follows the code in this.

## Model

| member | source | states |
|---|---|---|
| PriceTableBuilder.RegionTableCodes | price_table_builder.py:43-54 | every location name of the region table translates to one of the ten region codes |
| PriceTableBuilder.RegionNameToRegion | price_table_builder.py:43-54 | the constant `_REGION_NAME_TO_REGION`, the ten location names and their codes, which `RegionTableCodes`, `Entry` and `UnlistedRegionFails` are about |
| PriceTableBuilder.IsAscii | price_table_builder.py:81-88 | no ensures: the definition of when Python 2 `str()` of a `unicode` value succeeds (every character below 128), used by `Entry`, `ProductEntry` and `NonAsciiSystemFails` |
| PriceTableBuilder.IsCompute | price_table_builder.py:76-77 | no ensures: the definition of the first `continue` test, `productFamily` exactly "Compute Instance" (a missing family fails it), used by `Entry` and `Skipped` |
| PriceTableBuilder.InGovCloud | price_table_builder.py:83-84 | no ensures: the definition of the second `continue` test, a location of "AWS GovCloud (US)", used by `Skipped` |
| PriceTableBuilder.Skipped | price_table_builder.py:76-84 | no ensures: the definition of the products the loop passes over, which `Entry` (they are `Ok(None)`, and only they) and `BuildIgnoresSkipped` are about |
| PriceTableBuilder.Lower | price_table_builder.py:88 | `lower()` keeps the length, leaves no capital letter, keeps every other character and moves each capital to its small letter |
| PriceTableBuilder.Only | price_table_builder.py:98 | on a one-entry dict, `values()[0]` / `items()[0]` gives the dict's only entry |
| PriceTableBuilder.UnitPrice | price_table_builder.py:93-118 | an unknown SKU fails with `UnknownSku`, a term count other than 1 fails with `TermCount`, success gives a price whose terms hold exactly one term, dimension and USD price of that amount, and any such single USD price is what succeeds |
| PriceTableBuilder.Entry | price_table_builder.py:76-123 | a product that is not a compute instance or lies in GovCloud is `Ok(None)`, and any other product either fails or stores an entry; a non-ASCII location fails with `NotAscii` before the GovCloud test; a stored entry has a region code, a lower-cased platform, the verbatim instance type and a single USD price; every well-formed contributing product (ASCII attributes, one USD price, a listed location) stores exactly `(key, {"USD": amount})` |
| PriceTableBuilder.ProductEntry | price_table_builder.py:76-123 | the loop body (continue, raise or store) gives exactly the outcome `Entry` specifies |
| PriceTableBuilder.BuildLookupTable | price_table_builder.py:58-126 | the loop over the products returns exactly `Build` of the products and on-demand terms: skipping, storing, overwriting and stopping at the first exception |
| PriceTableBuilder.Build | price_table_builder.py:73-126 | no ensures: the definition of the outcome of the whole loop (the first exception, or the table of stored entries) that `BuildOk`, `BuildKeys`, `BuildValues`, `BuildLastEntryWins` and `BuildLookupTable` are about |
| PriceTableBuilder.AddEntry | price_table_builder.py:75-123 | no ensures: the definition of one loop iteration (propagate an earlier exception, raise, skip, or store with overwrite) on which `Build` is defined |
| PriceTableBuilder.BuildSnoc | price_table_builder.py:75-123 | one more product extends the build by exactly one loop iteration on the earlier outcome |
| PriceTableBuilder.BuildOk | price_table_builder.py:75-126 | the build succeeds if and only if no product's entry raises |
| PriceTableBuilder.BuildValues | price_table_builder.py:120-123 | on success every key's region is one of the ten codes and every value's only key is "USD" |
| PriceTableBuilder.BuildStopsAtError | price_table_builder.py:95-120 | once a prefix of the products has raised, the products after it change nothing |
| PriceTableBuilder.BuildFirstError | price_table_builder.py:95-120 | the error raised is the entry error of a product before which every entry succeeded |
| PriceTableBuilder.BuildIgnoresSkipped | price_table_builder.py:76-84 | inserting a non-compute or GovCloud product anywhere leaves the outcome unchanged, so it never contributes and never fails the build |
| PriceTableBuilder.BuildKeys | price_table_builder.py:120-123 | on success the table's keys are exactly the keys that some product's entry stores |
| PriceTableBuilder.BuildLastEntryWins | price_table_builder.py:121-123 | a key's value is the one stored by the last product whose entry has that key |
| PriceTableBuilder.OneProductTable | price_table_builder.py:76-123 | a Linux m3.large in "US East (N. Virginia)" at 0.140 gives the one-entry table `("m3.large","us-east-1","linux") -> {"USD": 0.14}` |
| PriceTableBuilder.NonAsciiSystemFails | price_table_builder.py:88 | an otherwise well-formed product whose OS is "Ñ" fails the build with `NotAscii("operatingSystem")`, as `str()` raises there |
| PriceTableBuilder.UnlistedRegionFails | price_table_builder.py:120 | a compute product located outside the ten table names fails the build with its location name instead of being dropped |
| PriceTables.StrLess | price_table_builder.py:143 | no ensures: the definition of Python's `<` on strings (proper prefix, or smaller at the first difference) that `StrLessIrreflexive`, `StrLessTransitive` and `StrLessTotal` are about |
| PriceTables.StrLessIrreflexive | price_table_builder.py:143 | no string is smaller than itself |
| PriceTables.StrLessTransitive | price_table_builder.py:143 | the string order is transitive |
| PriceTables.StrLessTotal | price_table_builder.py:143 | any two different strings are ordered one way or the other |
| PriceTables.KeyLess | price_table_builder.py:143 | no ensures: the definition of Python's tuple `<` on keys (lexicographic over instance type, region, platform) that `sorted` uses and `KeyLessIsStrictTotalOrder` is about |
| PriceTables.KeyLessIsStrictTotalOrder | price_table_builder.py:143 | Python's tuple order on keys is irreflexive, transitive and total |
| PriceTables.MinKey | price_table_builder.py:143 | a non-empty key set has a least key under the tuple order |
| PriceTables.Dump | price_table_builder.py:143 | the dumped list has one pair per table entry: every pair is an entry, every entry appears, and keys are strictly increasing (sorted, no duplicates) |
| PriceTables.Load | price_table_builder.py:161-163 | the loaded dict's keys are exactly the keys of the pairs, and each value comes from one of the pairs |
| PriceTables.LoadLastPairWins | price_table_builder.py:161-163 | when a key occurs more than once, the loaded value is that of its last pair |
| PriceTables.LoadDump | price_table_builder.py:143-163 | loading a dumped table gives back the table |
| PriceTables.DumpLoad | price_table_builder.py:143-163 | a strictly key-sorted list is exactly the dump of the table it loads to |
| PriceTables.SortedListsWithSamePairs | price_table_builder.py:143 | two strictly sorted lists with the same pairs are equal, so the dumped list is unique |
| BurnRate.CostMatrix | calculate_burn_rate.py:26-104 | the constant `COST_MATRIX`: us-east-1 and us-west-2 mapped to their price dicts, which `CostMatrixRegions`, `CostMatrixBounds`, `BurnRateFromMatrix` and `R3XlargeRates` are about |
| BurnRate.UsEast1Prices | calculate_burn_rate.py:27-65 | the 37 us-east-1 prices of `COST_MATRIX`, bounded by `UsEast1PricesBounds` |
| BurnRate.UsWest2Prices | calculate_burn_rate.py:66-103 | the 36 us-west-2 prices of `COST_MATRIX`, bounded by `UsWest2PricesBounds` |
| BurnRate.UsEast1PricesBounds | calculate_burn_rate.py:27-65 | every us-east-1 price is positive and at most 6.82 |
| BurnRate.UsWest2PricesBounds | calculate_burn_rate.py:66-103 | every us-west-2 price is positive and at most 6.82 |
| BurnRate.CostMatrixBounds | calculate_burn_rate.py:26-104 | every `COST_MATRIX` price is positive and at most 6.82, hence between 0 and the 50.00 sentinel |
| BurnRate.CostMatrixRegions | calculate_burn_rate.py:26-104 | `COST_MATRIX` prices exactly us-east-1 and us-west-2 |
| BurnRate.TypePrice | calculate_burn_rate.py:115 | no ensures: the definition of `.get(instance.instance_type, 50.00)` on one region's dict, which `BurnRate` and `BurnRateFromMatrix` state in terms of the listed price and the sentinel |
| BurnRate.BurnRate | calculate_burn_rate.py:108-115 | stopped costs 0.0 whatever the region or type; running in a priced region costs the listed price or 50.00; it fails if and only if the instance is running in a region not in the matrix, with the `AttributeError` on the string default |
| BurnRate.BurnRateFromMatrix | calculate_burn_rate.py:26-115 | with `COST_MATRIX`, a listed type costs its matrix price and an unlisted type exactly 50.00; every result is between 0 and 50.00, and any result above 6.82 is the sentinel |
| BurnRate.R3XlargeRates | calculate_burn_rate.py:57 | a running r3.xlarge costs 0.35 in us-east-1 but 50.00 in us-west-2, whose dict lists `r2.xlarge` (line 84) instead |
| BurnRate.Flatten | calculate_burn_rate.py:133-134 | no ensures: the definition of the instances the two nested loops visit, in order, that `FlattenPrefix` and `CountRegion` are about |
| BurnRate.Running | calculate_burn_rate.py:135-139 | no ensures: the definition of the instances that take the running branch, that `RunningMembers`, `RunningLength` and `RegionTallyCounts` are about |
| BurnRate.SumOfPrices | calculate_burn_rate.py:115-138 | no ensures: the definition of the sum of `.get` prices over a sequence of instances, that `SumOfPricesBounds` and `RegionTallyTotal` are about |
| BurnRate.RunningMembers | calculate_burn_rate.py:135-139 | an instance counts as running if and only if it is listed and its state is anything but "stopped" |
| BurnRate.RunningLength | calculate_burn_rate.py:135-139 | there are never more running instances than instances |
| BurnRate.SumOfPricesBounds | calculate_burn_rate.py:115 | with every price of a region's dict in [0, 50.00], the summed rate of n instances lies in [0, 50.00 n] |
| BurnRate.FlattenPrefix | calculate_burn_rate.py:133-134 | the instances of the first reservations come first, in order, among all the instances |
| BurnRate.RegionTally | calculate_burn_rate.py:129-139 | counting a region's instances succeeds if and only if the region is in the matrix or none of its instances is running; a failure is the `AttributeError` naming that region |
| BurnRate.RegionTallyStep | calculate_burn_rate.py:135-139 | one more stopped instance adds one to `numStopped`; a running one adds its rate to the total and one to `numRunning`; one that cannot be priced fails the region |
| BurnRate.RegionTallyFailsAt | calculate_burn_rate.py:138 | an instance that fails to be priced fails the whole reservation with its error |
| BurnRate.RegionTallyStopsAtError | calculate_burn_rate.py:133-139 | once pricing has raised, later instances change nothing |
| BurnRate.RegionTallyCounts | calculate_burn_rate.py:129-139 | `numRunning` is the number of running instances, and `numRunning + numStopped` is the number of all instances |
| BurnRate.RegionTallyTotal | calculate_burn_rate.py:129-139 | `totalByRegion` is the sum of the region dict's prices over the running instances, and 0.0 when the region is not in the matrix |
| BurnRate.RegionTallyBounds | calculate_burn_rate.py:129-139 | with prices below the sentinel, a region's total lies between 0 and 50.00 per running instance |
| BurnRate.CountInstances | calculate_burn_rate.py:134-139 | the inner loop continues the counters of the instances before it exactly as `RegionTally` does, stopping at the first exception |
| BurnRate.CountRegion | calculate_burn_rate.py:129-139 | the loops over a region's reservations and their instances give exactly `RegionTally` of all its instances in order |
| BurnRate.GetDataByRegions | calculate_burn_rate.py:119-149 | the pass over the regions returns exactly `RegionalData`: unavailable regions skipped, one record per listed region, and the first pricing exception ending the pass |
| BurnRate.RegionRecord | calculate_burn_rate.py:141-146 | no ensures: the definition of the record dict written for a region (burnrate, running, stopped, and their sum as all), which `RegionalDataRecords` and `RegionalDataLastWins` are about |
| BurnRate.Tally | calculate_burn_rate.py:129-139 | no ensures: the definition of the counting of a listed region (`RegionTally` of its flattened instances), used by `Priced` and so by `RegionalDataOk`, and by `RegionalDataLastWins` |
| BurnRate.RegionalData | calculate_burn_rate.py:119-149 | no ensures: the definition of the whole pass's outcome (the first escaping exception, or the records) that `RegionalDataOk`, `RegionalDataKeys`, `RegionalDataLastWins`, `RegionalDataRecords` and `GetDataByRegions` are about |
| BurnRate.RecordRegion | calculate_burn_rate.py:121-148 | no ensures: the definition of one region's iteration (propagate, skip on `EC2ResponseError`, raise, or store the record) on which `RegionalData` is defined |
| BurnRate.RegionalDataSnoc | calculate_burn_rate.py:121-148 | one more region extends the pass by exactly one iteration on the earlier outcome |
| BurnRate.RegionalDataOk | calculate_burn_rate.py:121-149 | the pass succeeds if and only if every region is skipped or priced without error |
| BurnRate.RegionalDataError | calculate_burn_rate.py:121-148 | an escaping exception names a listed region that is missing from the matrix, and every region before it was handled without error |
| BurnRate.RegionalDataRecords | calculate_burn_rate.py:141-146 | every record has `numberAllInstances = numberRunningInstances + numberStoppedInstances`, and with prices below the sentinel a burn rate between 0 and 50.00 per running instance |
| BurnRate.RegionalDataStopsAtError | calculate_burn_rate.py:121-148 | once the pass has raised, the later regions change nothing |
| BurnRate.RegionalDataIgnoresUnavailable | calculate_burn_rate.py:147-148 | a region whose listing raised `EC2ResponseError` can be removed without changing the outcome, so it gets no entry and affects no other region |
| BurnRate.RegionalDataKeys | calculate_burn_rate.py:141-146 | on success the recorded names are exactly the names of the regions whose instances could be listed |
| BurnRate.RegionalDataLastWins | calculate_burn_rate.py:141-146 | a region's record holds the counters of the last listed region of that name, written once after its loops complete |
| BurnRate.WestCoastTally | calculate_burn_rate.py:133-139 | us-west-2 with a running r3.xlarge and a stopped m3.large counts a total of 50.00, one running and one stopped |
| BurnRate.WestCoastExample | calculate_burn_rate.py:119-149 | that us-west-2 inventory, with eu-west-1 unavailable, records only us-west-2 with a burn rate of 50.00, 1 running, 1 stopped and 2 in all |
| BurnRate.UnpricedRegionExample | calculate_burn_rate.py:115 | for any matrix without eu-west-1: a running instance there makes the whole pass raise, even after an earlier region was recorded |
| BurnRate.CostMatrixUnpricedRegion | calculate_burn_rate.py:115-148 | the same pass with `COST_MATRIX` itself raises `StrHasNoGet("eu-west-1")` |

## Left out

- `burnrate_collect_data.py` is not part of this model: option parsing, socket sends to the Grok server, CSV files, timestamps and the sums over the pass's output.
- I/O is left out: the download of the offer document (`urllib2`, the 300-second timeout), JSON parsing and writing in `dump` and `load`, and `main`'s argument parsing. The offer document is an already-parsed `Offers` value, and the dumped file is a list of `(key, value)` pairs.
- boto is left out. Region enumeration, the credentials read from `os.environ` (including the `KeyError` when they are missing), `connect_ec2` and `get_all_instances` become the input sequence of `RegionInventory`, in enumeration order.
- The model does not include floating point. Amounts are `real`, `float(amount)` is the amount itself, and the accumulation of `totalByRegion` is exact.
- Python dict iteration order is left out. The products are a given sequence, and `values()[0]` on a one-entry dict is that entry.
- `str()` of the location, instance type and OS is modelled only by whether it raises (`NotAscii` for a non-ASCII value); on ASCII text it is the identity. Attribute values that are not JSON strings (numbers, lists) are not modelled, because `attributes` maps to strings.
- The `offers["products"]`, `["terms"]["OnDemand"]`, `term["priceDimensions"]` and `priceDimension["pricePerUnit"]` lookups are assumed to succeed. The datatypes always have these fields, so their `KeyError`s are not modelled.
- A product without an `attributes` dict is not modelled: the source raises `KeyError('attributes')` there, but `Product` always has an `attributes` map. The nearest modelled case, empty attributes, raises `MissingAttribute("location")` instead.
- `rateCode` appears only inside exception messages and is not modelled. Exception messages are not modelled; each raise site is a distinct `BuildError` constructor.
- Load: JSON keys that are not three-element lists are not modelled, because the model's pairs always hold a `PriceKey`.
- BurnRate: the price matrix is a parameter instead of the global constant; every claim about the program's own prices is stated about `CostMatrix`.
- CountInstances, CountRegion and ProductEntry are separate methods where the source has one function body. Their contracts compose to those of the whole loops, `GetDataByRegions` and `BuildLookupTable`.
- PriceTableBuilder.RegionTableCodes: states that the table's values lie among the ten codes, not that the table has exactly ten entries with distinct values (both are visible in the constant itself).
