/**
 * `calculate_burn_rate.py`: the hourly price of one EC2 instance from the
 * hard-coded `COST_MATRIX`, and the pass over all regions that counts
 * stopped and running instances and sums the running ones' prices.
 *
 * The region enumeration and the EC2 connection are inputs: per region, its
 * name and either its reservations or the `EC2ResponseError` that listing
 * it raised.
 */
module BurnRate {
  import opened Wrappers

  const Stopped := "stopped"

  /** What `getBurnRate` charges for an instance type missing from the matrix. */
  const UnknownTypeRate: real := 50.00

  /** The highest price listed in `COST_MATRIX` (`i2.8xlarge`). */
  const MaxListedPrice: real := 6.82

  /** `COST_MATRIX`: on-demand hourly prices, by region name and then instance type. */
  const CostMatrix: map<string, map<string, real>> := map["us-east-1" := UsEast1Prices, "us-west-2" := UsWest2Prices]

  const UsEast1Prices: map<string, real> := map[
      "c1.medium" := 0.13,
      "c1.xlarge" := 0.52,
      "c3.large" := 0.105,
      "c3.xlarge" := 0.21,
      "c3.2xlarge" := 0.42,
      "c3.4xlarge" := 0.84,
      "c3.8xlarge" := 1.68,
      "cc2.8xlarge" := 2.00,
      "cg1.4xlarge" := 2.1,
      "cr1.8xlarge" := 3.5,
      "g2.2xlarge" := 0.65,
      "hi1.4xlarge" := 3.1,
      "hs1.8xlarge" := 4.6,
      "i2.xlarge" := 0.853,
      "i2.2xlarge" := 1.705,
      "i2.4xlarge" := 3.41,
      "i2.8xlarge" := 6.82,
      "m1.small" := 0.044,
      "m1.medium" := 0.087,
      "m1.large" := 0.175,
      "m1.xlarge" := 0.350,
      "m2.xlarge" := 0.245,
      "m2.2xlarge" := 0.49,
      "m2.4xlarge" := 0.98,
      "m3.medium" := 0.07,
      "m3.large" := 0.14,
      "m3.xlarge" := 0.280,
      "m3.2xlarge" := 0.560,
      "r3.large" := 0.175,
      "r3.xlarge" := 0.35,
      "r3.2xlarge" := 0.7,
      "r3.4xlarge" := 1.4,
      "r3.8xlarge" := 2.8,
      "t1.micro" := 0.02,
      "t2.micro" := 0.013,
      "t2.small" := 0.026,
      "t2.medium" := 0.052
    ]

  const UsWest2Prices: map<string, real> := map[
      "c1.medium" := 0.13,
      "c1.xlarge" := 0.52,
      "cc2.8xlarge" := 2.0,
      "c3.large" := 0.105,
      "c3.xlarge" := 0.21,
      "c3.2xlarge" := 0.42,
      "c3.4xlarge" := 0.84,
      "c3.8xlarge" := 1.68,
      "cr1.8xlarge" := 3.5,
      "g2.2xlarge" := 0.65,
      "hs1.8xlarge" := 4.6,
      "h1.4xlarge" := 3.1,
      "i2.xlarge" := 0.853,
      "i2.2xlarge" := 1.705,
      "i2.4xlarge" := 3.41,
      "i2.8xlarge" := 6.82,
      "r3.large" := 0.175,
      "r2.xlarge" := 0.35,
      "r2.2xlarge" := 0.7,
      "r2.4xlarge" := 1.4,
      "r2.8xlarge" := 2.8,
      "m1.small" := 0.044,
      "m1.medium" := 0.087,
      "m1.large" := 0.175,
      "m1.xlarge" := 0.35,
      "m2.xlarge" := 0.245,
      "m2.2xlarge" := 0.49,
      "m2.4xlarge" := 0.98,
      "m3.medium" := 0.07,
      "m3.large" := 0.14,
      "m3.xlarge" := 0.28,
      "m3.2xlarge" := 0.56,
      "t1.micro" := 0.02,
      "t2.micro" := 0.013,
      "t2.small" := 0.026,
      "t2.medium" := 0.052
    ]

  /** An EC2 instance as the pass reads it: its state and its type. */
  datatype Instance = Instance(state: string, instanceType: string)

  datatype Reservation = Reservation(instances: seq<Instance>)

  /** A region's `get_all_instances()`, or the `EC2ResponseError` raised connecting to it or listing it. */
  datatype Listing = Unavailable | Listed(reservations: seq<Reservation>)

  datatype RegionInventory = RegionInventory(name: string, listing: Listing)

  /** The record stored for one region. */
  datatype RegionMetrics = RegionMetrics(burnrate: real, numberRunningInstances: nat,
                                         numberStoppedInstances: nat, numberAllInstances: nat)

  /**
   * The exception `getBurnRate` raises for a running instance in a region
   * missing from the matrix: the `.get` default is the string "us-west-2",
   * and calling `.get` on a string raises `AttributeError`.
   */
  datatype PricingError = StrHasNoGet(region: string)

  /** A price matrix like `COST_MATRIX`: hourly prices by region name, then by instance type. */
  type CostTable = map<string, map<string, real>>

  /** Every price in the matrix lies between 0 and the $50.00 sentinel. */
  predicate BelowSentinel(matrix: CostTable)
  {
    forall region, t :: region in matrix && t in matrix[region] ==> 0.0 <= matrix[region][t] <= UnknownTypeRate
  }

  /** Every listed price is positive and at most $6.82, far below the $50.00 sentinel. */
  lemma CostMatrixBounds()
    ensures forall region, t :: region in CostMatrix && t in CostMatrix[region] ==>
              0.0 < CostMatrix[region][t] <= MaxListedPrice
    ensures BelowSentinel(CostMatrix)
  {
    UsEast1PricesBounds();
    UsWest2PricesBounds();
  }

  lemma UsEast1PricesBounds()
    ensures forall t :: t in UsEast1Prices ==> 0.0 < UsEast1Prices[t] <= MaxListedPrice
  {
  }

  lemma UsWest2PricesBounds()
    ensures forall t :: t in UsWest2Prices ==> 0.0 < UsWest2Prices[t] <= MaxListedPrice
  {
  }

  // ---------------------------------------------------------------------------
  // getBurnRate
  // ---------------------------------------------------------------------------

  /** `prices.get(instanceType, 50.00)` on one region's dict of prices. */
  function TypePrice(prices: map<string, real>, instanceType: string): real
  {
    if instanceType in prices then prices[instanceType] else UnknownTypeRate
  }

  /**
   * `getBurnRate(region, instance)` against the price matrix `matrix`
   * (`COST_MATRIX` in the program): the instance's hourly cost in US dollars.
   */
  function BurnRate(matrix: CostTable, region: string, instance: Instance): (r: Result<real, PricingError>)
    ensures instance.state == Stopped ==> r == Ok(0.0)
    ensures instance.state != Stopped && region in matrix ==>
              r == Ok(TypePrice(matrix[region], instance.instanceType))
    ensures r.Err? <==> instance.state != Stopped && region !in matrix
    ensures r.Err? ==> r.error == StrHasNoGet(region)
  {
    if instance.state == Stopped then Ok(0.0)
    else if region !in matrix then Err(StrHasNoGet(region))
    else Ok(TypePrice(matrix[region], instance.instanceType))
  }

  /**
   * With `COST_MATRIX`: a running instance in a priced region costs its
   * matrix price when its type is listed and exactly $50.00 when it is not;
   * every result lies between 0 and $50.00, and any result above the highest
   * listed price is the sentinel.
   */
  lemma BurnRateFromMatrix(region: string, instance: Instance)
    ensures instance.state != Stopped && region in CostMatrix && instance.instanceType in CostMatrix[region] ==>
              BurnRate(CostMatrix, region, instance) == Ok(CostMatrix[region][instance.instanceType])
    ensures instance.state != Stopped && region in CostMatrix && instance.instanceType !in CostMatrix[region] ==>
              BurnRate(CostMatrix, region, instance) == Ok(UnknownTypeRate)
    ensures BurnRate(CostMatrix, region, instance).Ok? ==>
              0.0 <= BurnRate(CostMatrix, region, instance).value <= UnknownTypeRate
    ensures BurnRate(CostMatrix, region, instance).Ok? && BurnRate(CostMatrix, region, instance).value > MaxListedPrice ==>
              BurnRate(CostMatrix, region, instance).value == UnknownTypeRate
  {
    CostMatrixBounds();
  }

  /**
   * The us-west-2 table lists `r2.*` sizes and `h1.4xlarge` where us-east-1
   * lists `r3.*` and `hi1.4xlarge`: a running `r3.xlarge` costs $0.35 in
   * us-east-1 but is charged the $50.00 sentinel in us-west-2.
   */
  lemma R3XlargeRates()
    ensures BurnRate(CostMatrix, "us-east-1", Instance("running", "r3.xlarge")) == Ok(0.35)
    ensures BurnRate(CostMatrix, "us-west-2", Instance("running", "r3.xlarge")) == Ok(UnknownTypeRate)
  {
    assert CostMatrix["us-east-1"] == UsEast1Prices;
    assert CostMatrix["us-west-2"] == UsWest2Prices;
  }

  // ---------------------------------------------------------------------------
  // One region's counters
  // ---------------------------------------------------------------------------

  /** The instances of all reservations, in listing order. */
  function Flatten(reservations: seq<Reservation>): seq<Instance>
  {
    if reservations == [] then []
    else Flatten(reservations[..|reservations| - 1]) + reservations[|reservations| - 1].instances
  }

  /** The instances of the first `j` reservations are a prefix of all the instances. */
  lemma {:induction false} FlattenPrefix(reservations: seq<Reservation>, j: nat)
    requires j <= |reservations|
    ensures |Flatten(reservations[..j])| <= |Flatten(reservations)|
    ensures Flatten(reservations)[..|Flatten(reservations[..j])|] == Flatten(reservations[..j])
  {
    if j == |reservations| {
      assert reservations[..j] == reservations;
    } else {
      var init := reservations[..|reservations| - 1];
      assert init[..j] == reservations[..j];
      FlattenPrefix(init, j);
    }
  }

  /** The instances that count as running: those whose state is anything but "stopped". */
  function Running(s: seq<Instance>): seq<Instance>
  {
    if s == [] then []
    else
      var last := s[|s| - 1];
      Running(s[..|s| - 1]) + (if last.state != Stopped then [last] else [])
  }

  /** Appending an instance appends it to the running ones exactly when its state is not "stopped". */
  lemma RunningStep(s: seq<Instance>, x: Instance)
    ensures Running(s + [x]) == Running(s) + (if x.state != Stopped then [x] else [])
  {
    assert (s + [x])[..|s|] == s;
  }

  lemma {:induction false} RunningLength(s: seq<Instance>)
    ensures |Running(s)| <= |s|
  {
    if s != [] {
      RunningLength(s[..|s| - 1]);
    }
  }

  /** An instance is counted as running iff it is in `s` and its state is not "stopped". */
  lemma {:induction false} RunningMembers(s: seq<Instance>, x: Instance)
    ensures x in Running(s) <==> x in s && x.state != Stopped
  {
    if s != [] {
      var init := s[..|s| - 1];
      RunningMembers(init, x);
      assert s == init + [s[|s| - 1]];
    }
  }

  /** The sum of what one region's dict of prices charges for each instance of `s`. */
  function SumOfPrices(prices: map<string, real>, s: seq<Instance>): real
  {
    if s == [] then 0.0
    else SumOfPrices(prices, s[..|s| - 1]) + TypePrice(prices, s[|s| - 1].instanceType)
  }

  lemma SumOfPricesAppend(prices: map<string, real>, s: seq<Instance>, x: Instance)
    ensures SumOfPrices(prices, s + [x]) == SumOfPrices(prices, s) + TypePrice(prices, x.instanceType)
  {
    assert (s + [x])[..|s|] == s;
  }

  /** With every price of the dict between 0 and $50.00, the sum over `s` is at most $50.00 per instance. */
  lemma {:induction false} SumOfPricesBounds(prices: map<string, real>, s: seq<Instance>)
    requires forall t :: t in prices ==> 0.0 <= prices[t] <= UnknownTypeRate
    ensures 0.0 <= SumOfPrices(prices, s) <= 50.00 * |s| as real
  {
    if s != [] {
      SumOfPricesBounds(prices, s[..|s| - 1]);
    }
  }

  /** `totalByRegion`, `numRunning` and `numStopped`. */
  datatype Counters = Counters(totalByRegion: real, numRunning: nat, numStopped: nat)

  /**
   * The counters after the inner loops have seen `instances`, or the
   * exception `getBurnRate` raised on one of them.
   */
  function RegionTally(matrix: CostTable, region: string, instances: seq<Instance>): (r: Result<Counters, PricingError>)
    ensures r.Ok? <==> region in matrix || Running(instances) == []
    ensures r.Err? ==> r.error == StrHasNoGet(region)
  {
    if instances == [] then Ok(Counters(0.0, 0, 0))
    else
      var seen := instances[..|instances| - 1];
      var instance := instances[|instances| - 1];
      match RegionTally(matrix, region, seen)
      case Err(e) => Err(e)
      case Ok(c) =>
        if instance.state == Stopped then
          Ok(c.(numStopped := c.numStopped + 1))
        else
          match BurnRate(matrix, region, instance)
          case Err(e) => Err(e)
          case Ok(rate) => Ok(Counters(c.totalByRegion + rate, c.numRunning + 1, c.numStopped))
  }

  /** One more instance: a stopped one is counted, a running one is priced and counted. */
  lemma RegionTallyStep(matrix: CostTable, region: string, seen: seq<Instance>, instance: Instance, c: Counters)
    requires RegionTally(matrix, region, seen) == Ok(c)
    ensures instance.state == Stopped ==>
              RegionTally(matrix, region, seen + [instance]) == Ok(Counters(c.totalByRegion, c.numRunning, c.numStopped + 1))
    ensures instance.state != Stopped && BurnRate(matrix, region, instance).Ok? ==>
              RegionTally(matrix, region, seen + [instance])
              == Ok(Counters(c.totalByRegion + BurnRate(matrix, region, instance).value, c.numRunning + 1, c.numStopped))
    ensures BurnRate(matrix, region, instance).Err? ==>
              RegionTally(matrix, region, seen + [instance]) == Err(BurnRate(matrix, region, instance).error)
  {
    assert (seen + [instance])[..|seen|] == seen;
  }

  /** The instance at `k` failing to be priced, the whole of `done + instances` fails with its error. */
  lemma RegionTallyFailsAt(matrix: CostTable, region: string, done: seq<Instance>, instances: seq<Instance>, k: nat)
    requires k < |instances| && RegionTally(matrix, region, done + instances[..k + 1]).Err?
    ensures RegionTally(matrix, region, done + instances) == RegionTally(matrix, region, done + instances[..k + 1])
  {
    assert (done + instances)[..|done| + k + 1] == done + instances[..k + 1];
    RegionTallyStopsAtError(matrix, region, done + instances, |done| + k + 1);
  }

  /** Once pricing a prefix of the instances has raised, the rest is never looked at. */
  lemma {:induction false} RegionTallyStopsAtError(matrix: CostTable, region: string, s: seq<Instance>, n: nat)
    requires n <= |s| && RegionTally(matrix, region, s[..n]).Err?
    ensures RegionTally(matrix, region, s) == RegionTally(matrix, region, s[..n])
    decreases |s|
  {
    if n < |s| {
      var init := s[..|s| - 1];
      assert init[..n] == s[..n];
      RegionTallyStopsAtError(matrix, region, init, n);
    } else {
      assert s[..n] == s;
    }
  }

  /** The counters hold the number of running instances and the number of all instances. */
  lemma {:induction false} RegionTallyCounts(matrix: CostTable, region: string, instances: seq<Instance>)
    requires RegionTally(matrix, region, instances).Ok?
    ensures RegionTally(matrix, region, instances).value.numRunning == |Running(instances)|
    ensures RegionTally(matrix, region, instances).value.numRunning
            + RegionTally(matrix, region, instances).value.numStopped == |instances|
  {
    if instances != [] {
      var seen := instances[..|instances| - 1];
      RegionTallyCounts(matrix, region, seen);
      RunningStep(seen, instances[|instances| - 1]);
      assert seen + [instances[|instances| - 1]] == instances;
    }
  }

  /**
   * The burn rate is the sum of the running instances' prices in the
   * region's dict, and nothing when the region is not in the matrix (then
   * none is running).
   */
  lemma {:induction false} RegionTallyTotal(matrix: CostTable, region: string, instances: seq<Instance>)
    requires RegionTally(matrix, region, instances).Ok?
    ensures region in matrix ==>
              RegionTally(matrix, region, instances).value.totalByRegion == SumOfPrices(matrix[region], Running(instances))
    ensures region !in matrix ==> RegionTally(matrix, region, instances).value.totalByRegion == 0.0
  {
    if instances != [] {
      var seen := instances[..|instances| - 1];
      var instance := instances[|instances| - 1];
      RegionTallyTotal(matrix, region, seen);
      RunningStep(seen, instance);
      assert seen + [instance] == instances;
      var c := RegionTally(matrix, region, seen).value;
      if instance.state == Stopped {
        assert Running(instances) == Running(seen) + [] == Running(seen);
        assert RegionTally(matrix, region, instances).value.totalByRegion == c.totalByRegion;
      } else if region in matrix {
        assert RegionTally(matrix, region, instances).value.totalByRegion
               == c.totalByRegion + TypePrice(matrix[region], instance.instanceType);
        SumOfPricesAppend(matrix[region], Running(seen), instance);
      }
    }
  }

  /** With prices below the sentinel, a region's burn rate lies between 0 and $50.00 per running instance. */
  lemma RegionTallyBounds(matrix: CostTable, region: string, instances: seq<Instance>)
    ensures BelowSentinel(matrix) && RegionTally(matrix, region, instances).Ok? ==>
              var c := RegionTally(matrix, region, instances).value;
              0.0 <= c.totalByRegion <= 50.00 * c.numRunning as real
  {
    if BelowSentinel(matrix) && RegionTally(matrix, region, instances).Ok? {
      RegionTallyCounts(matrix, region, instances);
      RegionTallyTotal(matrix, region, instances);
      RunningLength(instances);
      if region in matrix {
        SumOfPricesBounds(matrix[region], Running(instances));
      }
    }
  }

  // ---------------------------------------------------------------------------
  // getDataByRegions
  // ---------------------------------------------------------------------------

  /** The record `getDataByRegions` stores for a region from its counters. */
  function RegionRecord(c: Counters): RegionMetrics
  {
    RegionMetrics(c.totalByRegion, c.numRunning, c.numStopped, c.numRunning + c.numStopped)
  }

  /** A record whose burn rate is at most $50.00 per running instance. */
  predicate Bounded(m: RegionMetrics)
  {
    0.0 <= m.burnrate <= 50.00 * m.numberRunningInstances as real
  }

  /** The counters of a region whose instances could be listed. */
  function Tally(matrix: CostTable, reg: RegionInventory): Result<Counters, PricingError>
    requires reg.listing.Listed?
  {
    RegionTally(matrix, reg.name, Flatten(reg.listing.reservations))
  }

  /** The region does not make the pass raise: it was skipped, or pricing its instances succeeds. */
  predicate Priced(matrix: CostTable, reg: RegionInventory)
  {
    reg.listing.Listed? ==> Tally(matrix, reg).Ok?
  }

  /**
   * `getDataByRegions` over the regions in enumeration order: a record per
   * region whose instances could be listed, a later record for the same
   * name replacing an earlier one, or the first exception escaping from
   * `getBurnRate`.
   */
  function RegionalData(matrix: CostTable, inventory: seq<RegionInventory>): Result<map<string, RegionMetrics>, PricingError>
  {
    if inventory == [] then Ok(map[])
    else RecordRegion(matrix, RegionalData(matrix, inventory[..|inventory| - 1]), inventory[|inventory| - 1])
  }

  /** One iteration of the loop over the regions, on the outcome of the earlier ones. */
  function RecordRegion(matrix: CostTable, sofar: Result<map<string, RegionMetrics>, PricingError>,
                        reg: RegionInventory): Result<map<string, RegionMetrics>, PricingError>
  {
    match sofar
    case Err(e) => Err(e)
    case Ok(data) =>
      match reg.listing
      case Unavailable => Ok(data)
      case Listed(reservations) =>
        match RegionTally(matrix, reg.name, Flatten(reservations))
        case Err(e) => Err(e)
        case Ok(c) => Ok(data[reg.name := RegionRecord(c)])
  }

  lemma RegionalDataSnoc(matrix: CostTable, inventory: seq<RegionInventory>, reg: RegionInventory)
    ensures RegionalData(matrix, inventory + [reg]) == RecordRegion(matrix, RegionalData(matrix, inventory), reg)
  {
    assert (inventory + [reg])[..|inventory|] == inventory;
  }

  /** The pass succeeds exactly when no region makes it raise. */
  lemma {:induction false} RegionalDataOk(matrix: CostTable, inventory: seq<RegionInventory>)
    ensures RegionalData(matrix, inventory).Ok? <==> forall i :: 0 <= i < |inventory| ==> Priced(matrix, inventory[i])
  {
    if inventory != [] {
      var init := inventory[..|inventory| - 1];
      RegionalDataOk(matrix, init);
      assert forall i :: 0 <= i < |init| ==> init[i] == inventory[i];
    }
  }

  /**
   * The exception that escapes names a listed region missing from the
   * matrix: the first region whose pricing fails.
   */
  lemma {:induction false} RegionalDataError(matrix: CostTable, inventory: seq<RegionInventory>)
    requires RegionalData(matrix, inventory).Err?
    ensures exists i :: 0 <= i < |inventory| && inventory[i].listing.Listed? && !Priced(matrix, inventory[i]) &&
                        inventory[i].name !in matrix &&
                        RegionalData(matrix, inventory).error == StrHasNoGet(inventory[i].name) &&
                        forall j :: 0 <= j < i ==> Priced(matrix, inventory[j])
  {
    var init := inventory[..|inventory| - 1];
    var i := |inventory| - 1;
    if RegionalData(matrix, init).Err? {
      RegionalDataError(matrix, init);
      var k :| 0 <= k < |init| && init[k].listing.Listed? && !Priced(matrix, init[k]) && init[k].name !in matrix &&
               RegionalData(matrix, init).error == StrHasNoGet(init[k].name) &&
               forall j :: 0 <= j < k ==> Priced(matrix, init[j]);
      assert inventory[k] == init[k];
      assert forall j :: 0 <= j < k ==> inventory[j] == init[j];
    } else {
      RegionalDataOk(matrix, init);
      assert forall j :: 0 <= j < i ==> inventory[j] == init[j];
      assert inventory[i].listing.Listed? && !Priced(matrix, inventory[i]);
    }
  }

  /**
   * Every record's instance counts add up, and with prices below the
   * sentinel its burn rate is between 0 and $50.00 per running instance.
   */
  lemma {:induction false} RegionalDataRecords(matrix: CostTable, inventory: seq<RegionInventory>, name: string)
    requires RegionalData(matrix, inventory).Ok? && name in RegionalData(matrix, inventory).value
    ensures var m := RegionalData(matrix, inventory).value[name];
            m.numberAllInstances == m.numberRunningInstances + m.numberStoppedInstances
    ensures BelowSentinel(matrix) ==> Bounded(RegionalData(matrix, inventory).value[name])
  {
    var init := inventory[..|inventory| - 1];
    var last := inventory[|inventory| - 1];
    if last.listing.Listed? && last.name == name {
      RegionTallyBounds(matrix, last.name, Flatten(last.listing.reservations));
    } else {
      RegionalDataRecords(matrix, init, name);
    }
  }

  /** Once the pass has raised on a prefix of the regions, the rest is never looked at. */
  lemma {:induction false} RegionalDataStopsAtError(matrix: CostTable, inventory: seq<RegionInventory>, n: nat)
    requires n <= |inventory| && RegionalData(matrix, inventory[..n]).Err?
    ensures RegionalData(matrix, inventory) == RegionalData(matrix, inventory[..n])
    decreases |inventory|
  {
    if n < |inventory| {
      var init := inventory[..|inventory| - 1];
      assert init[..n] == inventory[..n];
      RegionalDataStopsAtError(matrix, init, n);
    } else {
      assert inventory[..n] == inventory;
    }
  }

  /** A region whose listing raised `EC2ResponseError` changes nothing: removing it gives the same outcome. */
  lemma {:induction false} RegionalDataIgnoresUnavailable(matrix: CostTable, xs: seq<RegionInventory>,
                                                          reg: RegionInventory, ys: seq<RegionInventory>)
    requires reg.listing.Unavailable?
    ensures RegionalData(matrix, xs + [reg] + ys) == RegionalData(matrix, xs + ys)
    decreases |ys|
  {
    if ys == [] {
      RegionalDataSnoc(matrix, xs, reg);
      assert xs + [reg] + ys == xs + [reg];
      assert xs + ys == xs;
    } else {
      var ys' := ys[..|ys| - 1];
      var y := ys[|ys| - 1];
      RegionalDataIgnoresUnavailable(matrix, xs, reg, ys');
      RegionalDataSnoc(matrix, xs + [reg] + ys', y);
      RegionalDataSnoc(matrix, xs + ys', y);
      assert ys == ys' + [y];
      assert xs + [reg] + ys == (xs + [reg] + ys') + [y];
      assert xs + ys == (xs + ys') + [y];
    }
  }

  /** The regions recorded are exactly those whose instances could be listed. */
  lemma {:induction false} RegionalDataKeys(matrix: CostTable, inventory: seq<RegionInventory>, name: string)
    requires RegionalData(matrix, inventory).Ok?
    ensures name in RegionalData(matrix, inventory).value <==>
              exists i :: 0 <= i < |inventory| && inventory[i].listing.Listed? && inventory[i].name == name
  {
    if inventory != [] {
      var init := inventory[..|inventory| - 1];
      var last := inventory[|inventory| - 1];
      RegionalDataKeys(matrix, init, name);
      assert name in RegionalData(matrix, inventory).value <==>
               name in RegionalData(matrix, init).value || (last.listing.Listed? && last.name == name);
      assert forall i :: 0 <= i < |init| ==> init[i] == inventory[i];
      ExistsSplit(inventory, (reg: RegionInventory) => reg.listing.Listed? && reg.name == name);
    }
  }

  /**
   * A region's record holds the counters of the last listed region of that
   * name: its running and stopped counts and the sum of its running
   * instances' prices.
   */
  lemma {:induction false} RegionalDataLastWins(matrix: CostTable, inventory: seq<RegionInventory>, i: nat)
    requires RegionalData(matrix, inventory).Ok?
    requires i < |inventory| && inventory[i].listing.Listed?
    requires forall j :: i < j < |inventory| && inventory[j].listing.Listed? ==> inventory[j].name != inventory[i].name
    ensures Tally(matrix, inventory[i]).Ok?
    ensures inventory[i].name in RegionalData(matrix, inventory).value
    ensures RegionalData(matrix, inventory).value[inventory[i].name] == RegionRecord(Tally(matrix, inventory[i]).value)
  {
    var init := inventory[..|inventory| - 1];
    if i < |init| {
      assert init[i] == inventory[i];
      forall j | i < j < |init| && init[j].listing.Listed? ensures init[j].name != init[i].name {
        assert init[j] == inventory[j];
      }
      RegionalDataLastWins(matrix, init, i);
    }
  }

  /**
   * The inner loop of `getDataByRegions` over one reservation's instances,
   * continuing from the counters `c` that the instances `done` before it
   * produced: a stopped instance is counted, a running one is priced and
   * counted, and the first exception from `getBurnRate` ends the pass.
   */
  method CountInstances(matrix: CostTable, name: string, instances: seq<Instance>,
                        ghost done: seq<Instance>, c: Counters)
    returns (r: Result<Counters, PricingError>)
    requires RegionTally(matrix, name, done) == Ok(c)
    ensures r == RegionTally(matrix, name, done + instances)
  {
    var totalByRegion := c.totalByRegion;
    var numStopped := c.numStopped;
    var numRunning := c.numRunning;
    assert done + instances[..0] == done;
    for k := 0 to |instances|
      invariant RegionTally(matrix, name, done + instances[..k])
                == Ok(Counters(totalByRegion, numRunning, numStopped))
    {
      var instance := instances[k];
      ghost var seen := done + instances[..k];
      assert instances[..k + 1] == instances[..k] + [instance];
      assert seen + [instance] == done + instances[..k + 1];
      RegionTallyStep(matrix, name, seen, instance, Counters(totalByRegion, numRunning, numStopped));
      if instance.state == Stopped {
        numStopped := numStopped + 1;
      } else {
        var rate := BurnRate(matrix, name, instance);
        if rate.Err? {
          RegionTallyFailsAt(matrix, name, done, instances, k);
          return Err(rate.error);
        }
        totalByRegion := totalByRegion + rate.value;
        numRunning := numRunning + 1;
      }
    }
    assert instances[..|instances|] == instances;
    return Ok(Counters(totalByRegion, numRunning, numStopped));
  }

  /**
   * The body of `getDataByRegions`'s `try` block for one region: the loop
   * over its reservations, each one's instances counted by the inner loop,
   * stopping at the first exception from `getBurnRate`.
   */
  method CountRegion(matrix: CostTable, name: string, reservations: seq<Reservation>)
    returns (r: Result<Counters, PricingError>)
    ensures r == RegionTally(matrix, name, Flatten(reservations))
  {
    var counters := Counters(0.0, 0, 0);
    for j := 0 to |reservations|
      invariant RegionTally(matrix, name, Flatten(reservations[..j])) == Ok(counters)
    {
      assert reservations[..j + 1][..j] == reservations[..j];
      var next := CountInstances(matrix, name, reservations[j].instances, Flatten(reservations[..j]), counters);
      if next.Err? {
        FlattenPrefix(reservations, j + 1);
        RegionTallyStopsAtError(matrix, name, Flatten(reservations), |Flatten(reservations[..j + 1])|);
        return next;
      }
      counters := next.value;
    }
    assert reservations[..|reservations|] == reservations;
    return Ok(counters);
  }

  /**
   * `getDataByRegions`: one record per region, skipping a region whose
   * listing raised `EC2ResponseError` and stopping at the first exception
   * from `getBurnRate`.
   */
  method GetDataByRegions(matrix: CostTable, inventory: seq<RegionInventory>)
    returns (r: Result<map<string, RegionMetrics>, PricingError>)
    ensures r == RegionalData(matrix, inventory)
  {
    var regionalData: map<string, RegionMetrics> := map[];
    for n := 0 to |inventory|
      invariant RegionalData(matrix, inventory[..n]) == Ok(regionalData)
    {
      assert inventory[..n + 1][..n] == inventory[..n];
      var region := inventory[n];
      if region.listing.Unavailable? {
        continue;
      }
      var counters := CountRegion(matrix, region.name, region.listing.reservations);
      if counters.Err? {
        RegionalDataStopsAtError(matrix, inventory, n + 1);
        return Err(counters.error);
      }
      var Counters(totalByRegion, numRunning, numStopped) := counters.value;
      regionalData := regionalData[region.name := RegionMetrics(totalByRegion, numRunning, numStopped,
                                                                numRunning + numStopped)];
    }
    assert inventory[..|inventory|] == inventory;
    return Ok(regionalData);
  }

  /**
   * A worked pass with `COST_MATRIX`: us-west-2 has a running `r3.xlarge`
   * (charged the $50.00 sentinel) and a stopped `m3.large`; listing
   * eu-west-1 raised `EC2ResponseError`.
   */
  lemma WestCoastExample()
    ensures RegionalData(CostMatrix, [
              RegionInventory("us-west-2", Listed([Reservation([Instance("running", "r3.xlarge"),
                                                               Instance("stopped", "m3.large")])])),
              RegionInventory("eu-west-1", Unavailable)])
            == Ok(map["us-west-2" := RegionMetrics(50.00, 1, 1, 2)])
  {
    var west := RegionInventory("us-west-2", Listed([Reservation([Instance("running", "r3.xlarge"),
                                                                 Instance("stopped", "m3.large")])]));
    var unavailable := RegionInventory("eu-west-1", Unavailable);
    WestCoastTally();
    RegionalDataIgnoresUnavailable(CostMatrix, [west], unavailable, []);
    assert [west] + [unavailable] + [] == [west, unavailable];
    assert [west] + [] == [west];
    assert [west][..0] == [];
  }

  lemma WestCoastTally()
    ensures RegionTally(CostMatrix, "us-west-2", Flatten([Reservation([Instance("running", "r3.xlarge"),
                                                                       Instance("stopped", "m3.large")])]))
            == Ok(Counters(50.00, 1, 1))
  {
    var running := Instance("running", "r3.xlarge");
    var stopped := Instance("stopped", "m3.large");
    R3XlargeRates();
    assert Flatten([Reservation([running, stopped])]) == [running, stopped];
    RegionTallyStep(CostMatrix, "us-west-2", [], running, Counters(0.0, 0, 0));
    assert [] + [running] == [running];
    RegionTallyStep(CostMatrix, "us-west-2", [running], stopped, Counters(50.00, 1, 0));
    assert [running] + [stopped] == [running, stopped];
  }

  /** `COST_MATRIX` prices exactly two regions. */
  lemma CostMatrixRegions()
    ensures CostMatrix.Keys == {"us-east-1", "us-west-2"}
  {
  }

  /**
   * A running instance in a region missing from the matrix (as eu-west-1 is
   * from `COST_MATRIX`) makes the whole pass raise, even after an earlier
   * region was recorded.
   */
  lemma UnpricedRegionExample(matrix: CostTable)
    requires "eu-west-1" !in matrix
    ensures RegionalData(matrix, [
              RegionInventory("us-east-1", Listed([Reservation([Instance("stopped", "m3.large")])])),
              RegionInventory("eu-west-1", Listed([Reservation([Instance("running", "m3.large")])]))])
            == Err(StrHasNoGet("eu-west-1"))
  {
    var stopped := Instance("stopped", "m3.large");
    var running := Instance("running", "m3.large");
    var east := RegionInventory("us-east-1", Listed([Reservation([stopped])]));
    var west := RegionInventory("eu-west-1", Listed([Reservation([running])]));
    assert Flatten([Reservation([stopped])]) == [stopped];
    assert Flatten([Reservation([running])]) == [running];
    assert [] + [stopped] == [stopped];
    assert [] + [running] == [running];
    RegionTallyStep(matrix, east.name, [], stopped, Counters(0.0, 0, 0));
    RegionTallyStep(matrix, west.name, [], running, Counters(0.0, 0, 0));
    RegionalDataSnoc(matrix, [], east);
    RegionalDataSnoc(matrix, [east], west);
    assert [] + [east] == [east];
    assert [east] + [west] == [east, west];
  }

  /** The same pass with the program's own matrix, which has no eu-west-1 prices. */
  lemma CostMatrixUnpricedRegion()
    ensures RegionalData(CostMatrix, [
              RegionInventory("us-east-1", Listed([Reservation([Instance("stopped", "m3.large")])])),
              RegionInventory("eu-west-1", Listed([Reservation([Instance("running", "m3.large")])]))])
            == Err(StrHasNoGet("eu-west-1"))
  {
    CostMatrixRegions();
    UnpricedRegionExample(CostMatrix);
  }
}
