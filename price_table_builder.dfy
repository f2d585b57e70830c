/**
 * `buildLookupTable` of `price_table_builder.py`: the walk over the EC2 offer
 * document that turns every on-demand "Compute Instance" product into one
 * entry `(instanceType, regionCode, platform) -> {"USD": amount}`.
 *
 * The offer document is taken as already parsed. Each Python dict that the
 * builder only counts and then takes the only value of is a Dafny `map`;
 * the product dict is a sequence, walked in the order the source's
 * `itervalues()` yields it.
 */
module PriceTableBuilder {
  import opened Wrappers
  import opened PriceTables

  const ComputeInstance := "Compute Instance"
  const GovCloud := "AWS GovCloud (US)"
  const USD := "USD"

  /** `_REGION_NAME_TO_REGION`: the vendor's location names and their region codes. */
  const RegionNameToRegion: map<string, string> := map[
    "US East (N. Virginia)" := "us-east-1",
    "US West (N. California)" := "us-west-1",
    "US West (Oregon)" := "us-west-2",
    "EU (Ireland)" := "eu-west-1",
    "EU (Frankfurt)" := "eu-central-1",
    "Asia Pacific (Tokyo)" := "ap-northeast-1",
    "Asia Pacific (Seoul)" := "ap-northeast-2",
    "Asia Pacific (Singapore)" := "ap-southeast-1",
    "Asia Pacific (Sydney)" := "ap-southeast-2",
    "South America (Sao Paulo)" := "sa-east-1"
  ]

  /** The ten region codes a built table can mention. */
  const RegionCodes: set<string> := {
    "us-east-1", "us-west-1", "us-west-2", "eu-west-1", "eu-central-1",
    "ap-northeast-1", "ap-northeast-2", "ap-southeast-1", "ap-southeast-2", "sa-east-1"
  }

  // ---------------------------------------------------------------------------
  // The offer document
  // ---------------------------------------------------------------------------

  /** A price dimension; only its `pricePerUnit` dict (currency -> amount) is read. */
  datatype PriceDimension = PriceDimension(pricePerUnit: map<string, real>)

  /** An on-demand term; only its `priceDimensions` dict is read. */
  datatype Term = Term(priceDimensions: map<string, PriceDimension>)

  /**
   * A product: its `sku` field, its optional `productFamily` and its
   * `attributes` dict (`location`, `instanceType`, `operatingSystem`, ...).
   */
  datatype Product = Product(sku: Option<string>, productFamily: Option<string>, attributes: map<string, string>)

  /** `offers["products"]` (in iteration order) and `offers["terms"]["OnDemand"]` (SKU -> terms). */
  datatype Offers = Offers(products: seq<Product>, onDemand: map<string, map<string, Term>>)

  /** The exceptions the build raises. */
  datatype BuildError =
    | MissingAttribute(name: string)     // KeyError on `attributes[name]`
    | NotAscii(name: string)             // UnicodeEncodeError in `str(attributes[name])`
    | MissingSkuId                       // KeyError on `sku["sku"]`
    | UnknownSku(skuId: string)          // KeyError on `onDemandTerms[skuId]`
    | TermCount(terms: nat)              // "Unexpected number of terms != 1"
    | PriceDimensionCount(dimensions: nat)
    | PricePerUnitCount(prices: nat)
    | UnexpectedCurrency(currency: string)
    | UnknownRegionName(regionName: string)  // KeyError on `_REGION_NAME_TO_REGION`

  /** Every location name translates to one of the ten region codes. */
  lemma RegionTableCodes()
    ensures RegionNameToRegion.Values <= RegionCodes
  {
    forall v | v in RegionNameToRegion.Values ensures v in RegionCodes {
      var n :| n in RegionNameToRegion && RegionNameToRegion[n] == v;
    }
  }

  // ---------------------------------------------------------------------------
  // Helpers: Python 2 `str.lower()` and `d.values()[0]` on a one-entry dict
  // ---------------------------------------------------------------------------

  /**
   * `str(u)` on the `unicode` value `json.loads` gives succeeds only when
   * every character is ASCII.
   */
  predicate IsAscii(s: string)
  {
    forall i :: 0 <= i < |s| ==> s[i] < 128 as char
  }

  predicate IsUpper(c: char)
  {
    'A' <= c <= 'Z'
  }

  function LowerChar(c: char): char
  {
    if IsUpper(c) then (c as int + 32) as char else c
  }

  /** `str.lower()` on a byte string: ASCII capitals become small letters, everything else stays. */
  function Lower(s: string): (r: string)
    ensures |r| == |s|
    ensures forall i :: 0 <= i < |r| ==> !IsUpper(r[i])
    ensures forall i :: 0 <= i < |s| && !IsUpper(s[i]) ==> r[i] == s[i]
    ensures forall i :: 0 <= i < |s| && IsUpper(s[i]) ==> r[i] as int == s[i] as int + 32
  {
    seq(|s|, i requires 0 <= i < |s| => LowerChar(s[i]))
  }

  lemma SingletonSet<K>(ks: set<K>)
    requires |ks| == 1
    ensures exists k :: ks == {k}
  {
    var k :| k in ks;
    assert |ks - {k}| == 0;
    assert ks == {k};
  }

  /** The only entry of a one-entry dict (`d.items()[0]`). */
  function Only<K, V>(m: map<K, V>): (kv: (K, V))
    requires |m| == 1
    ensures m == map[kv.0 := kv.1]
  {
    SingletonSet(m.Keys);
    var k :| m.Keys == {k};
    assert k in m;
    (k, m[k])
  }

  /** `m` has exactly one key, `k`. */
  predicate SoleKey<K, V>(m: map<K, V>, k: K)
  {
    m.Keys == {k}
  }

  /**
   * The terms of one SKU give exactly one price: one term, with one price
   * dimension, with one price per unit, in US dollars, of `amount`.
   */
  ghost predicate SinglePrice(terms: map<string, Term>, amount: real)
  {
    exists tk, dk :: SoleKey(terms, tk) && SoleKey(terms[tk].priceDimensions, dk)
                     && terms[tk].priceDimensions[dk].pricePerUnit == map[USD := amount]
  }

  // ---------------------------------------------------------------------------
  // One product
  // ---------------------------------------------------------------------------

  /**
   * The pricing part of `buildLookupTable`'s loop body: the price of a SKU,
   * or the error raised while checking that it has one term, one dimension
   * and one USD price.
   */
  function UnitPrice(onDemand: map<string, map<string, Term>>, skuId: string): (r: Result<real, BuildError>)
    ensures skuId !in onDemand ==> r == Err(UnknownSku(skuId))
    ensures skuId in onDemand && |onDemand[skuId]| != 1 ==> r == Err(TermCount(|onDemand[skuId]|))
    ensures r.Ok? ==> skuId in onDemand && SinglePrice(onDemand[skuId], r.value)
    ensures forall a :: skuId in onDemand && SinglePrice(onDemand[skuId], a) ==> r == Ok(a)
  {
    if skuId !in onDemand then Err(UnknownSku(skuId))
    else
      var terms := onDemand[skuId];
      if |terms| != 1 then Err(TermCount(|terms|))
      else
        var (termKey, term) := Only(terms);
        var priceDimensions := term.priceDimensions;
        if |priceDimensions| != 1 then Err(PriceDimensionCount(|priceDimensions|))
        else
          var (dimensionKey, priceDimension) := Only(priceDimensions);
          var pricesPerUnit := priceDimension.pricePerUnit;
          if |pricesPerUnit| != 1 then Err(PricePerUnitCount(|pricesPerUnit|))
          else
            var (currency, amount) := Only(pricesPerUnit);
            if currency != USD then Err(UnexpectedCurrency(currency))
            else
              assert SoleKey(terms, termKey) && SoleKey(priceDimensions, dimensionKey);
              Ok(amount)
  }

  predicate IsCompute(p: Product)
  {
    p.productFamily == Some(ComputeInstance)
  }

  predicate InGovCloud(p: Product)
  {
    "location" in p.attributes && p.attributes["location"] == GovCloud
  }

  /** A product the builder passes over before it looks up any of its terms. */
  predicate Skipped(p: Product)
  {
    !IsCompute(p) || InGovCloud(p)
  }

  /**
   * `p` is a well-formed on-demand compute product outside GovCloud, with
   * ASCII location, instance type and OS, whose key is `key` and whose
   * single USD price is `amount`.
   */
  ghost predicate Contributes(p: Product, onDemand: map<string, map<string, Term>>, key: PriceKey, amount: real)
  {
    && IsCompute(p)
    && "location" in p.attributes && "instanceType" in p.attributes && "operatingSystem" in p.attributes
    && IsAscii(p.attributes["location"]) && IsAscii(p.attributes["instanceType"])
    && IsAscii(p.attributes["operatingSystem"])
    && p.attributes["location"] != GovCloud
    && p.attributes["location"] in RegionNameToRegion
    && key == PriceKey(p.attributes["instanceType"],
                       RegionNameToRegion[p.attributes["location"]],
                       Lower(p.attributes["operatingSystem"]))
    && p.sku.Some? && p.sku.value in onDemand
    && SinglePrice(onDemand[p.sku.value], amount)
  }

  /**
   * One pass of the loop body of `buildLookupTable`: `None` for a product
   * that is skipped, the entry it stores, or the exception it raises.
   */
  function Entry(p: Product, onDemand: map<string, map<string, Term>>): (r: Result<Option<Pair>, BuildError>)
    ensures Skipped(p) ==> r == Ok(None)
    ensures !Skipped(p) ==> r != Ok(None)
    ensures r.Ok? && r.value.Some? ==>
              var (key, prices) := r.value.value;
              prices.Keys == {USD} && Contributes(p, onDemand, key, prices[USD]) && key.region in RegionCodes
    ensures forall key, a :: Contributes(p, onDemand, key, a) ==> r == Ok(Some((key, map[USD := a])))
    ensures IsCompute(p) && "location" in p.attributes && !IsAscii(p.attributes["location"]) ==>
              r == Err(NotAscii("location"))
  {
    if !IsCompute(p) then Ok(None)
    else if "location" !in p.attributes then Err(MissingAttribute("location"))
    else if !IsAscii(p.attributes["location"]) then Err(NotAscii("location"))
    else
      var regionName := p.attributes["location"];
      if regionName == GovCloud then Ok(None)
      else if "instanceType" !in p.attributes then Err(MissingAttribute("instanceType"))
      else if !IsAscii(p.attributes["instanceType"]) then Err(NotAscii("instanceType"))
      else if "operatingSystem" !in p.attributes then Err(MissingAttribute("operatingSystem"))
      else if !IsAscii(p.attributes["operatingSystem"]) then Err(NotAscii("operatingSystem"))
      else if p.sku.None? then Err(MissingSkuId)
      else match UnitPrice(onDemand, p.sku.value)
        case Err(e) => Err(e)
        case Ok(amount) =>
          if regionName !in RegionNameToRegion then Err(UnknownRegionName(regionName))
          else
            var key := PriceKey(p.attributes["instanceType"], RegionNameToRegion[regionName],
                                Lower(p.attributes["operatingSystem"]));
            RegionTableCodes();
            Ok(Some((key, map[USD := amount])))
  }

  // ---------------------------------------------------------------------------
  // The whole walk
  // ---------------------------------------------------------------------------

  /** `p` yields an entry with key `key`. */
  predicate StoresKey(p: Product, onDemand: map<string, map<string, Term>>, key: PriceKey)
  {
    var e := Entry(p, onDemand);
    e.Ok? && e.value.Some? && e.value.value.0 == key
  }

  /**
   * What `buildLookupTable` returns for the products in this order: the
   * first exception raised, or the table of the entries stored.
   */
  function Build(products: seq<Product>, onDemand: map<string, map<string, Term>>): Result<PriceTable, BuildError>
  {
    if products == [] then Ok(map[])
    else AddEntry(Build(products[..|products| - 1], onDemand), products[|products| - 1], onDemand)
  }

  /** One iteration of the loop over the products, on the outcome of the earlier ones. */
  function AddEntry(sofar: Result<PriceTable, BuildError>, p: Product, onDemand: map<string, map<string, Term>>)
    : Result<PriceTable, BuildError>
  {
    match sofar
    case Err(e) => Err(e)
    case Ok(table) =>
      match Entry(p, onDemand)
      case Err(e) => Err(e)
      case Ok(None) => Ok(table)
      case Ok(Some((key, prices))) => Ok(table[key := prices])
  }

  lemma BuildSnoc(products: seq<Product>, p: Product, onDemand: map<string, map<string, Term>>)
    ensures Build(products + [p], onDemand) == AddEntry(Build(products, onDemand), p, onDemand)
  {
    assert (products + [p])[..|products|] == products;
  }

  /** The build succeeds exactly when no product's entry raises. */
  lemma {:induction false} BuildOk(products: seq<Product>, onDemand: map<string, map<string, Term>>)
    ensures Build(products, onDemand).Ok? <==> forall i :: 0 <= i < |products| ==> Entry(products[i], onDemand).Ok?
  {
    if products != [] {
      var init := products[..|products| - 1];
      BuildOk(init, onDemand);
      assert forall i :: 0 <= i < |init| ==> init[i] == products[i];
    }
  }

  /** Every key of the table names a region code, and every value holds one US-dollar price. */
  lemma {:induction false} BuildValues(products: seq<Product>, onDemand: map<string, map<string, Term>>, key: PriceKey)
    requires Build(products, onDemand).Ok? && key in Build(products, onDemand).value
    ensures key.region in RegionCodes && Build(products, onDemand).value[key].Keys == {USD}
  {
    var init := products[..|products| - 1];
    var last := products[|products| - 1];
    if !StoresKey(last, onDemand, key) {
      BuildValues(init, onDemand, key);
    }
  }

  /** Once a prefix of the products raises, the rest is never looked at. */
  lemma {:induction false} BuildStopsAtError(products: seq<Product>, n: nat, onDemand: map<string, map<string, Term>>)
    requires n <= |products| && Build(products[..n], onDemand).Err?
    ensures Build(products, onDemand) == Build(products[..n], onDemand)
    decreases |products|
  {
    if n < |products| {
      var init := products[..|products| - 1];
      assert init[..n] == products[..n];
      BuildStopsAtError(init, n, onDemand);
    } else {
      assert products[..n] == products;
    }
  }

  /** The exception raised is that of the first product whose entry fails. */
  lemma {:induction false} BuildFirstError(products: seq<Product>, onDemand: map<string, map<string, Term>>)
    requires Build(products, onDemand).Err?
    ensures exists i :: 0 <= i < |products| && Entry(products[i], onDemand) == Err(Build(products, onDemand).error)
                        && forall j :: 0 <= j < i ==> Entry(products[j], onDemand).Ok?
  {
    var init := products[..|products| - 1];
    var i := |products| - 1;
    if Build(init, onDemand).Err? {
      BuildFirstError(init, onDemand);
      var k :| 0 <= k < |init| && Entry(init[k], onDemand) == Err(Build(init, onDemand).error)
                && forall j :: 0 <= j < k ==> Entry(init[j], onDemand).Ok?;
      assert products[k] == init[k];
      assert forall j :: 0 <= j < k ==> products[j] == init[j];
    } else {
      BuildOk(init, onDemand);
      assert forall j :: 0 <= j < i ==> products[j] == init[j];
    }
  }

  /**
   * A product that is not a compute instance, or is located in GovCloud,
   * neither contributes nor fails the build: removing it changes nothing.
   */
  lemma {:induction false} BuildIgnoresSkipped(xs: seq<Product>, p: Product, ys: seq<Product>,
                                               onDemand: map<string, map<string, Term>>)
    requires Skipped(p)
    ensures Build(xs + [p] + ys, onDemand) == Build(xs + ys, onDemand)
    decreases |ys|
  {
    if ys == [] {
      BuildSnoc(xs, p, onDemand);
      assert xs + [p] + ys == xs + [p];
      assert xs + ys == xs;
    } else {
      var ys' := ys[..|ys| - 1];
      var y := ys[|ys| - 1];
      BuildIgnoresSkipped(xs, p, ys', onDemand);
      BuildSnoc(xs + [p] + ys', y, onDemand);
      BuildSnoc(xs + ys', y, onDemand);
      assert ys == ys' + [y];
      assert xs + [p] + ys == (xs + [p] + ys') + [y];
      assert xs + ys == (xs + ys') + [y];
    }
  }


  /** The table's keys are exactly the keys the products' entries store. */
  lemma {:induction false} BuildKeys(products: seq<Product>, onDemand: map<string, map<string, Term>>, key: PriceKey)
    requires Build(products, onDemand).Ok?
    ensures key in Build(products, onDemand).value <==>
              exists i :: 0 <= i < |products| && StoresKey(products[i], onDemand, key)
  {
    if products != [] {
      var init := products[..|products| - 1];
      var last := products[|products| - 1];
      BuildKeys(init, onDemand, key);
      assert key in Build(products, onDemand).value <==>
               key in Build(init, onDemand).value || StoresKey(last, onDemand, key);
      assert forall i :: 0 <= i < |init| ==> init[i] == products[i];
      StoresKeySplit(products, onDemand, key);
    }
  }

  lemma StoresKeySplit(products: seq<Product>, onDemand: map<string, map<string, Term>>, key: PriceKey)
    requires products != []
    ensures (exists i :: 0 <= i < |products| && StoresKey(products[i], onDemand, key)) <==>
              (exists i :: 0 <= i < |products| - 1 && StoresKey(products[i], onDemand, key))
              || StoresKey(products[|products| - 1], onDemand, key)
  {
    ExistsSplit(products, p => StoresKey(p, onDemand, key));
  }

  /**
   * Later products overwrite earlier ones: a key's value is the one stored
   * by the last product whose entry has that key.
   */
  lemma {:induction false} BuildLastEntryWins(products: seq<Product>, onDemand: map<string, map<string, Term>>,
                                              i: nat, key: PriceKey, prices: Prices)
    requires Build(products, onDemand).Ok?
    requires i < |products| && Entry(products[i], onDemand) == Ok(Some((key, prices)))
    requires forall j :: i < j < |products| ==> !StoresKey(products[j], onDemand, key)
    ensures key in Build(products, onDemand).value && Build(products, onDemand).value[key] == prices
  {
    var init := products[..|products| - 1];
    if i < |init| {
      assert init[i] == products[i];
      forall j | i < j < |init| ensures !StoresKey(init[j], onDemand, key) {
        assert init[j] == products[j];
      }
      BuildLastEntryWins(init, onDemand, i, key, prices);
    }
  }

  /**
   * The body of `buildLookupTable`'s loop for one product, statement by
   * statement: `continue` is `Ok(None)`, an exception is `Err`, and the
   * entry to store is `Ok(Some((key, prices)))`. `Entry` is its
   * specification; the lemmas about the build are stated over `Entry`.
   */
  method ProductEntry(sku: Product, onDemandTerms: map<string, map<string, Term>>)
    returns (r: Result<Option<Pair>, BuildError>)
    ensures r == Entry(sku, onDemandTerms)
  {
    if sku.productFamily != Some(ComputeInstance) {
      return Ok(None);
    }
    var attributes := sku.attributes;
    if "location" !in attributes {
      return Err(MissingAttribute("location"));
    }
    if !IsAscii(attributes["location"]) {
      return Err(NotAscii("location"));
    }
    var regionName := attributes["location"];
    if regionName == GovCloud {
      return Ok(None);
    }
    if "instanceType" !in attributes {
      return Err(MissingAttribute("instanceType"));
    }
    if !IsAscii(attributes["instanceType"]) {
      return Err(NotAscii("instanceType"));
    }
    var instanceType := attributes["instanceType"];
    if "operatingSystem" !in attributes {
      return Err(MissingAttribute("operatingSystem"));
    }
    if !IsAscii(attributes["operatingSystem"]) {
      return Err(NotAscii("operatingSystem"));
    }
    var operatingSystem := Lower(attributes["operatingSystem"]);
    if sku.sku.None? {
      return Err(MissingSkuId);
    }
    var skuId := sku.sku.value;
    // Find pricing
    if skuId !in onDemandTerms {
      return Err(UnknownSku(skuId));
    }
    var terms := onDemandTerms[skuId];
    if |terms| != 1 {
      return Err(TermCount(|terms|));
    }
    var (_, term) := Only(terms);
    var priceDimensions := term.priceDimensions;
    if |priceDimensions| != 1 {
      return Err(PriceDimensionCount(|priceDimensions|));
    }
    var (_, priceDimension) := Only(priceDimensions);
    var pricesPerUnit := priceDimension.pricePerUnit;
    if |pricesPerUnit| != 1 {
      return Err(PricePerUnitCount(|pricesPerUnit|));
    }
    var (currency, amount) := Only(pricesPerUnit);
    if currency != USD {
      return Err(UnexpectedCurrency(currency));
    }
    if regionName !in RegionNameToRegion {
      return Err(UnknownRegionName(regionName));
    }
    var key := PriceKey(instanceType, RegionNameToRegion[regionName], operatingSystem);
    return Ok(Some((key, map[USD := amount])));
  }

  /**
   * `buildLookupTable`: one loop over the products, skipping, checking and
   * storing as it goes and stopping at the first exception.
   */
  method BuildLookupTable(offers: Offers) returns (r: Result<PriceTable, BuildError>)
    ensures r == Build(offers.products, offers.onDemand)
  {
    var products := offers.products;
    var onDemandTerms := offers.onDemand;
    var priceMap: PriceTable := map[];
    for n := 0 to |products|
      invariant Build(products[..n], onDemandTerms) == Ok(priceMap)
    {
      assert products[..n + 1][..n] == products[..n];
      var entry := ProductEntry(products[n], onDemandTerms);
      match entry
      case Err(e) =>
        BuildStopsAtError(products, n + 1, onDemandTerms);
        return Err(e);
      case Ok(None) =>
      case Ok(Some((key, prices))) =>
        priceMap := priceMap[key := prices];
    }
    assert products[..|products|] == products;
    return Ok(priceMap);
  }


  // ---------------------------------------------------------------------------
  // Worked examples
  // ---------------------------------------------------------------------------

  /** One on-demand Linux m3.large in N. Virginia at $0.140 gives a one-entry table. */
  lemma OneProductTable()
    ensures Build([Product(Some("X1"), Some(ComputeInstance),
                           map["location" := "US East (N. Virginia)", "instanceType" := "m3.large",
                               "operatingSystem" := "Linux"])],
                  map["X1" := map["X1.T" := Term(map["X1.T.D" := PriceDimension(map[USD := 0.140])])]])
            == Ok(map[PriceKey("m3.large", "us-east-1", "linux") := map[USD := 0.14]])
  {
    var p := Product(Some("X1"), Some(ComputeInstance),
                     map["location" := "US East (N. Virginia)", "instanceType" := "m3.large",
                         "operatingSystem" := "Linux"]);
    var terms := map["X1.T" := Term(map["X1.T.D" := PriceDimension(map[USD := 0.140])])];
    var onDemand := map["X1" := terms];
    assert SoleKey(terms, "X1.T") && SoleKey(terms["X1.T"].priceDimensions, "X1.T.D");
    assert SinglePrice(terms, 0.14);
    assert Lower("Linux") == "linux";
    assert Contributes(p, onDemand, PriceKey("m3.large", "us-east-1", "linux"), 0.14);
    assert [p][..0] == [];
  }

  /** A location missing from the region table fails the build instead of being dropped. */
  lemma UnlistedRegionFails()
    ensures Build([Product(Some("X2"), Some(ComputeInstance),
                           map["location" := "EU (Paris)", "instanceType" := "m5.large",
                               "operatingSystem" := "Linux"])],
                  map["X2" := map["X2.T" := Term(map["X2.T.D" := PriceDimension(map[USD := 0.112])])]])
            == Err(UnknownRegionName("EU (Paris)"))
  {
    var p := Product(Some("X2"), Some(ComputeInstance),
                     map["location" := "EU (Paris)", "instanceType" := "m5.large",
                         "operatingSystem" := "Linux"]);
    var terms := map["X2.T" := Term(map["X2.T.D" := PriceDimension(map[USD := 0.112])])];
    assert SoleKey(terms, "X2.T") && SoleKey(terms["X2.T"].priceDimensions, "X2.T.D");
    assert SinglePrice(terms, 0.112);
    assert "EU (Paris)" !in RegionNameToRegion;
    assert [p][..0] == [];
  }

  /**
   * A non-ASCII operating system makes `str()` raise, even when the
   * product's terms and location are in order.
   */
  lemma NonAsciiSystemFails()
    ensures Build([Product(Some("X3"), Some(ComputeInstance),
                           map["location" := "US East (N. Virginia)", "instanceType" := "m3.large",
                               "operatingSystem" := "\U{d1}"])],
                  map["X3" := map["X3.T" := Term(map["X3.T.D" := PriceDimension(map[USD := 0.140])])]])
            == Err(NotAscii("operatingSystem"))
  {
    var p := Product(Some("X3"), Some(ComputeInstance),
                     map["location" := "US East (N. Virginia)", "instanceType" := "m3.large",
                         "operatingSystem" := "\U{d1}"]);
    assert p.attributes["operatingSystem"][0] == '\U{d1}';
    assert [p][..0] == [];
  }
}
