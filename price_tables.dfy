/**
 * The price table produced by `price_table_builder.py`, its key order, and
 * the list form `dump` writes and `load` reads back.
 *
 * A key is (instance type, region code, platform); a value is the dict
 * `{"USD": amount}`. JSON has no tuple keys, so `dump` writes the table as a
 * key-sorted list of (key, value) pairs and `load` rebuilds the dict from it.
 */
module PriceTables {

  /** Key of the price table: `(instanceType, regionCode, platform)`. */
  datatype PriceKey = PriceKey(instanceType: string, region: string, platform: string)

  /** Value of the price table: a currency-to-amount dict (`{"USD": 0.14}`). */
  type Prices = map<string, real>

  type PriceTable = map<PriceKey, Prices>

  /** One element of the dumped list: a key and its value. */
  type Pair = (PriceKey, Prices)

  // ---------------------------------------------------------------------------
  // Key order: Python compares tuples component by component and strings
  // character by character, a proper prefix being smaller.
  // ---------------------------------------------------------------------------

  predicate StrLess(a: string, b: string)
  {
    if a == [] then b != []
    else if b == [] then false
    else if a[0] != b[0] then a[0] < b[0]
    else StrLess(a[1..], b[1..])
  }

  lemma {:induction false} StrLessIrreflexive(a: string)
    ensures !StrLess(a, a)
  {
    if a != [] { StrLessIrreflexive(a[1..]); }
  }

  lemma {:induction false} StrLessTransitive(a: string, b: string, c: string)
    requires StrLess(a, b) && StrLess(b, c)
    ensures StrLess(a, c)
  {
    if a != [] && a[0] == b[0] && b[0] == c[0] {
      StrLessTransitive(a[1..], b[1..], c[1..]);
    }
  }

  lemma {:induction false} StrLessTotal(a: string, b: string)
    requires a != b
    ensures StrLess(a, b) || StrLess(b, a)
  {
    if a != [] && b != [] && a[0] == b[0] {
      assert a == [a[0]] + a[1..] && b == [b[0]] + b[1..];
      StrLessTotal(a[1..], b[1..]);
    }
  }

  /** Python's `<` on two key tuples. */
  predicate KeyLess(x: PriceKey, y: PriceKey)
  {
    || StrLess(x.instanceType, y.instanceType)
    || (x.instanceType == y.instanceType && StrLess(x.region, y.region))
    || (x.instanceType == y.instanceType && x.region == y.region && StrLess(x.platform, y.platform))
  }

  /** `KeyLess` is a strict total order on keys. */
  lemma KeyLessIsStrictTotalOrder()
    ensures forall x :: !KeyLess(x, x)
    ensures forall x, y, z :: KeyLess(x, y) && KeyLess(y, z) ==> KeyLess(x, z)
    ensures forall x, y :: x != y ==> KeyLess(x, y) || KeyLess(y, x)
  {
    forall x ensures !KeyLess(x, x) {
      StrLessIrreflexive(x.instanceType);
      StrLessIrreflexive(x.region);
      StrLessIrreflexive(x.platform);
    }
    forall x, y, z | KeyLess(x, y) && KeyLess(y, z) ensures KeyLess(x, z) {
      if StrLess(x.instanceType, y.instanceType) && StrLess(y.instanceType, z.instanceType) {
        StrLessTransitive(x.instanceType, y.instanceType, z.instanceType);
      }
      if StrLess(x.region, y.region) && StrLess(y.region, z.region) {
        StrLessTransitive(x.region, y.region, z.region);
      }
      if StrLess(x.platform, y.platform) && StrLess(y.platform, z.platform) {
        StrLessTransitive(x.platform, y.platform, z.platform);
      }
    }
    forall x, y | x != y ensures KeyLess(x, y) || KeyLess(y, x) {
      if x.instanceType != y.instanceType {
        StrLessTotal(x.instanceType, y.instanceType);
      } else if x.region != y.region {
        StrLessTotal(x.region, y.region);
      } else {
        StrLessTotal(x.platform, y.platform);
      }
    }
  }

  /** `k` is the smallest key of `ks`. */
  predicate IsLeast(k: PriceKey, ks: set<PriceKey>)
  {
    k in ks && forall k' :: k' in ks && k' != k ==> KeyLess(k, k')
  }

  lemma {:induction false} LeastExists(ks: set<PriceKey>)
    requires ks != {}
    ensures exists k :: IsLeast(k, ks)
    decreases ks
  {
    var x :| x in ks;
    if ks == {x} {
      assert IsLeast(x, ks);
    } else {
      LeastExists(ks - {x});
      var m :| IsLeast(m, ks - {x});
      KeyLessIsStrictTotalOrder();
      if KeyLess(x, m) {
        forall k' | k' in ks && k' != x ensures KeyLess(x, k') {
          if k' != m { assert k' in ks - {x}; }
        }
        assert IsLeast(x, ks);
      } else {
        forall k' | k' in ks && k' != m ensures KeyLess(m, k') {
          if k' != x { assert k' in ks - {x}; }
        }
        assert IsLeast(m, ks);
      }
    }
  }

  function MinKey(ks: set<PriceKey>): (k: PriceKey)
    requires ks != {}
    ensures IsLeast(k, ks)
  {
    LeastExists(ks);
    KeyLessIsStrictTotalOrder();
    var k :| IsLeast(k, ks); k
  }

  /** Every key of `s` is smaller than every later key (so no key repeats). */
  predicate StrictlySorted(s: seq<Pair>)
  {
    forall i, j :: 0 <= i < j < |s| ==> KeyLess(s[i].0, s[j].0)
  }

  // ---------------------------------------------------------------------------
  // dump: `sorted(priceMap.iteritems())`
  // ---------------------------------------------------------------------------

  /**
   * The list `dump` writes: one pair per table entry, in increasing key order.
   */
  function Dump(t: PriceTable): (s: seq<Pair>)
    ensures |s| == |t|
    ensures forall i :: 0 <= i < |s| ==> s[i].0 in t && s[i].1 == t[s[i].0]
    ensures forall k :: k in t ==> (k, t[k]) in s
    ensures StrictlySorted(s)
    decreases |t|
  {
    if t == map[] then []
    else
      var k := MinKey(t.Keys);
      var rest := t - {k};
      assert |rest| == |t| - 1 by {
        assert rest.Keys == t.Keys - {k};
        assert |rest.Keys| == |t.Keys| - 1;
      }
      var tail := Dump(rest);
      DumpCons(t, k, tail);
      [(k, t[k])] + tail
  }

  /** Putting the least key's pair before the dump of the rest gives a dump of the whole table. */
  lemma DumpCons(t: PriceTable, k: PriceKey, tail: seq<Pair>)
    requires IsLeast(k, t.Keys)
    requires |tail| == |t - {k}|
    requires forall i :: 0 <= i < |tail| ==> tail[i].0 in t - {k} && tail[i].1 == (t - {k})[tail[i].0]
    requires forall k' :: k' in t - {k} ==> (k', (t - {k})[k']) in tail
    requires StrictlySorted(tail)
    ensures |[(k, t[k])] + tail| == |t|
    ensures forall i :: 0 <= i < |[(k, t[k])] + tail| ==>
              ([(k, t[k])] + tail)[i].0 in t && ([(k, t[k])] + tail)[i].1 == t[([(k, t[k])] + tail)[i].0]
    ensures forall k' :: k' in t ==> (k', t[k']) in [(k, t[k])] + tail
    ensures StrictlySorted([(k, t[k])] + tail)
  {
    var rest := t - {k};
    assert rest.Keys == t.Keys - {k};
    assert |rest.Keys| == |t.Keys| - 1;
    assert forall k' :: k' in rest ==> rest[k'] == t[k'];
    forall q | q in tail ensures KeyLess(k, q.0) {
      var i :| 0 <= i < |tail| && tail[i] == q;
    }
    SortedCons((k, t[k]), tail);
  }

  lemma SortedCons(p: Pair, tail: seq<Pair>)
    requires StrictlySorted(tail)
    requires forall q :: q in tail ==> KeyLess(p.0, q.0)
    ensures StrictlySorted([p] + tail)
  {
    var s := [p] + tail;
    forall i, j | 0 <= i < j < |s| ensures KeyLess(s[i].0, s[j].0) {
      if i == 0 {
        assert s[j] == tail[j - 1];
        assert s[j] in tail;
      } else {
        assert s[i] == tail[i - 1] && s[j] == tail[j - 1];
      }
    }
  }

  // ---------------------------------------------------------------------------
  // load: `{tuple(key): value for key, value in pairs}`
  // ---------------------------------------------------------------------------

  /** No pair after position `i` of `s` has the key of `s[i]`. */
  predicate LastWithKey(s: seq<Pair>, i: nat)
    requires i < |s|
  {
    forall j :: i < j < |s| ==> s[j].0 != s[i].0
  }

  /**
   * The dict `load` builds: the keys are those of the pairs, and a key
   * listed more than once keeps the value of its last pair.
   */
  function Load(s: seq<Pair>): (t: PriceTable)
    ensures forall p :: p in s ==> p.0 in t
    ensures forall k :: k in t ==> (k, t[k]) in s
  {
    if s == [] then map[]
    else
      var last := s[|s| - 1];
      Load(s[..|s| - 1])[last.0 := last.1]
  }

  /** When `load` meets a key more than once, its last pair wins. */
  lemma {:induction false} LoadLastPairWins(s: seq<Pair>, i: nat)
    requires i < |s| && LastWithKey(s, i)
    ensures Load(s)[s[i].0] == s[i].1
  {
    if i < |s| - 1 {
      var init := s[..|s| - 1];
      assert init[i] == s[i];
      assert LastWithKey(init, i) by {
        forall j | i < j < |init| ensures init[j].0 != init[i].0 {
          assert init[j] == s[j];
        }
      }
      LoadLastPairWins(init, i);
      assert s[|s| - 1].0 != s[i].0;
    }
  }

  /** Round trip: loading a dumped table gives back the table. */
  lemma LoadDump(t: PriceTable)
    ensures Load(Dump(t)) == t
  {
    var t' := Load(Dump(t));
    forall k | k in t ensures k in t' && t'[k] == t[k] {
      LoadDumpAt(t, k);
    }
    LoadDumpKeys(t);
  }

  lemma LoadDumpKeys(t: PriceTable)
    ensures Load(Dump(t)).Keys <= t.Keys
  {
    var s := Dump(t);
    forall k | k in Load(s) ensures k in t {
      assert (k, Load(s)[k]) in s;
    }
  }

  lemma LoadDumpAt(t: PriceTable, k: PriceKey)
    requires k in t
    ensures k in Load(Dump(t)) && Load(Dump(t))[k] == t[k]
  {
    var s := Dump(t);
    assert (k, t[k]) in s;
    var i :| 0 <= i < |s| && s[i] == (k, t[k]);
    SortedKeysAreLast(s, i);
    LoadLastPairWins(s, i);
  }

  /** In a sorted list every pair is the last one with its key. */
  lemma SortedKeysAreLast(s: seq<Pair>, i: nat)
    requires StrictlySorted(s) && i < |s|
    ensures LastWithKey(s, i)
  {
    forall j | i < j < |s| ensures s[j].0 != s[i].0 {
      assert KeyLess(s[i].0, s[j].0);
      KeyLessIsStrictTotalOrder();
    }
  }

  /** The first pair of a sorted list has the smallest key. */
  lemma SortedHeadIsLeast(s: seq<Pair>, x: Pair)
    requires StrictlySorted(s) && x in s
    ensures x == s[0] || KeyLess(s[0].0, x.0)
  {
    var i :| 0 <= i < |s| && s[i] == x;
    if i > 0 {
      assert KeyLess(s[0].0, s[i].0);
    }
  }

  /** Two sorted lists holding the same pairs are the same list. */
  lemma {:induction false} SortedListsWithSamePairs(a: seq<Pair>, b: seq<Pair>)
    requires StrictlySorted(a) && StrictlySorted(b)
    requires forall x :: x in a <==> x in b
    ensures a == b
    decreases |a|
  {
    assert a != [] ==> a[0] in b;
    assert b != [] ==> b[0] in a;
    if a != [] && b != [] {
      KeyLessIsStrictTotalOrder();
      SortedHeadIsLeast(a, b[0]);
      SortedHeadIsLeast(b, a[0]);
      assert a[0] == b[0];
      forall x ensures x in a[1..] <==> x in b[1..] {
        if x in a[1..] {
          var k :| 1 <= k < |a| && a[k] == x;
          assert KeyLess(a[0].0, a[k].0);
          assert x in b && x != b[0];
        }
        if x in b[1..] {
          var k :| 1 <= k < |b| && b[k] == x;
          assert KeyLess(b[0].0, b[k].0);
          assert x in a && x != a[0];
        }
      }
      SortedListsWithSamePairs(a[1..], b[1..]);
      assert a == [a[0]] + a[1..] && b == [b[0]] + b[1..];
    }
  }

  /**
   * The other round trip: a key-sorted list is exactly what dumping its
   * loaded table writes, so the sorted list is the table's only list form.
   */
  lemma DumpLoad(s: seq<Pair>)
    requires StrictlySorted(s)
    ensures Dump(Load(s)) == s
  {
    var d := Dump(Load(s));
    forall x ensures x in d <==> x in s {
      DumpLoadMember(s, x);
    }
    SortedListsWithSamePairs(d, s);
  }

  lemma DumpLoadMember(s: seq<Pair>, x: Pair)
    requires StrictlySorted(s)
    ensures x in Dump(Load(s)) <==> x in s
  {
    var t := Load(s);
    if x in Dump(t) {
      assert (x.0, t[x.0]) in s;
      var k :| 0 <= k < |s| && s[k] == (x.0, t[x.0]);
      assert x == s[k];
    }
    if x in s {
      var k :| 0 <= k < |s| && s[k] == x;
      SortedKeysAreLast(s, k);
      LoadLastPairWins(s, k);
      assert (x.0, t[x.0]) in Dump(t);
    }
  }
}
