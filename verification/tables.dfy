/**
 * The three data tables of a transportation instance and the tables that
 * instance generation produces from a stream of random draws.
 *
 * Sizes: `products` (P), `stores` (T) and `storages` (S).  The random
 * stream is an infinite sequence of draws, one per call into the generator,
 * consumed in order: all costs first, then all stock, then all demand.
 */
module Tables {
  import opened Wrappers
  import opened Arith

  /** A (product, storage, store) index: one unit of product shipped from a storage to a store. */
  datatype Triple = Triple(product: nat, storage: nat, store: nat)

  /** A row of the cost table: the `var_name` triple and its `cost`. */
  datatype CostRow = CostRow(varName: Triple, cost: int)

  /** A row of the stock table, keyed by (product, storage). */
  datatype StockRow = StockRow(product: nat, storage: nat, stock: int)

  /** A row of the demand table, keyed by (product, store). */
  datatype DemandRow = DemandRow(product: nat, store: nat, demand: int)

  /** The bounds handed to `randint` for stock and for demand (upper bound excluded). */
  const StockLow := 150
  const StockHigh := 350
  const DemandLow := 50
  const DemandHigh := 250

  /** A Python size: `range(n)` of a negative `n` is empty. */
  function Count(n: int): nat
  {
    if n < 0 then 0 else n
  }

  /** The value `randint(low, high)` yields for one draw of the stream. */
  function RandInt(low: int, high: int, draw: int): (v: int)
    requires low < high
    ensures low <= v < high
  {
    low + draw % (high - low)
  }

  predicate TripleInRange(x: Triple, products: nat, stores: nat, storages: nat)
  {
    x.product < products && x.storage < storages && x.store < stores
  }

  /** Every (product, storage, store) triple of the given sizes. */
  function AllTriples(products: nat, stores: nat, storages: nat): set<Triple>
  {
    set p: nat, s: nat, t: nat | p < products && s < storages && t < stores :: Triple(p, s, t)
  }

  // ---------------------------------------------------------------------
  // Where each table reads the random stream

  /** Number of cost rows, and so the first draw that stock uses. */
  function StockStart(products: nat, stores: nat, storages: nat): nat
  {
    storages * stores * products
  }

  /** The first draw that demand uses. */
  function DemandStart(products: nat, stores: nat, storages: nat): nat
  {
    StockStart(products, stores, storages) + storages * products
  }

  /** Number of draws one generation consumes. */
  function DrawsUsed(products: nat, stores: nat, storages: nat): nat
  {
    DemandStart(products, stores, storages) + stores * products
  }

  // ---------------------------------------------------------------------
  // The tables as functions of the sizes and the stream

  /** The triple at cost row `k`: the loops run storage outermost, then store, then product. */
  function CostTriple(products: nat, stores: nat, k: nat): Triple
    requires products > 0 && stores > 0
  {
    DivDiv(k, products, stores);
    Triple(k % products, k / (products * stores), (k / products) % stores)
  }

  /** The position the loops give to the row of (product, storage, store). */
  function CostIndex(products: nat, stores: nat, product: nat, storage: nat, store: nat): nat
  {
    (storage * stores + store) * products + product
  }

  function CostTable(products: nat, stores: nat, storages: nat, draws: nat -> int): seq<CostRow>
  {
    if products == 0 || stores == 0 then []
    else
      seq(storages * stores * products, k requires 0 <= k =>
        CostRow(CostTriple(products, stores, k), draws(k)))
  }

  /** Stock row `k` is for storage `k / products` and product `k % products`. */
  function StockTable(products: nat, stores: nat, storages: nat, draws: nat -> int): seq<StockRow>
  {
    if products == 0 then []
    else
      var start := StockStart(products, stores, storages);
      seq(storages * products, k requires 0 <= k =>
        StockRow(k % products, k / products, RandInt(StockLow, StockHigh, draws(start + k))))
  }

  /** Demand row `k` is for store `k / products` and product `k % products`. */
  function DemandTable(products: nat, stores: nat, storages: nat, draws: nat -> int): seq<DemandRow>
  {
    if products == 0 then []
    else
      var start := DemandStart(products, stores, storages);
      seq(stores * products, k requires 0 <= k =>
        DemandRow(k % products, k / products, RandInt(DemandLow, DemandHigh, draws(start + k))))
  }

  /** Every row built so far is the cost table's row at its position. */
  ghost predicate CostsSoFar(costs: seq<CostRow>, products: nat, stores: nat, draws: nat -> int)
  {
    forall k :: 0 <= k < |costs| ==>
      products > 0 && stores > 0 && costs[k] == CostRow(CostTriple(products, stores, k), draws(k))
  }

  /** Every row built so far is the stock table's row at its position. */
  ghost predicate StockSoFar(stock: seq<StockRow>, products: nat, stores: nat, storages: nat, draws: nat -> int)
  {
    forall k :: 0 <= k < |stock| ==>
      products > 0 &&
      stock[k] == StockRow(k % products, k / products,
                    RandInt(StockLow, StockHigh, draws(StockStart(products, stores, storages) + k)))
  }

  /** Every row built so far is the demand table's row at its position. */
  ghost predicate DemandSoFar(demand: seq<DemandRow>, products: nat, stores: nat, storages: nat, draws: nat -> int)
  {
    forall k :: 0 <= k < |demand| ==>
      products > 0 &&
      demand[k] == DemandRow(k % products, k / products,
                     RandInt(DemandLow, DemandHigh, draws(DemandStart(products, stores, storages) + k)))
  }

  // ---------------------------------------------------------------------
  // Keyed lookup, as `.loc[key].values[0]` does on the re-indexed tables

  predicate StockKeyAt(rows: seq<StockRow>, i: int, product: nat, storage: nat)
    requires 0 <= i < |rows|
  {
    rows[i].product == product && rows[i].storage == storage
  }

  /** The stock of the first row keyed (product, storage), or `None` (a `KeyError`). */
  function StockLookup(rows: seq<StockRow>, product: nat, storage: nat): (r: Option<int>)
    ensures r.None? <==> forall i :: 0 <= i < |rows| ==> !StockKeyAt(rows, i, product, storage)
    ensures r.Some? ==>
      (exists i :: 0 <= i < |rows| && StockKeyAt(rows, i, product, storage) && r.value == rows[i].stock &&
        forall j :: 0 <= j < i ==> !StockKeyAt(rows, j, product, storage))
  {
    if rows == [] then None
    else if StockKeyAt(rows, 0, product, storage) then Some(rows[0].stock)
    else
      var r := StockLookup(rows[1..], product, storage);
      assert forall i :: 1 <= i < |rows| ==>
        (StockKeyAt(rows, i, product, storage) <==> StockKeyAt(rows[1..], i - 1, product, storage));
      assert forall j :: 0 <= j < |rows| - 1 ==>
        (StockKeyAt(rows[1..], j, product, storage) <==> StockKeyAt(rows, j + 1, product, storage));
      r
  }

  predicate DemandKeyAt(rows: seq<DemandRow>, i: int, product: nat, store: nat)
    requires 0 <= i < |rows|
  {
    rows[i].product == product && rows[i].store == store
  }

  /** The demand of the first row keyed (product, store), or `None` (a `KeyError`). */
  function DemandLookup(rows: seq<DemandRow>, product: nat, store: nat): (r: Option<int>)
    ensures r.None? <==> forall i :: 0 <= i < |rows| ==> !DemandKeyAt(rows, i, product, store)
    ensures r.Some? ==>
      (exists i :: 0 <= i < |rows| && DemandKeyAt(rows, i, product, store) && r.value == rows[i].demand &&
        forall j :: 0 <= j < i ==> !DemandKeyAt(rows, j, product, store))
  {
    if rows == [] then None
    else if DemandKeyAt(rows, 0, product, store) then Some(rows[0].demand)
    else
      var r := DemandLookup(rows[1..], product, store);
      assert forall i :: 1 <= i < |rows| ==>
        (DemandKeyAt(rows, i, product, store) <==> DemandKeyAt(rows[1..], i - 1, product, store));
      assert forall j :: 0 <= j < |rows| - 1 ==>
        (DemandKeyAt(rows[1..], j, product, store) <==> DemandKeyAt(rows, j + 1, product, store));
      r
  }

  /** No two rows carry the same key. */
  predicate StockKeysUnique(rows: seq<StockRow>)
  {
    forall i, j :: 0 <= i < j < |rows| ==> rows[i].product != rows[j].product || rows[i].storage != rows[j].storage
  }

  /** A lookup finds the only row carrying its key. */
  lemma StockLookupOnly(rows: seq<StockRow>, idx: nat, product: nat, storage: nat)
    requires idx < |rows| && StockKeyAt(rows, idx, product, storage)
    requires StockKeysUnique(rows)
    ensures StockLookup(rows, product, storage) == Some(rows[idx].stock)
  {
    forall j | 0 <= j < |rows| && j != idx
      ensures !StockKeyAt(rows, j, product, storage)
    {
      if j < idx {
        assert rows[j].product != rows[idx].product || rows[j].storage != rows[idx].storage;
      } else {
        assert rows[idx].product != rows[j].product || rows[idx].storage != rows[j].storage;
      }
    }
  }

  /** No two rows carry the same key. */
  predicate DemandKeysUnique(rows: seq<DemandRow>)
  {
    forall i, j :: 0 <= i < j < |rows| ==> rows[i].product != rows[j].product || rows[i].store != rows[j].store
  }

  /** A lookup finds the only row carrying its key. */
  lemma DemandLookupOnly(rows: seq<DemandRow>, idx: nat, product: nat, store: nat)
    requires idx < |rows| && DemandKeyAt(rows, idx, product, store)
    requires DemandKeysUnique(rows)
    ensures DemandLookup(rows, product, store) == Some(rows[idx].demand)
  {
    forall j | 0 <= j < |rows| && j != idx
      ensures !DemandKeyAt(rows, j, product, store)
    {
      if j < idx {
        assert rows[j].product != rows[idx].product || rows[j].store != rows[idx].store;
      } else {
        assert rows[idx].product != rows[j].product || rows[idx].store != rows[j].store;
      }
    }
  }

  // ---------------------------------------------------------------------
  // Properties of the cost table

  lemma CostIndexDecodes(products: nat, stores: nat, storages: nat, product: nat, storage: nat, store: nat)
    requires product < products && storage < storages && store < stores
    ensures CostIndex(products, stores, product, storage, store) < storages * stores * products
    ensures CostTriple(products, stores, CostIndex(products, stores, product, storage, store))
      == Triple(product, storage, store)
  {
    var q := storage * stores + store;
    var k := q * products + product;
    DivMod(q, product, products);
    DivMod(storage, store, stores);
    DivDiv(k, products, stores);
    GridBound(storage, storages, store, stores);
    GridBound(q, storages * stores, product, products);
  }

  /** Appending the row of (product, storage, store) at its own position keeps the built rows those of the cost table. */
  lemma CostsSoFarStep(costs: seq<CostRow>, products: nat, stores: nat, storages: nat, draws: nat -> int,
                       product: nat, storage: nat, store: nat)
    requires product < products && storage < storages && store < stores
    requires CostsSoFar(costs, products, stores, draws)
    requires |costs| == CostIndex(products, stores, product, storage, store)
    ensures CostsSoFar(costs + [CostRow(Triple(product, storage, store), draws(|costs|))], products, stores, draws)
  {
    CostIndexDecodes(products, stores, storages, product, storage, store);
  }

  /** Where one store's block of products ends, the next store's block begins. */
  lemma CostIndexNextStore(products: nat, stores: nat, storage: nat, store: nat)
    ensures CostIndex(products, stores, products, storage, store) == CostIndex(products, stores, 0, storage, store + 1)
  {
    var q := storage * stores + store;
    assert (q + 1) * products == q * products + products;
  }

  /** Where one storage's block of stores ends, the next storage's block begins. */
  lemma CostIndexNextStorage(products: nat, stores: nat, storage: nat)
    ensures CostIndex(products, stores, 0, storage, stores) == CostIndex(products, stores, 0, storage + 1, 0)
  {
    assert storage * stores + stores == (storage + 1) * stores;
  }

  /** Once every storage's block is built, the rows are the whole cost table. */
  lemma CostsSoFarDone(costs: seq<CostRow>, products: nat, stores: nat, storages: nat, draws: nat -> int)
    requires CostsSoFar(costs, products, stores, draws)
    requires |costs| == CostIndex(products, stores, 0, storages, 0)
    ensures |costs| == StockStart(products, stores, storages)
    ensures costs == CostTable(products, stores, storages, draws)
  {
    assert storages * stores * products == (storages * stores + 0) * products + 0;
    if products == 0 || stores == 0 {
      assert |costs| == 0;
    } else {
      var t := CostTable(products, stores, storages, draws);
      assert |t| == |costs|;
      forall k | 0 <= k < |t|
        ensures t[k] == costs[k]
      {
      }
    }
  }

  /** Cost row `CostIndex(...)` is the row of (product, storage, store), holding the draw of that position. */
  lemma CostTableLayout(products: nat, stores: nat, storages: nat, draws: nat -> int,
                        product: nat, storage: nat, store: nat)
    requires product < products && storage < storages && store < stores
    ensures CostIndex(products, stores, product, storage, store) < |CostTable(products, stores, storages, draws)|
    ensures CostTable(products, stores, storages, draws)[CostIndex(products, stores, product, storage, store)]
      == CostRow(Triple(product, storage, store), draws(CostIndex(products, stores, product, storage, store)))
  {
    CostIndexDecodes(products, stores, storages, product, storage, store);
  }

  /** The cost table has P * S * T rows, each with an in-range triple and the draw of its own position. */
  lemma CostTableShape(products: nat, stores: nat, storages: nat, draws: nat -> int)
    ensures |CostTable(products, stores, storages, draws)| == products * storages * stores
    ensures forall k :: 0 <= k < |CostTable(products, stores, storages, draws)| ==>
      TripleInRange(CostTable(products, stores, storages, draws)[k].varName, products, stores, storages) &&
      CostTable(products, stores, storages, draws)[k].cost == draws(k)
  {
    var t := CostTable(products, stores, storages, draws);
    forall k | 0 <= k < |t|
      ensures TripleInRange(t[k].varName, products, stores, storages)
    {
      assert products > 0 && stores > 0;
      DivDiv(k, products, stores);
      assert k < storages * (products * stores);
      DivBound(k, products * stores, storages);
      assert t[k].varName == CostTriple(products, stores, k);
    }
  }

  lemma CostTripleInjective(products: nat, stores: nat, i: nat, j: nat)
    requires products > 0 && stores > 0
    requires CostTriple(products, stores, i) == CostTriple(products, stores, j)
    ensures i == j
  {
    DivDiv(i, products, stores);
    DivDiv(j, products, stores);
    DivModInjective(i / products, j / products, stores);
    DivModInjective(i, j, products);
  }

  /** No triple occurs twice in the cost table. */
  lemma CostTableUnique(products: nat, stores: nat, storages: nat, draws: nat -> int)
    ensures forall i, j :: 0 <= i < j < |CostTable(products, stores, storages, draws)| ==>
      CostTable(products, stores, storages, draws)[i].varName != CostTable(products, stores, storages, draws)[j].varName
  {
    var t := CostTable(products, stores, storages, draws);
    forall i, j | 0 <= i < j < |t|
      ensures t[i].varName != t[j].varName
    {
      if t[i].varName == t[j].varName {
        CostTripleInjective(products, stores, i, j);
      }
    }
  }

  /** The triples of the cost table are exactly the in-range triples. */
  lemma CostTableCovers(products: nat, stores: nat, storages: nat, draws: nat -> int)
    ensures (set k | 0 <= k < |CostTable(products, stores, storages, draws)| ::
               CostTable(products, stores, storages, draws)[k].varName) == AllTriples(products, stores, storages)
  {
    var t := CostTable(products, stores, storages, draws);
    CostTableShape(products, stores, storages, draws);
    forall x | x in AllTriples(products, stores, storages)
      ensures x in (set k | 0 <= k < |t| :: t[k].varName)
    {
      CostTableLayout(products, stores, storages, draws, x.product, x.storage, x.store);
    }
  }

  // ---------------------------------------------------------------------
  // Properties of the stock and demand tables

  /** Stock row `storage * P + product` is the row keyed (product, storage). */
  lemma StockTableLayout(products: nat, stores: nat, storages: nat, draws: nat -> int, product: nat, storage: nat)
    requires product < products && storage < storages
    ensures storage * products + product < |StockTable(products, stores, storages, draws)|
    ensures StockTable(products, stores, storages, draws)[storage * products + product]
      == StockRow(product, storage, RandInt(StockLow, StockHigh,
           draws(StockStart(products, stores, storages) + storage * products + product)))
  {
    DivMod(storage, product, products);
    GridBound(storage, storages, product, products);
  }

  /** The stock table has P * S rows, keyed in range, each stock drawn from [150, 350). */
  lemma StockTableShape(products: nat, stores: nat, storages: nat, draws: nat -> int)
    ensures |StockTable(products, stores, storages, draws)| == products * storages
    ensures forall k :: 0 <= k < |StockTable(products, stores, storages, draws)| ==>
      var row := StockTable(products, stores, storages, draws)[k];
      row.product < products && row.storage < storages && StockLow <= row.stock < StockHigh
  {
    var t := StockTable(products, stores, storages, draws);
    forall k | 0 <= k < |t|
      ensures t[k].product < products && t[k].storage < storages && StockLow <= t[k].stock < StockHigh
    {
      assert products > 0;
      assert t[k] == StockRow(k % products, k / products,
        RandInt(StockLow, StockHigh, draws(StockStart(products, stores, storages) + k)));
      DivBound(k, products, storages);
    }
  }

  /** No (product, storage) key occurs twice in the stock table. */
  lemma StockTableUnique(products: nat, stores: nat, storages: nat, draws: nat -> int)
    ensures StockKeysUnique(StockTable(products, stores, storages, draws))
  {
    var t := StockTable(products, stores, storages, draws);
    forall i, j | 0 <= i < j < |t|
      ensures t[i].product != t[j].product || t[i].storage != t[j].storage
    {
      if t[i].product == t[j].product && t[i].storage == t[j].storage {
        DivModInjective(i, j, products);
      }
    }
  }

  /** Looking up any in-range key of the stock table finds the row the loops wrote for it. */
  lemma StockLookupFinds(products: nat, stores: nat, storages: nat, draws: nat -> int, product: nat, storage: nat)
    requires product < products && storage < storages
    ensures storage * products + product < |StockTable(products, stores, storages, draws)|
    ensures StockLookup(StockTable(products, stores, storages, draws), product, storage)
      == Some(StockTable(products, stores, storages, draws)[storage * products + product].stock)
  {
    StockTableLayout(products, stores, storages, draws, product, storage);
    StockTableUnique(products, stores, storages, draws);
    StockLookupOnly(StockTable(products, stores, storages, draws), storage * products + product, product, storage);
  }

  /** Demand row `store * P + product` is the row keyed (product, store). */
  lemma DemandTableLayout(products: nat, stores: nat, storages: nat, draws: nat -> int, product: nat, store: nat)
    requires product < products && store < stores
    ensures store * products + product < |DemandTable(products, stores, storages, draws)|
    ensures DemandTable(products, stores, storages, draws)[store * products + product]
      == DemandRow(product, store, RandInt(DemandLow, DemandHigh,
           draws(DemandStart(products, stores, storages) + store * products + product)))
  {
    DivMod(store, product, products);
    GridBound(store, stores, product, products);
  }

  /** The demand table has P * T rows, keyed in range, each demand drawn from [50, 250). */
  lemma DemandTableShape(products: nat, stores: nat, storages: nat, draws: nat -> int)
    ensures |DemandTable(products, stores, storages, draws)| == products * stores
    ensures forall k :: 0 <= k < |DemandTable(products, stores, storages, draws)| ==>
      var row := DemandTable(products, stores, storages, draws)[k];
      row.product < products && row.store < stores && DemandLow <= row.demand < DemandHigh
  {
    var t := DemandTable(products, stores, storages, draws);
    forall k | 0 <= k < |t|
      ensures t[k].product < products && t[k].store < stores && DemandLow <= t[k].demand < DemandHigh
    {
      assert products > 0;
      assert t[k] == DemandRow(k % products, k / products,
        RandInt(DemandLow, DemandHigh, draws(DemandStart(products, stores, storages) + k)));
      DivBound(k, products, stores);
    }
  }

  /** No (product, store) key occurs twice in the demand table. */
  lemma DemandTableUnique(products: nat, stores: nat, storages: nat, draws: nat -> int)
    ensures DemandKeysUnique(DemandTable(products, stores, storages, draws))
  {
    var t := DemandTable(products, stores, storages, draws);
    forall i, j | 0 <= i < j < |t|
      ensures t[i].product != t[j].product || t[i].store != t[j].store
    {
      if t[i].product == t[j].product && t[i].store == t[j].store {
        DivModInjective(i, j, products);
      }
    }
  }

  /** Looking up any in-range key of the demand table finds the row the loops wrote for it. */
  lemma DemandLookupFinds(products: nat, stores: nat, storages: nat, draws: nat -> int, product: nat, store: nat)
    requires product < products && store < stores
    ensures store * products + product < |DemandTable(products, stores, storages, draws)|
    ensures DemandLookup(DemandTable(products, stores, storages, draws), product, store)
      == Some(DemandTable(products, stores, storages, draws)[store * products + product].demand)
  {
    DemandTableLayout(products, stores, storages, draws, product, store);
    DemandTableUnique(products, stores, storages, draws);
    DemandLookupOnly(DemandTable(products, stores, storages, draws), store * products + product, product, store);
  }

  // ---------------------------------------------------------------------
  // The order in which the stream is consumed

  /** Costs read only the first P * S * T draws. */
  lemma CostTableDraws(products: nat, stores: nat, storages: nat, d1: nat -> int, d2: nat -> int)
    requires forall i :: 0 <= i < StockStart(products, stores, storages) ==> d1(i) == d2(i)
    ensures CostTable(products, stores, storages, d1) == CostTable(products, stores, storages, d2)
  {
    var t1, t2 := CostTable(products, stores, storages, d1), CostTable(products, stores, storages, d2);
    assert forall k :: 0 <= k < |t1| ==> t1[k] == t2[k];
  }

  /** Stock reads only the P * S draws that follow the costs' draws. */
  lemma StockTableDraws(products: nat, stores: nat, storages: nat, d1: nat -> int, d2: nat -> int)
    requires forall i :: StockStart(products, stores, storages) <= i < DemandStart(products, stores, storages) ==>
      d1(i) == d2(i)
    ensures StockTable(products, stores, storages, d1) == StockTable(products, stores, storages, d2)
  {
    var t1, t2 := StockTable(products, stores, storages, d1), StockTable(products, stores, storages, d2);
    var start := StockStart(products, stores, storages);
    forall k | 0 <= k < |t1|
      ensures t1[k] == t2[k]
    {
      assert d1(start + k) == d2(start + k);
    }
  }

  /** Demand reads only the P * T draws that follow the stock's draws. */
  lemma DemandTableDraws(products: nat, stores: nat, storages: nat, d1: nat -> int, d2: nat -> int)
    requires forall i :: DemandStart(products, stores, storages) <= i < DrawsUsed(products, stores, storages) ==>
      d1(i) == d2(i)
    ensures DemandTable(products, stores, storages, d1) == DemandTable(products, stores, storages, d2)
  {
    var t1, t2 := DemandTable(products, stores, storages, d1), DemandTable(products, stores, storages, d2);
    var start := DemandStart(products, stores, storages);
    forall k | 0 <= k < |t1|
      ensures t1[k] == t2[k]
    {
      assert d1(start + k) == d2(start + k);
    }
  }
}
