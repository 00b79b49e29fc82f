/**
 * Instance generation (`generate_data` in src/utils.py).
 *
 * Seeding numpy's generator fixes the stream `draws`; each call to
 * `random.normal` or `random.randint` consumes the next draw.  The nested
 * loops fill the cost, stock and demand tables in a fixed order, so the
 * tables are a function of the sizes and the stream.
 */
module Generator {
  import opened Wrappers
  import opened Arith
  import opened Tables

  /**
   * Returns the cost, stock and demand tables, and the demand table written
   * to a CSV file when `saveData` holds (`None` when nothing is written).
   */
  method GenerateData(numberOfProducts: int, numberOfStores: int, numberOfStorages: int,
                      draws: nat -> int, saveData: bool)
    returns (costs: seq<CostRow>, stock: seq<StockRow>, demand: seq<DemandRow>, saved: Option<seq<DemandRow>>)
    ensures costs == CostTable(Count(numberOfProducts), Count(numberOfStores), Count(numberOfStorages), draws)
    ensures stock == StockTable(Count(numberOfProducts), Count(numberOfStores), Count(numberOfStorages), draws)
    ensures demand == DemandTable(Count(numberOfProducts), Count(numberOfStores), Count(numberOfStorages), draws)
    ensures saved == if saveData then Some(demand) else None
  {
    var products, stores, storages := Count(numberOfProducts), Count(numberOfStores), Count(numberOfStorages);
    var next: nat;  // position of the next draw in the stream
    costs, next := BuildCosts(products, stores, storages, draws);
    stock, next := BuildStock(products, stores, storages, draws, next);
    demand, next := BuildDemand(products, stores, storages, draws, next);
    if saveData {
      saved := Some(demand);
    } else {
      saved := None;
    }
  }

  /** The cost loops: storage outermost, then store, then product, one normal draw per triple. */
  method BuildCosts(products: nat, stores: nat, storages: nat, draws: nat -> int)
    returns (costs: seq<CostRow>, next: nat)
    ensures costs == CostTable(products, stores, storages, draws)
    ensures next == StockStart(products, stores, storages)
  {
    next := 0;
    costs := [];
    for storage := 0 to storages
      invariant |costs| == CostIndex(products, stores, 0, storage, 0) == next
      invariant CostsSoFar(costs, products, stores, draws)
    {
      for store := 0 to stores
        invariant |costs| == CostIndex(products, stores, 0, storage, store) == next
        invariant CostsSoFar(costs, products, stores, draws)
      {
        for product := 0 to products
          invariant |costs| == CostIndex(products, stores, product, storage, store) == next
          invariant CostsSoFar(costs, products, stores, draws)
        {
          CostsSoFarStep(costs, products, stores, storages, draws, product, storage, store);
          costs := costs + [CostRow(Triple(product, storage, store), draws(next))];
          next := next + 1;
        }
        CostIndexNextStore(products, stores, storage, store);
      }
      CostIndexNextStorage(products, stores, storage);
    }
    CostsSoFarDone(costs, products, stores, storages, draws);
  }

  /** The stock loops: storage outermost, then product, one `randint(150, 350)` draw per pair. */
  method BuildStock(products: nat, stores: nat, storages: nat, draws: nat -> int, start: nat)
    returns (stock: seq<StockRow>, next: nat)
    requires start == StockStart(products, stores, storages)
    ensures stock == StockTable(products, stores, storages, draws)
    ensures next == DemandStart(products, stores, storages)
  {
    next := start;
    stock := [];
    for storage := 0 to storages
      invariant |stock| == storage * products && next == start + |stock|
      invariant StockSoFar(stock, products, stores, storages, draws)
    {
      for product := 0 to products
        invariant |stock| == storage * products + product && next == start + |stock|
        invariant StockSoFar(stock, products, stores, storages, draws)
      {
        DivMod(storage, product, products);
        stock := stock + [StockRow(product, storage, RandInt(StockLow, StockHigh, draws(next)))];
        next := next + 1;
      }
    }
  }

  /** The demand loops: store outermost, then product, one `randint(50, 250)` draw per pair. */
  method BuildDemand(products: nat, stores: nat, storages: nat, draws: nat -> int, start: nat)
    returns (demand: seq<DemandRow>, next: nat)
    requires start == DemandStart(products, stores, storages)
    ensures demand == DemandTable(products, stores, storages, draws)
    ensures next == DrawsUsed(products, stores, storages)
  {
    next := start;
    demand := [];
    for store := 0 to stores
      invariant |demand| == store * products && next == start + |demand|
      invariant DemandSoFar(demand, products, stores, storages, draws)
    {
      for product := 0 to products
        invariant |demand| == store * products + product && next == start + |demand|
        invariant DemandSoFar(demand, products, stores, storages, draws)
      {
        DivMod(store, product, products);
        demand := demand + [DemandRow(product, store, RandInt(DemandLow, DemandHigh, draws(next)))];
        next := next + 1;
      }
    }
  }
}
