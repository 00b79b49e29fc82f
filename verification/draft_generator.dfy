/**
 * The earlier draft of instance generation (`generate_data` in
 * utils/utils.py).  It has no `save_data` flag; its loops are those of
 * src/utils.py under other loop-variable names.
 */
module DraftGenerator {
  import opened Wrappers
  import opened Tables
  import Generator

  /** Returns the cost, stock and demand tables of the draft generator. */
  method GenerateData(numberOfProducts: int, numberOfStores: int, numberOfStorages: int, draws: nat -> int)
    returns (costs: seq<CostRow>, stock: seq<StockRow>, demand: seq<DemandRow>)
    ensures costs == CostTable(Count(numberOfProducts), Count(numberOfStores), Count(numberOfStorages), draws)
    ensures stock == StockTable(Count(numberOfProducts), Count(numberOfStores), Count(numberOfStorages), draws)
    ensures demand == DemandTable(Count(numberOfProducts), Count(numberOfStores), Count(numberOfStorages), draws)
  {
    var products, stores, storages := Count(numberOfProducts), Count(numberOfStores), Count(numberOfStorages);
    var next: nat;  // position of the next draw in the stream
    costs, next := Generator.BuildCosts(products, stores, storages, draws);
    stock, next := Generator.BuildStock(products, stores, storages, draws, next);
    demand, next := Generator.BuildDemand(products, stores, storages, draws, next);
  }

  /**
   * Given the same sizes and the same stream, the draft returns the tables
   * that src/utils.py returns with `save_data` false, and that call writes nothing.
   */
  method SameAsCurrent(numberOfProducts: int, numberOfStores: int, numberOfStorages: int, draws: nat -> int)
    returns (draft: (seq<CostRow>, seq<StockRow>, seq<DemandRow>),
             current: (seq<CostRow>, seq<StockRow>, seq<DemandRow>),
             saved: Option<seq<DemandRow>>)
    ensures draft == current
    ensures saved == None
  {
    var c1, s1, d1 := GenerateData(numberOfProducts, numberOfStores, numberOfStorages, draws);
    var c2, s2, d2, written := Generator.GenerateData(numberOfProducts, numberOfStores, numberOfStorages, draws, false);
    draft, current, saved := (c1, s1, d1), (c2, s2, d2), written;
  }
}
