/**
 * `TransportationProblemSolver` (src/transportation_problem_solver.py).
 *
 * The external solver is modelled as the model it is handed: the list of
 * declared variables, the list of added constraints and the objective.
 * `Solve()` is an input status; solution values are an input too.
 */
module Solver {
  import opened Wrappers
  import opened Tables
  import opened Formulation
  import Generator

  /** The termination statuses `Solve()` returns. */
  datatype Status = Optimal | Feasible | Infeasible | Unbounded | Abnormal | ModelInvalid | NotSolved

  datatype Error =
    | SolverUnavailable  // `CreateSolver` returned nothing, and construction raises
    | KeyError           // a triple that has no registered variable

  class TransportationProblemSolver {
    /** The random stream the instance's `seed` fixes. */
    const draws: nat -> int
    const storagesNbr: int
    const storesNbr: int
    const productsNbr: int

    /** The external solver's model: declared variables, added constraints, objective. */
    var variables: seq<IntVar>
    var constraints: seq<Constraint>
    var objective: seq<Term>

    /** `solver_variables`: the variable of each (product, storage, store) triple. */
    var solverVariables: Registry
    var solved: bool

    /** The generated tables; `None` until `load_problem`. */
    var costs: Option<seq<CostRow>>
    var stock: Option<seq<StockRow>>
    var demand: Option<seq<DemandRow>>

    /** Every registered triple names a declared variable. */
    ghost predicate Valid()
      reads this
    {
      forall x :: x in solverVariables ==> solverVariables[x] < |variables|
    }

    function Products(): nat { Count(productsNbr) }
    function Stores(): nat { Count(storesNbr) }
    function Storages(): nat { Count(storagesNbr) }

    /** What `_add_constraints` reads. */
    function CurrentInputs(): Inputs
      reads this`solverVariables, this`stock, this`demand
      requires stock.Some? && demand.Some?
    {
      Inputs(Products(), Stores(), Storages(), solverVariables, stock.value, demand.value)
    }

    /** The state `__init__` leaves once the backend was created. */
    constructor (storagesNbr: int, storesNbr: int, productsNbr: int, draws: nat -> int)
      ensures this.storagesNbr == storagesNbr && this.storesNbr == storesNbr && this.productsNbr == productsNbr
      ensures this.draws == draws
      ensures variables == [] && constraints == [] && objective == []
      ensures solverVariables == map[] && !solved
      ensures costs == None && stock == None && demand == None
      ensures Valid()
    {
      this.draws := draws;
      this.storagesNbr, this.storesNbr, this.productsNbr := storagesNbr, storesNbr, productsNbr;
      variables, constraints, objective := [], [], [];
      solverVariables := map[];
      solved := false;
      costs, stock, demand := None, None, None;
    }

    /**
     * `__init__`: fails when the requested backend cannot be created
     * (`backendAvailable` is whether `CreateSolver(method)` returned a solver).
     */
    static method Create(storagesNbr: int, storesNbr: int, productsNbr: int, draws: nat -> int,
                         backendAvailable: bool)
      returns (r: Result<TransportationProblemSolver, Error>)
      ensures r.Failure? <==> !backendAvailable
      ensures r.Failure? ==> r.error == SolverUnavailable
      ensures r.Success? ==>
        (fresh(r.value) && r.value.Valid() &&
         r.value.storagesNbr == storagesNbr && r.value.storesNbr == storesNbr &&
         r.value.productsNbr == productsNbr && r.value.draws == draws &&
         r.value.variables == [] && r.value.constraints == [] && r.value.objective == [] &&
         r.value.solverVariables == map[] && !r.value.solved &&
         r.value.costs == None && r.value.stock == None && r.value.demand == None)
    {
      if !backendAvailable {
        return Failure(SolverUnavailable);
      }
      var s := new TransportationProblemSolver(storagesNbr, storesNbr, productsNbr, draws);
      r := Success(s);
    }

    /** `_load_variables`: one variable in [0, 999] per cost row, registered under the row's triple. */
    method LoadVariables()
      requires costs.Some? && Valid()
      modifies this`variables, this`solverVariables
      ensures Valid()
      ensures variables == old(variables) + DeclaredVars(costs.value)
      ensures solverVariables == Register(old(solverVariables), costs.value, |old(variables)|)
    {
      var rows := costs.value;
      ghost var base := |variables|;
      for i := 0 to |rows|
        invariant Valid()
        invariant variables == old(variables) + DeclaredVars(rows[..i])
        invariant solverVariables == Register(old(solverVariables), rows[..i], base)
      {
        var name := rows[i].varName;
        var v := |variables|;
        variables := variables + [IntVar(VarLow, VarHigh, VarName(name))];
        solverVariables := solverVariables[name := v];
        assert rows[..i + 1][..i] == rows[..i];
        assert DeclaredVars(rows[..i + 1]) == DeclaredVars(rows[..i]) + [IntVar(VarLow, VarHigh, VarName(name))];
      }
      assert rows[..|rows|] == rows;
    }

    /** `_add_constraints`: the capacity, demand-upper and demand-lower families, in that order. */
    method AddConstraints()
      requires stock.Some? && demand.Some? && Ready(CurrentInputs())
      modifies this`constraints
      ensures constraints == old(constraints) + Constraints(CurrentInputs())
    {
      var d := CurrentInputs();
      AddCapacityConstraints(d);
      AddUpperConstraints(d);
      AddLowerConstraints(d);
    }

    /** The first loop nest: per product and storage, what leaves the storage is at most its stock. */
    method AddCapacityConstraints(d: Inputs)
      requires Ready(d)
      modifies this`constraints
      ensures constraints == old(constraints) + CapacityFamily(d, d.products)
    {
      for product := 0 to d.products
        invariant constraints == old(constraints) + CapacityFamily(d, product)
      {
        for storage := 0 to d.storages
          invariant constraints == old(constraints) + CapacityFamily(d, product) +
            seq(storage, s requires 0 <= s < storage => Capacity(d, product, s))
        {
          var vars := seq(d.stores, store requires 0 <= store < d.stores => VarOf(d, product, storage, store));
          var c := Constraint(vars, AtMost, StockLookup(d.stock, product, storage).value);
          assert c == Capacity(d, product, storage);
          constraints := constraints + [c];
          assert seq(storage + 1, s requires 0 <= s < storage + 1 => Capacity(d, product, s))
            == seq(storage, s requires 0 <= s < storage => Capacity(d, product, s)) + [c];
        }
        assert seq(d.storages, s requires 0 <= s < d.storages => Capacity(d, product, s)) == CapacityBlock(d, product);
      }
    }

    /** The second loop nest: per product and store, what reaches the store is at most its demand. */
    method AddUpperConstraints(d: Inputs)
      requires Ready(d)
      modifies this`constraints
      ensures constraints == old(constraints) + UpperFamily(d, d.products)
    {
      for product := 0 to d.products
        invariant constraints == old(constraints) + UpperFamily(d, product)
      {
        for store := 0 to d.stores
          invariant constraints == old(constraints) + UpperFamily(d, product) +
            seq(store, t requires 0 <= t < store => DemandUpper(d, product, t))
        {
          var vars := seq(d.storages, storage requires 0 <= storage < d.storages => VarOf(d, product, storage, store));
          var c := Constraint(vars, AtMost, DemandLookup(d.demand, product, store).value);
          assert c == DemandUpper(d, product, store);
          constraints := constraints + [c];
          assert seq(store + 1, t requires 0 <= t < store + 1 => DemandUpper(d, product, t))
            == seq(store, t requires 0 <= t < store => DemandUpper(d, product, t)) + [c];
        }
        assert seq(d.stores, t requires 0 <= t < d.stores => DemandUpper(d, product, t)) == UpperBlock(d, product);
      }
    }

    /** The third loop nest: per product and store, what reaches the store is at least its demand. */
    method AddLowerConstraints(d: Inputs)
      requires Ready(d)
      modifies this`constraints
      ensures constraints == old(constraints) + LowerFamily(d, d.products)
    {
      for product := 0 to d.products
        invariant constraints == old(constraints) + LowerFamily(d, product)
      {
        for store := 0 to d.stores
          invariant constraints == old(constraints) + LowerFamily(d, product) +
            seq(store, t requires 0 <= t < store => DemandLower(d, product, t))
        {
          var vars := seq(d.storages, storage requires 0 <= storage < d.storages => VarOf(d, product, storage, store));
          var c := Constraint(vars, AtLeast, DemandLookup(d.demand, product, store).value);
          assert c == DemandLower(d, product, store);
          constraints := constraints + [c];
          assert seq(store + 1, t requires 0 <= t < store + 1 => DemandLower(d, product, t))
            == seq(store, t requires 0 <= t < store => DemandLower(d, product, t)) + [c];
        }
        assert seq(d.stores, t requires 0 <= t < d.stores => DemandLower(d, product, t)) == LowerBlock(d, product);
      }
    }

    /** `_load_coefficients`: minimise the sum of cost times variable over the cost rows. */
    method LoadCoefficients()
      requires costs.Some? && RowTriples(costs.value) <= solverVariables.Keys
      modifies this`objective
      ensures objective == ObjectiveTerms(costs.value, solverVariables)
    {
      objective := ObjectiveTerms(costs.value, solverVariables);
    }

    /**
     * `load_problem`: generate the tables (nothing saved), then variables,
     * constraints and objective, in that order.
     */
    method LoadProblem()
      requires Valid()
      modifies this
      ensures Valid()
      ensures costs == Some(CostTable(Products(), Stores(), Storages(), draws))
      ensures stock == Some(StockTable(Products(), Stores(), Storages(), draws))
      ensures demand == Some(DemandTable(Products(), Stores(), Storages(), draws))
      ensures variables == old(variables) + DeclaredVars(costs.value)
      ensures |variables| == |old(variables)| + Products() * Storages() * Stores()
      ensures solverVariables == Register(old(solverVariables), costs.value, |old(variables)|)
      ensures Ready(CurrentInputs())
      ensures constraints == old(constraints) + Constraints(CurrentInputs())
      ensures |constraints| == |old(constraints)| + Products() * Storages() + 2 * Products() * Stores()
      ensures RowTriples(costs.value) <= solverVariables.Keys
      ensures objective == ObjectiveTerms(costs.value, solverVariables)
      ensures solved == old(solved)
    {
      var c, s, d, _ := Generator.GenerateData(productsNbr, storesNbr, storagesNbr, draws, false);
      costs, stock, demand := Some(c), Some(s), Some(d);
      GeneratedReady(Products(), Stores(), Storages(), draws, solverVariables, |variables|);
      GeneratedObjective(Products(), Stores(), Storages(), draws, solverVariables, |variables|);
      CostTableShape(Products(), Stores(), Storages(), draws);
      LoadVariables();
      AddConstraints();
      ConstraintCount(CurrentInputs());
      LoadCoefficients();
    }

    /** `run_solver`: `solved` becomes true on an optimal status and is otherwise left as it was. */
    method RunSolver(status: Status)
      modifies this`solved
      ensures solved == (old(solved) || status == Optimal)
    {
      if status == Optimal {
        solved := true;
      }
    }

    /**
     * `get_variable_result`: the reported value of the triple's variable,
     * or a `KeyError` when the triple was never registered.  `solution`
     * holds the value the solver reports for each declared variable.
     */
    method GetVariableResult(product: int, storage: int, store: int, solution: seq<int>) returns (r: Result<int, Error>)
      requires Valid() && |solution| == |variables|
      ensures r.Failure? <==>
        (product < 0 || storage < 0 || store < 0 || Triple(product, storage, store) !in solverVariables)
      ensures r.Failure? ==> r.error == KeyError
      ensures r.Success? ==>
        (product >= 0 && storage >= 0 && store >= 0 &&
         r.value == solution[solverVariables[Triple(product, storage, store)]])
    {
      if product < 0 || storage < 0 || store < 0 || Triple(product, storage, store) !in solverVariables {
        return Failure(KeyError);
      }
      r := Success(solution[solverVariables[Triple(product, storage, store)]]);
    }
  }

  /**
   * The sizes used for logging after `load_problem`: 3 products, 5
   * storages and 3 stores give 45 variables and 15 + 2 * 9 constraints.
   */
  method ExampleCounts(draws: nat -> int) returns (numVariables: nat, numConstraints: nat)
    ensures numVariables == 45 && numConstraints == 33
  {
    var r := TransportationProblemSolver.Create(5, 3, 3, draws, true);
    var s := r.value;
    s.LoadProblem();
    numVariables, numConstraints := |s.variables|, |s.constraints|;
  }
}
