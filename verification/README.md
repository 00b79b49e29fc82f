# Transportation problem: instance generation and integer-program formulation

This project models the core of a small transportation-problem solver.
Products sit in storages (origins) and are shipped to stores
(destinations). `generate_data` fills three random tables from a seeded
generator:
- a shipping cost for every (product, storage, store) triple;
- a stock for every (product, storage) pair;
- a demand for every (product, store) pair.

`TransportationProblemSolver` turns those tables into an integer program for
an external solver. It declares one variable per triple, bounded to
[0, 999]. It adds these constraints:
- a capacity constraint per (product, storage): what leaves the storage is at most its stock;
- an upper and a lower demand constraint per (product, store): what reaches the store is exactly its demand.

The objective it minimises is the sum of cost times shipment.

The modules follow the source files:

- `Tables`: the three tables as functions of the sizes and of the random
  stream, lookups by key, and where each table reads the stream.
- `Generator`: `generate_data` of `src/utils.py` as nested loops proved
  to produce those tables.
- `DraftGenerator`: the older `generate_data` of `utils/utils.py`.
- `Formulation`: the declared variables, the constraint records and the
  objective as values, and what an assignment satisfying them means.
- `Solver`: the `TransportationProblemSolver` class. Its fields are the
  tables, the registry `solver_variables`, the `solved` flag, and the model
  held by the external solver (declared variables, added constraints,
  objective).
- `Arith`: finite sums and division facts used by the proofs.

The random generator is an input stream `draws: nat -> int` that a seed
fixes. Each call to `normal` or `randint` takes the next draw.
`randint(low, high)` maps a draw into `[low, high)`. A normal draw is kept
as an opaque cost. Sizes go through `range`, so a negative size counts as
zero.

## Model

| member | source | states |
|---|---|---|
| Generator.GenerateData | src/utils.py:9-94 | The returned cost, stock and demand tables are exactly the tables defined by the sizes (negative sizes as zero) and the seeded stream. The demand table is written out exactly when `save_data` holds. |
| Generator.BuildCosts | src/utils.py:43-53 | The loop nest (storage, then store, then product) yields one row per triple, at position `(storage*T + store)*P + product`, carrying that position's normal draw. It consumes exactly P*S*T draws. |
| Generator.BuildStock | src/utils.py:57-71 | The loop nest (storage, then product) yields the stock table. Each stock is `randint(150, 350)` of the next draw after the cost draws. It consumes P*S draws. |
| Generator.BuildDemand | src/utils.py:75-88 | The loop nest (store, then product) yields the demand table. Each demand is `randint(50, 250)` of the next draw after the stock draws. It consumes P*T draws. |
| DraftGenerator.GenerateData | utils/utils.py:6-75 | The draft returns the same three tables, as functions of the sizes and the stream. Its loops (utils/utils.py:23-27, 40-44, 61-65) are those of src/utils.py:46-50, 61-65 and 79-83 with renamed variables, so the model runs the same loop methods. |
| DraftGenerator.SameAsCurrent | utils/utils.py:6-75 | For equal sizes and seed, the draft and the current generator with `save_data` false return identical tables, and that call writes nothing. The agreement rests on the two files having the same loops. |
| Tables.RandInt | src/utils.py:63 | A `randint(low, high)` value lies in `[low, high)`. |
| Tables.StockLookup | src/transportation_problem_solver.py:58 | `stock.loc[product, storage]` is the stock of the first row carrying that key. It is `None` (a `KeyError`) if and only if no row carries the key. |
| Tables.DemandLookup | src/transportation_problem_solver.py:74 | `demand.loc[product, store]` is the demand of the first row carrying that key. It is `None` if and only if no row carries the key. |
| Tables.CostTableLayout | src/utils.py:46-50 | Row `(storage*T + store)*P + product` of the cost table is the row of that triple, holding the draw at that position. |
| Tables.CostTableShape | src/utils.py:43-53 | The cost table has P*S*T rows. Every row's triple is in range, and every row's cost is the draw at its own position. |
| Tables.CostTableUnique | src/utils.py:46-49 | No triple appears in two cost rows. |
| Tables.CostTableCovers | src/utils.py:46-49 | The triples of the cost rows are exactly the in-range triples. |
| Tables.StockTableLayout | src/utils.py:61-65 | Stock row `storage*P + product` is keyed (product, storage). Its stock is `randint(150, 350)` of its draw. |
| Tables.StockTableShape | src/utils.py:57-71 | The stock table has P*S rows. Its keys are in range and every stock is in [150, 350). |
| Tables.StockTableUnique | src/utils.py:61-71 | No (product, storage) key occurs twice. |
| Tables.StockLookupFinds | src/utils.py:69-71 | Looking up any in-range (product, storage) finds the row the loops wrote for it. |
| Tables.DemandTableLayout | src/utils.py:79-83 | Demand row `store*P + product` is keyed (product, store). Its demand is `randint(50, 250)` of its draw. |
| Tables.DemandTableShape | src/utils.py:75-88 | The demand table has P*T rows. Its keys are in range and every demand is in [50, 250). |
| Tables.DemandTableUnique | src/utils.py:79-88 | No (product, store) key occurs twice. |
| Tables.DemandLookupFinds | src/utils.py:87-88 | Looking up any in-range (product, store) finds the row the loops wrote for it. |
| Tables.CostTableDraws | src/utils.py:34-50 | The costs depend only on the first P*S*T draws of the seeded stream. |
| Tables.StockTableDraws | src/utils.py:57-65 | The stock depends only on the P*S draws that follow the cost draws. |
| Tables.DemandTableDraws | src/utils.py:75-83 | The demand depends only on the P*T draws that follow the stock draws. |
| Formulation.RegisterDistinct | src/transportation_problem_solver.py:106-113 | Registering rows with distinct triples maps row k's triple to variable `base + k`. The keys gained are exactly the rows' triples, and earlier entries for other triples are kept. |
| Formulation.NatToString | src/transportation_problem_solver.py:112 | The f-string text of an index is a non-empty run of decimal digits that denotes the index, with no leading zero: only 0 is written starting with `0`, and then as `0` alone. |
| Formulation.VarName | src/transportation_problem_solver.py:112 | A variable name is `x_` followed only by decimal digits, at least three of them. |
| Formulation.VarNameSplits | src/transportation_problem_solver.py:112 | The digits after `x_` are the decimal digits of the three indices, unseparated: they split into three non-empty runs denoting the product, the storage and the store, none with a leading zero (a run starting with `0` is just `0`). |
| Formulation.VarNamesCollide | src/transportation_problem_solver.py:111-113 | Variable names do not identify triples: (1, 11, 1) and (11, 1, 1) are both named `x_1111`. |
| Formulation.ConstraintCount | src/transportation_problem_solver.py:43-90 | `_add_constraints` adds P*S + 2*P*T constraints. |
| Formulation.CapacityValue | src/transportation_problem_solver.py:49-59 | The left side of the capacity constraint of (product, storage) is what that storage ships of that product to all stores. |
| Formulation.DemandValue | src/transportation_problem_solver.py:65-90 | The left side of both demand constraints of (product, store) is what that store receives of that product from all storages. |
| Formulation.CapacityFamilyHolds | src/transportation_problem_solver.py:49-59 | The first loop nest's constraints all hold if and only if every (product, storage) capacity constraint holds. |
| Formulation.UpperFamilyHolds | src/transportation_problem_solver.py:65-75 | The second loop nest's constraints all hold if and only if every (product, store) upper demand constraint holds. |
| Formulation.LowerFamilyHolds | src/transportation_problem_solver.py:80-90 | The third loop nest's constraints all hold if and only if every (product, store) lower demand constraint holds. |
| Formulation.ConstraintsHoldIff | src/transportation_problem_solver.py:43-90 | An assignment satisfies every constraint if and only if each storage ships at most its stock of each product and each store receives exactly its demand of each product. |
| Formulation.DemandOverStockInfeasible | src/transportation_problem_solver.py:43-90 | If a product's total demand exceeds its total stock, no assignment satisfies the constraints. |
| Formulation.GeneratedReady | src/transportation_problem_solver.py:115-127 | After the generated cost rows are registered, every in-range triple has its own variable, numbered by the triple's cost row. Every key that `_add_constraints` looks up in the stock and demand tables exists. |
| Formulation.GeneratedShipmentBounds | src/transportation_problem_solver.py:111-113 | An assignment within the declared bounds ships between 0 and 999 units for every in-range triple. |
| Formulation.GeneratedObjective | src/transportation_problem_solver.py:93-104 | The objective of a generated instance has one term per cost row. Each in-range triple's term carries its cost and its own variable, and no other term uses that variable. |
| Formulation.ObjectiveIsTotalCost | src/transportation_problem_solver.py:93-104 | The objective's value is the sum, over the cost rows, of cost times the row's variable. |
| Solver.TransportationProblemSolver.constructor | src/transportation_problem_solver.py:11-36 | The constructor stores the sizes and the seed's stream. It starts with an empty solver model, an empty registry, `solved` false and no tables. |
| Solver.TransportationProblemSolver.Create | src/transportation_problem_solver.py:22-28 | Construction fails if and only if the requested backend cannot be created. Log-file failures are not modelled. Otherwise it returns the freshly initialised instance. |
| Solver.TransportationProblemSolver.LoadVariables | src/transportation_problem_solver.py:106-113 | Declares one variable bounded to [0, 999] per cost row, in row order. Each row's triple is registered under the new variable's index. |
| Solver.TransportationProblemSolver.AddConstraints | src/transportation_problem_solver.py:43-90 | Appends the capacity family, then the upper demand family, then the lower demand family, in loop order. Nothing else changes. |
| Solver.TransportationProblemSolver.AddCapacityConstraints | src/transportation_problem_solver.py:49-59 | Appends one capacity constraint per (product, storage), product outermost, in loop order: the store variables summed, at most the looked-up stock. |
| Solver.TransportationProblemSolver.AddUpperConstraints | src/transportation_problem_solver.py:65-75 | Appends one upper demand constraint per (product, store), product outermost, in loop order: the storage variables summed, at most the looked-up demand. |
| Solver.TransportationProblemSolver.AddLowerConstraints | src/transportation_problem_solver.py:80-90 | Appends one lower demand constraint per (product, store), product outermost, in loop order: the storage variables summed, at least the looked-up demand. |
| Solver.TransportationProblemSolver.LoadCoefficients | src/transportation_problem_solver.py:93-104 | Sets the objective to one `cost * variable` term per cost row, in row order. |
| Solver.TransportationProblemSolver.LoadProblem | src/transportation_problem_solver.py:115-134 | Stores the generated tables, declares P*S*T variables, registers every triple and adds P*S + 2*P*T constraints, whose meaning is given by Formulation.ConstraintsHoldIff. It then sets the objective and leaves `solved` unchanged. |
| Solver.TransportationProblemSolver.RunSolver | src/transportation_problem_solver.py:173-177 | `solved` becomes true on an optimal status. Any other status leaves it as it was. |
| Solver.TransportationProblemSolver.GetVariableResult | src/transportation_problem_solver.py:142-143 | Fails with `KeyError` if and only if the triple has no registered variable. Otherwise it returns that variable's solution value. |
| Solver.ExampleCounts | src/transportation_problem_solver.py:115-134 | A fresh solver for 5 storages, 3 stores and 3 products holds 45 variables and 33 constraints after `load_problem`. |

## Left out

- Solving itself is left out. OR-tools' algorithms are not modelled; `Solve()` is an input status and solution values are an input sequence. Nothing is claimed about optimality.
- `get_result_objective`, `get_result_variables` and `get_analytics` are not modelled. They only forward OR-tools queries (objective value, variable values, wall time, iterations).
- `print_solution` and `print_analytics` are not modelled because they only log or format text. Logging setup and debug messages are not modelled either.
- The random generator's real algorithm is not modelled. It is abstracted as one stream draw per `normal` or `randint` call, so numpy's actual values and bit consumption are not reproduced.
- Floating point is not modelled. Normal-distributed costs and solution values are kept as integers.
- The CSV path built from `time.time()` and the file write are not modelled. The model only records which table would be written.
- The `method` backend name is reduced to whether the backend could be created. The string raised on failure becomes the `SolverUnavailable` error.
- The fields `solver_constraints` and `solver_coefficients` are never read or written after `__init__`, so they are not modelled.
- Tables.Count: negative sizes do not fail. `range` of a negative size is empty (src/utils.py:37-39), so the model maps them to zero.
- Solver.TransportationProblemSolver.GetVariableResult: takes its parameters positionally as (product, storage, store), although the source names the last two `local` and `deposit`. It requires one solution value per declared variable; the external solver guarantees this and does not check it.
- Default arguments are not modelled: `seed=123`, `method="GLOP"` and `save_data=False` become the required inputs `draws`, `backendAvailable` and `saveData`. No modelled call relies on a default, because `load_problem` passes the seed and `save_data` explicitly.
- experimentation.py and the rest of the repository are not part of this model.
