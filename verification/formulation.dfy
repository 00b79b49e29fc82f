/**
 * The integer program the solver is given, as values: declared variables,
 * linear constraints and the objective.  The external solver is a store
 * of these; what an assignment of values to its variables must satisfy is
 * stated here, independently of any solving algorithm.
 */
module Formulation {
  import opened Arith
  import opened Tables

  /** A bounded integer variable declared to the solver (`IntVar(lb, ub, name)`). */
  datatype IntVar = IntVar(lb: int, ub: int, name: string)

  /** The bounds every shipment variable is declared with. */
  const VarLow := 0
  const VarHigh := 999

  datatype Sense = AtMost | AtLeast

  /** `Sum(x[v] for v in vars) <= rhs` or `>= rhs`: every coefficient is 1. */
  datatype Constraint = Constraint(vars: seq<nat>, sense: Sense, rhs: int)

  /** One term `coef * x[var]` of the minimised objective. */
  datatype Term = Term(coef: int, variable: nat)

  /** Values for the declared variables, by their position in the solver. */
  type Assignment = nat -> int

  /** Which solver variable stands for each (product, storage, store) triple: `solver_variables`. */
  type Registry = map<Triple, nat>

  // ---------------------------------------------------------------------
  // Meaning of constraints and objective

  function ConstraintValue(c: Constraint, x: Assignment): int
  {
    Sum(|c.vars|, (i: nat) => if i < |c.vars| then x(c.vars[i]) else 0)
  }

  predicate Holds(c: Constraint, x: Assignment)
  {
    match c.sense
    case AtMost => ConstraintValue(c, x) <= c.rhs
    case AtLeast => ConstraintValue(c, x) >= c.rhs
  }

  predicate AllHold(cs: seq<Constraint>, x: Assignment)
  {
    forall i :: 0 <= i < |cs| ==> Holds(cs[i], x)
  }

  function ObjectiveValue(terms: seq<Term>, x: Assignment): int
  {
    Sum(|terms|, (k: nat) => if k < |terms| then terms[k].coef * x(terms[k].variable) else 0)
  }

  /** An assignment respects the declared bounds of every variable. */
  predicate WithinBounds(vars: seq<IntVar>, x: Assignment)
  {
    forall v :: 0 <= v < |vars| ==> vars[v].lb <= x(v) <= vars[v].ub
  }

  // ---------------------------------------------------------------------
  // Variables: `_load_variables`

  /** The character of a decimal digit. */
  function DigitChar(d: nat): (c: char)
    requires d < 10
    ensures '0' <= c <= '9' && c as int - '0' as int == d
  {
    ('0' as int + d) as char
  }

  predicate IsDigits(s: string)
  {
    forall i :: 0 <= i < |s| ==> '0' <= s[i] <= '9'
  }

  /** The number a string of decimal digits denotes, most significant digit first. */
  function DecimalValue(s: string): nat
    requires IsDigits(s)
  {
    if s == [] then 0 else DecimalValue(s[..|s| - 1]) * 10 + (s[|s| - 1] as int - '0' as int)
  }

  /**
   * Decimal text of a natural number, as an f-string prints it: digits
   * only, denoting `n`, with no leading zero.
   */
  function NatToString(n: nat): (s: string)
    ensures |s| >= 1 && IsDigits(s)
    ensures DecimalValue(s) == n
    ensures s[0] == '0' ==> s == "0"
  {
    if n < 10 then [DigitChar(n)]
    else
      var prefix := NatToString(n / 10);
      var s := prefix + [DigitChar(n % 10)];
      assert s[..|s| - 1] == prefix;
      s
  }

  /**
   * `f"x_{product}{storage}{store}"`: `x_` followed by the decimal digits
   * of the three indices, with no separator.
   */
  function VarName(x: Triple): (r: string)
    ensures |r| >= 5 && r[..2] == "x_" && IsDigits(r[2..])
  {
    var a, b, c := NatToString(x.product), NatToString(x.storage), NatToString(x.store);
    ConcatParts("x_", a, b, c);
    "x_" + a + b + c
  }

  /**
   * The digits after `x_` split into three non-empty runs that denote the
   * product, the storage and the store, each without a leading zero; where
   * the runs meet is not marked.
   */
  lemma VarNameSplits(x: Triple)
    ensures exists i, j :: 3 <= i < j < |VarName(x)| &&
                           IsDigits(VarName(x)[2..i]) && IsDigits(VarName(x)[i..j]) && IsDigits(VarName(x)[j..]) &&
                           DecimalValue(VarName(x)[2..i]) == x.product &&
                           DecimalValue(VarName(x)[i..j]) == x.storage &&
                           DecimalValue(VarName(x)[j..]) == x.store &&
                           (VarName(x)[2] == '0' ==> i == 3) &&
                           (VarName(x)[i] == '0' ==> j == i + 1) &&
                           (VarName(x)[j] == '0' ==> |VarName(x)| == j + 1)
  {
    var a, b, c := NatToString(x.product), NatToString(x.storage), NatToString(x.store);
    ConcatParts("x_", a, b, c);
    var r := VarName(x);
    var i, j := 2 + |a|, 2 + |a| + |b|;
    assert r[2..i] == a && r[i..j] == b && r[j..] == c;
  }

  /** The pieces of a concatenation are recovered by slicing at their lengths. */
  lemma ConcatParts(p: string, a: string, b: string, c: string)
    ensures var r := p + a + b + c;
      var i, j := |p| + |a|, |p| + |a| + |b|;
      r[..|p|] == p && r[|p|..i] == a && r[i..j] == b && r[j..] == c && r[|p|..] == a + b + c
  {
  }

  /** The variables declared for the cost rows, one per row, in row order. */
  function DeclaredVars(rows: seq<CostRow>): seq<IntVar>
  {
    seq(|rows|, k requires 0 <= k < |rows| => IntVar(VarLow, VarHigh, VarName(rows[k].varName)))
  }

  /** The registry after registering `rows` in order, the first row's variable at position `base`. */
  function Register(reg: Registry, rows: seq<CostRow>, base: nat): Registry
  {
    if rows == [] then reg
    else Register(reg, rows[..|rows| - 1], base)[rows[|rows| - 1].varName := base + |rows| - 1]
  }

  /** No triple occurs in two rows. */
  predicate TriplesUnique(rows: seq<CostRow>)
  {
    forall i, j :: 0 <= i < j < |rows| ==> rows[i].varName != rows[j].varName
  }

  function RowTriples(rows: seq<CostRow>): set<Triple>
  {
    set k | 0 <= k < |rows| :: rows[k].varName
  }

  /**
   * Registering rows with distinct triples maps the triple of row `k` to
   * variable `base + k`, adds exactly the rows' triples as keys and keeps
   * every other entry.
   */
  lemma {:induction false} RegisterDistinct(reg: Registry, rows: seq<CostRow>, base: nat)
    requires TriplesUnique(rows)
    ensures Register(reg, rows, base).Keys == reg.Keys + RowTriples(rows)
    ensures forall k :: 0 <= k < |rows| ==> Register(reg, rows, base)[rows[k].varName] == base + k
    ensures forall x :: x in reg && x !in RowTriples(rows) ==> Register(reg, rows, base)[x] == reg[x]
  {
    if rows != [] {
      var n := |rows| - 1;
      var init := rows[..n];
      assert TriplesUnique(init);
      RegisterDistinct(reg, init, base);
      assert RowTriples(rows) == RowTriples(init) + {rows[n].varName};
      forall k | 0 <= k < n
        ensures rows[k].varName != rows[n].varName
      {
      }
    }
  }

  // ---------------------------------------------------------------------
  // Constraints: `_add_constraints`

  /** What `_add_constraints` reads: the sizes, the registry and the stock and demand tables. */
  datatype Inputs = Inputs(products: nat, stores: nat, storages: nat, registry: Registry,
                           stock: seq<StockRow>, demand: seq<DemandRow>)

  /** Every triple has a variable and every in-range key has a stock and a demand row. */
  predicate Ready(d: Inputs)
  {
    AllTriples(d.products, d.stores, d.storages) <= d.registry.Keys &&
    (forall p: nat, s: nat :: p < d.products && s < d.storages ==> StockLookup(d.stock, p, s).Some?) &&
    (forall p: nat, t: nat :: p < d.products && t < d.stores ==> DemandLookup(d.demand, p, t).Some?)
  }

  function VarOf(d: Inputs, p: nat, s: nat, t: nat): nat
    requires Ready(d) && p < d.products && s < d.storages && t < d.stores
  {
    assert Triple(p, s, t) in AllTriples(d.products, d.stores, d.storages);
    d.registry[Triple(p, s, t)]
  }

  function StockOf(d: Inputs, p: nat, s: nat): int
    requires Ready(d) && p < d.products && s < d.storages
  {
    StockLookup(d.stock, p, s).value
  }

  function DemandOf(d: Inputs, p: nat, t: nat): int
    requires Ready(d) && p < d.products && t < d.stores
  {
    DemandLookup(d.demand, p, t).value
  }

  /** What leaves storage `s` for product `p`, summed over the stores, is at most its stock. */
  function Capacity(d: Inputs, p: nat, s: nat): Constraint
    requires Ready(d) && p < d.products && s < d.storages
  {
    Constraint(seq(d.stores, t requires 0 <= t < d.stores => VarOf(d, p, s, t)), AtMost, StockOf(d, p, s))
  }

  /** What reaches store `t` of product `p`, summed over the storages, is at most its demand. */
  function DemandUpper(d: Inputs, p: nat, t: nat): Constraint
    requires Ready(d) && p < d.products && t < d.stores
  {
    Constraint(seq(d.storages, s requires 0 <= s < d.storages => VarOf(d, p, s, t)), AtMost, DemandOf(d, p, t))
  }

  /** What reaches store `t` of product `p`, summed over the storages, is at least its demand. */
  function DemandLower(d: Inputs, p: nat, t: nat): Constraint
    requires Ready(d) && p < d.products && t < d.stores
  {
    Constraint(seq(d.storages, s requires 0 <= s < d.storages => VarOf(d, p, s, t)), AtLeast, DemandOf(d, p, t))
  }

  /** The capacity constraints of product `p`, one per storage in order. */
  function CapacityBlock(d: Inputs, p: nat): seq<Constraint>
    requires Ready(d) && p < d.products
  {
    seq(d.storages, s requires 0 <= s < d.storages => Capacity(d, p, s))
  }

  /** The demand-upper constraints of product `p`, one per store in order. */
  function UpperBlock(d: Inputs, p: nat): seq<Constraint>
    requires Ready(d) && p < d.products
  {
    seq(d.stores, t requires 0 <= t < d.stores => DemandUpper(d, p, t))
  }

  /** The demand-lower constraints of product `p`, one per store in order. */
  function LowerBlock(d: Inputs, p: nat): seq<Constraint>
    requires Ready(d) && p < d.products
  {
    seq(d.stores, t requires 0 <= t < d.stores => DemandLower(d, p, t))
  }

  /** The capacity constraints of products `0 .. n - 1`: product outermost, then storage. */
  function CapacityFamily(d: Inputs, n: nat): seq<Constraint>
    requires Ready(d) && n <= d.products
  {
    if n == 0 then []
    else CapacityFamily(d, n - 1) + CapacityBlock(d, n - 1)
  }

  /** The demand-upper constraints of products `0 .. n - 1`: product outermost, then store. */
  function UpperFamily(d: Inputs, n: nat): seq<Constraint>
    requires Ready(d) && n <= d.products
  {
    if n == 0 then []
    else UpperFamily(d, n - 1) + UpperBlock(d, n - 1)
  }

  /** The demand-lower constraints of products `0 .. n - 1`: product outermost, then store. */
  function LowerFamily(d: Inputs, n: nat): seq<Constraint>
    requires Ready(d) && n <= d.products
  {
    if n == 0 then []
    else LowerFamily(d, n - 1) + LowerBlock(d, n - 1)
  }

  /** All constraints `_add_constraints` adds, in the order it adds them. */
  function Constraints(d: Inputs): seq<Constraint>
    requires Ready(d)
  {
    CapacityFamily(d, d.products) + UpperFamily(d, d.products) + LowerFamily(d, d.products)
  }

  // ---------------------------------------------------------------------
  // Objective: `_load_coefficients`

  /** One term `cost * x` per cost row, the variable being the one registered for the row's triple. */
  function ObjectiveTerms(rows: seq<CostRow>, reg: Registry): seq<Term>
    requires RowTriples(rows) <= reg.Keys
  {
    seq(|rows|, k requires 0 <= k < |rows| =>
      assert rows[k].varName in RowTriples(rows);
      Term(rows[k].cost, reg[rows[k].varName]))
  }

  // ---------------------------------------------------------------------
  // Shipments

  /** Units of product `p` sent from storage `s` to store `t`; a triple without a variable ships nothing. */
  function Shipped(reg: Registry, x: Assignment, p: nat, s: nat, t: nat): int
  {
    if Triple(p, s, t) in reg then x(reg[Triple(p, s, t)]) else 0
  }

  /** Units of product `p` leaving storage `s`, over all stores. */
  function ShippedFrom(d: Inputs, x: Assignment, p: nat, s: nat): int
  {
    Sum(d.stores, (t: nat) => Shipped(d.registry, x, p, s, t))
  }

  /** Units of product `p` reaching store `t`, over all storages. */
  function ShippedTo(d: Inputs, x: Assignment, p: nat, t: nat): int
  {
    Sum(d.storages, (s: nat) => Shipped(d.registry, x, p, s, t))
  }

  /** Total stock of product `p` over all storages. */
  function TotalStock(d: Inputs, p: nat): int
    requires Ready(d) && p < d.products
  {
    Sum(d.storages, (s: nat) => if s < d.storages then StockOf(d, p, s) else 0)
  }

  /** Total demand for product `p` over all stores. */
  function TotalDemand(d: Inputs, p: nat): int
    requires Ready(d) && p < d.products
  {
    Sum(d.stores, (t: nat) => if t < d.stores then DemandOf(d, p, t) else 0)
  }

  /** The capacity and demand conditions on shipments, stated without constraint records. */
  predicate ShipmentsMeetTables(d: Inputs, x: Assignment)
    requires Ready(d)
  {
    (forall p: nat, s: nat :: p < d.products && s < d.storages ==> ShippedFrom(d, x, p, s) <= StockOf(d, p, s)) &&
    (forall p: nat, t: nat :: p < d.products && t < d.stores ==> ShippedTo(d, x, p, t) == DemandOf(d, p, t))
  }

  // ---------------------------------------------------------------------
  // Counting and meaning of the constraint families

  lemma {:induction false} FamilySizes(d: Inputs, n: nat)
    requires Ready(d) && n <= d.products
    ensures |CapacityFamily(d, n)| == n * d.storages
    ensures |UpperFamily(d, n)| == n * d.stores
    ensures |LowerFamily(d, n)| == n * d.stores
  {
    if n > 0 {
      FamilySizes(d, n - 1);
    }
  }

  /** `_add_constraints` adds P * S capacity constraints and P * T of each demand kind. */
  lemma ConstraintCount(d: Inputs)
    requires Ready(d)
    ensures |Constraints(d)| == d.products * d.storages + 2 * d.products * d.stores
  {
    FamilySizes(d, d.products);
  }

  lemma AllHoldAppend(a: seq<Constraint>, b: seq<Constraint>, x: Assignment)
    ensures AllHold(a + b, x) <==> AllHold(a, x) && AllHold(b, x)
  {
    if AllHold(a, x) && AllHold(b, x) {
      forall i | 0 <= i < |a + b|
        ensures Holds((a + b)[i], x)
      {
        if i >= |a| {
          assert (a + b)[i] == b[i - |a|];
        }
      }
    }
    if AllHold(a + b, x) {
      forall i | 0 <= i < |a|
        ensures Holds(a[i], x)
      {
        assert (a + b)[i] == a[i];
      }
      forall i | 0 <= i < |b|
        ensures Holds(b[i], x)
      {
        assert (a + b)[|a| + i] == b[i];
      }
    }
  }

  lemma CapacityBlockHolds(d: Inputs, p: nat, x: Assignment)
    requires Ready(d) && p < d.products
    ensures AllHold(CapacityBlock(d, p), x) <==> forall s: nat :: s < d.storages ==> Holds(Capacity(d, p, s), x)
  {
    var block := CapacityBlock(d, p);
    assert forall s :: 0 <= s < d.storages ==> block[s] == Capacity(d, p, s);
  }

  lemma {:induction false} CapacityFamilyHolds(d: Inputs, n: nat, x: Assignment)
    requires Ready(d) && n <= d.products
    ensures AllHold(CapacityFamily(d, n), x) <==>
      forall p: nat, s: nat :: p < n && s < d.storages ==> Holds(Capacity(d, p, s), x)
  {
    if n > 0 {
      CapacityFamilyHolds(d, n - 1, x);
      CapacityBlockHolds(d, n - 1, x);
      AllHoldAppend(CapacityFamily(d, n - 1), CapacityBlock(d, n - 1), x);
      if forall p: nat, s: nat :: p < n && s < d.storages ==> Holds(Capacity(d, p, s), x) {
        var last := n - 1;
        assert forall s: nat :: s < d.storages ==> Holds(Capacity(d, last, s), x);
      }
    }
  }

  lemma UpperBlockHolds(d: Inputs, p: nat, x: Assignment)
    requires Ready(d) && p < d.products
    ensures AllHold(UpperBlock(d, p), x) <==> forall t: nat :: t < d.stores ==> Holds(DemandUpper(d, p, t), x)
  {
    var block := UpperBlock(d, p);
    assert forall t :: 0 <= t < d.stores ==> block[t] == DemandUpper(d, p, t);
  }

  lemma {:induction false} UpperFamilyHolds(d: Inputs, n: nat, x: Assignment)
    requires Ready(d) && n <= d.products
    ensures AllHold(UpperFamily(d, n), x) <==>
      forall p: nat, t: nat :: p < n && t < d.stores ==> Holds(DemandUpper(d, p, t), x)
  {
    if n > 0 {
      UpperFamilyHolds(d, n - 1, x);
      UpperBlockHolds(d, n - 1, x);
      AllHoldAppend(UpperFamily(d, n - 1), UpperBlock(d, n - 1), x);
      if forall p: nat, t: nat :: p < n && t < d.stores ==> Holds(DemandUpper(d, p, t), x) {
        var last := n - 1;
        assert forall t: nat :: t < d.stores ==> Holds(DemandUpper(d, last, t), x);
      }
    }
  }

  lemma LowerBlockHolds(d: Inputs, p: nat, x: Assignment)
    requires Ready(d) && p < d.products
    ensures AllHold(LowerBlock(d, p), x) <==> forall t: nat :: t < d.stores ==> Holds(DemandLower(d, p, t), x)
  {
    var block := LowerBlock(d, p);
    assert forall t :: 0 <= t < d.stores ==> block[t] == DemandLower(d, p, t);
  }

  lemma {:induction false} LowerFamilyHolds(d: Inputs, n: nat, x: Assignment)
    requires Ready(d) && n <= d.products
    ensures AllHold(LowerFamily(d, n), x) <==>
      forall p: nat, t: nat :: p < n && t < d.stores ==> Holds(DemandLower(d, p, t), x)
  {
    if n > 0 {
      LowerFamilyHolds(d, n - 1, x);
      LowerBlockHolds(d, n - 1, x);
      AllHoldAppend(LowerFamily(d, n - 1), LowerBlock(d, n - 1), x);
      if forall p: nat, t: nat :: p < n && t < d.stores ==> Holds(DemandLower(d, p, t), x) {
        var last := n - 1;
        assert forall t: nat :: t < d.stores ==> Holds(DemandLower(d, last, t), x);
      }
    }
  }

  /** The capacity constraint of (p, s) sums exactly what leaves storage s for product p. */
  lemma CapacityValue(d: Inputs, x: Assignment, p: nat, s: nat)
    requires Ready(d) && p < d.products && s < d.storages
    ensures ConstraintValue(Capacity(d, p, s), x) == ShippedFrom(d, x, p, s)
  {
    var c := Capacity(d, p, s);
    forall t: nat | t < d.stores
      ensures (if t < |c.vars| then x(c.vars[t]) else 0) == Shipped(d.registry, x, p, s, t)
    {
      assert c.vars[t] == VarOf(d, p, s, t);
    }
    SumExt(d.stores, (t: nat) => if t < |c.vars| then x(c.vars[t]) else 0,
      (t: nat) => Shipped(d.registry, x, p, s, t));
  }

  /** Either demand constraint of (p, t) sums exactly what reaches store t of product p. */
  lemma DemandValue(d: Inputs, x: Assignment, p: nat, t: nat)
    requires Ready(d) && p < d.products && t < d.stores
    ensures ConstraintValue(DemandUpper(d, p, t), x) == ShippedTo(d, x, p, t)
    ensures ConstraintValue(DemandLower(d, p, t), x) == ShippedTo(d, x, p, t)
  {
    var c := DemandUpper(d, p, t);
    assert DemandLower(d, p, t).vars == c.vars;
    forall s: nat | s < d.storages
      ensures (if s < |c.vars| then x(c.vars[s]) else 0) == Shipped(d.registry, x, p, s, t)
    {
      assert c.vars[s] == VarOf(d, p, s, t);
    }
    SumExt(d.storages, (s: nat) => if s < |c.vars| then x(c.vars[s]) else 0,
      (s: nat) => Shipped(d.registry, x, p, s, t));
  }

  /**
   * An assignment satisfies every constraint `_add_constraints` adds iff
   * what leaves each storage is at most its stock and what reaches each
   * store is exactly its demand.
   */
  lemma ConstraintsHoldIff(d: Inputs, x: Assignment)
    requires Ready(d)
    ensures AllHold(Constraints(d), x) <==> ShipmentsMeetTables(d, x)
  {
    var n := d.products;
    AllHoldAppend(CapacityFamily(d, n) + UpperFamily(d, n), LowerFamily(d, n), x);
    AllHoldAppend(CapacityFamily(d, n), UpperFamily(d, n), x);
    CapacityFamilyHolds(d, n, x);
    UpperFamilyHolds(d, n, x);
    LowerFamilyHolds(d, n, x);
    forall p: nat, s: nat | p < n && s < d.storages
      ensures Holds(Capacity(d, p, s), x) <==> ShippedFrom(d, x, p, s) <= StockOf(d, p, s)
    {
      CapacityValue(d, x, p, s);
    }
    forall p: nat, t: nat | p < n && t < d.stores
      ensures Holds(DemandUpper(d, p, t), x) && Holds(DemandLower(d, p, t), x) <==>
        ShippedTo(d, x, p, t) == DemandOf(d, p, t)
    {
      DemandValue(d, x, p, t);
    }
  }

  /**
   * If the demand for some product, summed over the stores, exceeds its
   * stock summed over the storages, no assignment satisfies the constraints.
   */
  lemma DemandOverStockInfeasible(d: Inputs, x: Assignment, p: nat)
    requires Ready(d) && p < d.products
    requires TotalDemand(d, p) > TotalStock(d, p)
    ensures !AllHold(Constraints(d), x)
  {
    if AllHold(Constraints(d), x) {
      ConstraintsHoldIff(d, x);
      var g := (s: nat, t: nat) => Shipped(d.registry, x, p, s, t);
      SumSwap(d.storages, d.stores, g);
      forall s: nat | s < d.storages
        ensures Sum(d.stores, (t: nat) => g(s, t)) == ShippedFrom(d, x, p, s)
      {
        SumExt(d.stores, (t: nat) => g(s, t), (t: nat) => Shipped(d.registry, x, p, s, t));
      }
      forall t: nat | t < d.stores
        ensures Sum(d.storages, (s: nat) => g(s, t)) == ShippedTo(d, x, p, t)
      {
        SumExt(d.storages, (s: nat) => g(s, t), (s: nat) => Shipped(d.registry, x, p, s, t));
      }
      SumExt(d.storages, (s: nat) => Sum(d.stores, (t: nat) => g(s, t)), (s: nat) => ShippedFrom(d, x, p, s));
      SumExt(d.stores, (t: nat) => Sum(d.storages, (s: nat) => g(s, t)), (t: nat) => ShippedTo(d, x, p, t));
      SumExt(d.stores, (t: nat) => ShippedTo(d, x, p, t), (t: nat) => if t < d.stores then DemandOf(d, p, t) else 0);
      SumLe(d.storages, (s: nat) => ShippedFrom(d, x, p, s), (s: nat) => if s < d.storages then StockOf(d, p, s) else 0);
      assert false;
    }
  }

  // ---------------------------------------------------------------------
  // The formulation of a generated instance

  /**
   * Registering the generated cost rows gives every in-range triple its own
   * variable, numbered by the triple's cost row, and with the generated
   * stock and demand tables everything `_add_constraints` looks up exists.
   */
  lemma GeneratedReady(products: nat, stores: nat, storages: nat, draws: nat -> int, reg0: Registry, base: nat)
    ensures Register(reg0, CostTable(products, stores, storages, draws), base).Keys
      == reg0.Keys + AllTriples(products, stores, storages)
    ensures forall p: nat, s: nat, t: nat :: p < products && s < storages && t < stores ==>
      Triple(p, s, t) in AllTriples(products, stores, storages) &&
      Register(reg0, CostTable(products, stores, storages, draws), base)[Triple(p, s, t)]
        == base + CostIndex(products, stores, p, s, t)
    ensures Ready(Inputs(products, stores, storages, Register(reg0, CostTable(products, stores, storages, draws), base),
                         StockTable(products, stores, storages, draws), DemandTable(products, stores, storages, draws)))
  {
    var rows := CostTable(products, stores, storages, draws);
    CostTableUnique(products, stores, storages, draws);
    CostTableCovers(products, stores, storages, draws);
    RegisterDistinct(reg0, rows, base);
    forall p: nat, s: nat, t: nat | p < products && s < storages && t < stores
      ensures Triple(p, s, t) in AllTriples(products, stores, storages)
      ensures Register(reg0, rows, base)[Triple(p, s, t)] == base + CostIndex(products, stores, p, s, t)
    {
      CostTableLayout(products, stores, storages, draws, p, s, t);
    }
    forall p: nat, s: nat | p < products && s < storages
      ensures StockLookup(StockTable(products, stores, storages, draws), p, s).Some?
    {
      StockLookupFinds(products, stores, storages, draws, p, s);
    }
    forall p: nat, t: nat | p < products && t < stores
      ensures DemandLookup(DemandTable(products, stores, storages, draws), p, t).Some?
    {
      DemandLookupFinds(products, stores, storages, draws, p, t);
    }
  }

  /**
   * The objective of a generated instance has one term per cost row; the
   * term of each in-range triple carries that triple's cost and its
   * variable, and no other term mentions that variable.
   */
  lemma GeneratedObjective(products: nat, stores: nat, storages: nat, draws: nat -> int, reg0: Registry, base: nat)
    ensures RowTriples(CostTable(products, stores, storages, draws))
      <= Register(reg0, CostTable(products, stores, storages, draws), base).Keys
    ensures var rows := CostTable(products, stores, storages, draws);
      var reg := Register(reg0, rows, base);
      var terms := ObjectiveTerms(rows, reg);
      |terms| == products * storages * stores &&
      forall p: nat, s: nat, t: nat :: p < products && s < storages && t < stores ==>
        var i := CostIndex(products, stores, p, s, t);
        Triple(p, s, t) in reg && i < |terms| &&
        terms[i] == Term(rows[i].cost, reg[Triple(p, s, t)]) &&
        forall k :: 0 <= k < |terms| && k != i ==> terms[k].variable != reg[Triple(p, s, t)]
  {
    var rows := CostTable(products, stores, storages, draws);
    var reg := Register(reg0, rows, base);
    CostTableShape(products, stores, storages, draws);
    CostTableUnique(products, stores, storages, draws);
    RegisterDistinct(reg0, rows, base);
    GeneratedReady(products, stores, storages, draws, reg0, base);
    var terms := ObjectiveTerms(rows, reg);
    forall p: nat, s: nat, t: nat | p < products && s < storages && t < stores
      ensures CostIndex(products, stores, p, s, t) < |terms|
      ensures terms[CostIndex(products, stores, p, s, t)] == Term(rows[CostIndex(products, stores, p, s, t)].cost, reg[Triple(p, s, t)])
      ensures forall k :: 0 <= k < |terms| && k != CostIndex(products, stores, p, s, t) ==> terms[k].variable != reg[Triple(p, s, t)]
    {
      var i := CostIndex(products, stores, p, s, t);
      CostTableLayout(products, stores, storages, draws, p, s, t);
      forall k | 0 <= k < |terms| && k != i
        ensures terms[k].variable != reg[Triple(p, s, t)]
      {
        assert terms[k].variable == reg[rows[k].varName] == base + k;
      }
    }
  }

  /**
   * An assignment within the declared bounds ships between 0 and 999 units
   * for every in-range triple of a generated instance.
   */
  lemma GeneratedShipmentBounds(products: nat, stores: nat, storages: nat, draws: nat -> int, x: Assignment)
    requires WithinBounds(DeclaredVars(CostTable(products, stores, storages, draws)), x)
    ensures forall p: nat, s: nat, t: nat :: p < products && s < storages && t < stores ==>
      VarLow <= Shipped(Register(map[], CostTable(products, stores, storages, draws), 0), x, p, s, t) <= VarHigh
  {
    var rows := CostTable(products, stores, storages, draws);
    var reg := Register(map[], rows, 0);
    GeneratedReady(products, stores, storages, draws, map[], 0);
    forall p: nat, s: nat, t: nat | p < products && s < storages && t < stores
      ensures VarLow <= Shipped(reg, x, p, s, t) <= VarHigh
    {
      CostTableLayout(products, stores, storages, draws, p, s, t);
      var i := CostIndex(products, stores, p, s, t);
      assert reg[Triple(p, s, t)] == i;
      assert DeclaredVars(rows)[i] == IntVar(VarLow, VarHigh, VarName(rows[i].varName));
    }
  }

  /**
   * With rows of distinct triples registered from variable 0, the
   * objective of an assignment is the sum, over the rows, of each row's
   * cost times the value of the row's own variable.
   */
  lemma ObjectiveIsTotalCost(rows: seq<CostRow>, x: Assignment)
    requires TriplesUnique(rows)
    ensures RowTriples(rows) <= Register(map[], rows, 0).Keys
    ensures ObjectiveValue(ObjectiveTerms(rows, Register(map[], rows, 0)), x)
      == Sum(|rows|, (k: nat) => if k < |rows| then rows[k].cost * x(k) else 0)
  {
    var reg := Register(map[], rows, 0);
    RegisterDistinct(map[], rows, 0);
    var terms := ObjectiveTerms(rows, reg);
    var f := (k: nat) => if k < |terms| then terms[k].coef * x(terms[k].variable) else 0;
    var g := (k: nat) => if k < |rows| then rows[k].cost * x(k) else 0;
    forall k: nat | k < |terms|
      ensures f(k) == g(k)
    {
      assert terms[k] == Term(rows[k].cost, reg[rows[k].varName]);
      assert reg[rows[k].varName] == k;
    }
    SumExt(|terms|, f, g);
  }

  /** Variable names are not unique: (1, 11, 1) and (11, 1, 1) are both named "x_1111". */
  lemma VarNamesCollide()
    ensures Triple(1, 11, 1) != Triple(11, 1, 1)
    ensures VarName(Triple(1, 11, 1)) == VarName(Triple(11, 1, 1)) == "x_1111"
  {
    assert NatToString(1) == "1";
    assert NatToString(11) == NatToString(1) + "1" == "11";
  }
}
