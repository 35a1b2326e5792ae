/**
  The decision procedure of `tuner/plugin.c`: the first matching rule, else the cost model, else
  NCCL's own table.
 */
module Tuner {
  import opened Common
  import opened CostModel

  const IGNORE := -1.0
  const DISABLED_COST := 1.0e9

  /** A line of the configuration file; -1 in the last fields matches anything. */
  datatype Rule = Rule(
    collType: Coll, minBytes: nat, maxBytes: nat, algorithm: Algo, protocol: Proto, nChannels: int,
    nNodes: int, nRanks: int, numPipeOps: int, regBuff: int)

  datatype Context = Context(rules: seq<Rule>, topo: Topo, useCostModel: bool, forceCostModel: bool, params: Params)

  datatype Request = Request(coll: Coll, nBytes: nat, numPipeOps: int, regBuff: int)

  datatype Code = Success | InternalError

  predicate Matches(r: Rule, t: Topo, q: Request) {
    && r.collType == q.coll && r.minBytes <= q.nBytes <= r.maxBytes
    && (r.nNodes == -1 || r.nNodes == t.nNodes)
    && (r.nRanks == -1 || r.nRanks == t.nRanks)
    && (r.numPipeOps == -1 || r.numPipeOps == q.numPipeOps)
    && (r.regBuff == -1 || r.regBuff == q.regBuff)
  }

  /** A rule that applies at one size applies exactly at the sizes of its window, both ends included. */
  lemma WindowIsClosed(r: Rule, t: Topo, q: Request, n: nat)
    requires Matches(r, t, q)
    ensures Matches(r, t, q.(nBytes := r.minBytes)) && Matches(r, t, q.(nBytes := r.maxBytes))
    ensures Matches(r, t, q.(nBytes := n)) <==> r.minBytes <= n <= r.maxBytes
  {}

  /** A field set to -1 no longer matters, and any other value must be met. */
  lemma FieldsNarrow(r: Rule, t: Topo, q: Request, nNodes: int, nRanks: int, pipeOps: int, regBuff: int)
    requires Matches(r, t, q)
    ensures var free := r.(nNodes := -1, nRanks := -1, numPipeOps := -1, regBuff := -1);
      Matches(free, t.(nNodes := nNodes, nRanks := nRanks), q.(numPipeOps := pipeOps, regBuff := regBuff))
    ensures var fixed := r.(nNodes := t.nNodes, nRanks := t.nRanks, numPipeOps := q.numPipeOps, regBuff := q.regBuff);
      var same := nNodes == t.nNodes && nRanks == t.nRanks && pipeOps == q.numPipeOps && regBuff == q.regBuff;
      t.nNodes != -1 && t.nRanks != -1 && q.numPipeOps != -1 && q.regBuff != -1 ==>
        Matches(fixed, t.(nNodes := nNodes, nRanks := nRanks), q.(numPipeOps := pipeOps, regBuff := regBuff)) == same
    ensures forall coll :: Matches(r, t, q.(coll := coll)) <==> coll == q.coll
  {}

  /** The cost table is numAlgo rows of NUM_PROTOCOLS floats, whatever numProto is. */
  ghost predicate TableShape(table: array2<real>, numAlgo: int, numProto: int) {
    table.Length0 >= numAlgo && table.Length1 == NUM_PROTOCOLS
  }

  type Price = (Algo, Proto) -> real

  predicate InRange(a: int, p: int, numAlgo: int, numProto: int) {
    0 <= a < NUM_ALGORITHMS && a < numAlgo && 0 <= p < NUM_PROTOCOLS && p < numProto
  }

  /** A usable cell the model has a price for. */
  predicate Priced(price: Price, v: real, a: int, p: int, numAlgo: int, numProto: int) {
    InRange(a, p, numAlgo, numProto) && v != IGNORE && price(a, p) >= 0.0
  }

  /** What applying the model makes of a cell that held `v`. */
  function Applied(price: Price, v: real, a: int, p: int, numAlgo: int, numProto: int, disable: bool): real {
    if !InRange(a, p, numAlgo, numProto) || v == IGNORE then v
    else if price(a, p) >= 0.0 then price(a, p)
    else if disable then DISABLED_COST
    else v
  }

  type Contents = (int, int) -> real

  /** A usable cell the model has no price for. */
  predicate Unpriced(price: Price, was: Contents, a: int, p: int, numAlgo: int, numProto: int) {
    InRange(a, p, numAlgo, numProto) && was(a, p) != IGNORE && price(a, p) < 0.0
  }

  /** Cell (a, p) has been visited when the loops stand at (i, j). */
  predicate Visited(a: int, p: int, i: int, j: int) { a < i || (a == i && p < j) }

  /** The cells listed are the unpriced ones visited so far. */
  ghost predicate Listed(cells: seq<(int, int)>, price: Price, was: Contents, i: int, j: int, numAlgo: int,
                         numProto: int) {
    && (forall k :: 0 <= k < |cells| ==> Unpriced(price, was, cells[k].0, cells[k].1, numAlgo, numProto))
    && (forall a, p :: Unpriced(price, was, a, p, numAlgo, numProto) && Visited(a, p, i, j) ==> (a, p) in cells)
  }

  /** `unpriced` holds the flat indices of the cells. */
  ghost predicate Flat(list: seq<int>, cells: seq<(int, int)>) {
    |list| == |cells| && forall k :: 0 <= k < |cells| ==> list[k] == FlatIndex(cells[k].0, cells[k].1)
  }

  function FlatIndex(a: int, p: int): int { a * NUM_PROTOCOLS + p }

  lemma FlatInverse(a: int, p: int)
    requires 0 <= p < NUM_PROTOCOLS
    ensures FlatIndex(a, p) / NUM_PROTOCOLS == a && FlatIndex(a, p) % NUM_PROTOCOLS == p
  {}

  /** The table as a function, for cells inside it. */
  ghost predicate Holds(table: array2<real>, was: Contents)
    reads table
  {
    forall a, p :: 0 <= a < table.Length0 && 0 <= p < table.Length1 ==> table[a, p] == was(a, p)
  }

  /** A cell after the loops passed it or not, before any is disabled. */
  function Halfway(price: Price, was: Contents, x: int, y: int, i: int, j: int, numAlgo: int, numProto: int): real {
    if Visited(x, y, i, j) then Applied(price, was(x, y), x, y, numAlgo, numProto, false) else was(x, y)
  }

  lemma ListedStep(cells: seq<(int, int)>, price: Price, was: Contents, a: int, p: int, numAlgo: int, numProto: int)
    requires Listed(cells, price, was, a, p, numAlgo, numProto)
    ensures var cells' := if Unpriced(price, was, a, p, numAlgo, numProto) then cells + [(a, p)] else cells;
      Listed(cells', price, was, a, p + 1, numAlgo, numProto)
  {
    var cells' := cells + [(a, p)];
    assert cells'[|cells|] == (a, p);
    forall x, y | Unpriced(price, was, x, y, numAlgo, numProto) && Visited(x, y, a, p + 1)
      ensures (x, y) in cells || (x, y) == (a, p)
    {
      assert Visited(x, y, a, p) || (x, y) == (a, p);
    }
  }

  /** The inner loop, over row `a`: prices go in, the cells without one are listed. */
  method PriceRow(table: array2<real>, numAlgo: int, numProto: int, price: Price, a: int, populated0: nat,
                  list: array<int>, n0: nat,
                  ghost was: Contents, ghost cells0: seq<(int, int)>)
    returns (populated: nat, n: nat, ghost cells: seq<(int, int)>)
    requires TableShape(table, numAlgo, numProto) && 0 <= a < NUM_ALGORITHMS && a < numAlgo
    requires list.Length == NUM_ALGORITHMS * NUM_PROTOCOLS && n0 <= a * NUM_PROTOCOLS
    requires Flat(list[..n0], cells0) && Listed(cells0, price, was, a, 0, numAlgo, numProto)
    requires forall x, y :: 0 <= x < table.Length0 && 0 <= y < table.Length1 ==>
      table[x, y] == Halfway(price, was, x, y, a, 0, numAlgo, numProto)
    modifies table, list
    ensures n <= (a + 1) * NUM_PROTOCOLS && Flat(list[..n], cells)
    ensures Listed(cells, price, was, a + 1, 0, numAlgo, numProto)
    ensures forall x, y :: 0 <= x < table.Length0 && 0 <= y < table.Length1 ==>
      table[x, y] == Halfway(price, was, x, y, a + 1, 0, numAlgo, numProto)
    ensures populated0 <= populated
    ensures populated == populated0 <==> forall y :: !Priced(price, was(a, y), a, y, numAlgo, numProto)
  {
    populated, n, cells := populated0, n0, cells0;
    ghost var wp := 0;
    var p := 0;
    while p < numProto && p < NUM_PROTOCOLS
      invariant 0 <= p <= NUM_PROTOCOLS && (p == 0 || p <= numProto)
      invariant n <= a * NUM_PROTOCOLS + p && Flat(list[..n], cells)
      invariant Listed(cells, price, was, a, p, numAlgo, numProto)
      invariant forall x, y :: 0 <= x < table.Length0 && 0 <= y < table.Length1 ==>
        table[x, y] == Halfway(price, was, x, y, a, p, numAlgo, numProto)
      invariant populated0 <= populated
      invariant populated > populated0 ==> Priced(price, was(a, wp), a, wp, numAlgo, numProto)
      invariant populated == populated0 ==> forall y :: y < p ==> !Priced(price, was(a, y), a, y, numAlgo, numProto)
    {
      var priced;
      ListedStep(cells, price, was, a, p, numAlgo, numProto);
      priced, n, cells := PriceCell(table, numAlgo, numProto, price, a, p, list, n, was, cells);
      if priced {
        populated := populated + 1;
        wp := p;
      }
      p := p + 1;
    }
  }

  /** The loop body. */
  method PriceCell(table: array2<real>, numAlgo: int, numProto: int, price: Price, a: int, p: int, list: array<int>,
                   n0: nat,
                   ghost was: Contents, ghost cells0: seq<(int, int)>)
    returns (priced: bool, n: nat, ghost cells: seq<(int, int)>)
    requires TableShape(table, numAlgo, numProto) && InRange(a, p, numAlgo, numProto) && table[a, p] == was(a, p)
    requires n0 < list.Length && Flat(list[..n0], cells0)
    modifies table, list
    ensures n0 <= n <= n0 + 1 && n <= list.Length && Flat(list[..n], cells)
    ensures cells == if Unpriced(price, was, a, p, numAlgo, numProto) then cells0 + [(a, p)] else cells0
    ensures priced == Priced(price, was(a, p), a, p, numAlgo, numProto)
    ensures table[a, p] == Applied(price, was(a, p), a, p, numAlgo, numProto, false)
    ensures forall x, y :: 0 <= x < table.Length0 && 0 <= y < table.Length1 && (x != a || y != p) ==>
      table[x, y] == old(table[x, y])
  {
    priced, n, cells := false, n0, cells0;
    if table[a, p] != IGNORE {
      var t := price(a, p);
      if t < 0.0 {
        ghost var before := list[..n];
        list[n] := FlatIndex(a, p);
        n := n + 1;
        cells := cells + [(a, p)];
        assert list[..n] == before + [FlatIndex(a, p)];
      } else {
        table[a, p] := t;
        priced := true;
      }
    }
  }

  /** The double loop. */
  method PriceCells(table: array2<real>, numAlgo: int, numProto: int, price: Price, ghost was: Contents)
    returns (populated: nat, list: array<int>, n: nat, ghost cells: seq<(int, int)>)
    requires TableShape(table, numAlgo, numProto) && Holds(table, was)
    modifies table
    ensures fresh(list) && n <= list.Length && Flat(list[..n], cells)
    ensures Listed(cells, price, was, NUM_ALGORITHMS, 0, numAlgo, numProto)
    ensures forall x, y :: 0 <= x < table.Length0 && 0 <= y < table.Length1 ==>
      table[x, y] == Halfway(price, was, x, y, NUM_ALGORITHMS, 0, numAlgo, numProto)
    ensures populated > 0 <==> exists x, y :: Priced(price, was(x, y), x, y, numAlgo, numProto)
  {
    populated, n, cells := 0, 0, [];
    list := new int[NUM_ALGORITHMS * NUM_PROTOCOLS];
    var a := 0;
    while a < numAlgo && a < NUM_ALGORITHMS
      invariant 0 <= a <= NUM_ALGORITHMS && (a == 0 || a <= numAlgo)
      invariant n <= a * NUM_PROTOCOLS && Flat(list[..n], cells) && Listed(cells, price, was, a, 0, numAlgo, numProto)
      invariant forall x, y :: 0 <= x < table.Length0 && 0 <= y < table.Length1 ==>
        table[x, y] == Halfway(price, was, x, y, a, 0, numAlgo, numProto)
      invariant populated > 0 ==> exists x, y :: Priced(price, was(x, y), x, y, numAlgo, numProto)
      invariant populated == 0 ==> forall x, y :: x < a ==> !Priced(price, was(x, y), x, y, numAlgo, numProto)
    {
      populated, n, cells := PriceRow(table, numAlgo, numProto, price, a, populated, list, n, was, cells);
      a := a + 1;
    }
  }

  /** The unpriced cells get the disabled cost. */
  method DisableCells(table: array2<real>, numAlgo: int, numProto: int, price: Price, list: array<int>, n: nat,
                      ghost was: Contents, ghost cells: seq<(int, int)>)
    requires TableShape(table, numAlgo, numProto) && n <= list.Length && Flat(list[..n], cells)
    requires Listed(cells, price, was, NUM_ALGORITHMS, 0, numAlgo, numProto)
    requires forall x, y :: 0 <= x < table.Length0 && 0 <= y < table.Length1 ==>
      table[x, y] == Applied(price, was(x, y), x, y, numAlgo, numProto, false)
    modifies table
    ensures forall x, y :: 0 <= x < table.Length0 && 0 <= y < table.Length1 ==>
      table[x, y] == Applied(price, was(x, y), x, y, numAlgo, numProto, true)
  {
    var i := 0;
    while i < n
      invariant 0 <= i <= n
      invariant forall x, y :: 0 <= x < table.Length0 && 0 <= y < table.Length1 ==>
        table[x, y] == Applied(price, was(x, y), x, y, numAlgo, numProto, (x, y) in cells[..i])
    {
      ghost var c := cells[i];
      assert list[..n][i] == list[i] && cells[..i + 1] == cells[..i] + [c];
      assert Unpriced(price, was, c.0, c.1, numAlgo, numProto);
      FlatInverse(c.0, c.1);
      table[list[i] / NUM_PROTOCOLS, list[i] % NUM_PROTOCOLS] := DISABLED_COST;
      i := i + 1;
    }
    assert cells[..i] == cells;
    forall x, y | 0 <= x < table.Length0 && 0 <= y < table.Length1
      ensures table[x, y] == Applied(price, was(x, y), x, y, numAlgo, numProto, true)
    {
      assert Unpriced(price, was, x, y, numAlgo, numProto) ==> (x, y) in cells;
    }
  }

  /** applyCostModelGeneric */
  method ApplyCostModel(table: array2<real>, numAlgo: int, numProto: int, price: Price, disableUnmodeled: bool,
                        ghost was: Contents)
    returns (populated: nat)
    requires TableShape(table, numAlgo, numProto) && Holds(table, was)
    modifies table
    ensures populated > 0 <==> exists x, y :: Priced(price, was(x, y), x, y, numAlgo, numProto)
    ensures forall x, y :: 0 <= x < table.Length0 && 0 <= y < table.Length1 ==>
      table[x, y] == Applied(price, was(x, y), x, y, numAlgo, numProto, populated > 0 && disableUnmodeled)
  {
    var list, n;
    ghost var cells;
    populated, list, n, cells := PriceCells(table, numAlgo, numProto, price, was);
    forall x, y | 0 <= x < table.Length0 && 0 <= y < table.Length1
      ensures table[x, y] == Applied(price, was(x, y), x, y, numAlgo, numProto, false)
    {
      assert Visited(x, y, NUM_ALGORITHMS, 0) || !InRange(x, y, numAlgo, numProto);
    }
    if populated > 0 && disableUnmodeled {
      DisableCells(table, numAlgo, numProto, price, list, n, was, cells);
    }
  }

  // ------------------------------------------------------------------- the whole decision

  /** Rule `r` decides: it matches, and its cell is in the table and not ruled out by NCCL. */
  predicate Decides(r: Rule, t: Topo, q: Request, was: Contents, numAlgo: int, numProto: int) {
    Matches(r, t, q) && r.algorithm < numAlgo && r.protocol < numProto && was(r.algorithm, r.protocol) != IGNORE
  }

  /** The first rule from `i` on that decides. */
  function FirstRule(c: Context, q: Request, was: Contents, numAlgo: int, numProto: int, i: nat): (r: Option<nat>)
    ensures r.Some? ==> i <= r.value < |c.rules| && Decides(c.rules[r.value], c.topo, q, was, numAlgo, numProto)
    ensures forall k :: i <= k < (if r.Some? then r.value else |c.rules|) ==>
      !Decides(c.rules[k], c.topo, q, was, numAlgo, numProto)
    decreases |c.rules| - i
  {
    if i >= |c.rules| then None
    else if Decides(c.rules[i], c.topo, q, was, numAlgo, numProto) then Some(i)
    else FirstRule(c, q, was, numAlgo, numProto, i + 1)
  }

  function RuleFor(c: Context, q: Request, was: Contents, numAlgo: int, numProto: int): Option<nat> {
    if c.forceCostModel then None else FirstRule(c, q, was, numAlgo, numProto, 0)
  }

  function PriceFor(c: Context, q: Request): Price
    requires c.topo.nNodes >= 1 && Modelled(q.coll)
  {
    (a: Algo, p: Proto) => Time(c.params, c.topo, q.coll, a, p, q.nBytes, q.numPipeOps, q.regBuff)
  }

  ghost predicate AnyPriced(price: Price, was: Contents, numAlgo: int, numProto: int) {
    exists x, y :: Priced(price, was(x, y), x, y, numAlgo, numProto)
  }

  /** What cell (x, y) holds when the call returns. */
  ghost function Outcome(c: Context, q: Request, was: Contents, x: int, y: int, numAlgo: int, numProto: int): real
    requires c.topo.nNodes >= 1
  {
    match RuleFor(c, q, was, numAlgo, numProto)
    case Some(i) => if (x, y) == (c.rules[i].algorithm, c.rules[i].protocol) then 0.0 else was(x, y)
    case None =>
      if c.useCostModel && Modelled(q.coll) then
        var price := PriceFor(c, q);
        var disable := AnyPriced(price, was, numAlgo, numProto) && c.params.disableUnmodeledCells;
        Applied(price, was(x, y), x, y, numAlgo, numProto, disable)
      else was(x, y)
  }

  /** pluginGetCollInfo; `was` is what the table holds. */
  method GetCollInfo(context: Option<Context>, q: Request, table: array2<real>, numAlgo: int, numProto: int,
                     nChannels: int, ghost was: Contents)
    returns (code: Code, nChannels': int)
    requires TableShape(table, numAlgo, numProto) && Holds(table, was)
    requires context.Some? ==> context.value.topo.nNodes >= 1
    modifies table
    ensures code == if context.Some? then Success else InternalError
    ensures context.None? ==> nChannels' == nChannels && Holds(table, was)
    ensures context.Some? ==> forall x, y :: 0 <= x < table.Length0 && 0 <= y < table.Length1 ==>
      table[x, y] == Outcome(context.value, q, was, x, y, numAlgo, numProto)
    ensures context.Some? ==> nChannels' == match RuleFor(context.value, q, was, numAlgo, numProto)
      case Some(i) => if context.value.rules[i].nChannels != -1 then context.value.rules[i].nChannels else nChannels
      case None => nChannels
  {
    nChannels' := nChannels;
    if context.None? {
      return InternalError, nChannels';
    }
    code := Success;
    var c := context.value;
    var i := 0;
    while !c.forceCostModel && i < |c.rules|
      invariant 0 <= i <= |c.rules| && Holds(table, was) && nChannels' == nChannels
      invariant RuleFor(c, q, was, numAlgo, numProto)
             == if c.forceCostModel then None else FirstRule(c, q, was, numAlgo, numProto, i)
    {
      var r := c.rules[i];
      if Matches(r, c.topo, q) && r.algorithm < numAlgo && r.protocol < numProto
          && table[r.algorithm, r.protocol] != IGNORE {
        table[r.algorithm, r.protocol] := 0.0;
        if r.nChannels != -1 {
          nChannels' := r.nChannels;
        }
        return;
      }
      i := i + 1;
    }
    if c.useCostModel && Modelled(q.coll) {
      var n := ApplyCostModel(table, numAlgo, numProto, PriceFor(c, q), c.params.disableUnmodeledCells, was);
    }
  }

  /** Cells that NCCL ruled out stay ruled out, and no other cell becomes one. */
  lemma IgnoreIsKept(c: Context, q: Request, was: Contents, x: int, y: int, numAlgo: int, numProto: int)
    requires c.topo.nNodes >= 1
    ensures Outcome(c, q, was, x, y, numAlgo, numProto) == IGNORE <==> was(x, y) == IGNORE
  {}

  /** Without a deciding rule and without a priced cell the whole table is NCCL's. */
  lemma NothingPricedNothingChanged(c: Context, q: Request, was: Contents, x: int, y: int, numAlgo: int, numProto: int)
    requires c.topo.nNodes >= 1 && RuleFor(c, q, was, numAlgo, numProto).None?
    requires c.useCostModel && Modelled(q.coll) ==> !AnyPriced(PriceFor(c, q), was, numAlgo, numProto)
    ensures Outcome(c, q, was, x, y, numAlgo, numProto) == was(x, y)
  {
    if c.useCostModel && Modelled(q.coll) {
      assert !Priced(PriceFor(c, q), was(x, y), x, y, numAlgo, numProto);
    }
  }

  /** Where the model decides, its cell (a, p) holds the least value NCCL finds in a usable cell. */
  ghost predicate Wins(c: Context, q: Request, was: Contents, a: Algo, p: Proto, numAlgo: int, numProto: int)
    requires c.topo.nNodes >= 1 && Modelled(q.coll)
  {
    && InRange(a, p, numAlgo, numProto) && was(a, p) != IGNORE && PriceFor(c, q)(a, p) >= 0.0
    && forall x: Algo, y: Proto :: InRange(x, y, numAlgo, numProto) && was(x, y) != IGNORE ==>
         NotBelow(c, q, was, x, y, numAlgo, numProto, Outcome(c, q, was, a, p, numAlgo, numProto))
  }

  ghost predicate NotBelow(c: Context, q: Request, was: Contents, x: int, y: int, numAlgo: int, numProto: int, v: real)
    requires c.topo.nNodes >= 1
  {
    v <= Outcome(c, q, was, x, y, numAlgo, numProto)
  }

  /** A deciding rule makes its cell the one NCCL picks, if NCCL's own costs are positive. */
  lemma RuleWins(c: Context, q: Request, was: Contents, numAlgo: int, numProto: int, x: Algo, y: Proto)
    requires c.topo.nNodes >= 1 && RuleFor(c, q, was, numAlgo, numProto).Some?
    requires InRange(x, y, numAlgo, numProto) && was(x, y) > 0.0
    ensures var r := c.rules[RuleFor(c, q, was, numAlgo, numProto).value];
      && InRange(r.algorithm, r.protocol, numAlgo, numProto) && was(r.algorithm, r.protocol) != IGNORE
      && ((x, y) != (r.algorithm, r.protocol) ==>
            Outcome(c, q, was, r.algorithm, r.protocol, numAlgo, numProto)
              < Outcome(c, q, was, x, y, numAlgo, numProto))
  {}

  /** The model decides: no rule does, and cells the model cannot price are disabled. */
  predicate ModelDecides(c: Context, q: Request, was: Contents, numAlgo: int, numProto: int) {
    && c.topo.nNodes >= 1 && Modelled(q.coll) && RuleFor(c, q, was, numAlgo, numProto).None?
    && c.useCostModel && c.params.disableUnmodeledCells
  }

  /** There, NCCL sees a usable cell's price, or the disabled cost, and never its own estimate. */
  lemma NeverMixed(c: Context, q: Request, was: Contents, a: Algo, p: Proto, x: Algo, y: Proto, numAlgo: int,
                   numProto: int)
    requires ModelDecides(c, q, was, numAlgo, numProto)
    requires InRange(a, p, numAlgo, numProto) && was(a, p) != IGNORE && PriceFor(c, q)(a, p) >= 0.0
    requires InRange(x, y, numAlgo, numProto) && was(x, y) != IGNORE
    ensures var t := PriceFor(c, q)(x, y);
      Outcome(c, q, was, x, y, numAlgo, numProto) == if t >= 0.0 then t else DISABLED_COST
  {
    assert Priced(PriceFor(c, q), was(a, p), a, p, numAlgo, numProto);
  }

  /** So the sizes at which NCCL finds its minimum in a given cell form an interval. */
  lemma WinnerIsInterval(c: Context, q: Request, was: Contents, a: Algo, p: Proto, numAlgo: int, numProto: int,
                         lo: nat, hi: nat)
    requires lo <= q.nBytes <= hi && ModelDecides(c, q, was, numAlgo, numProto)
    requires ModelDecides(c, q.(nBytes := lo), was, numAlgo, numProto)
    requires ModelDecides(c, q.(nBytes := hi), was, numAlgo, numProto)
    requires forall x: Algo, y: Proto :: InRange(x, y, numAlgo, numProto) && was(x, y) != IGNORE && (x, y) != (a, p) ==>
      !NegativePat(c.params, c.topo, q.coll, x, y)
    requires Wins(c, q.(nBytes := lo), was, a, p, numAlgo, numProto)
    requires Wins(c, q.(nBytes := hi), was, a, p, numAlgo, numProto)
    ensures Wins(c, q, was, a, p, numAlgo, numProto)
  {
    var usable := (x: Algo, y: Proto) => InRange(x, y, numAlgo, numProto) && was(x, y) != IGNORE;
    WinnerIsCheapest(c, q.(nBytes := lo), was, a, p, numAlgo, numProto, usable);
    WinnerIsCheapest(c, q.(nBytes := hi), was, a, p, numAlgo, numProto, usable);
    CheapestIsInterval(c.params, c.topo, q.coll, usable, a, p, lo, q.nBytes, hi, q.numPipeOps, q.regBuff);
    PriceMono(c.params, c.topo, q.coll, a, p, q.nBytes, hi, q.numPipeOps, q.regBuff);
    var v := PriceFor(c, q)(a, p);
    NeverMixed(c, q, was, a, p, a, p, numAlgo, numProto);
    forall x: Algo, y: Proto | InRange(x, y, numAlgo, numProto) && was(x, y) != IGNORE
      ensures NotBelow(c, q, was, x, y, numAlgo, numProto, v)
    {
      NeverMixed(c, q, was, a, p, x, y, numAlgo, numProto);
      if PriceFor(c, q)(x, y) >= 0.0 {
        assert NotCheaper(c.params, c.topo, q.coll, x, y, q.nBytes, q.numPipeOps, q.regBuff, v);
      } else {
        BelowDisabled(c, q.(nBytes := hi), was, a, p, x, y, numAlgo, numProto) by {
          PricingIgnoresSize(c.params, c.topo, q.coll, x, y, q.numPipeOps, q.regBuff);
          assert Time(c.params, c.topo, q.coll, x, y, q.nBytes, q.numPipeOps, q.regBuff) < 0.0;
          assert Time(c.params, c.topo, q.coll, x, y, hi, q.numPipeOps, q.regBuff) < 0.0;
        }
      }
    }
  }

  lemma WinnerIsCheapest(c: Context, q: Request, was: Contents, a: Algo, p: Proto, numAlgo: int, numProto: int,
                         usable: (Algo, Proto) -> bool)
    requires ModelDecides(c, q, was, numAlgo, numProto) && Wins(c, q, was, a, p, numAlgo, numProto)
    requires forall x: Algo, y: Proto :: usable(x, y) == (InRange(x, y, numAlgo, numProto) && was(x, y) != IGNORE)
    ensures Cheapest(c.params, c.topo, q.coll, usable, a, p, q.nBytes, q.numPipeOps, q.regBuff)
  {
    var v := PriceFor(c, q)(a, p);
    NeverMixed(c, q, was, a, p, a, p, numAlgo, numProto);
    forall x: Algo, y: Proto | usable(x, y)
      ensures NotCheaper(c.params, c.topo, q.coll, x, y, q.nBytes, q.numPipeOps, q.regBuff, v)
    {
      NeverMixed(c, q, was, a, p, x, y, numAlgo, numProto);
      assert NotBelow(c, q, was, x, y, numAlgo, numProto, v);
    }
  }

  lemma BelowDisabled(c: Context, q: Request, was: Contents, a: Algo, p: Proto, x: Algo, y: Proto, numAlgo: int,
                      numProto: int)
    requires ModelDecides(c, q, was, numAlgo, numProto) && Wins(c, q, was, a, p, numAlgo, numProto)
    requires InRange(x, y, numAlgo, numProto) && was(x, y) != IGNORE && PriceFor(c, q)(x, y) < 0.0
    ensures PriceFor(c, q)(a, p) <= DISABLED_COST
  {
    NeverMixed(c, q, was, a, p, a, p, numAlgo, numProto);
    NeverMixed(c, q, was, a, p, x, y, numAlgo, numProto);
    assert NotBelow(c, q, was, x, y, numAlgo, numProto, Outcome(c, q, was, a, p, numAlgo, numProto));
  }
}
