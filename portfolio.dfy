/**
 * Portfolio bookkeeping (`investing_app/portfolio.py`): a table from
 * upper-cased ticker to position, updated in place.  Adding a position
 * either inserts a fresh one or merges into the existing one with a
 * quantity-weighted average cost; notes are appended to a position's list
 * of updates.  Every stored position keeps a positive quantity and a
 * positive average cost.
 */
module Portfolio {
  import opened Text

  /** The clock reading attached to an update, supplied by the caller and
      kept in its ISO-8601 rendering. */
  datatype Timestamp = Timestamp(iso: string)

  /** The source recorded when the caller names none. */
  const ManualSource: string := "manual"

  datatype InvestmentUpdate = InvestmentUpdate(timestamp: Timestamp, note: string, source: string)

  datatype Position = Position(ticker: string, quantity: real, averageCost: real, updates: seq<InvestmentUpdate>)
  {
    /** `Position.cost_basis` */
    function CostBasis(): (basis: real)
      ensures quantity > 0.0 && averageCost > 0.0 ==> basis > 0.0
    {
      quantity * averageCost
    }
  }

  datatype PortfolioError =
    | NonPositiveQuantity        // ValueError("quantity must be positive")
    | NonPositiveAverageCost     // ValueError("average_cost must be positive")
    | TickerNotFound(ticker: string)  // KeyError

  datatype Result<T> = Ok(value: T) | Err(error: PortfolioError)

  /** What `snapshot` reports for one update. */
  datatype UpdateView = UpdateView(timestamp: string, note: string, source: string)

  /** What `snapshot` reports for one position. */
  datatype PositionView = PositionView(quantity: real, averageCost: real, costBasis: real, updates: seq<UpdateView>)

  /** The position stored under `ticker` is a live one: upper-case key, its
      own ticker as key, positive quantity and average cost. */
  ghost predicate WellFormed(ticker: string, p: Position) {
    Upper(ticker) == ticker && p.ticker == ticker && p.quantity > 0.0 && p.averageCost > 0.0
  }

  /** Every entry of `m` is a live position. */
  ghost predicate AllWellFormed(m: map<string, Position>) {
    forall t :: t in m ==> WellFormed(t, m[t])
  }

  /** Storing a live position keeps every entry live. */
  lemma StoreWellFormed(m: map<string, Position>, t: string, p: Position)
    requires AllWellFormed(m) && WellFormed(t, p)
    ensures AllWellFormed(m[t := p])
  {
  }

  /** The sum of the cost bases of all positions in `m`. */
  ghost function TotalOf(m: map<string, Position>): real
    decreases |m|
  {
    if m == map[] then 0.0
    else
      var t :| t in m;
      m[t].CostBasis() + TotalOf(m - {t})
  }

  /** The total does not depend on which key is taken out first. */
  lemma {:induction false} TotalOfRemove(m: map<string, Position>, t: string)
    requires t in m
    ensures TotalOf(m) == m[t].CostBasis() + TotalOf(m - {t})
    decreases |m|
  {
    var u :| u in m && TotalOf(m) == m[u].CostBasis() + TotalOf(m - {u});
    if u != t {
      var rest := m - {u};
      assert |rest| < |m| by { assert |rest.Keys| == |m.Keys| - 1; }
      TotalOfRemove(rest, t);
      var both := rest - {t};
      assert both == (m - {t}) - {u};
      assert |m - {t}| < |m| by { assert |(m - {t}).Keys| == |m.Keys| - 1; }
      TotalOfRemove(m - {t}, u);
    }
  }

  /** Storing `p` under `t` changes the total by exactly the change in
      that one cost basis. */
  lemma TotalOfUpdate(m: map<string, Position>, t: string, p: Position)
    ensures TotalOf(m[t := p]) == TotalOf(m) - (if t in m then m[t].CostBasis() else 0.0) + p.CostBasis()
  {
    var n := m[t := p];
    TotalOfRemove(n, t);
    assert n - {t} == m - {t};
    if t in m {
      TotalOfRemove(m, t);
    } else {
      assert m - {t} == m;
    }
  }

  /** The merge `add_position` performs on an existing position: quantities
      add, and the average cost is the quantity-weighted blend, so the cost
      basis grows by exactly `quantity * averageCost`; the ticker and the
      update history stay. */
  function Merge(existing: Position, quantity: real, averageCost: real): (p: Position)
    requires existing.quantity > 0.0 && quantity > 0.0 && averageCost > 0.0
    ensures p.ticker == existing.ticker && p.updates == existing.updates
    ensures p.quantity == existing.quantity + quantity
    ensures p.CostBasis() == existing.CostBasis() + quantity * averageCost
    ensures existing.averageCost > 0.0 ==> p.averageCost > 0.0
  {
    var newTotalQty := existing.quantity + quantity;
    var blendedCost := (existing.quantity * existing.averageCost + quantity * averageCost) / newTotalQty;
    assert blendedCost * newTotalQty == existing.quantity * existing.averageCost + quantity * averageCost;
    existing.(quantity := newTotalQty, averageCost := blendedCost)
  }

  /** Merging into the position stored under `t` grows the total by
      exactly `quantity * averageCost`. */
  lemma MergeTotal(m: map<string, Position>, t: string, quantity: real, averageCost: real)
    requires t in m && m[t].quantity > 0.0 && quantity > 0.0 && averageCost > 0.0
    ensures TotalOf(m[t := Merge(m[t], quantity, averageCost)]) == TotalOf(m) + quantity * averageCost
  {
    TotalOfUpdate(m, t, Merge(m[t], quantity, averageCost));
  }

  /** Storing a new position under an absent ticker grows the total by its
      cost basis. */
  lemma InsertTotal(m: map<string, Position>, t: string, p: Position)
    requires t !in m
    ensures TotalOf(m[t := p]) == TotalOf(m) + p.CostBasis()
  {
    TotalOfUpdate(m, t, p);
  }

  function ViewOf(u: InvestmentUpdate): UpdateView {
    UpdateView(u.timestamp.iso, u.note, u.source)
  }

  class Portfolio {
    var positions: map<string, Position>

    ghost predicate Valid()
      reads this
    {
      AllWellFormed(positions)
    }

    constructor ()
      ensures Valid()
      ensures positions == map[]
    {
      positions := map[];
    }

    /** `add_position`: the ticker is upper-cased first; a non-positive
        quantity, then a non-positive average cost, is refused before any
        change; otherwise the position is merged or inserted and no other
        ticker changes. */
    method AddPosition(ticker: string, quantity: real, averageCost: real) returns (r: Result<Position>)
      requires Valid()
      modifies this
      ensures Valid()
      ensures quantity <= 0.0 ==> r == Err(NonPositiveQuantity)
      ensures quantity > 0.0 && averageCost <= 0.0 ==> r == Err(NonPositiveAverageCost)
      ensures r.Err? ==> positions == old(positions)
      ensures r.Ok? <==> quantity > 0.0 && averageCost > 0.0
      ensures r.Ok? ==> positions == old(positions)[Upper(ticker) := r.value]
      ensures r.Ok? && Upper(ticker) in old(positions) ==>
                r.value == Merge(old(positions)[Upper(ticker)], quantity, averageCost)
      ensures r.Ok? && Upper(ticker) !in old(positions) ==>
                r.value == Position(Upper(ticker), quantity, averageCost, [])
      ensures r.Ok? ==> TotalOf(positions) == old(TotalOf(positions)) + quantity * averageCost
    {
      var key := Upper(ticker);
      if quantity <= 0.0 {
        return Err(NonPositiveQuantity);
      }
      if averageCost <= 0.0 {
        return Err(NonPositiveAverageCost);
      }
      if key in positions {
        var existing := positions[key];
        var merged := Merge(existing, quantity, averageCost);
        StoreWellFormed(positions, key, merged);
        MergeTotal(positions, key, quantity, averageCost);
        positions := positions[key := merged];
        return Ok(merged);
      }
      var position := Position(key, quantity, averageCost, []);
      UpperIdempotent(ticker);
      StoreWellFormed(positions, key, position);
      InsertTotal(positions, key, position);
      positions := positions[key := position];
      return Ok(position);
    }

    /** `add_update`: an absent ticker is refused and nothing changes;
        otherwise exactly one update is appended to that ticker's list and
        nothing else changes. */
    method AddUpdate(ticker: string, note: string, timestamp: Timestamp, source: string := ManualSource)
      returns (r: Result<InvestmentUpdate>)
      requires Valid()
      modifies this
      ensures Valid()
      ensures r.Err? <==> Upper(ticker) !in old(positions)
      ensures r.Err? ==> r.error == TickerNotFound(Upper(ticker)) && positions == old(positions)
      ensures r.Ok? ==> r.value == InvestmentUpdate(timestamp, note, source)
      ensures r.Ok? ==> var p := old(positions)[Upper(ticker)];
                positions == old(positions)[Upper(ticker) := p.(updates := p.updates + [r.value])]
      ensures TotalOf(positions) == old(TotalOf(positions))
    {
      var key := Upper(ticker);
      if key !in positions {
        return Err(TickerNotFound(key));
      }
      var update := InvestmentUpdate(timestamp, note, source);
      var p := positions[key];
      var updated := p.(updates := p.updates + [update]);
      StoreWellFormed(positions, key, updated);
      assert updated.CostBasis() == p.CostBasis();
      TotalOfUpdate(positions, key, updated);
      positions := positions[key := updated];
      return Ok(update);
    }

    /** `total_cost_basis`: the sum of every position's cost basis. */
    method TotalCostBasis() returns (total: real)
      ensures total == TotalOf(positions)
    {
      total := 0.0;
      var rest := positions;
      while rest != map[]
        invariant total + TotalOf(rest) == TotalOf(positions)
        decreases |rest|
      {
        var t :| t in rest;
        TotalOfRemove(rest, t);
        total := total + rest[t].CostBasis();
        assert |rest - {t}| < |rest| by { assert |(rest - {t}).Keys| == |rest.Keys| - 1; }
        rest := rest - {t};
      }
    }

    /** `snapshot`: one view per stored ticker, with its quantity, average
        cost and cost basis, and its updates rendered in order. */
    function Snapshot(): (s: map<string, PositionView>)
      reads this
      ensures s.Keys == positions.Keys
      ensures forall t :: t in s ==>
                && s[t].quantity == positions[t].quantity
                && s[t].averageCost == positions[t].averageCost
                && s[t].costBasis == positions[t].quantity * positions[t].averageCost
                && |s[t].updates| == |positions[t].updates|
                && forall i :: 0 <= i < |s[t].updates| ==> s[t].updates[i] == ViewOf(positions[t].updates[i])
      ensures Valid() ==> forall t :: t in s ==> s[t].costBasis > 0.0
    {
      map t | t in positions ::
        var p := positions[t];
        PositionView(p.quantity, p.averageCost, p.CostBasis(),
                     seq(|p.updates|, i requires 0 <= i < |p.updates| => ViewOf(p.updates[i])))
    }
  }
}
