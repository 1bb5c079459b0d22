/**
 * The portfolio's test scenarios (`tests/test_portfolio.py`) stated about
 * the model.
 */
module PortfolioTests {
  import opened Text
  import opened Portfolio

  /** Ten shares at 100 and ten more at 120 blend to twenty at 110. */
  lemma BlendedCost()
    ensures var p := Merge(Position("AAPL", 10.0, 100.0, []), 10.0, 120.0);
            p.quantity == 20.0 && p.averageCost == 110.0
  {
    var p := Merge(Position("AAPL", 10.0, 100.0, []), 10.0, 120.0);
    assert p.CostBasis() == 2200.0;
  }

  /** `test_add_position_and_blend_cost`: a lower-case and an upper-case
      ticker land in the same position, with the blended average cost. */
  method AddPositionAndBlendCost() returns (quantity: real, averageCost: real)
    ensures quantity == 20.0 && averageCost == 110.0
  {
    var p := new Portfolio();
    assert Upper("aapl") == "AAPL" && Upper("AAPL") == "AAPL";
    var first := p.AddPosition("aapl", 10.0, 100.0);
    assert p.positions == map["AAPL" := Position("AAPL", 10.0, 100.0, [])];
    var second := p.AddPosition("AAPL", 10.0, 120.0);
    BlendedCost();
    assert p.positions["AAPL"] == Merge(Position("AAPL", 10.0, 100.0, []), 10.0, 120.0);
    quantity, averageCost := p.positions["AAPL"].quantity, p.positions["AAPL"].averageCost;
  }

  /** `test_add_update`: the update returned carries the note, and the
      position now has exactly one update. */
  method AddUpdateRecordsNote(now: Timestamp) returns (note: string, count: nat)
    ensures note == "Test note" && count == 1
  {
    var p := new Portfolio();
    assert Upper("NVDA") == "NVDA";
    var added := p.AddPosition("NVDA", 1.0, 900.0);
    assert p.positions == map["NVDA" := Position("NVDA", 1.0, 900.0, [])];
    var update := p.AddUpdate("NVDA", "Test note", now, "journal");
    note, count := update.value.note, |p.positions["NVDA"].updates|;
  }
}
