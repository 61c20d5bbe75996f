/** Execution reports: what the venue publishes for fills that concern the strategy. */
module Reports {
  import opened FlatBook
  import opened Sequences
  import opened BookRuns
  import opened Exchange

  const SCALE := 100_000_000.0

  /** status: 1 is a partial fill, 2 a terminal one. */
  datatype Report = Report(orderId: nat, executedPrice: int, executedQuantity: nat, remaining: nat,
                           commission: int, status: nat)

  /** A cast to integer drops the fraction toward zero. */
  function Truncate(x: real): int {
    if x >= 0.0 then x.Floor else -(-x).Floor
  }

  function Units(x: int): real {
    x as real / SCALE
  }

  function Commission(priceTicks: int, quantity: nat, feeBps: real): int {
    var fee := Units(priceTicks) * Units(quantity) * (feeBps / 10_000.0);
    Truncate(fee * SCALE)
  }

  /** The fee of a fill in whole units: price times quantity times the rate in hundredths of a percent,
      all three as the wire has them, with the fraction dropped toward zero. */
  function Fee(priceTicks: int, quantity: nat, feeBps: real): (n: int)
    ensures Toward0(n, (priceTicks * quantity) as real * feeBps / 1_000_000_000_000.0)
  {
    var x := (priceTicks * quantity) as real * feeBps / 1_000_000_000_000.0;
    if x >= 0.0 then x.Floor else -((-x).Floor)
  }

  /** The whole number next to x on the side of zero. */
  predicate Toward0(n: int, x: real) {
    && (x >= 0.0 ==> n as real <= x < n as real + 1.0)
    && (x <= 0.0 ==> n as real - 1.0 < x <= n as real)
  }

  lemma {:induction false} ScaledProduct(p: real, q: real, f: real)
    ensures p / SCALE * (q / SCALE) * (f / 10_000.0) * SCALE == p * q * f / 1_000_000_000_000.0
  {
    var a, b, c := p / SCALE, q / SCALE, f / 10_000.0;
    assert a * SCALE == p && b * SCALE == q && c * 10_000.0 == f;
    assert p * q == a * b * (SCALE * SCALE);
    assert p * q * f == a * b * (SCALE * SCALE) * (c * 10_000.0);
    assert p * q * f == a * b * c * SCALE * 1_000_000_000_000.0;
  }

  /** The commission a report carries is the fee of its fill. */
  lemma {:induction false} CommissionIsFee(priceTicks: int, quantity: nat, feeBps: real)
    ensures Commission(priceTicks, quantity, feeBps) == Fee(priceTicks, quantity, feeBps)
  {
    assert (priceTicks * quantity) as real == priceTicks as real * quantity as real;
    ScaledProduct(priceTicks as real, quantity as real, feeBps);
  }

  /** The cash a fill moves: a buy pays price and fee, a sale earns price less fee. */
  function CashFlow(priceTicks: int, quantity: nat, commission: int, buys: bool): real {
    var gross := Units(priceTicks) * Units(quantity);
    if buys then -(gross + Units(commission)) else gross - Units(commission)
  }

  function PositionFlow(quantity: nat, buys: bool): real {
    if buys then Units(quantity) else -Units(quantity)
  }

  function TakerReport(f: Fill, feeBps: real): Report {
    Report(f.takerOrderId, f.priceTicks, f.quantity, f.takerRemainingAfter,
           Commission(f.priceTicks, f.quantity, feeBps), if f.takerRemainingAfter == 0 then 2 else 1)
  }

  function MakerReport(f: Fill, feeBps: real): Report {
    Report(f.makerOrderId, f.priceTicks, f.quantity, 0, Commission(f.priceTicks, f.quantity, feeBps), 2)
  }

  /** One report for each fill whose taker is the strategy. */
  function TakerReports(fills: seq<Fill>, feeBps: real): seq<Report> {
    if fills == [] then []
    else (if fills[0].takerIsSynthetic then [] else [TakerReport(fills[0], feeBps)]) + TakerReports(fills[1..], feeBps)
  }

  /** One report for each fill whose maker is the strategy. */
  function MakerReports(fills: seq<Fill>, feeBps: real): seq<Report> {
    if fills == [] then []
    else (if fills[0].makerIsSynthetic then [] else [MakerReport(fills[0], feeBps)]) + MakerReports(fills[1..], feeBps)
  }

  lemma {:induction false} TakersAppend(f: seq<Fill>, g: seq<Fill>, feeBps: real)
    ensures TakerReports(f + g, feeBps) == TakerReports(f, feeBps) + TakerReports(g, feeBps)
  {
    hide TakerReport;
    if f == [] {
      assert f + g == g;
    } else {
      TakersAppend(f[1..], g, feeBps);
      assert (f + g)[1..] == f[1..] + g;
      var first := if f[0].takerIsSynthetic then [] else [TakerReport(f[0], feeBps)];
      Assoc(first, TakerReports(f[1..], feeBps), TakerReports(g, feeBps));
    }
  }

  lemma {:induction false} MakersAppend(f: seq<Fill>, g: seq<Fill>, feeBps: real)
    ensures MakerReports(f + g, feeBps) == MakerReports(f, feeBps) + MakerReports(g, feeBps)
  {
    hide MakerReport;
    if f == [] {
      assert f + g == g;
    } else {
      MakersAppend(f[1..], g, feeBps);
      assert (f + g)[1..] == f[1..] + g;
      var first := if f[0].makerIsSynthetic then [] else [MakerReport(f[0], feeBps)];
      Assoc(first, MakerReports(f[1..], feeBps), MakerReports(g, feeBps));
    }
  }

  lemma {:induction false} ReportsAppend(f: seq<Fill>, g: seq<Fill>, feeBps: real)
    ensures TakerReports(f + g, feeBps) == TakerReports(f, feeBps) + TakerReports(g, feeBps)
    ensures MakerReports(f + g, feeBps) == MakerReports(f, feeBps) + MakerReports(g, feeBps)
  {
    TakersAppend(f, g, feeBps);
    MakersAppend(f, g, feeBps);
  }

  /** What one input makes the venue publish. */
  function StepReports(v: Venue, i: Input, feeBps: real): seq<Report> {
    var fills := RunFills(v.book, VenueEvents(v, i));
    if i.Cmd? then TakerReports(fills, feeBps) else MakerReports(fills, feeBps)
  }

  function RunReports(v: Venue, inputs: seq<Input>, feeBps: real): seq<Report>
    decreases |inputs|
  {
    if inputs == [] then []
    else StepReports(v, inputs[0], feeBps) + RunReports(VenueStep(v, inputs[0]), inputs[1..], feeBps)
  }

  lemma {:induction false} RunAppend(v: Venue, inputs: seq<Input>, i: Input, feeBps: real)
    ensures VenueRun(v, inputs + [i]) == VenueStep(VenueRun(v, inputs), i)
    ensures RunReports(v, inputs + [i], feeBps)
            == RunReports(v, inputs, feeBps) + StepReports(VenueRun(v, inputs), i, feeBps)
    decreases |inputs|
  {
    if inputs == [] {
      assert [i][1..] == [];
    } else {
      assert (inputs + [i])[1..] == inputs[1..] + [i];
      RunAppend(VenueStep(v, inputs[0]), inputs[1..], i, feeBps);
    }
  }
}
