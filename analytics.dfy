/**
 * `computeHistoricalPerformanceAverages` of src/analytics_helpers.js: one pass
 * over the trade log that accumulates totals, followed by guarded ratios.
 *
 * `Accumulate` is the specification of the pass (a left fold of `Step`),
 * `Derive` computes the returned figures from the accumulated totals, and the
 * method `ComputeHistoricalPerformanceAverages` is the loop itself, proved to
 * return `Derive(Accumulate(trades, parseDate))`.
 */
module Analytics {
  import opened Wrappers
  import opened Money
  import opened Sorting

  /** One row of the trade log: the three fields the computation reads. */
  datatype TradeRecord = TradeRecord(dateIn: Cell, investment: Cell, result: Cell)

  /** A calendar month as `getFullYear()` and `getMonth()` (0 to 11) report it. */
  datatype CalendarMonth = CalendarMonth(year: int, month: int)

  /**
   * JavaScript's date parsing of the entry date field: its calendar month, or
   * None for an invalid date. It is supplied by the caller.
   */
  type DateParser = Cell -> Option<CalendarMonth>

  /** JavaScript truthiness of a field: the empty string, null and undefined are falsy. */
  predicate IsTruthy(c: Cell)
  {
    c.Text? && c.text != ""
  }

  /** The accumulator variables of the pass, with `yearsSet` and `monthTracker`. */
  datatype Totals = Totals(
    totalInvested: real,
    tradesCount: nat,
    grossProfit: real,
    grossLoss: real,
    winningTrades: nat,
    losingTrades: nat,
    yearsSeen: seq<int>,                // a JavaScript Set keeps its insertion order
    monthsSeen: set<CalendarMonth>)     // the keys of monthTracker

  const NoTrades: Totals := Totals(0.0, 0, 0.0, 0.0, 0, 0, [], {})

  /** `yearsSet.add(y)`. */
  function AddYear(years: seq<int>, y: int): (r: seq<int>)
    ensures forall z :: z in r <==> z in years || z == y
    ensures NoDuplicates(years) ==> NoDuplicates(r)
  {
    if y in years then years else years + [y]
  }

  /** `Math.abs`. */
  function Abs(x: real): real
  {
    if x < 0.0 then -x else x
  }

  /**
   * `yearsSet.add(...)` and the `monthTracker` key for a valid entry date;
   * an invalid date records nothing and leaves the amounts alone either way.
   */
  function RecordDate(acc: Totals, date: Option<CalendarMonth>): (next: Totals)
    ensures date.None? ==> next == acc
    ensures date.Some? ==> next.monthsSeen == acc.monthsSeen + {date.value}
    ensures date.Some? ==> forall y :: y in next.yearsSeen <==> y in acc.yearsSeen || y == date.value.year
    ensures next.(yearsSeen := acc.yearsSeen, monthsSeen := acc.monthsSeen) == acc
  {
    match date
    case None => acc
    case Some(m) => acc.(yearsSeen := AddYear(acc.yearsSeen, m.year), monthsSeen := acc.monthsSeen + {m})
  }

  /**
   * Counting one trade with amounts `invest` and `result`: exactly one of the
   * win and loss counters grows, a result of exactly 0 is a win, a win adds
   * its result to the gross profit only and a loss adds its absolute value to
   * the gross loss only.
   */
  function RecordAmounts(acc: Totals, invest: real, result: real): (next: Totals)
    ensures next.totalInvested == acc.totalInvested + invest
    ensures next.tradesCount == acc.tradesCount + 1
    ensures next.winningTrades + next.losingTrades == acc.winningTrades + acc.losingTrades + 1
    ensures next.winningTrades == acc.winningTrades + 1 <==> result >= 0.0
    ensures result >= 0.0 ==>
      && next.winningTrades == acc.winningTrades + 1 && next.losingTrades == acc.losingTrades
      && next.grossProfit == acc.grossProfit + result && next.grossLoss == acc.grossLoss
    ensures result < 0.0 ==>
      && next.losingTrades == acc.losingTrades + 1 && next.winningTrades == acc.winningTrades
      && next.grossLoss == acc.grossLoss + Abs(result) && next.grossProfit == acc.grossProfit
    ensures next.grossProfit >= acc.grossProfit && next.grossLoss >= acc.grossLoss
    ensures next.grossProfit - next.grossLoss == acc.grossProfit - acc.grossLoss + result
    ensures next.yearsSeen == acc.yearsSeen && next.monthsSeen == acc.monthsSeen
  {
    var counted := acc.(totalInvested := acc.totalInvested + invest, tradesCount := acc.tradesCount + 1);
    if result >= 0.0 then
      counted.(winningTrades := acc.winningTrades + 1, grossProfit := acc.grossProfit + result)
    else
      counted.(losingTrades := acc.losingTrades + 1, grossLoss := acc.grossLoss + Abs(result))
  }

  /**
   * One call of the `forEach` callback. A record without an entry date
   * changes nothing; any other record is counted with its investment, and
   * one whose date does not parse adds no year and no month.
   */
  function Step(acc: Totals, t: TradeRecord, parseDate: DateParser): (next: Totals)
    ensures !IsTruthy(t.dateIn) ==> next == acc
    ensures IsTruthy(t.dateIn) ==> next.tradesCount == acc.tradesCount + 1
    ensures IsTruthy(t.dateIn) ==> next.totalInvested == acc.totalInvested + ParseNumber(t.investment)
    ensures parseDate(t.dateIn).None? ==> next.yearsSeen == acc.yearsSeen && next.monthsSeen == acc.monthsSeen
  {
    if !IsTruthy(t.dateIn) then acc
    else RecordAmounts(RecordDate(acc, parseDate(t.dateIn)), ParseNumber(t.investment), ParseNumber(t.result))
  }

  /** The state after the callback has run on every record, in order. */
  function Accumulate(trades: seq<TradeRecord>, parseDate: DateParser): (r: Totals)
    ensures r.tradesCount <= |trades|
  {
    if trades == [] then NoTrades
    else Step(Accumulate(trades[..|trades| - 1], parseDate), trades[|trades| - 1], parseDate)
  }

  /** Appending one record to the log runs the callback once more. */
  lemma AccumulateSnoc(ts: seq<TradeRecord>, t: TradeRecord, parseDate: DateParser)
    ensures Accumulate(ts + [t], parseDate) == Step(Accumulate(ts, parseDate), t, parseDate)
  {
    assert (ts + [t])[..|ts|] == ts;
  }

  /** The object the function returns. */
  datatype Averages = Averages(
    success: bool,
    historicalWinRate: real,
    historicalAvgInvestmentPerOp: real,
    historicalAvgTradesPerMonth: real,
    suggestedRoiTargetPercent: real,
    suggestedLossPerFailedOpPercent: real,
    years: seq<int>)

  /** `guard ? n / d : 0`: a quotient that is 0 instead of NaN or Infinity when its guard fails. */
  function GuardedQuotient(guard: bool, n: real, d: real): (q: real)
    requires guard ==> d != 0.0
    ensures !guard ==> q == 0.0
    ensures guard ==> q * d == n
  {
    if guard then n / d else 0.0
  }

  /** The derivations after the loop, each guarded against a zero denominator. */
  function Derive(acc: Totals): (r: Averages)
    ensures r.success
  {
    var wins, losses := acc.winningTrades, acc.losingTrades;
    var months := |acc.monthsSeen|;
    var avgInvestment := GuardedQuotient(acc.tradesCount > 0, acc.totalInvested, acc.tradesCount as real);
    var perMonth := GuardedQuotient(months > 0, (wins + losses) as real, months as real);
    var avgWin := GuardedQuotient(wins > 0, acc.grossProfit, wins as real);
    var avgLoss := GuardedQuotient(losses > 0, acc.grossLoss, losses as real);
    var winRate := GuardedQuotient(wins + losses > 0, wins as real, (wins + losses) as real);
    var roiTarget := GuardedQuotient(wins > 0 && avgInvestment > 0.0, avgWin, avgInvestment);
    var lossTarget := GuardedQuotient(losses > 0 && avgInvestment > 0.0, avgLoss, avgInvestment);
    Averages(true, winRate, avgInvestment, perMonth, roiTarget, lossTarget, SortAscending(acc.yearsSeen))
  }

  /** The variables the `forEach` callback closes over and updates. */
  class Pass
  {
    var monthTracker: set<CalendarMonth>
    var yearsSet: seq<int>
    var totalInvestedEUR: real
    var tradesCountForRR: nat
    var totalGrossProfitEUR: real
    var totalGrossLossEUR: real
    var winningTradesCount: nat
    var losingTradesCount: nat

    /** The accumulators as one value. */
    function Current(): Totals
      reads this
    {
      Totals(totalInvestedEUR, tradesCountForRR, totalGrossProfitEUR, totalGrossLossEUR,
             winningTradesCount, losingTradesCount, yearsSet, monthTracker)
    }

    /** The initial values declared before the loop. */
    constructor ()
      ensures Current() == NoTrades
    {
      monthTracker := {};
      yearsSet := [];
      totalInvestedEUR, tradesCountForRR, totalGrossProfitEUR, totalGrossLossEUR := 0.0, 0, 0.0, 0.0;
      winningTradesCount, losingTradesCount := 0, 0;
    }

    /** The date bookkeeping of the callback. */
    method AddDate(d: Option<CalendarMonth>)
      modifies this
      ensures Current() == RecordDate(old(Current()), d)
    {
      if d.Some? {
        if d.value.year !in yearsSet {
          yearsSet := yearsSet + [d.value.year];
        }
        monthTracker := monthTracker + {d.value};
      }
    }

    /** The amount bookkeeping of the callback. */
    method AddAmounts(invest: real, result: real)
      modifies this
      ensures Current() == RecordAmounts(old(Current()), invest, result)
    {
      totalInvestedEUR := totalInvestedEUR + invest;
      tradesCountForRR := tradesCountForRR + 1;
      if result >= 0.0 {
        winningTradesCount := winningTradesCount + 1;
        totalGrossProfitEUR := totalGrossProfitEUR + result;
      } else {
        losingTradesCount := losingTradesCount + 1;
        totalGrossLossEUR := totalGrossLossEUR + Abs(result);
      }
    }

    /** The callback on one record. */
    method Visit(t: TradeRecord, parseDate: DateParser)
      modifies this
      ensures Current() == Step(old(Current()), t, parseDate)
    {
      if !IsTruthy(t.dateIn) {
        return;
      }
      var invest := ParseNumber(t.investment);
      var result := ParseNumber(t.result);
      AddDate(parseDate(t.dateIn));
      AddAmounts(invest, result);
    }
  }

  /** The whole function: the `forEach` loop, then the derivations. */
  method ComputeHistoricalPerformanceAverages(trades: seq<TradeRecord>, parseDate: DateParser)
    returns (r: Averages)
    ensures r.success
    ensures r == Derive(Accumulate(trades, parseDate))
  {
    var pass := new Pass();
    for i := 0 to |trades|
      invariant pass.Current() == Accumulate(trades[..i], parseDate)
    {
      assert trades[..i + 1] == trades[..i] + [trades[i]];
      AccumulateSnoc(trades[..i], trades[i], parseDate);
      pass.Visit(trades[i], parseDate);
    }
    assert trades[..|trades|] == trades;
    r := Derive(pass.Current());
  }
}
