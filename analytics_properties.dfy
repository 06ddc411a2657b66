/**
 * What `computeHistoricalPerformanceAverages` computes, stated against
 * definitions that read the trade log directly: the admitted records, the
 * sums of their amounts, the number of winners and the months with a valid
 * entry date.
 */
module AnalyticsProperties {
  import opened Wrappers
  import opened Money
  import opened Sorting
  import opened Analytics

  /** The records the callback does not skip, in their original order. */
  function Admitted(ts: seq<TradeRecord>): seq<TradeRecord>
  {
    if ts == [] then []
    else
      var last := ts[|ts| - 1];
      Admitted(ts[..|ts| - 1]) + (if IsTruthy(last.dateIn) then [last] else [])
  }

  /** The investments of the admitted records, added up. */
  function InvestedTotal(ts: seq<TradeRecord>): real
  {
    if ts == [] then 0.0
    else
      var last := ts[|ts| - 1];
      InvestedTotal(ts[..|ts| - 1]) + (if IsTruthy(last.dateIn) then ParseNumber(last.investment) else 0.0)
  }

  /** The results of the admitted records, added up with their signs. */
  function NetResult(ts: seq<TradeRecord>): real
  {
    if ts == [] then 0.0
    else
      var last := ts[|ts| - 1];
      NetResult(ts[..|ts| - 1]) + (if IsTruthy(last.dateIn) then ParseNumber(last.result) else 0.0)
  }

  /** The results of 0 or more of the admitted records, added up. */
  function GrossProfitOf(ts: seq<TradeRecord>): real
  {
    if ts == [] then 0.0
    else
      var last := ts[|ts| - 1];
      var gain := if IsTruthy(last.dateIn) && ParseNumber(last.result) >= 0.0 then ParseNumber(last.result) else 0.0;
      GrossProfitOf(ts[..|ts| - 1]) + gain
  }

  /** The absolute values of the negative results of the admitted records, added up. */
  function GrossLossOf(ts: seq<TradeRecord>): real
  {
    if ts == [] then 0.0
    else
      var last := ts[|ts| - 1];
      var loss := if IsTruthy(last.dateIn) && ParseNumber(last.result) < 0.0 then -ParseNumber(last.result) else 0.0;
      GrossLossOf(ts[..|ts| - 1]) + loss
  }

  /** How many admitted records have a negative result. */
  function LossCount(ts: seq<TradeRecord>): nat
  {
    if ts == [] then 0
    else
      var last := ts[|ts| - 1];
      LossCount(ts[..|ts| - 1]) + (if IsTruthy(last.dateIn) && ParseNumber(last.result) < 0.0 then 1 else 0)
  }

  /** How many admitted records have a result of 0 or more. */
  function WinCount(ts: seq<TradeRecord>): nat
  {
    if ts == [] then 0
    else
      var last := ts[|ts| - 1];
      WinCount(ts[..|ts| - 1]) + (if IsTruthy(last.dateIn) && ParseNumber(last.result) >= 0.0 then 1 else 0)
  }

  /** The entry months of the admitted records whose date is valid. */
  function DatedMonths(ts: seq<TradeRecord>, parseDate: DateParser): set<CalendarMonth>
  {
    set i | 0 <= i < |ts| && IsTruthy(ts[i].dateIn) && parseDate(ts[i].dateIn).Some? :: parseDate(ts[i].dateIn).value
  }

  /** The years of a set of months. */
  function YearsOf(months: set<CalendarMonth>): set<int>
  {
    set m | m in months :: m.year
  }

  /** The relations between the accumulators that the pass keeps after every record. */
  predicate Consistent(acc: Totals)
  {
    && acc.tradesCount == acc.winningTrades + acc.losingTrades
    && acc.grossProfit >= 0.0
    && acc.grossLoss >= 0.0
    && NoDuplicates(acc.yearsSeen)
    && (forall y :: y in acc.yearsSeen ==> y in YearsOf(acc.monthsSeen))
    && (forall m :: m in acc.monthsSeen ==> m.year in acc.yearsSeen)
  }

  lemma RecordDateKeepsConsistent(acc: Totals, date: Option<CalendarMonth>)
    requires Consistent(acc)
    ensures Consistent(RecordDate(acc, date))
  {
    if date.Some? {
      var next := RecordDate(acc, date);
      var y := date.value.year;
      forall i, j | 0 <= i < j < |next.yearsSeen|
        ensures next.yearsSeen[i] != next.yearsSeen[j]
      {
        if y !in acc.yearsSeen && j == |acc.yearsSeen| {
          assert next.yearsSeen[i] == acc.yearsSeen[i];
        }
      }
      forall x | x in next.yearsSeen
        ensures x in YearsOf(next.monthsSeen)
      {
        if x in acc.yearsSeen {
          var m :| m in acc.monthsSeen && m.year == x;
          assert m in next.monthsSeen;
        } else {
          assert date.value in next.monthsSeen;
        }
      }
    }
  }

  lemma RecordAmountsKeepsConsistent(acc: Totals, invest: real, result: real)
    requires Consistent(acc)
    ensures Consistent(RecordAmounts(acc, invest, result))
  {
  }

  /** One call of the callback keeps the accumulators consistent. */
  lemma StepKeepsConsistent(acc: Totals, t: TradeRecord, parseDate: DateParser)
    requires Consistent(acc)
    ensures Consistent(Step(acc, t, parseDate))
  {
    if IsTruthy(t.dateIn) {
      var dated := RecordDate(acc, parseDate(t.dateIn));
      RecordDateKeepsConsistent(acc, parseDate(t.dateIn));
      RecordAmountsKeepsConsistent(dated, ParseNumber(t.investment), ParseNumber(t.result));
    }
  }

  /**
   * After any trade log: every counted trade is exactly one win or one loss,
   * both gross totals are non-negative, `yearsSet` holds no year twice and
   * holds exactly the years of the recorded months.
   */
  lemma {:induction false} AccumulateIsConsistent(ts: seq<TradeRecord>, parseDate: DateParser)
    ensures Consistent(Accumulate(ts, parseDate))
  {
    if ts != [] {
      AccumulateIsConsistent(ts[..|ts| - 1], parseDate);
      StepKeepsConsistent(Accumulate(ts[..|ts| - 1], parseDate), ts[|ts| - 1], parseDate);
    } else {
      assert forall y :: y !in YearsOf({});
    }
  }

  /**
   * A record with a falsy entry date, wherever it sits in the log, changes
   * nothing: the log without it accumulates to the same totals.
   */
  lemma {:induction false} SkippedRecordIsIgnored(before: seq<TradeRecord>, t: TradeRecord, after: seq<TradeRecord>, parseDate: DateParser)
    requires !IsTruthy(t.dateIn)
    ensures Accumulate(before + [t] + after, parseDate) == Accumulate(before + after, parseDate)
  {
    if after == [] {
      assert before + [t] + after == before + [t];
      assert before + after == before;
      AccumulateSnoc(before, t, parseDate);
    } else {
      var init, last := after[..|after| - 1], after[|after| - 1];
      assert after == init + [last];
      assert before + [t] + after == (before + [t] + init) + [last];
      assert before + after == (before + init) + [last];
      SkippedRecordIsIgnored(before, t, init, parseDate);
      AccumulateSnoc(before + [t] + init, last, parseDate);
      AccumulateSnoc(before + init, last, parseDate);
    }
  }

  /**
   * Dropping the records without an entry date first, as the caller of the
   * function does, yields the same totals as passing the whole log.
   */
  lemma {:induction false} AdmittedRecordsSuffice(ts: seq<TradeRecord>, parseDate: DateParser)
    ensures Accumulate(Admitted(ts), parseDate) == Accumulate(ts, parseDate)
  {
    if ts != [] {
      var init, last := ts[..|ts| - 1], ts[|ts| - 1];
      AdmittedRecordsSuffice(init, parseDate);
      if IsTruthy(last.dateIn) {
        AccumulateSnoc(Admitted(init), last, parseDate);
      } else {
        assert Admitted(ts) == Admitted(init);
      }
    }
  }

  /**
   * The counters and sums of the pass against the log: one trade per admitted
   * record, the investments and signed results of the admitted records added
   * up, the non-negative results in the gross profit and the negative ones
   * (as absolute values) in the gross loss, and a win for each admitted record
   * whose result is 0 or more and a loss for each other one.
   */
  lemma {:induction false} AccumulateCounts(ts: seq<TradeRecord>, parseDate: DateParser)
    ensures Accumulate(ts, parseDate).tradesCount == |Admitted(ts)|
    ensures Accumulate(ts, parseDate).totalInvested == InvestedTotal(ts)
    ensures Accumulate(ts, parseDate).grossProfit == GrossProfitOf(ts)
    ensures Accumulate(ts, parseDate).grossLoss == GrossLossOf(ts)
    ensures Accumulate(ts, parseDate).grossProfit - Accumulate(ts, parseDate).grossLoss == NetResult(ts)
    ensures Accumulate(ts, parseDate).winningTrades == WinCount(ts)
    ensures Accumulate(ts, parseDate).losingTrades == LossCount(ts)
  {
    if ts != [] {
      var init, last := ts[..|ts| - 1], ts[|ts| - 1];
      AccumulateCounts(init, parseDate);
      var acc := Accumulate(init, parseDate);
      if IsTruthy(last.dateIn) {
        var dated := RecordDate(acc, parseDate(last.dateIn));
        assert Accumulate(ts, parseDate) == RecordAmounts(dated, ParseNumber(last.investment), ParseNumber(last.result));
      }
    }
  }

  lemma DatedMonthsSnoc(ts: seq<TradeRecord>, t: TradeRecord, parseDate: DateParser)
    ensures DatedMonths(ts + [t], parseDate) ==
      DatedMonths(ts, parseDate) + (if IsTruthy(t.dateIn) && parseDate(t.dateIn).Some? then {parseDate(t.dateIn).value} else {})
  {
    var all := ts + [t];
    forall m | m in DatedMonths(all, parseDate)
      ensures m in DatedMonths(ts, parseDate) || (IsTruthy(t.dateIn) && parseDate(t.dateIn) == Some(m))
    {
      var i :| 0 <= i < |all| && IsTruthy(all[i].dateIn) && parseDate(all[i].dateIn).Some? && parseDate(all[i].dateIn).value == m;
      if i < |ts| {
        assert all[i] == ts[i];
      }
    }
    forall m | m in DatedMonths(ts, parseDate)
      ensures m in DatedMonths(all, parseDate)
    {
      var i :| 0 <= i < |ts| && IsTruthy(ts[i].dateIn) && parseDate(ts[i].dateIn).Some? && parseDate(ts[i].dateIn).value == m;
      assert all[i] == ts[i];
    }
    if IsTruthy(t.dateIn) && parseDate(t.dateIn).Some? {
      assert all[|ts|] == t;
    }
  }

  /**
   * `monthTracker` ends up keyed by exactly the entry months of the admitted
   * records with a valid date; a record whose date does not parse adds no month.
   */
  lemma {:induction false} AccumulateMonths(ts: seq<TradeRecord>, parseDate: DateParser)
    ensures Accumulate(ts, parseDate).monthsSeen == DatedMonths(ts, parseDate)
  {
    if ts != [] {
      var init, last := ts[..|ts| - 1], ts[|ts| - 1];
      AccumulateMonths(init, parseDate);
      assert ts == init + [last];
      DatedMonthsSnoc(init, last, parseDate);
    }
  }

  /** A share of a positive whole lies between 0 and 1. */
  lemma ShareBounds(part: real, whole: real)
    requires 0.0 <= part <= whole && whole > 0.0
    ensures 0.0 <= part / whole <= 1.0
  {
  }

  /** `q >= 0` when `q * d == n` for `n >= 0` and `d > 0`. */
  lemma QuotientNonNegative(q: real, n: real, d: real)
    requires n >= 0.0 && d > 0.0 && q * d == n
    ensures q >= 0.0
  {
  }

  /**
   * The suggested ROI target and loss per failed operation: the average win
   * (loss) over the average investment when there is a win (loss) and the
   * average investment is positive, 0 otherwise, and never negative.
   */
  lemma DerivedTargets(acc: Totals)
    requires Consistent(acc)
    ensures var r := Derive(acc);
      && (acc.winningTrades > 0 && r.historicalAvgInvestmentPerOp > 0.0 ==>
            r.suggestedRoiTargetPercent * r.historicalAvgInvestmentPerOp * acc.winningTrades as real == acc.grossProfit)
      && (acc.winningTrades == 0 || r.historicalAvgInvestmentPerOp <= 0.0 ==> r.suggestedRoiTargetPercent == 0.0)
      && r.suggestedRoiTargetPercent >= 0.0
      && (acc.losingTrades > 0 && r.historicalAvgInvestmentPerOp > 0.0 ==>
            r.suggestedLossPerFailedOpPercent * r.historicalAvgInvestmentPerOp * acc.losingTrades as real == acc.grossLoss)
      && (acc.losingTrades == 0 || r.historicalAvgInvestmentPerOp <= 0.0 ==> r.suggestedLossPerFailedOpPercent == 0.0)
      && r.suggestedLossPerFailedOpPercent >= 0.0
  {
    var r := Derive(acc);
    var wins, losses := acc.winningTrades, acc.losingTrades;
    if wins > 0 && r.historicalAvgInvestmentPerOp > 0.0 {
      var avgWin := GuardedQuotient(true, acc.grossProfit, wins as real);
      QuotientNonNegative(avgWin, acc.grossProfit, wins as real);
      QuotientNonNegative(r.suggestedRoiTargetPercent, avgWin, r.historicalAvgInvestmentPerOp);
    }
    if losses > 0 && r.historicalAvgInvestmentPerOp > 0.0 {
      var avgLoss := GuardedQuotient(true, acc.grossLoss, losses as real);
      QuotientNonNegative(avgLoss, acc.grossLoss, losses as real);
      QuotientNonNegative(r.suggestedLossPerFailedOpPercent, avgLoss, r.historicalAvgInvestmentPerOp);
    }
  }

  /** Average investment per operation: the admitted investments over the admitted records, or 0 when there are none. */
  lemma LogAverageInvestment(ts: seq<TradeRecord>, parseDate: DateParser)
    ensures var r := Derive(Accumulate(ts, parseDate));
      && (Admitted(ts) == [] ==> r.historicalAvgInvestmentPerOp == 0.0)
      && (Admitted(ts) != [] ==> r.historicalAvgInvestmentPerOp == InvestedTotal(ts) / |Admitted(ts)| as real)
  {
    AccumulateCounts(ts, parseDate);
  }

  /**
   * Win rate: the share of admitted records whose result is 0 or more, or 0
   * when no record was admitted; so always between 0 and 1.
   */
  lemma LogWinRate(ts: seq<TradeRecord>, parseDate: DateParser)
    ensures var r := Derive(Accumulate(ts, parseDate));
      && (Admitted(ts) == [] ==> r.historicalWinRate == 0.0)
      && (Admitted(ts) != [] ==> r.historicalWinRate == WinCount(ts) as real / |Admitted(ts)| as real)
      && 0.0 <= r.historicalWinRate <= 1.0
  {
    AccumulateCounts(ts, parseDate);
    AccumulateIsConsistent(ts, parseDate);
    if Admitted(ts) != [] {
      ShareBounds(WinCount(ts) as real, |Admitted(ts)| as real);
    }
  }

  /**
   * Trades per month: the admitted records over the distinct valid entry
   * months, or 0 when no entry date was valid.
   */
  lemma LogTradesPerMonth(ts: seq<TradeRecord>, parseDate: DateParser)
    ensures var r := Derive(Accumulate(ts, parseDate));
      && (DatedMonths(ts, parseDate) == {} ==> r.historicalAvgTradesPerMonth == 0.0)
      && (DatedMonths(ts, parseDate) != {} ==>
            r.historicalAvgTradesPerMonth == |Admitted(ts)| as real / |DatedMonths(ts, parseDate)| as real)
  {
    AccumulateCounts(ts, parseDate);
    AccumulateMonths(ts, parseDate);
    AccumulateIsConsistent(ts, parseDate);
  }

  /** The average investment per operation of a log, as the function computes it first. */
  function LogAverageInvestmentValue(ts: seq<TradeRecord>): real
  {
    if Admitted(ts) == [] then 0.0 else InvestedTotal(ts) / |Admitted(ts)| as real
  }

  /**
   * Suggested ROI target: the average non-negative result over the average
   * investment when some result is 0 or more and the average investment is
   * positive, 0 otherwise.
   */
  lemma LogRoiTarget(ts: seq<TradeRecord>, parseDate: DateParser)
    ensures var r := Derive(Accumulate(ts, parseDate));
      var avgInvestment := LogAverageInvestmentValue(ts);
      && (WinCount(ts) > 0 && avgInvestment > 0.0 ==>
            r.suggestedRoiTargetPercent == (GrossProfitOf(ts) / WinCount(ts) as real) / avgInvestment)
      && (WinCount(ts) == 0 || avgInvestment <= 0.0 ==> r.suggestedRoiTargetPercent == 0.0)
  {
    AccumulateCounts(ts, parseDate);
    LogAverageInvestment(ts, parseDate);
  }

  /**
   * Suggested loss per failed operation: the average absolute negative result
   * over the average investment when some result is negative and the average
   * investment is positive, 0 otherwise.
   */
  lemma LogLossTarget(ts: seq<TradeRecord>, parseDate: DateParser)
    ensures var r := Derive(Accumulate(ts, parseDate));
      var avgInvestment := LogAverageInvestmentValue(ts);
      && (LossCount(ts) > 0 && avgInvestment > 0.0 ==>
            r.suggestedLossPerFailedOpPercent == (GrossLossOf(ts) / LossCount(ts) as real) / avgInvestment)
      && (LossCount(ts) == 0 || avgInvestment <= 0.0 ==> r.suggestedLossPerFailedOpPercent == 0.0)
  {
    AccumulateCounts(ts, parseDate);
    LogAverageInvestment(ts, parseDate);
  }

  /** On any log both suggested percentages are non-negative. */
  lemma LogTargetsNonNegative(ts: seq<TradeRecord>, parseDate: DateParser)
    ensures Derive(Accumulate(ts, parseDate)).suggestedRoiTargetPercent >= 0.0
    ensures Derive(Accumulate(ts, parseDate)).suggestedLossPerFailedOpPercent >= 0.0
  {
    AccumulateIsConsistent(ts, parseDate);
    DerivedTargets(Accumulate(ts, parseDate));
  }

  /**
   * The returned `years` are strictly ascending, so hold no year twice, and
   * are exactly the years of the valid entry dates of the admitted records.
   */
  lemma Years(ts: seq<TradeRecord>, parseDate: DateParser)
    ensures var r := Derive(Accumulate(ts, parseDate));
      && StrictlyAscending(r.years)
      && forall y :: y in r.years <==> y in YearsOf(DatedMonths(ts, parseDate))
  {
    var acc := Accumulate(ts, parseDate);
    AccumulateIsConsistent(ts, parseDate);
    AccumulateMonths(ts, parseDate);
    SortAscendingPermutes(acc.yearsSeen);
    SortAscendingStrictly(acc.yearsSeen);
    forall y
      ensures y in SortAscending(acc.yearsSeen) <==> y in acc.yearsSeen
    {
      assert y in SortAscending(acc.yearsSeen) <==> y in multiset(SortAscending(acc.yearsSeen));
      assert y in acc.yearsSeen <==> y in multiset(acc.yearsSeen);
    }
  }

  /** A log in which no record has an entry date yields `success` and all figures 0. */
  lemma NothingAdmitted(ts: seq<TradeRecord>, parseDate: DateParser)
    requires forall i :: 0 <= i < |ts| ==> !IsTruthy(ts[i].dateIn)
    ensures Derive(Accumulate(ts, parseDate)) == Averages(true, 0.0, 0.0, 0.0, 0.0, 0.0, [])
  {
    NoRecordAdmitted(ts, parseDate);
  }

  lemma {:induction false} NoRecordAdmitted(ts: seq<TradeRecord>, parseDate: DateParser)
    requires forall i :: 0 <= i < |ts| ==> !IsTruthy(ts[i].dateIn)
    ensures Accumulate(ts, parseDate) == NoTrades
  {
    if ts != [] {
      NoRecordAdmitted(ts[..|ts| - 1], parseDate);
    }
  }
}
