/** A valid and a malformed trade record worked through the whole computation. */
module AnalyticsExamples {
  import opened Wrappers
  import opened Money
  import opened MoneyProperties
  import opened MoneyExamples
  import opened Analytics
  import opened AnalyticsProperties

  /** A record with an unparseable date, a word for its investment and a null result. */
  const Malformed: TradeRecord := TradeRecord(Text("bad-date"), Text("foo"), Null)

  /**
   * The malformed record is not skipped, since its entry date is non-empty
   * text: it counts as a trade of 0 whose result of 0 is a win, and it adds
   * no year and no month.
   */
  lemma MalformedRecordCountsAsWin(acc: Totals, parseDate: DateParser)
    requires parseDate(Malformed.dateIn) == None
    ensures Step(acc, Malformed, parseDate)
         == acc.(tradesCount := acc.tradesCount + 1, winningTrades := acc.winningTrades + 1)
  {
    WordIsZero();
    NullFieldIsZero();
  }

  /** A valid trade of 100 that made 50, entered in January 2024. */
  const Valid: TradeRecord := TradeRecord(Text("2024-01-01"), Text("100"), Text("50"))

  /** "100" is read as 100. */
  lemma HundredParses()
    ensures ParseNumber(Text("100")) == 100.0
  {
    assert DigitsValue("1") == 1;
    assert DigitsValue("10") == 10;
    assert DigitsValue("100") == 100;
    ParseDigitsText("100");
  }

  /** "50" is read as 50. */
  lemma FiftyParses()
    ensures ParseNumber(Text("50")) == 50.0
  {
    assert DigitsValue("5") == 5;
    assert DigitsValue("50") == 50;
    ParseDigitsText("50");
  }

  /** The valid record adds 100 to the investments, 50 to the gross profit, a win, its year and its month. */
  lemma ValidRecordStep(acc: Totals, parseDate: DateParser)
    requires parseDate(Valid.dateIn) == Some(CalendarMonth(2024, 0))
    ensures Step(acc, Valid, parseDate)
         == RecordAmounts(RecordDate(acc, Some(CalendarMonth(2024, 0))), 100.0, 50.0)
  {
    HundredParses();
    FiftyParses();
  }

  /** The valid record on its own. */
  lemma ValidRecordFirst(parseDate: DateParser)
    requires parseDate(Valid.dateIn) == Some(CalendarMonth(2024, 0))
    ensures Step(NoTrades, Valid, parseDate) == Totals(100.0, 1, 50.0, 0.0, 1, 0, [2024], {CalendarMonth(2024, 0)})
  {
    var dated := Totals(0.0, 0, 0.0, 0.0, 0, 0, [2024], {CalendarMonth(2024, 0)});
    assert RecordDate(NoTrades, Some(CalendarMonth(2024, 0))) == dated;
    ValidRecordStep(NoTrades, parseDate);
  }

  /** The log of the valid record alone. */
  lemma ValidLog(parseDate: DateParser)
    requires parseDate(Valid.dateIn) == Some(CalendarMonth(2024, 0))
    ensures Accumulate([Valid], parseDate) == Totals(100.0, 1, 50.0, 0.0, 1, 0, [2024], {CalendarMonth(2024, 0)})
  {
    assert [] + [Valid] == [Valid];
    AccumulateSnoc([], Valid, parseDate);
    ValidRecordFirst(parseDate);
  }

  /** The totals after the valid record and then the malformed one. */
  lemma ValidThenMalformedTotals(log: seq<TradeRecord>, parseDate: DateParser)
    requires log == [Valid, Malformed]
    requires parseDate(Valid.dateIn) == Some(CalendarMonth(2024, 0))
    requires parseDate(Malformed.dateIn) == None
    ensures Accumulate(log, parseDate) == Totals(100.0, 2, 50.0, 0.0, 2, 0, [2024], {CalendarMonth(2024, 0)})
  {
    var single := [Valid];
    assert log == single + [Malformed];
    AccumulateSnoc(single, Malformed, parseDate);
    ValidLog(parseDate);
    MalformedRecordCountsAsWin(Accumulate(single, parseDate), parseDate);
  }

  /**
   * The figures derived from those totals: both trades are wins, 50 is
   * invested on average, two trades fall in the one month seen, the average
   * win of 25 is half the average investment, and 2024 is the only year.
   */
  lemma ValidThenMalformedFigures()
    ensures Derive(Totals(100.0, 2, 50.0, 0.0, 2, 0, [2024], {CalendarMonth(2024, 0)}))
         == Averages(true, 1.0, 50.0, 2.0, 0.5, 0.0, [2024])
  {
    assert |{CalendarMonth(2024, 0)}| == 1;
  }

  /** The whole result for the log of the valid record followed by the malformed one. */
  lemma ValidThenMalformed(log: seq<TradeRecord>, parseDate: DateParser)
    requires log == [Valid, Malformed]
    requires parseDate(Valid.dateIn) == Some(CalendarMonth(2024, 0))
    requires parseDate(Malformed.dateIn) == None
    ensures Derive(Accumulate(log, parseDate)) == Averages(true, 1.0, 50.0, 2.0, 0.5, 0.0, [2024])
  {
    ValidThenMalformedTotals(log, parseDate);
    ValidThenMalformedFigures();
  }

  /** A losing trade of 100 that lost 20, entered later in January 2024. */
  const Losing: TradeRecord := TradeRecord(Text("2024-01-15"), Text("100"), Text("-20"))

  /** "-20" is read as -20. */
  lemma MinusTwentyParses()
    ensures ParseNumber(Text("-20")) == -20.0
  {
    assert DigitsValue("2") == 2;
    assert DigitsValue("20") == 20;
    assert "-" + "20" == "-20";
    NegativeDigitsText("20");
  }

  /** The losing record adds 100 to the investments, a loss, and 20 to the gross loss. */
  lemma LosingRecordStep(acc: Totals, parseDate: DateParser)
    requires parseDate(Losing.dateIn) == Some(CalendarMonth(2024, 0))
    ensures Step(acc, Losing, parseDate)
         == RecordAmounts(RecordDate(acc, Some(CalendarMonth(2024, 0))), 100.0, -20.0)
  {
    HundredParses();
    MinusTwentyParses();
  }

  /** The losing record after the valid one: a second trade, a loss of 20, and no new year or month. */
  lemma LosingAfterValid(acc: Totals, parseDate: DateParser)
    requires acc == Totals(100.0, 1, 50.0, 0.0, 1, 0, [2024], {CalendarMonth(2024, 0)})
    requires parseDate(Losing.dateIn) == Some(CalendarMonth(2024, 0))
    ensures Step(acc, Losing, parseDate) == Totals(200.0, 2, 50.0, 20.0, 1, 1, [2024], {CalendarMonth(2024, 0)})
  {
    assert RecordDate(acc, Some(CalendarMonth(2024, 0))) == acc;
    LosingRecordStep(acc, parseDate);
  }

  /** The totals after the valid record and then the losing one, both in January 2024. */
  lemma ValidThenLosingTotals(log: seq<TradeRecord>, parseDate: DateParser)
    requires log == [Valid, Losing]
    requires parseDate(Valid.dateIn) == Some(CalendarMonth(2024, 0))
    requires parseDate(Losing.dateIn) == Some(CalendarMonth(2024, 0))
    ensures Accumulate(log, parseDate) == Totals(200.0, 2, 50.0, 20.0, 1, 1, [2024], {CalendarMonth(2024, 0)})
  {
    var single := [Valid];
    assert log == single + [Losing];
    AccumulateSnoc(single, Losing, parseDate);
    ValidLog(parseDate);
    LosingAfterValid(Accumulate(single, parseDate), parseDate);
  }

  /**
   * The figures derived from those totals: one trade in two is a win, 100 is
   * invested on average, the average win of 50 is half of it and the average
   * loss of 20 a fifth of it.
   */
  lemma ValidThenLosingFigures()
    ensures Derive(Totals(200.0, 2, 50.0, 20.0, 1, 1, [2024], {CalendarMonth(2024, 0)}))
         == Averages(true, 0.5, 100.0, 2.0, 0.5, 0.2, [2024])
  {
    assert |{CalendarMonth(2024, 0)}| == 1;
  }

  /** The whole result for the log of the valid record followed by the losing one. */
  lemma ValidThenLosing(log: seq<TradeRecord>, parseDate: DateParser)
    requires log == [Valid, Losing]
    requires parseDate(Valid.dateIn) == Some(CalendarMonth(2024, 0))
    requires parseDate(Losing.dateIn) == Some(CalendarMonth(2024, 0))
    ensures Derive(Accumulate(log, parseDate)) == Averages(true, 0.5, 100.0, 2.0, 0.5, 0.2, [2024])
  {
    ValidThenLosingTotals(log, parseDate);
    ValidThenLosingFigures();
  }
}
