/** backend/dashboard_api.php: the pure parts of the admin dashboard. The
    "time since" text shown next to recent demands, the start of the
    statistics window chosen by `periodo`, and the chart series chosen by
    `tipo`. The SQL aggregations themselves are not modelled. */
module Dashboard {
  import opened Common
  import opened Text

  /** The fields of a PHP DateInterval produced by DateTime::diff. `d` is
      the day component left after whole years and months, while `days` is
      the total number of days between the two dates. */
  datatype Interval = Interval(y: nat, m: nat, d: nat, h: nat, i: nat, s: nat, days: nat)

  const JustNow := "Agora mesmo"

  /** "{n} {unit}", with an "s" exactly when n is more than 1. */
  function CountText(n: nat, unit: string): string
  {
    NatToString(n) + " " + unit + (if n > 1 then "s" else "")
  }

  /** calcularTempoDecorrido as written: the first non-zero of the day,
      hour and minute components, or "Agora mesmo". */
  function ElapsedText(iv: Interval): (r: string)
  {
    if iv.d > 0 then CountText(iv.d, "dia")
    else if iv.h > 0 then CountText(iv.h, "hora")
    else if iv.i > 0 then CountText(iv.i, "minuto")
    else JustNow
  }

  /** The count the text reports: days, else hours, else minutes. */
  function ReportedCount(iv: Interval): nat
  {
    if iv.d > 0 then iv.d else if iv.h > 0 then iv.h else iv.i
  }

  /** The day component wins over hours, and hours over minutes. When all
      three are zero the text is "Agora mesmo", and only then. */
  lemma ElapsedPriority(iv: Interval)
    ensures iv.d > 0 ==> ElapsedText(iv) == CountText(iv.d, "dia")
    ensures iv.d == 0 && iv.h > 0 ==> ElapsedText(iv) == CountText(iv.h, "hora")
    ensures iv.d == 0 && iv.h == 0 && iv.i > 0 ==> ElapsedText(iv) == CountText(iv.i, "minuto")
    ensures ElapsedText(iv) == JustNow <==> iv.d == 0 && iv.h == 0 && iv.i == 0
  {
    if iv.d > 0 || iv.h > 0 || iv.i > 0 {
      var n := ReportedCount(iv);
      var t := ElapsedText(iv);
      assert '0' <= t[0] <= '9' by {
        assert t[..|NatToString(n)|] == NatToString(n);
      }
      assert JustNow[0] == 'A';
    }
  }

  /** The unit is plural exactly when the reported count is above 1, and
      the text starts with that count, which reads back as a number. */
  lemma ElapsedCountAndPlural(iv: Interval)
    requires iv.d > 0 || iv.h > 0 || iv.i > 0
    ensures var t := ElapsedText(iv);
      && (t[|t| - 1] == 's' <==> ReportedCount(iv) > 1)
      && StringIntVal(t) == ReportedCount(iv)
  {
    if iv.d > 0 {
      CountTextReadsBack(iv.d, "dia");
    } else if iv.h > 0 {
      CountTextReadsBack(iv.h, "hora");
    } else {
      CountTextReadsBack(iv.i, "minuto");
    }
  }

  /** A count text ends in "s" exactly when the count is above 1, for a
      unit that does not itself end in "s", and it reads back as the count. */
  lemma CountTextReadsBack(n: nat, unit: string)
    requires unit != [] && unit[|unit| - 1] != 's'
    ensures var t := CountText(n, unit);
      && (t[|t| - 1] == 's' <==> n > 1)
      && StringIntVal(t) == n
  {
    var tail := " " + unit + (if n > 1 then "s" else "");
    var t := CountText(n, unit);
    assert t == NatToString(n) + tail;
    assert t[|t| - 1] == tail[|tail| - 1];
    assert tail[0] == ' ';
    StringIntValStopsAtNonDigit(n, tail);
  }

  /** Only the day, hour and minute components matter. */
  lemma ElapsedUsesOnlyDayHourMinute(a: Interval, b: Interval)
    requires a.d == b.d && a.h == b.h && a.i == b.i
    ensures ElapsedText(a) == ElapsedText(b)
  {
  }

  /** Because `d` is only the day component, a demand sent exactly one
      month ago is reported as just now. */
  lemma MonthOldIsJustNow()
    ensures ElapsedText(Interval(0, 1, 0, 0, 0, 0, 30)) == JustNow
  {
  }

  /** The evidently intended text: the same rule over the total number of
      days. */
  function ElapsedTextTotal(iv: Interval): (r: string)
  {
    if iv.days > 0 then CountText(iv.days, "dia")
    else if iv.h > 0 then CountText(iv.h, "hora")
    else if iv.i > 0 then CountText(iv.i, "minuto")
    else JustNow
  }

  /** With total days, anything a day old or older is reported in days,
      with the total count; and it agrees with the text as written whenever
      the interval is under a month. */
  lemma ElapsedTextTotalReportsDays(iv: Interval)
    ensures iv.days > 0 ==> ElapsedTextTotal(iv) == CountText(iv.days, "dia") && ElapsedTextTotal(iv) != JustNow
    ensures iv.y == 0 && iv.m == 0 && iv.days == iv.d ==> ElapsedTextTotal(iv) == ElapsedText(iv)
  {
    if iv.days > 0 {
      var t := ElapsedTextTotal(iv);
      assert t[..|NatToString(iv.days)|] == NatToString(iv.days);
      assert JustNow[0] == 'A';
    }
  }

  // ---------------------------------------------------------------
  // Periods and charts

  /** How far back a statistics window starts. */
  datatype Lookback = Days(n: nat) | Years(n: nat)

  /** The window of `estatisticas_periodo`: `periodo` defaults to 30dias and
      an unknown value also gives 30 days; the reply echoes `periodo`. */
  function PeriodStart(periodo: Option<string>): (r: (string, Lookback))
    ensures periodo.None? ==> r == ("30dias", Days(30))
    ensures periodo.Some? ==> r.0 == periodo.value
    ensures periodo == Some("7dias") <==> r.1 == Days(7)
    ensures periodo == Some("90dias") <==> r.1 == Days(90)
    ensures periodo == Some("ano") <==> r.1 == Years(1)
    ensures r.1 == Days(30) <==> periodo !in {Some("7dias"), Some("90dias"), Some("ano")}
  {
    var p := periodo.GetOr("30dias");
    (p, match p
        case "7dias" => Days(7)
        case "30dias" => Days(30)
        case "90dias" => Days(90)
        case "ano" => Years(1)
        case _ => Days(30))
  }

  /** The series of `grafico_demandas`. */
  datatype Series = DailyLastWeek | MonthlyLastYear | DailyLast30Days

  /** `tipo` defaults to "mes"; "semana" and "ano" pick their series and
      any other value falls back to the 30-day daily series. The reply
      echoes `tipo`. */
  function ChartSeries(tipo: Option<string>): (r: (string, Series))
    ensures tipo.None? ==> r == ("mes", DailyLast30Days)
    ensures tipo.Some? ==> r.0 == tipo.value
    ensures r.1 == DailyLastWeek <==> tipo == Some("semana")
    ensures r.1 == MonthlyLastYear <==> tipo == Some("ano")
    ensures r.1 == DailyLast30Days <==> tipo !in {Some("semana"), Some("ano")}
  {
    var t := tipo.GetOr("mes");
    (t, match t
        case "semana" => DailyLastWeek
        case "ano" => MonthlyLastYear
        case _ => DailyLast30Days)
  }

  datatype Operation = Summary | RecentDemands | PeriodStats | DemandChart

  const InvalidAction := "Ação inválida. Use: resumo, demandas_recentes, estatisticas_periodo ou grafico_demandas"

  function Route(action: Option<string>): (r: Response<Operation>)
    ensures r == Success(200, Summary) <==> action == Some("resumo")
    ensures r == Success(200, RecentDemands) <==> action == Some("demandas_recentes")
    ensures r == Success(200, PeriodStats) <==> action == Some("estatisticas_periodo")
    ensures r == Success(200, DemandChart) <==> action == Some("grafico_demandas")
    ensures r == Error(400, InvalidAction) <==>
      action !in {Some("resumo"), Some("demandas_recentes"), Some("estatisticas_periodo"), Some("grafico_demandas")}
  {
    match action.GetOr("")
    case "resumo" => Success(200, Summary)
    case "demandas_recentes" => Success(200, RecentDemands)
    case "estatisticas_periodo" => Success(200, PeriodStats)
    case "grafico_demandas" => Success(200, DemandChart)
    case _ => Error(400, InvalidAction)
  }
}
