/**
 * The provider-independent half of the salary services: the salary
 * estimator, the per-language fold into statistics, the comprehension that
 * applies that fold to every language, and the rows handed to the table
 * renderer. The fold is generic in the vacancy record `V`; the provider's
 * `predict_rub_salary` is passed in as `predict`.
 */
module BaseSalaryService {
  import opened Wrappers

  /** What a run can raise: a failing HTTP status, or Python's TypeError. */
  datatype Error = HttpError(status: int) | TypeError

  /** Python truthiness of an optional number: `None` and `0` are both false. */
  predicate Truthy(x: Option<int>)
  {
    x.Some? && x.value != 0
  }

  // ---------------------------------------------------------------------
  // Truncation toward zero, as Python's `int(...)` applies it to a quotient
  // ---------------------------------------------------------------------

  /** `q` is `a / d` rounded toward zero (for `d > 0`). */
  predicate IsTruncatedQuotient(q: int, a: int, d: int)
  {
    if a >= 0 then 0 <= a - q * d < d else -d < a - q * d <= 0
  }

  /**
   * `int(a / d)`. Dafny's `/` rounds toward negative infinity, so a
   * negative dividend is handled by symmetry.
   */
  function TruncDiv(a: int, d: int): (q: int)
    requires d > 0
    ensures IsTruncatedQuotient(q, a, d)
  {
    if a >= 0 then a / d else -((-a) / d)
  }

  /** The truncated quotient is unique, so `IsTruncatedQuotient` pins `TruncDiv` down. */
  lemma TruncatedQuotientUnique(q1: int, q2: int, a: int, d: int)
    requires d > 0
    requires IsTruncatedQuotient(q1, a, d) && IsTruncatedQuotient(q2, a, d)
    ensures q1 == q2
  {
    assert (q1 - q2) * d == (a - q2 * d) - (a - q1 * d);
    LtCancel(q1 - q2, 1, d);
    LtCancel(q2 - q1, 1, d);
  }

  lemma LtCancel(x: int, y: int, c: int)
    requires c > 0 && x * c < y * c
    ensures x < y
  {
  }

  lemma LeCancel(x: int, y: int, c: int)
    requires c > 0 && x * c <= y * c
    ensures x <= y
  {
  }

  /** A quotient of a value lying between lo * c and hi * c lies between lo and hi. */
  lemma QuotientBetween(a: int, c: int, lo: int, hi: int)
    requires c > 0 && lo * c <= a <= hi * c
    ensures lo <= a / c <= hi
  {
    var q, r := a / c, a % c;
    assert a == q * c + r && 0 <= r < c;
    assert (q + 1) * c == q * c + c;
    LtCancel(lo, q + 1, c);
    LeCancel(q, hi, c);
  }

  // ---------------------------------------------------------------------
  // predict_rub_salary_util
  // ---------------------------------------------------------------------

  /**
   * One salary estimate from a partial range. A bound counts only when it
   * is truthy, so a bound of 0 is as good as a missing one. The float
   * factors 1.2 and 0.8 are taken as the exact ratios 6/5 and 4/5, and the
   * float halving as exact division. For bounds of magnitude below about
   * 2^50 the truncated float results equal these exact ones; beyond 2^53
   * the float arithmetic loses precision and they can differ either way.
   */
  function PredictRubSalaryUtil(salaryFrom: Option<int>, salaryTo: Option<int>): (r: Option<int>)
    ensures r.None? <==> !Truthy(salaryFrom) && !Truthy(salaryTo)
    ensures Truthy(salaryFrom) && Truthy(salaryTo) ==>
              r.Some? && IsTruncatedQuotient(r.value, salaryFrom.value + salaryTo.value, 2)
    ensures Truthy(salaryFrom) && !Truthy(salaryTo) ==>
              r.Some? && IsTruncatedQuotient(r.value, salaryFrom.value * 6, 5)
    ensures !Truthy(salaryFrom) && Truthy(salaryTo) ==>
              r.Some? && IsTruncatedQuotient(r.value, salaryTo.value * 4, 5)
  {
    if Truthy(salaryFrom) && Truthy(salaryTo) then
      Some(TruncDiv(salaryFrom.value + salaryTo.value, 2))
    else if Truthy(salaryFrom) then
      Some(TruncDiv(salaryFrom.value * 6, 5))
    else if Truthy(salaryTo) then
      Some(TruncDiv(salaryTo.value * 4, 5))
    else
      None
  }

  /** A bound of 0 behaves exactly like a missing bound, on either side. */
  lemma ZeroBoundIsMissing(salaryFrom: Option<int>, salaryTo: Option<int>)
    ensures PredictRubSalaryUtil(Some(0), salaryTo) == PredictRubSalaryUtil(None, salaryTo)
    ensures PredictRubSalaryUtil(salaryFrom, Some(0)) == PredictRubSalaryUtil(salaryFrom, None)
  {
  }

  /** With two positive bounds the estimate lies between them. */
  lemma MidpointBetweenBounds(salaryFrom: int, salaryTo: int)
    requires salaryFrom > 0 && salaryTo > 0
    ensures var r := PredictRubSalaryUtil(Some(salaryFrom), Some(salaryTo));
            r.Some? &&
            (salaryFrom <= salaryTo ==> salaryFrom <= r.value <= salaryTo) &&
            (salaryTo <= salaryFrom ==> salaryTo <= r.value <= salaryFrom)
  {
  }

  /**
   * With one positive bound, a lone lower bound is raised and a lone upper
   * bound is lowered: estimate(None, x) <= x <= estimate(x, None).
   */
  lemma OneSidedEstimates(x: int)
    requires x > 0
    ensures PredictRubSalaryUtil(None, Some(x)).Some?
    ensures PredictRubSalaryUtil(Some(x), None).Some?
    ensures PredictRubSalaryUtil(None, Some(x)).value <= x <= PredictRubSalaryUtil(Some(x), None).value
  {
  }

  /** An estimate can itself be 0: an upper bound of 1 alone gives int(0.8) == 0. */
  lemma TinyUpperBoundEstimatesZero()
    ensures PredictRubSalaryUtil(None, Some(1)) == Some(0)
    ensures !Truthy(PredictRubSalaryUtil(None, Some(1)))
  {
  }

  // ---------------------------------------------------------------------
  // get_average_salary_stat
  // ---------------------------------------------------------------------

  /** What `get_vacancies_by_language` returns: the vacancies and the reported total. */
  datatype Fetched<V> = Fetched(vacancies: seq<V>, total: int)

  /** The statistics of one language. */
  datatype LanguageStat = LanguageStat(averageSalary: int, vacanciesProcessed: nat, vacanciesFound: int)

  /** How many vacancies have a truthy estimate. */
  function Processed<V>(predict: V -> Option<int>, vacancies: seq<V>): (n: nat)
    ensures n <= |vacancies|
  {
    if vacancies == [] then 0
    else
      var last := vacancies[|vacancies| - 1];
      Processed(predict, vacancies[..|vacancies| - 1]) + (if Truthy(predict(last)) then 1 else 0)
  }

  /** The sum of the truthy estimates. */
  function Amount<V>(predict: V -> Option<int>, vacancies: seq<V>): int
  {
    if vacancies == [] then 0
    else
      var last := vacancies[|vacancies| - 1];
      Amount(predict, vacancies[..|vacancies| - 1]) + (if Truthy(predict(last)) then predict(last).value else 0)
  }

  /**
   * The statistics of one language: the number of vacancies with a truthy
   * estimate, their truncated mean (0 when there are none, never a
   * division by zero) and the provider's total passed through unchanged.
   */
  function AverageSalaryStat<V>(predict: V -> Option<int>, fetched: Fetched<V>): (stat: LanguageStat)
    ensures stat.vacanciesFound == fetched.total
    ensures stat.vacanciesProcessed == Processed(predict, fetched.vacancies)
    ensures stat.vacanciesProcessed <= |fetched.vacancies|
    ensures stat.vacanciesProcessed == 0 ==> stat.averageSalary == 0
    ensures stat.vacanciesProcessed > 0 ==>
              IsTruncatedQuotient(stat.averageSalary, Amount(predict, fetched.vacancies), stat.vacanciesProcessed)
  {
    var count := Processed(predict, fetched.vacancies);
    var amount := Amount(predict, fetched.vacancies);
    LanguageStat(if count > 0 then TruncDiv(amount, count) else 0, count, fetched.total)
  }

  /** The `for` loop that counts and sums the truthy estimates. */
  method GetAverageSalaryStat<V>(predict: V -> Option<int>, fetched: Fetched<V>) returns (stat: LanguageStat)
    ensures stat == AverageSalaryStat(predict, fetched)
  {
    var vacancies := fetched.vacancies;
    var count: nat := 0;
    var amount := 0;
    for i := 0 to |vacancies|
      invariant count == Processed(predict, vacancies[..i])
      invariant amount == Amount(predict, vacancies[..i])
    {
      assert vacancies[..i + 1][..i] == vacancies[..i];
      var salary := predict(vacancies[i]);
      if Truthy(salary) {
        count := count + 1;
        amount := amount + salary.value;
      }
    }
    assert vacancies[..|vacancies|] == vacancies;
    stat := LanguageStat(if count > 0 then TruncDiv(amount, count) else 0, count, fetched.total);
  }

  /** Counting distributes over concatenation. */
  lemma {:induction false} ProcessedAppend<V>(predict: V -> Option<int>, a: seq<V>, b: seq<V>)
    ensures Processed(predict, a + b) == Processed(predict, a) + Processed(predict, b)
    ensures Amount(predict, a + b) == Amount(predict, a) + Amount(predict, b)
  {
    if b == [] {
      assert a + b == a;
    } else {
      var b' := b[..|b| - 1];
      ProcessedAppend(predict, a, b');
      assert (a + b)[..|a + b| - 1] == a + b';
    }
  }

  /**
   * A vacancy whose estimate is not truthy (missing, or 0) changes nothing,
   * wherever it sits in the list.
   */
  lemma UnestimatedVacancyIsIgnored<V>(predict: V -> Option<int>, a: seq<V>, v: V, b: seq<V>, total: int)
    requires !Truthy(predict(v))
    ensures AverageSalaryStat(predict, Fetched(a + [v] + b, total)) == AverageSalaryStat(predict, Fetched(a + b, total))
  {
    ProcessedAppend(predict, a + [v], b);
    ProcessedAppend(predict, a, b);
    assert (a + [v])[..|a + [v]| - 1] == a;
  }

  /** Every counted estimate lies in [lo, hi]. */
  ghost predicate EstimatesWithin<V>(predict: V -> Option<int>, vacancies: seq<V>, lo: int, hi: int)
  {
    forall i :: 0 <= i < |vacancies| && Truthy(predict(vacancies[i])) ==>
      lo <= predict(vacancies[i]).value <= hi
  }

  lemma {:induction false} AmountBetween<V>(predict: V -> Option<int>, vacancies: seq<V>, lo: int, hi: int)
    requires EstimatesWithin(predict, vacancies, lo, hi)
    ensures lo * Processed(predict, vacancies) <= Amount(predict, vacancies) <= hi * Processed(predict, vacancies)
  {
    if vacancies != [] {
      var n := |vacancies| - 1;
      var init := vacancies[..n];
      assert EstimatesWithin(predict, init, lo, hi) by {
        forall i | 0 <= i < |init| && Truthy(predict(init[i]))
          ensures lo <= predict(init[i]).value <= hi
        {
          assert init[i] == vacancies[i];
        }
      }
      AmountBetween(predict, init, lo, hi);
      var c := Processed(predict, init);
      if Truthy(predict(vacancies[n])) {
        assert lo * (c + 1) == lo * c + lo;
        assert hi * (c + 1) == hi * c + hi;
      }
    }
  }

  /**
   * When every counted estimate lies in [lo, hi] with lo >= 0 and something
   * was counted, the average lies in [lo, hi] as well.
   */
  lemma AverageWithinBounds<V>(predict: V -> Option<int>, fetched: Fetched<V>, lo: int, hi: int)
    requires 0 <= lo
    requires EstimatesWithin(predict, fetched.vacancies, lo, hi)
    requires Processed(predict, fetched.vacancies) > 0
    ensures lo <= AverageSalaryStat(predict, fetched).averageSalary <= hi
  {
    var count := Processed(predict, fetched.vacancies);
    var amount := Amount(predict, fetched.vacancies);
    AmountBetween(predict, fetched.vacancies, lo, hi);
    assert amount >= 0 by { MulNonNeg(lo, count); }
    QuotientBetween(amount, count, lo, hi);
  }

  lemma MulNonNeg(a: int, b: int)
    requires a >= 0 && b >= 0
    ensures a * b >= 0
  {
  }

  // ---------------------------------------------------------------------
  // The stats step of get_salaries_table
  // ---------------------------------------------------------------------

  /**
   * The value `get_average_salary_stat` receives as its `vacancies`
   * argument: the result dict of one fetch, or a `(language, result)` pair.
   */
  datatype StatArg<V> = DictArg(fetched: Fetched<V>) | PairArg(language: string, fetched: Fetched<V>)

  /**
   * `vacancies['vacancies']`: a dict yields its vacancy list, while a tuple
   * subscripted with a string raises TypeError.
   */
  function SubscriptVacancies<V>(arg: StatArg<V>): (r: Result<seq<V>, Error>)
    ensures r.Success? <==> arg.DictArg?
    ensures r.Success? ==> r.value == arg.fetched.vacancies
    ensures r.Failure? ==> r.error == TypeError
  {
    match arg
    case DictArg(fetched) => Success(fetched.vacancies)
    case PairArg(_, _) => Failure(TypeError)
  }

  /**
   * `get_average_salary_stat` applied to whatever it is handed. The loop
   * header subscripts the argument before anything is counted, so a pair
   * raises there; a dict gives its statistics.
   */
  function AverageSalaryStatOf<V>(predict: V -> Option<int>, arg: StatArg<V>): Result<LanguageStat, Error>
  {
    match SubscriptVacancies(arg)
    case Failure(e) => Failure(e)
    case Success(vacancies) => Success(AverageSalaryStat(predict, Fetched(vacancies, arg.fetched.total)))
  }

  /** Handed a dict, `get_average_salary_stat` gives exactly its statistics. */
  lemma DictArgIsCounted<V>(predict: V -> Option<int>, fetched: Fetched<V>)
    ensures AverageSalaryStatOf(predict, DictArg(fetched)) == Success(AverageSalaryStat(predict, fetched))
  {
  }

  /**
   * A list comprehension applying `get_average_salary_stat` to each argument
   * in order; the first exception propagates and nothing is returned.
   */
  function StatsStep<V>(predict: V -> Option<int>, args: seq<StatArg<V>>): (r: Result<seq<LanguageStat>, Error>)
    ensures r.Success? <==> forall i :: 0 <= i < |args| ==> args[i].DictArg?
    ensures r.Success? ==>
              |r.value| == |args| &&
              forall i :: 0 <= i < |args| ==> r.value[i] == AverageSalaryStat(predict, args[i].fetched)
    ensures r.Failure? ==> r.error == TypeError
  {
    if args == [] then Success([])
    else
      match AverageSalaryStatOf(predict, args[0])
      case Failure(e) => Failure(e)
      case Success(stat) =>
        match StatsStep(predict, args[1..])
        case Failure(e) => Failure(e)
        case Success(rest) => Success([stat] + rest)
  }

  /**
   * The stats step AS WRITTEN: `[self.get_average_salary_stat(vacancy) for
   * vacancy in vacancies]`, where every element of `vacancies` is the
   * `(language, result)` pair that `fetch_vacancies` builds.
   */
  function VacanciesStatAsWritten<V>(predict: V -> Option<int>, vacancies: seq<(string, Fetched<V>)>)
    : Result<seq<LanguageStat>, Error>
  {
    StatsStep(predict, seq(|vacancies|, i requires 0 <= i < |vacancies| => PairArg(vacancies[i].0, vacancies[i].1)))
  }

  /**
   * The stats step as intended: one `(language, stat)` pair per fetched
   * language, in the same order, which is what the row builder unpacks.
   */
  method GetVacanciesStat<V>(predict: V -> Option<int>, vacancies: seq<(string, Fetched<V>)>)
    returns (stats: seq<(string, LanguageStat)>)
    ensures |stats| == |vacancies|
    ensures forall i :: 0 <= i < |vacancies| ==>
              stats[i] == (vacancies[i].0, AverageSalaryStat(predict, vacancies[i].1))
  {
    stats := [];
    for i := 0 to |vacancies|
      invariant |stats| == i
      invariant forall j :: 0 <= j < i ==>
                  stats[j] == (vacancies[j].0, AverageSalaryStat(predict, vacancies[j].1))
    {
      var (language, fetched) := vacancies[i];
      var stat := GetAverageSalaryStat(predict, fetched);
      stats := stats + [(language, stat)];
    }
  }

  /**
   * The discrepancy: for any non-empty list of fetched languages the step as
   * written raises TypeError on its first element, while the same step
   * handed the result dicts counts every language, which is what the
   * intended step `GetVacanciesStat` pairs with each language.
   */
  lemma StatsStepAsWrittenRaises<V>(predict: V -> Option<int>, vacancies: seq<(string, Fetched<V>)>)
    requires vacancies != []
    ensures VacanciesStatAsWritten(predict, vacancies) == Failure(TypeError)
    ensures var dicts := seq(|vacancies|, i requires 0 <= i < |vacancies| => DictArg(vacancies[i].1));
            StatsStep(predict, dicts).Success? &&
            forall i :: 0 <= i < |vacancies| ==>
              StatsStep(predict, dicts).value[i] == AverageSalaryStat(predict, vacancies[i].1)
  {
    var pairs := seq(|vacancies|, i requires 0 <= i < |vacancies| => PairArg(vacancies[i].0, vacancies[i].1));
    assert !pairs[0].DictArg?;
  }

  // ---------------------------------------------------------------------
  // get_rows_for_salaries_table
  // ---------------------------------------------------------------------

  /** One row of the table: the header of four labels, or one language's figures. */
  datatype Row =
    | Header(languageLabel: string, foundLabel: string, processedLabel: string, averageLabel: string)
    | StatRow(language: string, found: int, processed: nat, average: int)

  /** The fixed header row (language, vacancies found, vacancies processed, average salary). */
  const HEADER: Row := Header("Язык программирования", "Вакансий найдено", "Вакансий обработано", "Средняя зарплата")

  /** The row of one language, in column order found, processed, average. */
  function RowOf(language: string, stat: LanguageStat): Row
  {
    StatRow(language, stat.vacanciesFound, stat.vacanciesProcessed, stat.averageSalary)
  }

  /**
   * The header followed by one row per language, in input order, with no
   * sorting and no filtering.
   */
  method GetRowsForSalariesTable(vacanciesStat: seq<(string, LanguageStat)>) returns (table: seq<Row>)
    ensures |table| == |vacanciesStat| + 1
    ensures table[0] == HEADER
    ensures forall i :: 0 <= i < |vacanciesStat| ==> table[i + 1] == RowOf(vacanciesStat[i].0, vacanciesStat[i].1)
  {
    table := [HEADER];
    for i := 0 to |vacanciesStat|
      invariant |table| == i + 1
      invariant table[0] == HEADER
      invariant forall j :: 0 <= j < i ==> table[j + 1] == RowOf(vacanciesStat[j].0, vacanciesStat[j].1)
    {
      var (language, stat) := vacanciesStat[i];
      table := table + [RowOf(language, stat)];
    }
  }
}
