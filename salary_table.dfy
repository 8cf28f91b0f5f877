/**
 * `get_salaries_table` up to the list of rows handed to the table renderer,
 * for a closed choice of provider: fetch every keyword's vacancies, fold
 * each into its statistics, and build the header and one row per keyword.
 */
module SalaryTable {
  import opened Wrappers
  import opened BaseSalaryService
  import HHService = HHSalaryService
  import SuperjobService = SuperjobSalaryService

  /** The two job-search providers. */
  datatype Provider = HH | Superjob

  /** Every keyword's page answers end the pagination loop of the chosen provider. */
  predicate Terminates(provider: Provider, languages: seq<string>,
                       hhNetwork: HHService.Network, superjobNetwork: SuperjobService.Network)
  {
    match provider
    case HH => forall language :: language in languages ==> HHService.SignalsEnd(hhNetwork(language))
    case Superjob => forall language :: language in languages ==> SuperjobService.SignalsEnd(superjobNetwork(language))
  }

  /** The statistics of one keyword under the chosen provider, or the error its fetch raises. */
  function LanguageStatOf(provider: Provider, language: string,
                          hhNetwork: HHService.Network, superjobNetwork: SuperjobService.Network): Result<LanguageStat, Error>
    requires provider == HH ==> HHService.SignalsEnd(hhNetwork(language))
    requires provider == Superjob ==> SuperjobService.SignalsEnd(superjobNetwork(language))
  {
    match provider
    case HH =>
      (match HHService.Fetch(hhNetwork(language))
       case Success(fetched) => Success(AverageSalaryStat(HHService.PredictRubSalary, fetched))
       case Failure(e) => Failure(e))
    case Superjob =>
      (match SuperjobService.Fetch(superjobNetwork(language))
       case Success(fetched) => Success(AverageSalaryStat(SuperjobService.PredictRubSalary, fetched))
       case Failure(e) => Failure(e))
  }

  /**
   * The rows of one provider's table. On success: the fixed header, then
   * one row per keyword in the given order with that keyword's statistics.
   * On failure: the error of the first keyword whose fetch raised, every
   * earlier keyword having been fetched.
   */
  method GetSalariesTable(provider: Provider, languages: seq<string>,
                          hhNetwork: HHService.Network, superjobNetwork: SuperjobService.Network)
    returns (r: Result<seq<Row>, Error>)
    requires Terminates(provider, languages, hhNetwork, superjobNetwork)
    ensures r.Success? ==>
              |r.value| == |languages| + 1 && r.value[0] == HEADER &&
              forall i :: 0 <= i < |languages| ==>
                LanguageStatOf(provider, languages[i], hhNetwork, superjobNetwork).Success? &&
                r.value[i + 1] == RowOf(languages[i], LanguageStatOf(provider, languages[i], hhNetwork, superjobNetwork).value)
    ensures r.Failure? ==>
              exists i :: 0 <= i < |languages| &&
                LanguageStatOf(provider, languages[i], hhNetwork, superjobNetwork) == Failure(r.error) &&
                forall j :: 0 <= j < i ==> LanguageStatOf(provider, languages[j], hhNetwork, superjobNetwork).Success?
  {
    var stats: seq<(string, LanguageStat)>;
    match provider {
      case HH =>
        var vacancies := HHService.FetchVacancies(languages, hhNetwork);
        if vacancies.Failure? {
          return Failure(vacancies.error);
        }
        stats := GetVacanciesStat(HHService.PredictRubSalary, vacancies.value);
      case Superjob =>
        var vacancies := SuperjobService.FetchVacancies(languages, superjobNetwork);
        if vacancies.Failure? {
          return Failure(vacancies.error);
        }
        stats := GetVacanciesStat(SuperjobService.PredictRubSalary, vacancies.value);
    }
    var rows := GetRowsForSalariesTable(stats);
    r := Success(rows);
  }

  /**
   * The Superjob prediction is the HeadHunter prediction of a rouble
   * vacancy with the same bounds: Superjob never gates on currency.
   */
  lemma SuperjobIsUngatedHH(vacancy: SuperjobService.Vacancy)
    ensures SuperjobService.PredictRubSalary(vacancy)
         == HHService.PredictRubSalary(HHService.Vacancy(HHService.Salary(HHService.RUR, vacancy.paymentFrom, vacancy.paymentTo)))
  {
  }
}
