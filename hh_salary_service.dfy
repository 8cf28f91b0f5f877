/**
 * The HeadHunter provider: a vacancy carries a nested salary object with a
 * currency code, and the search API reports how many pages there are.
 */
module HHSalaryService {
  import opened Wrappers
  import opened Http
  import opened BaseSalaryService

  /** The local currency code; any other currency gets no estimate. */
  const RUR := "RUR"

  /** The `salary` object of a vacancy: currency code and optional bounds. */
  datatype Salary = Salary(currency: string, from: Option<int>, to: Option<int>)

  /** One vacancy, as far as the salary service reads it. */
  datatype Vacancy = Vacancy(salary: Salary)

  /** The decoded body of one search page. */
  datatype Page = Page(items: seq<Vacancy>, pages: int, found: int)

  /** The answers the provider gives, page index by page index, to a search for a keyword. */
  type Network = string -> seq<Response<Page>>

  // ---------------------------------------------------------------------
  // predict_rub_salary
  // ---------------------------------------------------------------------

  /**
   * A vacancy paid in another currency gets no estimate whatever its
   * bounds; a rouble vacancy gets the estimator's value for its bounds.
   */
  function PredictRubSalary(vacancy: Vacancy): (r: Option<int>)
    ensures vacancy.salary.currency != RUR ==> r == None
    ensures vacancy.salary.currency == RUR ==> r == PredictRubSalaryUtil(vacancy.salary.from, vacancy.salary.to)
  {
    var salary := vacancy.salary;
    if salary.currency != RUR then None
    else PredictRubSalaryUtil(salary.from, salary.to)
  }

  /** A vacancy in a foreign currency contributes neither to the count nor to the amount. */
  lemma ForeignCurrencyIsIgnored(before: seq<Vacancy>, vacancy: Vacancy, after: seq<Vacancy>, total: int)
    requires vacancy.salary.currency != RUR
    ensures AverageSalaryStat(PredictRubSalary, Fetched(before + [vacancy] + after, total))
         == AverageSalaryStat(PredictRubSalary, Fetched(before + after, total))
  {
    UnestimatedVacancyIsIgnored(PredictRubSalary, before, vacancy, after, total);
  }

  /**
   * Two rouble vacancies with bounds (100000, None) and (None, 80000) and a
   * reported total of 50: both are counted, the amount is
   * 120000 + 64000 and the average 92000.
   */
  lemma TwoRoubleVacancies()
    ensures var vacancies := [Vacancy(Salary(RUR, Some(100000), None)), Vacancy(Salary(RUR, None, Some(80000)))];
            AverageSalaryStat(PredictRubSalary, Fetched(vacancies, 50)) == LanguageStat(92000, 2, 50)
  {
    var v1 := Vacancy(Salary(RUR, Some(100000), None));
    var v2 := Vacancy(Salary(RUR, None, Some(80000)));
    assert PredictRubSalary(v1) == Some(120000);
    assert PredictRubSalary(v2) == Some(64000);
    assert [v1, v2][..1] == [v1];
    assert Amount(PredictRubSalary, [v1]) == 120000;
    assert Processed(PredictRubSalary, [v1, v2]) == 2;
    assert Amount(PredictRubSalary, [v1, v2]) == 184000;
  }

  // ---------------------------------------------------------------------
  // get_vacancies_by_language
  // ---------------------------------------------------------------------

  /**
   * The loop ends after requesting page `index` when the request fails, or
   * when `index + 1 < pages` is false for its answer.
   */
  predicate EndsFetch(response: Response<Page>, index: int)
  {
    RaisesForStatus(response.status) || !(index + 1 < response.body.pages)
  }

  /** Some answer ends the loop, so the loop terminates. */
  predicate SignalsEnd(responses: seq<Response<Page>>)
  {
    exists i :: 0 <= i < |responses| && EndsFetch(responses[i], i)
  }

  /** The first page index at or after `from` whose answer ends the loop. */
  function FirstEndFrom(responses: seq<Response<Page>>, from: nat): (k: nat)
    requires exists i :: from <= i < |responses| && EndsFetch(responses[i], i)
    ensures from <= k < |responses| && EndsFetch(responses[k], k)
    ensures forall j :: from <= j < k ==> !EndsFetch(responses[j], j)
    decreases |responses| - from
  {
    if EndsFetch(responses[from], from) then from else FirstEndFrom(responses, from + 1)
  }

  /** The index of the last page the loop requests. */
  function LastPage(responses: seq<Response<Page>>): (k: nat)
    requires SignalsEnd(responses)
    ensures k < |responses| && EndsFetch(responses[k], k)
    ensures forall j :: 0 <= j < k ==> !RaisesForStatus(responses[j].status) && j + 1 < responses[j].body.pages
  {
    FirstEndFrom(responses, 0)
  }

  /** The items of the given pages, concatenated in page order. */
  function Items(responses: seq<Response<Page>>): seq<Vacancy>
  {
    if responses == [] then []
    else Items(responses[..|responses| - 1]) + responses[|responses| - 1].body.items
  }

  /**
   * What `get_vacancies_by_language` returns for these answers: the error of
   * the last page requested if that request fails (nothing of the earlier
   * pages survives), otherwise the items of pages 0 to the last, in order,
   * and the `found` of the last page.
   */
  function Fetch(responses: seq<Response<Page>>): (r: Result<Fetched<Vacancy>, Error>)
    requires SignalsEnd(responses)
    ensures var last := LastPage(responses);
            (r.Failure? <==> RaisesForStatus(responses[last].status)) &&
            (r.Failure? ==> r.error == HttpError(responses[last].status)) &&
            (r.Success? ==> r.value.total == responses[last].body.found &&
                            r.value.vacancies == Items(responses[..last + 1]) &&
                            |r.value.vacancies| == ItemCount(responses[..last + 1]))
  {
    var last := LastPage(responses);
    var response := responses[last];
    ItemsLength(responses[..last + 1]);
    if RaisesForStatus(response.status) then Failure(HttpError(response.status))
    else Success(Fetched(Items(responses[..last + 1]), response.body.found))
  }

  /**
   * The `while has_next` loop: requests pages 0, 1, 2, ... (the ghost
   * `requested` logs each `params['page']`), stops at the first failing
   * request or at the first page whose `page + 1 < pages` is false, and
   * accumulates items and the last `found`.
   */
  method GetVacanciesByLanguage(language: string, network: Network)
    returns (r: Result<Fetched<Vacancy>, Error>, ghost requested: seq<nat>)
    requires SignalsEnd(network(language))
    ensures r == Fetch(network(language))
    ensures |requested| == LastPage(network(language)) + 1
    ensures forall i :: 0 <= i < |requested| ==> requested[i] == i
  {
    var responses := network(language);
    ghost var last := LastPage(responses);
    var hasNext := true;
    var vacancies: seq<Vacancy> := [];
    var page: nat := 0;
    var total := 0;
    requested := [];
    while hasNext
      invariant page <= last + 1
      invariant hasNext ==> page <= last
      invariant !hasNext ==> page == last + 1 && total == responses[last].body.found
      invariant !hasNext ==> !RaisesForStatus(responses[last].status)
      invariant vacancies == Items(responses[..page])
      invariant |requested| == page && forall i :: 0 <= i < page ==> requested[i] == i
      decreases last + 1 - page
    {
      requested := requested + [page];
      var response := responses[page];
      if RaisesForStatus(response.status) {
        assert EndsFetch(responses[page], page);
        return Failure(HttpError(response.status)), requested;
      }
      var pages := response.body.pages;
      assert responses[..page + 1][..page] == responses[..page];
      vacancies := vacancies + response.body.items;
      total := response.body.found;
      page := page + 1;
      hasNext := page < pages;
      if !hasNext {
        assert EndsFetch(responses[page - 1], page - 1);
      }
    }
    r := Success(Fetched(vacancies, total));
  }

  /** Accumulating page by page equals concatenating the two runs of pages. */
  lemma {:induction false} ItemsAppend(a: seq<Response<Page>>, b: seq<Response<Page>>)
    ensures Items(a + b) == Items(a) + Items(b)
  {
    if b == [] {
      assert a + b == a;
    } else {
      var b' := b[..|b| - 1];
      ItemsAppend(a, b');
      assert (a + b)[..|a + b| - 1] == a + b';
    }
  }

  /** The number of vacancies accumulated is the sum of the pages' item counts. */
  function ItemCount(responses: seq<Response<Page>>): nat
  {
    if responses == [] then 0 else |responses[0].body.items| + ItemCount(responses[1..])
  }

  lemma {:induction false} ItemsLength(responses: seq<Response<Page>>)
    ensures |Items(responses)| == ItemCount(responses)
  {
    if responses != [] {
      ItemsLength(responses[1..]);
      ItemsAppend([responses[0]], responses[1..]);
      assert [responses[0]] + responses[1..] == responses;
      assert [responses[0]][..0] == [];
    }
  }

  /**
   * A successful fetch stops at the first page whose `page + 1 < pages` is
   * false, every earlier page continued the loop, and the total is the
   * last page's `found`.
   */
  lemma FetchStopsWhenPagesRunOut(responses: seq<Response<Page>>)
    requires SignalsEnd(responses)
    requires Fetch(responses).Success?
    ensures var last := LastPage(responses);
            last + 1 >= responses[last].body.pages &&
            Fetch(responses).value.total == responses[last].body.found &&
            forall j :: 0 <= j < last ==> j + 1 < responses[j].body.pages
  {
  }

  // ---------------------------------------------------------------------
  // fetch_vacancies
  // ---------------------------------------------------------------------

  /**
   * `[(language, self.get_vacancies_by_language(language)) for language in
   * self.languages]`: one pair per keyword, in keyword order; the first
   * failing fetch is raised and nothing is returned.
   */
  method FetchVacancies(languages: seq<string>, network: Network)
    returns (r: Result<seq<(string, Fetched<Vacancy>)>, Error>)
    requires forall language :: language in languages ==> SignalsEnd(network(language))
    ensures r.Success? ==>
              |r.value| == |languages| &&
              forall i :: 0 <= i < |languages| ==>
                Fetch(network(languages[i])).Success? &&
                r.value[i] == (languages[i], Fetch(network(languages[i])).value)
    ensures r.Failure? ==>
              exists i :: 0 <= i < |languages| &&
                Fetch(network(languages[i])) == Failure(r.error) &&
                forall j :: 0 <= j < i ==> Fetch(network(languages[j])).Success?
  {
    var fetched: seq<(string, Fetched<Vacancy>)> := [];
    for i := 0 to |languages|
      invariant |fetched| == i
      invariant forall j :: 0 <= j < i ==>
                  Fetch(network(languages[j])).Success? &&
                  fetched[j] == (languages[j], Fetch(network(languages[j])).value)
    {
      var result;
      ghost var requested;
      result, requested := GetVacanciesByLanguage(languages[i], network);
      if result.Failure? {
        return Failure(result.error);
      }
      fetched := fetched + [(languages[i], result.value)];
    }
    r := Success(fetched);
  }
}
