/**
 * The Superjob provider: a vacancy carries two flat payment bounds and no
 * currency is checked; the search API says with a flag whether more pages
 * follow.
 */
module SuperjobSalaryService {
  import opened Wrappers
  import opened Http
  import opened BaseSalaryService

  /** One vacancy, as far as the salary service reads it. */
  datatype Vacancy = Vacancy(paymentFrom: Option<int>, paymentTo: Option<int>)

  /** The decoded body of one search page. */
  datatype Page = Page(objects: seq<Vacancy>, more: bool, total: int)

  /** The answers the provider gives, page index by page index, to a search for a keyword. */
  type Network = string -> seq<Response<Page>>

  // ---------------------------------------------------------------------
  // predict_rub_salary
  // ---------------------------------------------------------------------

  /**
   * The estimator applied to `payment_from` and `payment_to`, with no
   * currency check: there is an estimate exactly when one of the two
   * payments is truthy.
   */
  function PredictRubSalary(vacancy: Vacancy): (r: Option<int>)
    ensures r.Some? <==> Truthy(vacancy.paymentFrom) || Truthy(vacancy.paymentTo)
    ensures r == PredictRubSalaryUtil(vacancy.paymentFrom, vacancy.paymentTo)
  {
    PredictRubSalaryUtil(vacancy.paymentFrom, vacancy.paymentTo)
  }

  // ---------------------------------------------------------------------
  // get_vacancies_by_language
  // ---------------------------------------------------------------------

  /** The loop ends after a request that fails, or whose answer has `more` false. */
  predicate EndsFetch(response: Response<Page>)
  {
    RaisesForStatus(response.status) || !response.body.more
  }

  /** Some answer ends the loop, so the loop terminates. */
  predicate SignalsEnd(responses: seq<Response<Page>>)
  {
    exists i :: 0 <= i < |responses| && EndsFetch(responses[i])
  }

  /** The first page index at or after `from` whose answer ends the loop. */
  function FirstEndFrom(responses: seq<Response<Page>>, from: nat): (k: nat)
    requires exists i :: from <= i < |responses| && EndsFetch(responses[i])
    ensures from <= k < |responses| && EndsFetch(responses[k])
    ensures forall j :: from <= j < k ==> !EndsFetch(responses[j])
    decreases |responses| - from
  {
    if EndsFetch(responses[from]) then from else FirstEndFrom(responses, from + 1)
  }

  /** The index of the last page the loop requests. */
  function LastPage(responses: seq<Response<Page>>): (k: nat)
    requires SignalsEnd(responses)
    ensures k < |responses| && EndsFetch(responses[k])
    ensures forall j :: 0 <= j < k ==> !RaisesForStatus(responses[j].status) && responses[j].body.more
  {
    FirstEndFrom(responses, 0)
  }

  /** The objects of the given pages, concatenated in page order. */
  function Objects(responses: seq<Response<Page>>): seq<Vacancy>
  {
    if responses == [] then []
    else Objects(responses[..|responses| - 1]) + responses[|responses| - 1].body.objects
  }

  /** The sum of the pages' object counts. */
  function ObjectCount(responses: seq<Response<Page>>): nat
  {
    if responses == [] then 0 else |responses[0].body.objects| + ObjectCount(responses[1..])
  }

  /**
   * What `get_vacancies_by_language` returns for these answers: the error of
   * the last page requested if that request fails (nothing of the earlier
   * pages survives), otherwise the objects of pages 0 to the last, in
   * order, and the `total` of the last page.
   */
  function Fetch(responses: seq<Response<Page>>): (r: Result<Fetched<Vacancy>, Error>)
    requires SignalsEnd(responses)
    ensures var last := LastPage(responses);
            (r.Failure? <==> RaisesForStatus(responses[last].status)) &&
            (r.Failure? ==> r.error == HttpError(responses[last].status)) &&
            (r.Success? ==> r.value.total == responses[last].body.total &&
                            r.value.vacancies == Objects(responses[..last + 1]) &&
                            |r.value.vacancies| == ObjectCount(responses[..last + 1]))
  {
    var last := LastPage(responses);
    var response := responses[last];
    ObjectsLength(responses[..last + 1]);
    if RaisesForStatus(response.status) then Failure(HttpError(response.status))
    else Success(Fetched(Objects(responses[..last + 1]), response.body.total))
  }

  /**
   * The `while has_next` loop: requests pages 0, 1, 2, ... (the ghost
   * `requested` logs each `params['page']`), stops at the first failing
   * request or at the first answer whose `more` is false, and accumulates
   * objects and the last `total`.
   */
  method GetVacanciesByLanguage(language: string, network: Network)
    returns (r: Result<Fetched<Vacancy>, Error>, ghost requested: seq<nat>)
    requires SignalsEnd(network(language))
    ensures r == Fetch(network(language))
    ensures |requested| == LastPage(network(language)) + 1
    ensures forall i :: 0 <= i < |requested| ==> requested[i] == i
  {
    var responses := network(language);
    ghost var last := LastPage(responses);
    var hasNext := true;
    var vacancies: seq<Vacancy> := [];
    var page: nat := 0;
    var total := 0;
    requested := [];
    while hasNext
      invariant page <= last + 1
      invariant hasNext ==> page <= last
      invariant !hasNext ==> page == last + 1 && total == responses[last].body.total
      invariant !hasNext ==> !RaisesForStatus(responses[last].status)
      invariant vacancies == Objects(responses[..page])
      invariant |requested| == page && forall i :: 0 <= i < page ==> requested[i] == i
      decreases last + 1 - page
    {
      requested := requested + [page];
      var response := responses[page];
      if RaisesForStatus(response.status) {
        assert EndsFetch(responses[page]);
        return Failure(HttpError(response.status)), requested;
      }
      var more := response.body.more;
      assert responses[..page + 1][..page] == responses[..page];
      vacancies := vacancies + response.body.objects;
      total := response.body.total;
      page := page + 1;
      hasNext := more;
      if !hasNext {
        assert EndsFetch(responses[page - 1]);
      }
    }
    r := Success(Fetched(vacancies, total));
  }

  /** Accumulating page by page equals concatenating the two runs of pages. */
  lemma {:induction false} ObjectsAppend(a: seq<Response<Page>>, b: seq<Response<Page>>)
    ensures Objects(a + b) == Objects(a) + Objects(b)
  {
    if b == [] {
      assert a + b == a;
    } else {
      var b' := b[..|b| - 1];
      ObjectsAppend(a, b');
      assert (a + b)[..|a + b| - 1] == a + b';
    }
  }

  /** The number of vacancies accumulated is the sum of the pages' object counts. */
  lemma {:induction false} ObjectsLength(responses: seq<Response<Page>>)
    ensures |Objects(responses)| == ObjectCount(responses)
  {
    if responses != [] {
      ObjectsLength(responses[1..]);
      ObjectsAppend([responses[0]], responses[1..]);
      assert [responses[0]] + responses[1..] == responses;
      assert [responses[0]][..0] == [];
    }
  }

  /**
   * Two successful answers, the first with `more` true and the second with
   * `more` false: exactly pages 0 and 1 are requested, and the result holds
   * both pages' objects in order with the second page's total.
   */
  lemma TwoPagesThenStop(first: Page, second: Page, rest: seq<Response<Page>>)
    requires first.more && !second.more
    ensures var responses := [Response(200, first), Response(200, second)] + rest;
            SignalsEnd(responses) &&
            LastPage(responses) == 1 &&
            Fetch(responses) == Success(Fetched(first.objects + second.objects, second.total))
  {
    var responses := [Response(200, first), Response(200, second)] + rest;
    assert EndsFetch(responses[1]);
    assert !EndsFetch(responses[0]);
    assert responses[..2][..1] == [responses[0]];
    assert [responses[0]][..0] == [];
    assert Objects([responses[0]]) == first.objects;
    assert Objects(responses[..2]) == first.objects + second.objects;
  }

  // ---------------------------------------------------------------------
  // fetch_vacancies
  // ---------------------------------------------------------------------

  /**
   * `[(language, self.get_vacancies_by_language(language)) for language in
   * self.languages]`: one pair per keyword, in keyword order; the first
   * failing fetch is raised and nothing is returned.
   */
  method FetchVacancies(languages: seq<string>, network: Network)
    returns (r: Result<seq<(string, Fetched<Vacancy>)>, Error>)
    requires forall language :: language in languages ==> SignalsEnd(network(language))
    ensures r.Success? ==>
              |r.value| == |languages| &&
              forall i :: 0 <= i < |languages| ==>
                Fetch(network(languages[i])).Success? &&
                r.value[i] == (languages[i], Fetch(network(languages[i])).value)
    ensures r.Failure? ==>
              exists i :: 0 <= i < |languages| &&
                Fetch(network(languages[i])) == Failure(r.error) &&
                forall j :: 0 <= j < i ==> Fetch(network(languages[j])).Success?
  {
    var fetched: seq<(string, Fetched<Vacancy>)> := [];
    for i := 0 to |languages|
      invariant |fetched| == i
      invariant forall j :: 0 <= j < i ==>
                  Fetch(network(languages[j])).Success? &&
                  fetched[j] == (languages[j], Fetch(network(languages[j])).value)
    {
      var result;
      ghost var requested;
      result, requested := GetVacanciesByLanguage(languages[i], network);
      if result.Failure? {
        return Failure(result.error);
      }
      fetched := fetched + [(languages[i], result.value)];
    }
    r := Success(fetched);
  }
}
