# language-salary: a verified model of the salary-statistics services

This project models the core of `language-salary`. That program asks two job-search
APIs, HeadHunter and Superjob, for vacancies matching each programming-language
keyword. For every keyword it estimates one salary per vacancy from the vacancy's
partial salary range, then averages the estimates. It is meant to return one table
row per keyword. As written, its stats step raises TypeError for every non-empty
keyword list (see "## Findings"). `SalaryTable.GetSalariesTable` models the corrected
step.

The model follows the three service files:

- `base_salary_service.dfy` (module `BaseSalaryService`) holds the provider-independent
  parts. These are the estimator `predict_rub_salary_util`, the fold
  `get_average_salary_stat`, the stats step of `get_salaries_table` and the row
  builder `get_rows_for_salaries_table`. The fold is generic in the vacancy record.
  The provider's `predict_rub_salary` is passed to it as a function.
- `hh_salary_service.dfy` and `superjob_salary_service.dfy` hold one module per provider.
  Each has the provider's `predict_rub_salary`, its `while has_next` pagination loop and
  the inherited `fetch_vacancies` comprehension over keywords. That comprehension calls
  the provider's loop, so it is written once per provider.
- `salary_table.dfy` (module `SalaryTable`) puts the steps together for a closed choice
  `Provider = HH | Superjob`. It stands in for the abstract base class and its two
  subclasses.
- `wrappers.dfy` and `http.dfy` hold `Option`/`Result` and the HTTP response shape.
  `raise_for_status` raises for statuses 400 to 599.

Modelling choices:

- **Network.** A provider's answers to the searches are a parameter. It is a function
  from keyword to the sequence of page responses, indexed by page number. Each
  response has a status code and a decoded body.
- **Termination.** The loop can run forever if the provider never signals the end.
  Each fetch therefore requires that some response ends it: a failing status, or a
  stop signal.
- **Requested pages.** A ghost log records the page indices that were requested.
- **Estimator arithmetic.** `int(...)` truncates toward zero. It is written out as
  `TruncDiv` and characterised by `IsTruncatedQuotient`, so negative values are
  handled as Python handles them. The float factors `1.2` and `0.8` are replaced by
  the exact ratios `6/5` and `4/5`.
- **Truthiness.** A bound or an estimate counts only when it is truthy. `None` and
  `0` are both falsy.

The model follows the code as written in three places where a reader might expect otherwise:

- A bound of `0` counts as missing. The code tests truthiness, not `is not None`.
- `int(...)` truncates toward zero rather than taking the floor.
- Nothing guarantees that the reported total equals the number of vacancies
  collected. The total is taken from the last page as reported.

## Model

| member | source | states |
|---|---|---|
| `BaseSalaryService.TruncDiv` | services/BaseSalaryService.py:42 | `int(a / d)` for `d > 0` is the quotient rounded toward zero, for negative dividends too |
| `BaseSalaryService.TruncatedQuotientUnique` | services/BaseSalaryService.py:21 | the rounded-toward-zero quotient is unique, so the relational characterisation fixes every `int(...)` result |
| `BaseSalaryService.PredictRubSalaryUtil` | services/BaseSalaryService.py:18-29 | no estimate exactly when neither bound is truthy; both truthy gives the truncated midpoint; only `from` gives `from * 1.2` truncated; only `to` gives `to * 0.8` truncated |
| `BaseSalaryService.ZeroBoundIsMissing` | services/BaseSalaryService.py:20-29 | a bound of 0 gives the same estimate as a missing bound, on either side |
| `BaseSalaryService.MidpointBetweenBounds` | services/BaseSalaryService.py:20-21 | with two positive bounds the estimate lies between them |
| `BaseSalaryService.OneSidedEstimates` | services/BaseSalaryService.py:23-27 | a lone positive upper bound `x` is lowered and a lone lower bound `x` is raised: estimate(None, x) <= x <= estimate(x, None) |
| `BaseSalaryService.TinyUpperBoundEstimatesZero` | services/BaseSalaryService.py:26-27 | an upper bound of 1 alone estimates 0, which is falsy and so is not counted by the fold |
| `BaseSalaryService.Processed` | services/BaseSalaryService.py:35-38 | the number of vacancies with a truthy estimate never exceeds the number of vacancies |
| `BaseSalaryService.AverageSalaryStat` | services/BaseSalaryService.py:31-45 | `vacancies_found` is the fetched total unchanged; `vacancies_processed` is `Processed`, the count of truthy estimates, and is at most the vacancy count; the average is the truncated mean of their sum when something was counted and exactly 0 otherwise |
| `BaseSalaryService.GetAverageSalaryStat` | services/BaseSalaryService.py:31-45 | the counting and summing loop returns exactly the statistics of `AverageSalaryStat` |
| `BaseSalaryService.ProcessedAppend` | services/BaseSalaryService.py:35-39 | count and amount of a concatenation are the sums of the parts' counts and amounts |
| `BaseSalaryService.UnestimatedVacancyIsIgnored` | services/BaseSalaryService.py:36-39 | a vacancy with a missing or zero estimate, inserted anywhere, leaves the statistics unchanged |
| `BaseSalaryService.AmountBetween` | services/BaseSalaryService.py:35-39 | if every counted estimate lies in [lo, hi], the amount lies between lo and hi times the count |
| `BaseSalaryService.AverageWithinBounds` | services/BaseSalaryService.py:42 | if every counted estimate lies in [lo, hi] with lo >= 0 and something was counted, the average lies in [lo, hi] |
| `BaseSalaryService.SubscriptVacancies` | services/BaseSalaryService.py:35 | `vacancies['vacancies']` yields the vacancy list of a dict and raises TypeError on a `(language, result)` tuple |
| `BaseSalaryService.DictArgIsCounted` | services/BaseSalaryService.py:31-45 | `get_average_salary_stat` handed a result dict gives exactly that dict's statistics |
| `BaseSalaryService.StatsStep` | services/BaseSalaryService.py:69 | the comprehension over `get_average_salary_stat` succeeds exactly when every argument is a dict, then gives each argument's statistics in order; otherwise it raises TypeError |
| `BaseSalaryService.StatsStepAsWrittenRaises` | services/BaseSalaryService.py:68-69 | the comprehension as written, over the pairs `fetch_vacancies` builds, raises TypeError for any non-empty keyword list; handed the result dicts instead, it gives every keyword's statistics in order |
| `BaseSalaryService.GetVacanciesStat` | services/BaseSalaryService.py:69 | the intended stats step gives one `(language, stat)` pair per fetched keyword, in order |
| `BaseSalaryService.GetRowsForSalariesTable` | services/BaseSalaryService.py:50-65 | `1 + len(stats)` rows: row 0 is the fixed four-label header and row `i + 1` is `(language_i, found_i, processed_i, average_i)`, in input order with nothing sorted or dropped |
| `HHSalaryService.PredictRubSalary` | services/HHSalaryService.py:7-13 | a non-`RUR` vacancy predicts nothing whatever its bounds; a `RUR` vacancy predicts the estimator's value of `salary.from` and `salary.to` |
| `HHSalaryService.ForeignCurrencyIsIgnored` | services/HHSalaryService.py:10-11 | a foreign-currency vacancy, inserted anywhere, changes neither count nor amount nor average |
| `HHSalaryService.TwoRoubleVacancies` | services/HHSalaryService.py:10-13 | rouble vacancies (100000, None) and (None, 80000) with total 50 give 2 processed and an average of 92000 |
| `HHSalaryService.FirstEndFrom` | services/HHSalaryService.py:30-40 | the first page index at or after a start whose request fails or whose `page + 1 < pages` is false; no earlier index ends the loop |
| `HHSalaryService.LastPage` | services/HHSalaryService.py:36-40 | the last requested page ends the loop; every earlier page had a passing status and `page + 1 < pages` |
| `HHSalaryService.Fetch` | services/HHSalaryService.py:30-45 | fails exactly when the last requested page's status raises, with that status and no partial result; otherwise the vacancies are the items of pages 0 to last concatenated in order, the total is that page's `found`, and the vacancy count is the sum of the fetched pages' item counts |
| `HHSalaryService.GetVacanciesByLanguage` | services/HHSalaryService.py:15-45 | the loop returns `Fetch` of the keyword's answers; the requested page indices are exactly 0, 1, ..., last, so at least one page is requested |
| `HHSalaryService.ItemsAppend` | services/HHSalaryService.py:37 | accumulating the items of two runs of pages equals concatenating their accumulations |
| `HHSalaryService.ItemsLength` | services/HHSalaryService.py:37 | the accumulated vacancy count is the sum of the per-page item counts |
| `HHSalaryService.FetchStopsWhenPagesRunOut` | services/HHSalaryService.py:36-44 | a successful fetch stops at the first page with `page + 1 >= pages`, every earlier page continued, and the total is the last page's `found` |
| `HHSalaryService.FetchVacancies` | services/BaseSalaryService.py:47-48 | on success, one `(language, fetched)` pair per keyword in keyword order; on failure, the error of the first keyword whose fetch failed |
| `SuperjobSalaryService.PredictRubSalary` | services/SuperjobSalaryService.py:11-12 | the estimator applied to `payment_from` and `payment_to` with no currency check; an estimate exists exactly when one payment is truthy |
| `SuperjobSalaryService.FirstEndFrom` | services/SuperjobSalaryService.py:28-38 | the first page index at or after a start whose request fails or whose `more` is false; no earlier index ends the loop |
| `SuperjobSalaryService.LastPage` | services/SuperjobSalaryService.py:34-38 | the last requested page ends the loop; every earlier page had a passing status and `more` true |
| `SuperjobSalaryService.Fetch` | services/SuperjobSalaryService.py:28-43 | fails exactly when the last requested page's status raises, with that status and no partial result; otherwise the vacancies are the objects of pages 0 to last concatenated in order, the total is that page's `total`, and the vacancy count is the sum of the fetched pages' object counts |
| `SuperjobSalaryService.GetVacanciesByLanguage` | services/SuperjobSalaryService.py:14-43 | the loop returns `Fetch` of the keyword's answers; the requested page indices are exactly 0, 1, ..., last, so at least one page is requested |
| `SuperjobSalaryService.ObjectsAppend` | services/SuperjobSalaryService.py:35 | accumulating the objects of two runs of pages equals concatenating their accumulations |
| `SuperjobSalaryService.ObjectsLength` | services/SuperjobSalaryService.py:35 | the accumulated vacancy count is the sum of the per-page object counts |
| `SuperjobSalaryService.TwoPagesThenStop` | services/SuperjobSalaryService.py:34-38 | answers with `more` true then `more` false end after exactly two pages, with both pages' objects in order and the second page's total |
| `SuperjobSalaryService.FetchVacancies` | services/BaseSalaryService.py:47-48 | on success, one `(language, fetched)` pair per keyword in keyword order; on failure, the error of the first keyword whose fetch failed |
| `SalaryTable.GetSalariesTable` | services/BaseSalaryService.py:67-72 | on success, the header and then one row per keyword in keyword order carrying that keyword's statistics under the chosen provider; on failure, the error of the first keyword whose fetch failed |
| `SalaryTable.SuperjobIsUngatedHH` | services/SuperjobSalaryService.py:11-12 | a Superjob prediction equals the HeadHunter prediction of a rouble vacancy with the same bounds |

## Findings

| source | as written | input that shows it | evidently intended | confidence | as-written member | corrected member |
|---|---|---|---|---|---|---|
| services/BaseSalaryService.py:69 | `[self.get_average_salary_stat(vacancy) for vacancy in vacancies]` passes each `(language, result)` pair to `get_average_salary_stat`. That method subscripts the pair with `'vacancies'`, which raises TypeError. | any non-empty keyword list whose fetches succeed, e.g. `['Python']` | `[(language, self.get_average_salary_stat(v)) for (language, v) in vacancies]`, the pairs the row builder unpacks | high, not executed | `BaseSalaryService.StatsStepAsWrittenRaises` (over `BaseSalaryService.VacanciesStatAsWritten`) | `BaseSalaryService.GetVacanciesStat` (used by `SalaryTable.GetSalariesTable`) |

## Left out

- HTTP requests, JSON decoding and `response.json()` are left out. Each page answer is a given status and decoded body. Query parameters (`text`, `area`, `only_with_salary`, `per_page`, `town`, `keyword`, `count`) and the `X-Api-App-Id` header are not modelled because they do not affect the modelled logic.
- HHSalaryService.GetVacanciesByLanguage, SuperjobSalaryService.GetVacanciesByLanguage: these require that some page answer ends the loop. A provider that never signals the end makes the source loop forever, and that run is not modelled.
- PredictRubSalaryUtil: the float products `* 1.2` and `* 0.8` are modelled as the exact ratios 6/5 and 4/5, and the float division `(salary_from + salary_to) / 2` as exact division by 2. For bounds of magnitude below about 2^50 the truncated float results equal the exact ones. Once a product or the sum passes 2^53, float arithmetic loses precision and the results can differ in either direction, by more than one; that range is not modelled.
- AverageSalaryStat: `int(amount / count)` is modelled with exact integer arithmetic. Float division loses precision for very large amounts.
- Missing JSON keys (a KeyError) are not modelled. A HeadHunter vacancy always has a `salary` object, because the query asks only for vacancies with a salary. Fields are integers, not floats or booleans.
- Table rendering through `terminaltables.AsciiTable` and the table title are not modelled. The model stops at the row list.
- `main.py` is not modelled. It covers `.env` secret loading, the hard-coded keyword list, object construction and printing.
- The abstract base class machinery is replaced by the closed `Provider` datatype, and the provider's prediction is passed as a function value.
