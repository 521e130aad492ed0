# Preflight preparation: load sheet, report tabs and alpha-report ordering

This project models in Dafny the three pieces of sequential logic in a
Streamlit preflight-planning page and its NAV CANADA helper.

- **C-172S weight-and-balance sheet** (`weight_balance.dfy`, module
  `WeightBalance`). The sheet starts from a per-tail Basic Empty Weight
  record. It adds four load stations, each with moment = weight × fixed arm
  (front 37, rear 73, baggage 1 95, baggage 2 123). It adds Fuel at 6 lb per
  US gallon and arm 48, and Fuel Burn at −60 lb per flight hour and arm 48.
  It derives three aggregates (Zero Fuel, Take-Off, Landing). An aggregate's
  weight and moment are sums of its parts, and its arm is moment / weight.
  Weights, arms and moments are exact `real`s. `Sheet` and `LoadSheet`
  specify the ten rows, with each aggregate taken as the total over its list
  of parts. `ComputeLoadSheet` does the program's own steps: it adds the
  totals one after the other, builds each aggregate with the placeholder arm
  −1 and then replaces that arm. It is proved to return exactly
  `LoadSheet`. The program can raise in two places, and both are modelled as
  `SheetError`:
  - the tail-number lookup (`KeyError`) gives `UnknownAircraft`;
  - an arm division by a zero weight (`ZeroDivisionError`) gives `ZeroWeight`.
- **Weather tabs** (`report_tabs.dfy`, module `ReportTabs`). `SelectTabs`
  adds a tab for each non-empty METAR, TAF and PIREP response, in that
  order. `RawText` picks `rawOb`, or else `rawTAF`, from a tab's first
  record. `Format` is the chain of four `str.replace` calls that put a
  newline before `BECMG`, `FM`, `PROB` and `RMK`. `Replace` models Python's
  `str.replace` for a non-empty pattern: it scans left to right and replaces
  non-overlapping occurrences. `FormatBreaksBeforeKeywords` shows that in
  the result every one of the four keywords follows a newline, and
  `FormatRoundTrip` that dropping those newlines again gives back the raw
  text. `ShowTabs` is the display loop over the tabs.
- **Alpha-report filter and sort** (`navcanada.dfy`, module `NavCanada`).
  `FilterReports` is the appending loop. It keeps a report when its `text`
  contains one of the requested ICAO ids (`Contains` is Python's `in` on
  `str`). `SortByStartDesc` is an insertion sort by `startValidity`, latest
  first. Strings compare as Python compares `str` (`StrLe`, lexicographic by
  code point). Equal keys keep their input order, as with Python's `sorted`
  with `reverse=True`. `StableOrderUnique` shows that only one order has
  these properties. So this sort returns the same list as Python's stable
  sort. `HandleResponse` is the code after the HTTP request: status 200
  gives the sorted list, and any other status gives an error.

`outcomes.dfy` (module `Outcomes`) holds the `Option` and `Result` types used
for the raising paths.

The model keeps two quirks of the code as written:

- The Zero Fuel aggregate sums Basic Empty, Front, Baggage 1 and Baggage 2.
  Rear Seats is not part of it, so a rear-seat load changes only its own row
  (`RearSeatsNoEffect`).
- The selector offers `"C-CAU"`, but the table key is `"C-FCAU"`. Selecting
  it fails the lookup (`SelectingCCauFails`).

The code has no envelope or centre-of-gravity check and no input
validation. The widgets bound the inputs. The widget ranges appear only as the
predicate `WithinWidgetRanges`, which the positivity lemma assumes.

## Model

| member | source | states |
|---|---|---|
| `WeightBalance.ComputeLoadSheet` | preflight_preparation.py:211-259 | The step-by-step computation, with placeholder arms patched to moment / weight, returns exactly the specified sheet: an unknown tail gives `UnknownAircraft`, the first zero-weight aggregate gives `ZeroWeight`, and otherwise it returns the ten rows whose aggregates are the totals of their parts. |
| `WeightBalance.TableKeys` | preflight_preparation.py:211-215 | Basic Empty Weight records exist for exactly C-FAQA, C-FMNB and C-FCAU. |
| `WeightBalance.SelectingCCauFails` | preflight_preparation.py:161-217 | "C-CAU" is offered by the selector but has no record, so its sheet is always `UnknownAircraft("C-CAU")`; the other two selectable tails have records. |
| `WeightBalance.SheetLayout` | preflight_preparation.py:217-259 | A built sheet has ten rows named Basic Empty Weight … Landing Weight in the fixed order, and row 1 is the stored record of the selected tail, unchanged. |
| `WeightBalance.StationRows` | preflight_preparation.py:218-221 | Front, Rear, Baggage 1 and Baggage 2 rows carry the entered weight, arms 37, 73, 95 and 123, and moment = weight × arm. |
| `WeightBalance.ZeroFuelRow` | preflight_preparation.py:222-228 | Zero Fuel weight and moment are the sums over Basic Empty, Front, Baggage 1 and Baggage 2 only. |
| `WeightBalance.RearSeatsNoEffect` | preflight_preparation.py:219-244 | Changing only the rear-seat weight changes only the Rear Seats row; the aggregates, and whether the sheet can be built, do not depend on it. |
| `WeightBalance.AggregateArms` | preflight_preparation.py:228-244 | Each of the three aggregates has a non-zero weight and arm = moment / weight. |
| `WeightBalance.TakeOffRow` | preflight_preparation.py:229-236 | Fuel weight is 6 × gallons at arm 48 with moment 288 × gallons; Take-Off weight and moment are Zero Fuel plus Fuel. |
| `WeightBalance.LandingRow` | preflight_preparation.py:237-244 | Fuel Burn weight is −60 × hours at arm 48 with moment −2880 × hours; Landing weight is Take-Off weight − 60 × hours and Landing moment is Take-Off moment − 2880 × hours. |
| `WeightBalance.SheetErrors` | preflight_preparation.py:217-244 | The sheet fails exactly when the tail has no record or one of the three aggregate weights, written out in the loads, is zero; the error names the first such aggregate. |
| `WeightBalance.WidgetRangesGiveSheet` | preflight_preparation.py:162-244 | For any recorded tail and loads within the widget ranges the sheet is built, with Zero Fuel ≥ 1765.47, Take-Off ≥ 1825.47 and Landing ≥ 1705.47 lb, so every arm division is defined. |
| `WeightBalance.MoreFuelHeavierTakeOff` | preflight_preparation.py:222-244 | More fuel with all else equal leaves the Zero Fuel row unchanged and raises Take-Off and Landing weights by exactly 6 lb per gallon. |
| `WeightBalance.DefaultLoadsSheet` | preflight_preparation.py:160-244 | With the widget defaults on C-FAQA (360 lb, 20 gal, 1 h), Fuel is 120 lb / 5760 lb-in, Zero Fuel 2025.47, Take-Off 2145.47, Fuel Burn −60 and Landing 2085.47 lb. |
| `ReportTabs.SelectTabs` | preflight_preparation.py:116-126 | `tabs` and `tabs_info` have equal length; each tab is metar, taf or pirep and is paired with that non-empty response; tabs are in the order metar, taf, pirep; and a tab is present exactly when its response is non-empty. |
| `ReportTabs.ShowTabs` | preflight_preparation.py:133-141 | Tabs are shown in order, each as the formatted `rawOb`, or else `rawTAF`, of its first record; display stops at the first record that has neither field, which is reported as a failure. |
| `ReportTabs.UnbreakBreak` | preflight_preparation.py:136-139 | For a keyword without a newline, replacing "\n"+keyword by keyword undoes `str.replace(keyword, "\n"+keyword)`. |
| `ReportTabs.FormatRoundTrip` | preflight_preparation.py:135-139 | Removing the newline before RMK, PROB, FM and BECMG, in that order, gives back the raw report text. |
| `ReportTabs.BreakAddsOnlyNewlines` | preflight_preparation.py:136-139 | One keyword replacement changes the text only by adding newlines. |
| `ReportTabs.FormatAddsOnlyNewlines` | preflight_preparation.py:135-139 | With newlines dropped, the displayed text equals the raw text. |
| `ReportTabs.BreakMarksKeyword` | preflight_preparation.py:136-139 | After one replacement pass for a keyword that has no newline and cannot overlap itself, every occurrence of that keyword in the output directly follows a newline. |
| `ReportTabs.BreakKeepsMarks` | preflight_preparation.py:136-139 | A later replacement pass for another newline-free keyword keeps the newline in front of every occurrence of an earlier keyword that is not at the start of the text. |
| `ReportTabs.FormatBreaksBeforeKeywords` | preflight_preparation.py:135-139 | In the displayed text every occurrence of BECMG, FM, PROB and RMK is preceded by a newline and none starts the text. |
| `NavCanada.ContainsAt` | navcanada.py:34 | `icao_id in text` holds exactly when the id occurs at some index of the text. |
| `NavCanada.FilterReports` | navcanada.py:31-35 | The appending loop returns the reports that mention a requested id, in response order (`Kept`). |
| `NavCanada.KeptMention` | navcanada.py:33-35 | Every kept report's text contains at least one requested id. |
| `NavCanada.KeptCount` | navcanada.py:31-35 | A report that mentions a requested id is kept as many times as it occurs in the response, and any other report is not kept. |
| `NavCanada.KeptBounds` | navcanada.py:31-35 | The filter never returns more reports than it was given, and an empty id list keeps nothing. |
| `NavCanada.KeptWithStart` | navcanada.py:31-37 | Filtering and selecting the reports with one start of validity commute. |
| `NavCanada.InsertDesc` | navcanada.py:37 | Inserting a report into a list sorted latest-first keeps it sorted, adds exactly that report, and places it after the reports with the same start. |
| `NavCanada.SortByStartDesc` | navcanada.py:37 | The sort is non-increasing by `startValidity`, a permutation of its input, and keeps the input order of reports with the same start. |
| `NavCanada.StableOrderUnique` | navcanada.py:37 | Two lists that are both sorted latest-first and keep the same order among reports with equal starts are equal, so a stable descending sort has only one possible result. |
| `NavCanada.HandleResponse` | navcanada.py:31-39 | A status other than 200 gives an error carrying the status. Status 200 gives a list in which every report mentions a requested id and each mentioning report appears as often as in the response. The list is no longer than the response, sorted latest-first, and keeps response order among reports with equal starts. It is empty when no id is requested. |

## Left out

- Streamlit UI (titles, selectbox, sliders, checkbox, tabs, dataframe styling, `color_coding`, the image): only the widget ranges are kept, as `WithinWidgetRanges`. Their step sizes (5 lb, 0.5 h) are not needed by any property and are not modelled.
- The "others" checkbox: when it is unticked the three optional loads are 0. That value is inside the modelled ranges, so no separate case is needed.
- HTTP calls `aviationweather_general`, `atis` and `runways`, and the airport name and frequency display: network I/O with foreign responses. Their results are parameters of `SelectTabs`.
- In `navcanada_request`: building the query parameters (including `options["alpha"]`), `requests.get` and `json.loads`, and the call made when the module is imported. The status code and the decoded `data` list are parameters of `HandleResponse`.
- `utc2pst`: timezone and daylight-saving conversion through pytz tables that are not part of this model.
- IEEE-754 rounding of the weight arithmetic: the model uses exact reals. The stored Basic Empty moments are constants and are not required to equal weight × arm.
- JSON records are modelled as string-to-string maps (`Record`) and as `(text, startValidity)` pairs (`AlphaReport`). A missing `text` or `startValidity` key (`KeyError`) and non-string values are not modelled.
- A response that is a non-empty JSON object rather than a list is not modelled: `SelectTabs` takes lists only.
- ShowTabs: requires every response list to be non-empty, which `SelectTabs` guarantees. The `IndexError` of an empty list therefore cannot occur and is not modelled.
- HandleResponse: on a non-200 status the code raises a `str`. In Python 3 that raise itself fails with `TypeError`. The model records only that the call fails, and the status it failed with.
- Envelope or centre-of-gravity limit checks: the code has none.
- Commented-out code.
