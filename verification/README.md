# Owner-name resolver and incident ingestion, modelled in Dafny

This project models the bookkeeping around the scrapers of the incident-scraper
repository:

- **Owner-name resolver** (`scrape_owner_names.py`). Incident addresses are routed to one of four
  towns (`TOWNS`: Clarkstown, Orangetown, Ramapo, Stony Point). The router picks the first town
  whose name occurs in the address, ignoring case. Each town's scraper then resolves every address
  of its group to a `ScrapeResult`. A result has an address, an optional owner name, the scraper's
  fixed source string, and a status of `"success"`, `"not found"` or `"error"`. The status is a
  three-valued type; `Status.Text` gives the string stored in the field. The scrapers are:
  - two BAS tax portals, Clarkstown and Orangetown. A form POST of house number and street returns
    an HTML page, and the owner is the text of the second `<td>` of the row holding the first
    "Owner Name" text;
  - a headless-browser search for Ramapo;
  - the Stony Point assessment roll, searched by substring.

  `main` concatenates the towns' results in `TOWNS` order and skips the "Unknown" group.
- **Incident ingestion** (`app.py`). `fetch_firewatch` turns the rows of the FireWatch history table
  into incident records. `deduplicate_and_save` merges them into the CSV store, keeping the first
  row for each (timestamp, incident_type, location) key. `fetch_route` saves only when something
  was fetched.

The outside world is passed in as values:
- the HTTP POST to a portal is a function from (url, house number, street) to a page or a failure;
- the browser is "not installed", "fails to launch", or a search function;
- the roll is "unavailable" or a loaded table;
- the FireWatch page is "fetch failed", "no table", or its rows;
- the clock is a string parameter.

HTML is reduced to what the code reads. A page is a sequence of segments in document order. Each
segment is either a table row or a text node outside any row. A row holds its `<td>` cells, each
as its text fragments, plus its other text. `get_text(strip=True)` is modelled as the
concatenation of the stripped fragments.

Modules, one per component: `Text` (Python string semantics), `Html`, `Routing`, `AddressSplit`,
`Results`, `BasPortal`, `RamapoSearch`, `StonyPointRoll`, `Orchestrator` (the loop of `main`) and
`Firewatch` (app.py). `Wrappers` holds `Option`.

Four behaviours of the code that its documentation does not spell out, all followed by the model:
- When the "Owner Name" label is a text node outside any `<tr>`, `find_parent("tr")` returns
  None and the following `.find_all` raises. `search_bas_portal` catches that, so the status is
  `"error"`, not `"not found"` (`BasPortal.SearchBasPortalStatus`).
- An exception while searching the Stony Point roll gives `"not found"`, not `"error"`. Examples
  are a missing `Address` or `Owner` column (`StonyPointRoll.LoadedRollNeverErrs`).
- The BAS portals' `"not found"` result keeps an empty owner string when the owner cell is empty.
  It is not replaced by None.
- `parse_bas_response` reads the row's second `<td>` (scrape_owner_names.py:81-83), whichever
  cell holds the label, rather than the cell next to the label; when the label sits in the
  second cell or later, the owner read is the second cell's text (`BasPortal.ParseBasResponse`).

## Model

| member | source | states |
|---|---|---|
| `Routing.TownsInPriorityOrder` | scrape_owner_names.py:22 | `TOWNS` lists the four towns, each at its priority position |
| `Routing.DetectTownFirstMatch` | scrape_owner_names.py:48-53 | the detected town is mentioned in the address (case-insensitive substring); no town earlier in `TOWNS` is mentioned; None exactly when no town is mentioned |
| `Routing.DetectTownIgnoresCase` | scrape_owner_names.py:48-53 | detection gives the same town for the address, its upper-cased and its lower-cased form |
| `Routing.GroupAddressesByTown` | scrape_owner_names.py:56-65 | the dictionary has a list for every bucket (four towns and "Unknown"); each list is exactly the input addresses of that bucket, in input order |
| `Routing.RoutedMembers` | scrape_owner_names.py:59-64 | an address is in a group iff it is in the input and its detected town (or "Unknown") is that group's key, so groups are disjoint |
| `Routing.RoutedAppend` | scrape_owner_names.py:59-64 | grouping keeps input order: the groups of `a + c` are the groups of `a` followed by those of `c` |
| `Routing.RoutedPartition` | scrape_owner_names.py:56-65 | the five groups together are a permutation of the input; their lengths sum to the input length |
| `AddressSplit.SplitWithNumber` | scrape_owner_names.py:89-91 | for digits, then whitespace, then rest: the number is the digits and the street is the rest up to its first newline |
| `AddressSplit.SplitWithoutDigit` | scrape_owner_names.py:89-91 | an address not starting with a digit gives number "" and the whole address as street |
| `AddressSplit.SplitDigitsWithoutSpace` | scrape_owner_names.py:89-91 | leading digits followed by end of text or by a non-space character give no match: number "" and street the whole address |
| `AddressSplit.SplitNumberIsPrefix` | scrape_owner_names.py:136-138 | the split never fails; either there is no number and the street is the address, or the number is the address's leading digits and the street is a newline-free substring of what follows |
| `AddressSplit.ExampleWithNumber` | scrape_owner_names.py:89-91 | "12 Elm" splits into "12" and "Elm" |
| `AddressSplit.ExampleWithoutSpace` | scrape_owner_names.py:89-91 | "12B Elm" does not match and stays whole |
| `Results.StatusOf` | scrape_owner_names.py:98 | a completed lookup is "success" exactly when the owner is present and non-empty, otherwise "not found"; never "error" |
| `Results.StatusTextInjective` | scrape_owner_names.py:98-102 | the strings "success", "not found" and "error" are distinct, so the three-valued status loses nothing |
| `Results.CompletedWellFormed` | scrape_owner_names.py:146 | a completed lookup is well formed and never "error" |
| `Html.CellText` | scrape_owner_names.py:83 | a cell's `get_text(strip=True)` has no whitespace at either end |
| `Text.StripKeepsSlice` | app.py:29 | `str.strip` keeps a contiguous part of the text |
| `Text.StripRemovesOnlySpaces` | app.py:29 | what `str.strip` removes on either side of the kept part is whitespace |
| `BasPortal.ParseBasResponse` | scrape_owner_names.py:76-84 | with no label text, None; otherwise the first segment holding an "Owner Name" text decides: the second cell's text of its row, None for a row with fewer than two cells, or a failure when the label is in no row |
| `BasPortal.ParsedOwnerIsStripped` | scrape_owner_names.py:83 | a parsed owner has no surrounding whitespace |
| `BasPortal.SearchBasPortal` | scrape_owner_names.py:87-103 | the result keeps the address and the source, and its status follows the three-way rule |
| `BasPortal.SearchBasPortalStatus` | scrape_owner_names.py:94-102 | the status is "error" iff the request failed or the label sat outside any row; otherwise the owner is what parsing returned |
| `BasPortal.NoLabelIsNotFound` | scrape_owner_names.py:97-98 | a page without the label gives owner None and "not found" |
| `BasPortal.LabelInFirstSegment` | scrape_owner_names.py:79-83 | when the first segment holds the label, it alone decides the parse |
| `BasPortal.LabelledRowYieldsOwner` | scrape_owner_names.py:79-83 | a first row `<td>Owner Name</td><td>owner</td>...` yields the stripped owner cell, whatever follows |
| `BasPortal.LabelledPageSucceeds` | scrape_owner_names.py:79-103 | a portal page `<tr><td>label</td><td>owner</td></tr>` with a non-empty stripped owner gives that owner and status "success" |
| `BasPortal.OwnerNamePageScenario` | scrape_owner_names.py:79-103 | the page `<tr><td>Owner Name</td><td>J. Smith</td></tr>` gives owner "J. Smith" and status "success" |
| `BasPortal.StripExample` | scrape_owner_names.py:83 | stripping "J. Smith" leaves it unchanged |
| `Html.CellOfOne` | scrape_owner_names.py:83 | the text of a cell holding one fragment is that fragment, stripped |
| `BasPortal.LabelExample` | scrape_owner_names.py:79 | the text "Owner Name" is found by the case-insensitive label search |
| `BasPortal.ScrapeBasTown` | scrape_owner_names.py:108-111 | one portal search per address, in input order |
| `BasPortal.ScrapeClarkstown` | scrape_owner_names.py:106-111 | one result per address, in order, from the Clarkstown URL with source "Clarkstown Tax Search" |
| `BasPortal.ScrapeOrangetown` | scrape_owner_names.py:114-119 | one result per address, in order, from the Orangetown URL with source "Orangetown Tax Search" |
| `RamapoSearch.SearchOne` | scrape_owner_names.py:135-151 | a search on the launched page keeps the address and the source; its status is "error" exactly when the search raised, and otherwise the owner is the cell text, with "success" when it is non-empty and "not found" otherwise |
| `RamapoSearch.RamapoResult` | scrape_owner_names.py:122-151 | without a launched browser the result is owner None, status "error" |
| `RamapoSearch.ScrapeRamapo` | scrape_owner_names.py:122-154 | one result per address, in order; when Playwright is missing or the launch fails, every address gets owner None and "error" |
| `RamapoSearch.SearchFailureIsLocal` | scrape_owner_names.py:147-151 | a search exception gives "error" for that address only |
| `StonyPointRoll.FirstMatchFrom` | scrape_owner_names.py:177-179 | the index found is the first row whose Address contains the address, ignoring case |
| `StonyPointRoll.RollOwnerFirstMatch` | scrape_owner_names.py:174-181 | the owner is the `Owner` of the first matching row; None when no row matches or a column is missing |
| `StonyPointRoll.StonyPointResult` | scrape_owner_names.py:157-183 | "error" exactly when the roll could not be loaded; otherwise the owner is the roll owner |
| `StonyPointRoll.ScrapeStonyPoint` | scrape_owner_names.py:157-184 | one result per address, in order; an unavailable roll gives every address owner None and "error" |
| `StonyPointRoll.LoadedRollNeverErrs` | scrape_owner_names.py:176-182 | with the roll loaded no address is an "error"; a missing Address column gives "not found" |
| `Orchestrator.ResolveOne` | scrape_owner_names.py:187-192 | each town's result keeps the address, carries that town's source and is well formed |
| `Orchestrator.Scrape` | scrape_owner_names.py:215-218 | `SCRAPER_MAP` dispatch: the group's results are that town's result for each address, in order |
| `Orchestrator.ResolveOwners` | scrape_owner_names.py:210-221 | the aggregation loop returns the report: towns in `TOWNS` order, empty groups and "Unknown" skipped |
| `Orchestrator.ReportByTown` | scrape_owner_names.py:211-221 | the report is the four towns' results concatenated in `TOWNS` order |
| `Orchestrator.ReportAddresses` | scrape_owner_names.py:211-221 | the report's addresses are the four town groups in `TOWNS` order, input order within each |
| `Orchestrator.ReportResults` | scrape_owner_names.py:212-221 | every reported result is well formed, its address has a detected town, and its source is that town's |
| `Orchestrator.ReportCoversTownAddresses` | scrape_owner_names.py:210-221 | one result per town-matched address: report length plus "Unknown" count equals input length, as multisets too |
| `Orchestrator.OneTownAddressOneUnknown` | scrape_owner_names.py:210-221 | a Clarkstown address followed by an address in no town yield exactly one result, for the Clarkstown address, under the Clarkstown source |
| `Orchestrator.TwoAddressScenario` | scrape_owner_names.py:210-221 | the input "1 Elm, Clarkstown", "9 Elm St" yields exactly one result, for the first address |
| `Orchestrator.ClarkstownAddress` | scrape_owner_names.py:48-53 | "1 Elm, Clarkstown" is routed to Clarkstown |
| `Orchestrator.NowhereAddress` | scrape_owner_names.py:48-53 | "9 Elm St" is routed to no town |
| `Firewatch.ToIncident` | app.py:32-38 | the record takes type, location and units from cells 2-4; the timestamp is cell 1, or the clock reading when cell 1 is empty |
| `Firewatch.FirewatchIncidents` | app.py:15-25 | a failed fetch or a page without a table gives no incidents |
| `Firewatch.FetchFirewatch` | app.py:13-39 | the loop over the rows after the header returns exactly the rows' incidents |
| `Firewatch.RowsToIncidentsAppend` | app.py:28-38 | row order is kept: the incidents of concatenated rows are the concatenated incidents |
| `Firewatch.RowsToIncidentsSingle` | app.py:29-38 | a row with fewer than four cells yields nothing; any other row yields one incident built from its cells |
| `Firewatch.RowsToIncidentsCount` | app.py:28-38 | there are as many incidents as data rows with at least four cells |
| `Firewatch.RowsToIncidentsOrigin` | app.py:28-38 | every incident is built from a data row with at least four cells |
| `Firewatch.HeaderIgnored` | app.py:28 | the first row is always skipped, whatever it holds |
| `Firewatch.Deduplicate` | app.py:48-49 | the seen-key loop computes the keep-first deduplication |
| `Firewatch.KeepFirstKeys` | app.py:49 | every (timestamp, incident_type, location) key of the input survives |
| `Firewatch.KeepFirstUnique` | app.py:49 | no two kept rows share a key |
| `Firewatch.KeepFirstSubsequence` | app.py:48-49 | the kept rows sit at strictly increasing positions of the input, and each is the first input row with its key |
| `Firewatch.OldRowsWin` | app.py:48-49 | deduplicating old + new gives the deduplicated old rows unchanged, followed by the surviving new rows |
| `Firewatch.NewRowsAreFresh` | app.py:48-49 | every surviving new row is one of the new rows, and its key is absent from the old rows |
| `Firewatch.UnitsIgnored` | app.py:49 | two rows differing only in `units` collapse to the first |
| `Firewatch.IncidentStore.constructor` | app.py:42-45 | a missing CSV file reads as an empty store |
| `Firewatch.IncidentStore.DeduplicateAndSave` | app.py:41-50 | the file exists afterwards and holds the keep-first deduplication of old rows followed by new ones |
| `Firewatch.IncidentStore.FetchRoute` | app.py:57-62 | the store is saved only when the fetch yielded incidents; otherwise it is unchanged |

## Left out

- HTTP: the `requests` session, the urllib3 retry policy (3 retries, backoff, 500/502/503/504), timeouts and `raise_for_status`. A portal answer is a page or a failure, and it is a function of (url, house number, street), so two lookups of the same address always agree: a transient failure on one of two duplicate addresses is not represented.
- Browser automation: navigation, selectors, the 5-second wait, `time.sleep(1)`, and closing the browser. A search is a function from (house number, street) to an outcome, so the same address always gets the same outcome: a time-out on only one of two duplicate addresses is not represented.
- `sync_playwright()` and `browser.new_page()` sit outside any `try`. An exception there would end the run; the model does not represent that path.
- HTML parsing: BeautifulSoup itself, nested tables, and a label split across tags. A page is given as segments and cells of text fragments.
- File I/O: `load_incident_addresses`, `save_results` (JSON output), the roll download and its on-disk cache, and logging.
- StonyPointRoll.RollOwner: pandas `str.contains` treats the address as a regular expression. The model uses a literal substring, so invalid patterns (which raise and give "not found") and regex metacharacters are not captured.
- StonyPointRoll.RollRow: owners are text. A NaN or numeric `Owner` cell is not modelled, and a NaN owner would be truthy ("success").
- Text.Lower: case mapping covers ASCII letters only; Python's Unicode case mapping is not modelled. `\d` is restricted to ASCII digits. Whitespace follows Python's `str.isspace` in full.
- Firewatch.FetchFirewatch: the clock is read once, as `now`. The source reads it again for each row with an empty timestamp, so such rows may carry different times.
- Firewatch.IncidentStore: pandas type coercion on the CSV round trip and NaN comparison in `drop_duplicates` are not modelled.
- The Flask routes `index` and `download_csv`, `render_template` and `send_file`.
- `csv_to_json.py` (a pandas conversion) and `fetch_incidents.py` (wiring only; it imports a `csv_to_json` that app.py does not define) are not part of this model.
