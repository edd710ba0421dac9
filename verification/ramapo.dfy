/** `scrape_ramapo`: the Ramapo property search driven through a headless browser. */
module RamapoSearch {
  import opened Wrappers
  import opened AddressSplit
  import opened Results

  const RAMAPO_SOURCE: string := "Ramapo Property Search"

  /**
   * What one search on the page gives: the text of the cell after the "Owner"
   * cell (`page.text_content`, which may be None), or an exception from
   * navigation, filling, clicking or the 5-second wait.
   */
  datatype SearchOutcome = OwnerCell(text: Option<string>) | SearchFailed

  /**
   * The browser as the scraper meets it: Playwright not importable, Chromium
   * failing to launch, or a launched page that answers searches by house
   * number and street name.
   */
  datatype Browser = NotInstalled | LaunchFails | Launched(search: (string, string) -> SearchOutcome)

  /**
   * The result for one address on a launched page: "error" exactly when the
   * search raised, and otherwise the owner cell's text, whose truthiness
   * decides between "success" and "not found".
   */
  function SearchOne(address: string, search: (string, string) -> SearchOutcome): (r: ScrapeResult)
    ensures r.address == address && r.source == RAMAPO_SOURCE && WellFormed(r)
    ensures var o := search(SplitAddress(address).number, SplitAddress(address).street);
            (r.status == Error <==> o.SearchFailed?) && (o.OwnerCell? ==> r.ownerName == o.text)
  {
    var h := SplitAddress(address);
    match search(h.number, h.street)
    case SearchFailed => Failed(address, RAMAPO_SOURCE)
    case OwnerCell(owner) => Completed(address, owner, RAMAPO_SOURCE)
  }

  /** The result `scrape_ramapo` reports for one address. */
  function RamapoResult(browser: Browser, address: string): (r: ScrapeResult)
    ensures r.address == address && r.source == RAMAPO_SOURCE && WellFormed(r)
    ensures !browser.Launched? ==> r == ScrapeResult(address, None, RAMAPO_SOURCE, Error)
  {
    match browser
    case Launched(search) => SearchOne(address, search)
    case _ => Failed(address, RAMAPO_SOURCE)
  }

  /**
   * `scrape_ramapo`: without a browser every address is an error at once;
   * otherwise one search per address on the same page, in order, a failing
   * search costing only its own address.
   */
  method ScrapeRamapo(addresses: seq<string>, browser: Browser) returns (results: seq<ScrapeResult>)
    ensures |results| == |addresses|
    ensures forall i :: 0 <= i < |addresses| ==> results[i] == RamapoResult(browser, addresses[i])
    ensures !browser.Launched? ==>
              forall i :: 0 <= i < |addresses| ==> results[i] == ScrapeResult(addresses[i], None, RAMAPO_SOURCE, Error)
  {
    if browser.NotInstalled? || browser.LaunchFails? {
      return seq(|addresses|, i requires 0 <= i < |addresses| => ScrapeResult(addresses[i], None, RAMAPO_SOURCE, Error));
    }
    results := [];
    for i := 0 to |addresses|
      invariant |results| == i
      invariant forall k :: 0 <= k < i ==> results[k] == SearchOne(addresses[k], browser.search)
    {
      var r := SearchOne(addresses[i], browser.search);
      results := results + [r];
    }
  }

  /**
   * A search exception gives its own address no owner and an "error"; that the
   * other addresses' results are untouched by it is `ScrapeRamapo`'s per-address
   * postcondition, where each result depends on that address alone.
   */
  lemma SearchFailureIsLocal(address: string, search: (string, string) -> SearchOutcome)
    requires search(SplitAddress(address).number, SplitAddress(address).street).SearchFailed?
    ensures SearchOne(address, search) == ScrapeResult(address, None, RAMAPO_SOURCE, Error)
  {
  }
}
