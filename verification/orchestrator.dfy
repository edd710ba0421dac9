/**
 * The aggregation loop of `main` in scrape_owner_names.py: group the
 * addresses, run each town's scraper (`SCRAPER_MAP`) on its group in `TOWNS`
 * order, skip empty groups and "Unknown", and concatenate the results.
 */
module Orchestrator {
  import opened Wrappers
  import opened Text
  import opened Routing
  import opened Results
  import opened BasPortal
  import opened RamapoSearch
  import opened StonyPointRoll

  /** Everything the scrapers take from the outside world. */
  datatype Sources = Sources(post: HttpPost, browser: Browser, roll: RollSource)

  /** The fixed `source` string of each town's scraper. */
  function SourceName(town: Town): string {
    match town
    case Clarkstown => CLARKSTOWN_SOURCE
    case Orangetown => ORANGETOWN_SOURCE
    case Ramapo => RAMAPO_SOURCE
    case StonyPoint => STONY_POINT_SOURCE
  }

  /** The result the town's scraper reports for one address of its group. */
  function ResolveOne(sources: Sources, town: Town, address: string): (r: ScrapeResult)
    ensures r.address == address && r.source == SourceName(town) && WellFormed(r)
  {
    match town
    case Clarkstown => SearchBasPortal(address, sources.post, CLARKSTOWN_URL, CLARKSTOWN_SOURCE)
    case Orangetown => SearchBasPortal(address, sources.post, ORANGETOWN_URL, ORANGETOWN_SOURCE)
    case Ramapo => RamapoResult(sources.browser, address)
    case StonyPoint => StonyPointResult(sources.roll, address)
  }

  /** What a town's scraper returns for a group: one result per address, in order. */
  function TownResults(sources: Sources, town: Town, addresses: seq<string>): (rs: seq<ScrapeResult>)
    ensures |rs| == |addresses|
    ensures forall i :: 0 <= i < |addresses| ==> rs[i] == ResolveOne(sources, town, addresses[i])
  {
    seq(|addresses|, i requires 0 <= i < |addresses| => ResolveOne(sources, town, addresses[i]))
  }

  /** `SCRAPER_MAP[town](addresses)` */
  method Scrape(town: Town, addresses: seq<string>, sources: Sources) returns (results: seq<ScrapeResult>)
    ensures results == TownResults(sources, town, addresses)
  {
    match town
    case Clarkstown => results := ScrapeClarkstown(addresses, sources.post);
    case Orangetown => results := ScrapeOrangetown(addresses, sources.post);
    case Ramapo => results := ScrapeRamapo(addresses, sources.browser);
    case StonyPoint => results := ScrapeStonyPoint(addresses, sources.roll);
  }

  /** The results gathered once the first `k` groups of `GROUP_ORDER` have been processed. */
  function ReportUpTo(addresses: seq<string>, sources: Sources, k: nat): seq<ScrapeResult>
    requires k <= |GROUP_ORDER|
  {
    if k == 0 then []
    else
      ReportUpTo(addresses, sources, k - 1) +
      match GROUP_ORDER[k - 1]
      case Unknown => []
      case InTown(t) => TownResults(sources, t, Routed(addresses, InTown(t)))
  }

  /** The whole output: every town's results, in `TOWNS` order. */
  function Report(addresses: seq<string>, sources: Sources): seq<ScrapeResult> {
    ReportUpTo(addresses, sources, |GROUP_ORDER|)
  }

  /** The aggregation loop of `main`. */
  method ResolveOwners(addresses: seq<string>, sources: Sources) returns (allResults: seq<ScrapeResult>)
    ensures allResults == Report(addresses, sources)
  {
    var groups := GroupAddressesByTown(addresses);
    allResults := [];
    for k := 0 to |GROUP_ORDER|
      invariant allResults == ReportUpTo(addresses, sources, k)
    {
      var bucket := GROUP_ORDER[k];
      var group := groups[bucket];
      if group == [] || bucket == Unknown {
        continue;
      }
      var results := Scrape(bucket.town, group, sources);
      allResults := allResults + results;
    }
  }

  /** The addresses of a list of results. */
  function AddressesOf(rs: seq<ScrapeResult>): (a: seq<string>)
    ensures |a| == |rs|
    ensures forall i :: 0 <= i < |rs| ==> a[i] == rs[i].address
  {
    seq(|rs|, i requires 0 <= i < |rs| => rs[i].address)
  }

  /** A town's results for its own group. */
  function TownReport(addresses: seq<string>, sources: Sources, t: Town): seq<ScrapeResult> {
    TownResults(sources, t, Routed(addresses, InTown(t)))
  }

  /** The output is the four towns' results in `TOWNS` order; "Unknown" contributes nothing. */
  lemma ReportByTown(addresses: seq<string>, sources: Sources)
    ensures Report(addresses, sources) ==
            TownReport(addresses, sources, Clarkstown) + TownReport(addresses, sources, Orangetown) +
            TownReport(addresses, sources, Ramapo) + TownReport(addresses, sources, StonyPoint)
  {
    var tc := TownReport(addresses, sources, Clarkstown);
    var to := TownReport(addresses, sources, Orangetown);
    var tr := TownReport(addresses, sources, Ramapo);
    var ts := TownReport(addresses, sources, StonyPoint);
    assert ReportUpTo(addresses, sources, 1) == tc;
    assert ReportUpTo(addresses, sources, 2) == tc + to;
    assert ReportUpTo(addresses, sources, 3) == tc + to + tr;
    assert ReportUpTo(addresses, sources, 4) == tc + to + tr + ts;
  }

  lemma AddressesOfAppend(a: seq<ScrapeResult>, b: seq<ScrapeResult>)
    ensures AddressesOf(a + b) == AddressesOf(a) + AddressesOf(b)
  {
  }

  /** A town's results are for its group's addresses, in order. */
  lemma TownReportAddresses(addresses: seq<string>, sources: Sources, t: Town)
    ensures AddressesOf(TownReport(addresses, sources, t)) == Routed(addresses, InTown(t))
  {
  }

  /** The addresses of the output are the four town groups, in `TOWNS` order and input order within each. */
  lemma ReportAddresses(addresses: seq<string>, sources: Sources)
    ensures AddressesOf(Report(addresses, sources)) == TownGroups(addresses)
  {
    ReportByTown(addresses, sources);
    var tc := TownReport(addresses, sources, Clarkstown);
    var to := TownReport(addresses, sources, Orangetown);
    var tr := TownReport(addresses, sources, Ramapo);
    var ts := TownReport(addresses, sources, StonyPoint);
    TownReportAddresses(addresses, sources, Clarkstown);
    TownReportAddresses(addresses, sources, Orangetown);
    TownReportAddresses(addresses, sources, Ramapo);
    TownReportAddresses(addresses, sources, StonyPoint);
    AddressesOfAppend(tc, to);
    AddressesOfAppend(tc + to, tr);
    AddressesOfAppend(tc + to + tr, ts);
  }

  /**
   * Every result is well formed and belongs to an address in which a town was
   * detected, reported under that town's source: no "Unknown" address appears.
   */
  lemma ReportResults(addresses: seq<string>, sources: Sources)
    ensures forall r :: r in Report(addresses, sources) ==>
              WellFormed(r) && DetectTown(r.address).Some? && r.source == SourceName(DetectTown(r.address).value)
  {
    ReportByTown(addresses, sources);
    forall r | r in Report(addresses, sources)
      ensures WellFormed(r) && DetectTown(r.address).Some? && r.source == SourceName(DetectTown(r.address).value)
    {
      var t: Town :| r in TownReport(addresses, sources, t);
      var group := Routed(addresses, InTown(t));
      var rs := TownReport(addresses, sources, t);
      var i :| 0 <= i < |rs| && rs[i] == r;
      assert r == ResolveOne(sources, t, group[i]);
      RoutedMembers(addresses, InTown(t), group[i]);
    }
  }

  /**
   * The output holds one result per address a town was detected in, and the
   * addresses routed to "Unknown" make up exactly the rest of the input.
   */
  lemma ReportCoversTownAddresses(addresses: seq<string>, sources: Sources)
    ensures |Report(addresses, sources)| + |Routed(addresses, Unknown)| == |addresses|
    ensures multiset(AddressesOf(Report(addresses, sources))) + multiset(Routed(addresses, Unknown)) ==
            multiset(addresses)
  {
    ReportAddresses(addresses, sources);
    AllGroupsSplit(addresses);
    assert |AddressesOf(Report(addresses, sources))| == |Report(addresses, sources)|;
    RoutedPartition(addresses);
  }

  /** A Clarkstown address next to an address in no town: one result, for the Clarkstown address. */
  lemma OneTownAddressOneUnknown(a1: string, a2: string, sources: Sources)
    requires BucketOf(a1) == InTown(Clarkstown) && BucketOf(a2) == Unknown
    ensures var out := Report([a1, a2], sources);
            |out| == 1 && out[0].address == a1 && out[0].source == CLARKSTOWN_SOURCE
  {
    var input := [a1, a2];
    assert input[..1] == [a1] && [a1][..0] == [];
    forall b: Bucket
      ensures Routed(input, b) == (if b == InTown(Clarkstown) then [a1] else []) +
                                  (if b == Unknown then [a2] else [])
    {
      assert Select([a1], BucketOf, b) == (if b == InTown(Clarkstown) then [a1] else []);
      assert Select(input, BucketOf, b) == Select([a1], BucketOf, b) + (if b == Unknown then [a2] else []);
    }
    ReportAddresses(input, sources);
    ReportResults(input, sources);
    var out := Report(input, sources);
    assert AddressesOf(out) == [a1];
    assert out[0] in out;
  }

  /** An address naming Clarkstown yields one result; an address naming no town yields none. */
  lemma TwoAddressScenario(sources: Sources)
    ensures var out := Report(["1 Elm, Clarkstown", "9 Elm St"], sources);
            |out| == 1 && out[0].address == "1 Elm, Clarkstown" && out[0].source == CLARKSTOWN_SOURCE
  {
    ClarkstownAddress();
    NowhereAddress();
    OneTownAddressOneUnknown("1 Elm, Clarkstown", "9 Elm St", sources);
  }

  lemma ClarkstownAddress()
    ensures DetectTown("1 Elm, Clarkstown") == Some(Clarkstown)
  {
    var a := "1 Elm, Clarkstown";
    var lowered := Lower(a);
    assert lowered[7..17] == "clarkstown";
    assert Lower(Clarkstown.Name()) == "clarkstown";
    assert OccursAt(Lower(Clarkstown.Name()), lowered, 7);
    assert Mentions(a, Clarkstown);
  }

  lemma NowhereAddress()
    ensures DetectTown("9 Elm St") == None
  {
    var a := "9 Elm St";
    var lowered := Lower(a);
    assert lowered == "9 elm st";
    TownsInPriorityOrder();
    forall t: Town
      ensures !Mentions(a, t)
    {
      var name := Lower(t.Name());
      match t
      case Clarkstown =>
        assert name[0] == 'c';
        NotSubstringByChar(name, lowered, 0);
      case Orangetown =>
        assert name[0] == 'o';
        NotSubstringByChar(name, lowered, 0);
      case Ramapo =>
        assert name[0] == 'r';
        NotSubstringByChar(name, lowered, 0);
      case StonyPoint =>
        assert name[2] == 'o';
        NotSubstringByChar(name, lowered, 2);
    }
    DetectTownFirstMatch(a);
  }
}
