/**
 * The BAS tax portals of Clarkstown and Orangetown: `parse_bas_response`,
 * `search_bas_portal`, `scrape_clarkstown` and `scrape_orangetown`.
 */
module BasPortal {
  import opened Wrappers
  import opened Text
  import opened Html
  import opened AddressSplit
  import opened Results

  const CLARKSTOWN_URL: string := "https://www.townofclarkstown.org/cn/TaxSearch/index.cfm"
  const CLARKSTOWN_SOURCE: string := "Clarkstown Tax Search"
  const ORANGETOWN_URL: string := "https://www.orangetown.com/departments/receiver-of-taxes/tax-bill-search/"
  const ORANGETOWN_SOURCE: string := "Orangetown Tax Search"

  /**
   * A piece of the response page in document order: a table row, holding the
   * fragments of each of its `<td>` cells and its other text (`<th>` and the
   * like), or a text node that sits in no `<tr>`.
   */
  datatype Segment = RowText(cells: seq<Cell>, otherText: seq<string>) | LooseText(text: string)

  type Document = seq<Segment>

  /** A text node that `re.compile(r"Owner Name", re.I)` finds. */
  predicate IsOwnerLabel(text: string) {
    ContainsIgnoreCase(text, "Owner Name")
  }

  predicate HasLabel(seg: Segment) {
    match seg
    case LooseText(t) => IsOwnerLabel(t)
    case RowText(cells, other) =>
      (exists i, j :: 0 <= i < |cells| && 0 <= j < |cells[i]| && IsOwnerLabel(cells[i][j])) ||
      (exists j :: 0 <= j < |other| && IsOwnerLabel(other[j]))
  }

  /** What `parse_bas_response` yields, or the AttributeError it raises when the label has no enclosing row. */
  datatype Parse = Parsed(owner: Option<string>) | NoEnclosingRow

  /** The owner read from the segment that holds the label: the second cell's text. */
  function OwnerNear(seg: Segment): Parse {
    match seg
    case LooseText(_) => NoEnclosingRow
    case RowText(cells, _) => if |cells| >= 2 then Parsed(Some(CellText(cells[1]))) else Parsed(None)
  }

  /** The position of the first element of `s` satisfying `p`, or `|s|` when there is none. */
  function FirstWhere<T>(s: seq<T>, p: T -> bool): (k: nat)
    ensures k <= |s|
    ensures k < |s| ==> p(s[k])
    ensures forall j :: 0 <= j < k ==> !p(s[j])
  {
    if s == [] then 0
    else if p(s[0]) then 0
    else
      var k := 1 + FirstWhere(s[1..], p);
      assert forall j :: 1 <= j < k ==> s[j] == s[1..][j - 1];
      k
  }

  /**
   * `parse_bas_response`: the label found first in document order decides; no
   * label at all gives None.
   */
  function ParseBasResponse(doc: Document): (r: Parse)
    ensures (forall k :: 0 <= k < |doc| ==> !HasLabel(doc[k])) ==> r == Parsed(None)
    ensures forall k :: 0 <= k < |doc| && HasLabel(doc[k]) && (forall j :: 0 <= j < k ==> !HasLabel(doc[j])) ==>
              r == OwnerNear(doc[k])
  {
    var k := FirstWhere(doc, HasLabel);
    if k == |doc| then Parsed(None) else OwnerNear(doc[k])
  }

  /** An owner that parsing returns is stripped text: no whitespace at either end. */
  lemma ParsedOwnerIsStripped(doc: Document)
    requires ParseBasResponse(doc).Parsed? && ParseBasResponse(doc).owner.Some?
    ensures var o := ParseBasResponse(doc).owner.value;
            o == [] || (!IsSpace(o[0]) && !IsSpace(o[|o| - 1]))
  {
    var k := FirstWhere(doc, HasLabel);
    assert k < |doc| && |doc[k].cells| >= 2;
    assert ParseBasResponse(doc).owner.value == CellText(doc[k].cells[1]);
  }

  /** A page whose first segment holds the label is decided by that segment. */
  lemma LabelInFirstSegment(doc: Document)
    requires doc != [] && HasLabel(doc[0])
    ensures ParseBasResponse(doc) == OwnerNear(doc[0])
  {
    assert FirstWhere(doc, HasLabel) == 0;
  }

  /** The portal's answer to a POST: a parsed page, or a failure after retries (connection, timeout, HTTP error status). */
  datatype HttpOutcome = Response(page: Document) | RequestFailed

  /** The POST of `house_number` and `street` to a portal URL. */
  type HttpPost = (string, string, string) -> HttpOutcome

  /** The portal's answer for this address. */
  function PortalAnswer(address: string, post: HttpPost, url: string): HttpOutcome {
    var h := SplitAddress(address);
    post(url, h.number, h.street)
  }

  /** `search_bas_portal` */
  function SearchBasPortal(address: string, post: HttpPost, url: string, source: string): (r: ScrapeResult)
    ensures r.address == address && r.source == source
    ensures WellFormed(r)
  {
    match PortalAnswer(address, post, url)
    case RequestFailed => Failed(address, source)
    case Response(page) =>
      match ParseBasResponse(page)
      case NoEnclosingRow => Failed(address, source)
      case Parsed(owner) => Completed(address, owner, source)
  }

  /**
   * The status of a portal search: an error exactly when the request failed or
   * the label sat outside any row; otherwise the owner is what parsing gave.
   */
  lemma SearchBasPortalStatus(address: string, post: HttpPost, url: string, source: string)
    ensures var r := SearchBasPortal(address, post, url, source);
            var answer := PortalAnswer(address, post, url);
            (r.status == Error <==> answer.RequestFailed? || ParseBasResponse(answer.page).NoEnclosingRow?) &&
            (r.status != Error ==> r.ownerName == ParseBasResponse(answer.page).owner)
  {
  }

  /** A page without the label is a clean negative lookup. */
  lemma NoLabelIsNotFound(address: string, post: HttpPost, url: string, source: string)
    requires PortalAnswer(address, post, url).Response?
    requires forall k :: 0 <= k < |PortalAnswer(address, post, url).page| ==>
               !HasLabel(PortalAnswer(address, post, url).page[k])
    ensures SearchBasPortal(address, post, url, source) == ScrapeResult(address, None, source, NotFound)
  {
  }

  /** The loop `scrape_clarkstown` and `scrape_orangetown` share: one portal search per address, in order. */
  method ScrapeBasTown(addresses: seq<string>, post: HttpPost, url: string, source: string)
    returns (results: seq<ScrapeResult>)
    ensures |results| == |addresses|
    ensures forall i :: 0 <= i < |addresses| ==> results[i] == SearchBasPortal(addresses[i], post, url, source)
  {
    results := [];
    for i := 0 to |addresses|
      invariant |results| == i
      invariant forall k :: 0 <= k < i ==> results[k] == SearchBasPortal(addresses[k], post, url, source)
    {
      var r := SearchBasPortal(addresses[i], post, url, source);
      results := results + [r];
    }
  }

  /** `scrape_clarkstown` */
  method ScrapeClarkstown(addresses: seq<string>, post: HttpPost) returns (results: seq<ScrapeResult>)
    ensures |results| == |addresses|
    ensures forall i :: 0 <= i < |addresses| ==>
              results[i] == SearchBasPortal(addresses[i], post, CLARKSTOWN_URL, CLARKSTOWN_SOURCE)
  {
    results := ScrapeBasTown(addresses, post, CLARKSTOWN_URL, CLARKSTOWN_SOURCE);
  }

  /** `scrape_orangetown` */
  method ScrapeOrangetown(addresses: seq<string>, post: HttpPost) returns (results: seq<ScrapeResult>)
    ensures |results| == |addresses|
    ensures forall i :: 0 <= i < |addresses| ==>
              results[i] == SearchBasPortal(addresses[i], post, ORANGETOWN_URL, ORANGETOWN_SOURCE)
  {
    results := ScrapeBasTown(addresses, post, ORANGETOWN_URL, ORANGETOWN_SOURCE);
  }

  /**
   * A row `<tr><td>Owner Name</td><td>owner</td>...</tr>` at the top of the page
   * yields the stripped text of the owner cell, whatever follows.
   */
  lemma LabelledRowYieldsOwner(caption: string, ownerCell: Cell, rest: seq<Cell>, more: Document)
    requires IsOwnerLabel(caption)
    ensures ParseBasResponse([RowText([[caption], ownerCell] + rest, [])] + more) == Parsed(Some(CellText(ownerCell)))
  {
    var seg := RowText([[caption], ownerCell] + rest, []);
    assert seg.cells[0][0] == caption;
    assert HasLabel(seg);
    LabelInFirstSegment([seg] + more);
  }

  /** The text "Owner Name" is what the label search finds. */
  lemma LabelExample()
    ensures IsOwnerLabel("Owner Name")
  {
    var text := "Owner Name";
    assert Lower(text) == "owner name";
    assert OccursAt(Lower(text), Lower(text), 0);
  }

  lemma StripExample()
    ensures Strip("J. Smith") == "J. Smith"
  {
    var s := "J. Smith";
    assert !IsSpace(s[0]) && !IsSpace(s[|s| - 1]);
    assert TrimStart(s) == s;
  }

  /**
   * A portal that answers with the row `<tr><td>label</td><td>owner</td></tr>`
   * gives a successful lookup of that owner, whatever the label's case and
   * surroundings, as long as the owner is non-empty text without surrounding whitespace.
   */
  lemma LabelledPageSucceeds(address: string, post: HttpPost, url: string, source: string, caption: string, owner: string)
    requires IsOwnerLabel(caption) && owner != "" && Strip(owner) == owner
    requires PortalAnswer(address, post, url) == Response([RowText([[caption], [owner]], [])])
    ensures SearchBasPortal(address, post, url, source) == ScrapeResult(address, Some(owner), source, Success)
  {
    var page := [RowText([[caption], [owner]], [])];
    assert page[0].cells[0][0] == caption;
    LabelInFirstSegment(page);
    CellOfOne(owner);
    assert ParseBasResponse(page) == Parsed(Some(owner));
    assert StatusOf(Some(owner)) == Success;
  }

  /**
   * The portal scenario end to end: a page holding
   * `<tr><td>Owner Name</td><td>J. Smith</td></tr>` gives owner "J. Smith"
   * with status "success".
   */
  lemma OwnerNamePageScenario(address: string, post: HttpPost, url: string, source: string)
    requires PortalAnswer(address, post, url) == Response([RowText([["Owner Name"], ["J. Smith"]], [])])
    ensures SearchBasPortal(address, post, url, source) == ScrapeResult(address, Some("J. Smith"), source, Success)
  {
    LabelExample();
    StripExample();
    LabelledPageSucceeds(address, post, url, source, "Owner Name", "J. Smith");
  }
}
