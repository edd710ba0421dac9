/** `scrape_stony_point`: owner lookup in the Stony Point assessment roll. */
module StonyPointRoll {
  import opened Wrappers
  import opened Text
  import opened Results

  const STONY_POINT_SOURCE: string := "Stony Point Assessment Roll"

  /** One row of the roll: its `Address` cell (None when missing or not text) and its `Owner` cell. */
  datatype RollRow = RollRow(address: Option<string>, owner: string)

  /** The loaded roll: which of the two columns it has, and its rows in order. */
  datatype Roll = Roll(hasAddressColumn: bool, hasOwnerColumn: bool, rows: seq<RollRow>)

  /** The roll as the scraper finds it: the download or the parse failed, or it loaded. */
  datatype RollSource = RollUnavailable | RollLoaded(roll: Roll)

  /** `str.contains(addr, case=False, na=False)` on one row, read as a literal substring test. */
  predicate RowMatches(row: RollRow, address: string) {
    row.address.Some? && ContainsIgnoreCase(row.address.value, address)
  }

  /** Index of the first row of `rows[k..]` that matches, or `|rows|`. */
  function FirstMatchFrom(rows: seq<RollRow>, address: string, k: nat): (n: nat)
    requires k <= |rows|
    ensures k <= n <= |rows|
    ensures n < |rows| ==> RowMatches(rows[n], address)
    ensures forall j :: k <= j < n ==> !RowMatches(rows[j], address)
    decreases |rows| - k
  {
    if k == |rows| then k
    else if RowMatches(rows[k], address) then k
    else FirstMatchFrom(rows, address, k + 1)
  }

  /** The owner the search yields for one address. */
  function RollOwner(roll: Roll, address: string): Option<string> {
    if !roll.hasAddressColumn then None
    else
      var n := FirstMatchFrom(roll.rows, address, 0);
      if n == |roll.rows| || !roll.hasOwnerColumn then None else Some(roll.rows[n].owner)
  }

  /**
   * The owner the search yields is the `Owner` of the first matching row; None
   * when no row matches, or when a missing column raises a KeyError, which the
   * loop catches.
   */
  lemma RollOwnerFirstMatch(roll: Roll, address: string)
    ensures !roll.hasAddressColumn ==> RollOwner(roll, address).None?
    ensures (forall k :: 0 <= k < |roll.rows| ==> !RowMatches(roll.rows[k], address)) ==> RollOwner(roll, address).None?
    ensures forall k :: 0 <= k < |roll.rows| && RowMatches(roll.rows[k], address) &&
                        (forall j :: 0 <= j < k ==> !RowMatches(roll.rows[j], address)) ==>
              RollOwner(roll, address) == (if roll.hasAddressColumn && roll.hasOwnerColumn then Some(roll.rows[k].owner) else None)
  {
    var n := FirstMatchFrom(roll.rows, address, 0);
    forall k | 0 <= k < |roll.rows| && RowMatches(roll.rows[k], address) &&
               (forall j :: 0 <= j < k ==> !RowMatches(roll.rows[j], address))
      ensures k == n
    {
    }
  }

  /** The result `scrape_stony_point` reports for one address. */
  function StonyPointResult(source: RollSource, address: string): (r: ScrapeResult)
    ensures r.address == address && r.source == STONY_POINT_SOURCE && WellFormed(r)
    ensures source.RollUnavailable? <==> r.status == Error
    ensures source.RollLoaded? ==> r.ownerName == RollOwner(source.roll, address)
  {
    match source
    case RollUnavailable => Failed(address, STONY_POINT_SOURCE)
    case RollLoaded(roll) => Completed(address, RollOwner(roll, address), STONY_POINT_SOURCE)
  }

  /**
   * `scrape_stony_point`: an unavailable roll makes every address an error;
   * otherwise one search per address, in order.
   */
  method ScrapeStonyPoint(addresses: seq<string>, source: RollSource) returns (results: seq<ScrapeResult>)
    ensures |results| == |addresses|
    ensures forall i :: 0 <= i < |addresses| ==> results[i] == StonyPointResult(source, addresses[i])
    ensures source.RollUnavailable? ==>
              forall i :: 0 <= i < |addresses| ==> results[i] == ScrapeResult(addresses[i], None, STONY_POINT_SOURCE, Error)
  {
    if source.RollUnavailable? {
      return seq(|addresses|, i requires 0 <= i < |addresses| => ScrapeResult(addresses[i], None, STONY_POINT_SOURCE, Error));
    }
    results := [];
    for i := 0 to |addresses|
      invariant |results| == i
      invariant forall k :: 0 <= k < i ==> results[k] == StonyPointResult(source, addresses[k])
    {
      var r := StonyPointResult(source, addresses[i]);
      results := results + [r];
    }
  }

  /** A roll lookup never reports an error: a failed search is "not found". */
  lemma LoadedRollNeverErrs(roll: Roll, address: string)
    ensures StonyPointResult(RollLoaded(roll), address).status != Error
    ensures !roll.hasAddressColumn ==> StonyPointResult(RollLoaded(roll), address).status == NotFound
  {
  }
}
