/** `ScrapeResult` and the three-way status taxonomy of scrape_owner_names.py. */
module Results {
  import opened Wrappers

  /** The three values the `status` field takes. */
  datatype Status = Success | NotFound | Error {
    /** The string stored in the field. */
    function Text(): string {
      match this
      case Success => "success"
      case NotFound => "not found"
      case Error => "error"
    }
  }

  /** The three status strings are distinct, so a status is recovered from its text. */
  lemma StatusTextInjective(a: Status, b: Status)
    ensures a.Text() == b.Text() <==> a == b
  {
    assert Success.Text()[0] == 's' && NotFound.Text()[0] == 'n' && Error.Text()[0] == 'e';
  }

  /** One outcome per attempted address. */
  datatype ScrapeResult = ScrapeResult(address: string, ownerName: Option<string>, source: string, status: Status)

  /** `"success" if owner else "not found"`: a missing or empty owner is not a success. */
  function StatusOf(owner: Option<string>): (s: Status)
    ensures s != Error
    ensures s == Success <==> owner.Some? && owner.value != ""
  {
    if owner.Some? && owner.value != "" then Success else NotFound
  }

  /** The result of a lookup that ran to completion. */
  function Completed(address: string, owner: Option<string>, source: string): ScrapeResult {
    ScrapeResult(address, owner, source, StatusOf(owner))
  }

  /** The result of a lookup whose exception was caught. */
  function Failed(address: string, source: string): ScrapeResult {
    ScrapeResult(address, None, source, Error)
  }

  /**
   * The status is "success" exactly when an owner is present and non-empty,
   * and an error carries no owner.
   */
  predicate WellFormed(r: ScrapeResult) {
    (r.status == Success <==> r.ownerName.Some? && r.ownerName.value != "") &&
    (r.status == Error ==> r.ownerName.None?)
  }

  lemma CompletedWellFormed(address: string, owner: Option<string>, source: string)
    ensures WellFormed(Completed(address, owner, source))
    ensures Completed(address, owner, source).status != Error
  {
  }
}
