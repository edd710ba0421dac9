/**
 * The house-number/street split that `search_bas_portal` and `scrape_ramapo`
 * perform with `re.match(r"(\d+)\s+(.*)", address)`.
 */
module AddressSplit {
  import opened Text

  datatype HouseAddress = HouseAddress(number: string, street: string)

  /**
   * The split: a greedy `\d+` must be followed by at least one whitespace
   * character for the pattern to match; the street is then what `.*` takes
   * after the greedy `\s+`, up to the first newline. Without a match the
   * number is empty and the street is the whole address.
   */
  function SplitAddress(address: string): HouseAddress {
    var d := DigitRun(address);
    if 0 < d < |address| && IsSpace(address[d]) then
      var rest := address[d..];
      HouseAddress(address[..d], FirstLine(rest[SpaceRun(rest)..]))
    else
      HouseAddress("", address)
  }

  /** A leading digit run followed by whitespace: the digits are the number, the first line after the whitespace the street. */
  lemma SplitWithNumber(digits: string, spaces: string, rest: string)
    requires |digits| > 0 && AllDigits(digits)
    requires |spaces| > 0 && AllSpaces(spaces)
    requires rest == [] || !IsSpace(rest[0])
    ensures SplitAddress(digits + spaces + rest) == HouseAddress(digits, FirstLine(rest))
  {
    var a := digits + spaces + rest;
    DigitRunOfPrefix(digits, spaces + rest);
    assert a == digits + (spaces + rest);
    assert a[..|digits|] == digits && a[|digits|..] == spaces + rest;
    SpaceRunOfPrefix(spaces, rest);
    assert (spaces + rest)[|spaces|..] == rest;
  }

  /** No leading digit: the address is all street. */
  lemma SplitWithoutDigit(address: string)
    requires address == [] || !IsDigit(address[0])
    ensures SplitAddress(address) == HouseAddress("", address)
  {
  }

  /** Leading digits not followed by whitespace (end of text, or another character): no match either. */
  lemma SplitDigitsWithoutSpace(digits: string, rest: string)
    requires |digits| > 0 && AllDigits(digits)
    requires rest == [] || (!IsDigit(rest[0]) && !IsSpace(rest[0]))
    ensures SplitAddress(digits + rest) == HouseAddress("", digits + rest)
  {
    DigitRunOfPrefix(digits, rest);
    assert rest != [] ==> (digits + rest)[|digits|] == rest[0];
  }

  /** The split never fails, and a number, when there is one, is the address's leading digits. */
  lemma SplitNumberIsPrefix(address: string)
    ensures var h := SplitAddress(address);
            (h.number == [] && h.street == address) ||
            (|h.number| > 0 && AllDigits(h.number) && address[..|h.number|] == h.number &&
             IsSubstring(h.street, address[|h.number|..]) && '\n' !in h.street)
  {
    var d := DigitRun(address);
    if 0 < d < |address| && IsSpace(address[d]) {
      var rest := address[d..];
      var w := SpaceRun(rest);
      var street := FirstLine(rest[w..]);
      assert rest[w..][..|street|] == street;
      assert OccursAt(street, rest, w);
    }
  }

  lemma ExampleWithNumber()
    ensures SplitAddress("12 Elm") == HouseAddress("12", "Elm")
  {
    var digits, rest := "12", "Elm";
    var a := digits + " " + rest;
    assert SplitAddress(a) == HouseAddress(digits, rest) by {
      FirstLineWithoutNewline(rest);
      SplitWithNumber(digits, " ", rest);
    }
    assert a == "12 Elm";
  }

  lemma ExampleWithoutSpace()
    ensures SplitAddress("12B Elm") == HouseAddress("", "12B Elm")
  {
    assert AllDigits("12") && !IsDigit('B') && !IsSpace('B');
    SplitDigitsWithoutSpace("12", "B Elm");
    assert "12" + "B Elm" == "12B Elm";
  }
}
