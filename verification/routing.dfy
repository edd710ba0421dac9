/**
 * Jurisdiction routing: `TOWNS`, `detect_town` and `group_addresses_by_town`
 * of scrape_owner_names.py.
 */
module Routing {
  import opened Wrappers
  import opened Text

  /** The supported towns. */
  datatype Town = Clarkstown | Orangetown | Ramapo | StonyPoint {
    /** The display name, which is also what `detect_town` looks for in an address. */
    function Name(): string {
      match this
      case Clarkstown => "Clarkstown"
      case Orangetown => "Orangetown"
      case Ramapo => "Ramapo"
      case StonyPoint => "Stony Point"
    }

    /** Position in `TOWNS`: a town is tried before every town of higher priority number. */
    function Priority(): nat {
      match this
      case Clarkstown => 0
      case Orangetown => 1
      case Ramapo => 2
      case StonyPoint => 3
    }
  }

  /** `TOWNS`, in the order `detect_town` tries them and `main` processes them. */
  const TOWNS: seq<Town> := [Clarkstown, Orangetown, Ramapo, StonyPoint]

  lemma TownsInPriorityOrder()
    ensures |TOWNS| == 4
    ensures forall t: Town :: TOWNS[t.Priority()] == t
  {
  }

  /** `town.lower() in address.lower()` */
  predicate Mentions(address: string, town: Town) {
    ContainsIgnoreCase(address, town.Name())
  }

  /** Index of the first town of `TOWNS[k..]` that the address mentions, or 4 when none does. */
  function FirstMentionedFrom(address: string, k: nat): (n: nat)
    requires k <= |TOWNS|
    ensures k <= n <= |TOWNS|
    ensures n < |TOWNS| ==> Mentions(address, TOWNS[n])
    ensures forall j :: k <= j < n ==> !Mentions(address, TOWNS[j])
    decreases |TOWNS| - k
  {
    if k == |TOWNS| then k
    else if Mentions(address, TOWNS[k]) then k
    else FirstMentionedFrom(address, k + 1)
  }

  /**
   * `detect_town`: the first town, in `TOWNS` order, whose name occurs in the
   * address ignoring case; None when no town name occurs.
   */
  function DetectTown(address: string): Option<Town> {
    var n := FirstMentionedFrom(address, 0);
    if n < |TOWNS| then Some(TOWNS[n]) else None
  }

  /**
   * What `detect_town` returns: a town the address mentions, such that no town
   * tried before it is mentioned; None exactly when no town is mentioned.
   */
  lemma DetectTownFirstMatch(address: string)
    ensures DetectTown(address).Some? ==> Mentions(address, DetectTown(address).value)
    ensures DetectTown(address).Some? ==>
      forall t: Town :: t.Priority() < DetectTown(address).value.Priority() ==> !Mentions(address, t)
    ensures DetectTown(address).None? <==> forall t: Town :: !Mentions(address, t)
  {
    TownsInPriorityOrder();
  }

  /** `detect_town` depends on the address only through its lower-cased form. */
  lemma DetectTownOfLower(a: string, b: string)
    requires Lower(a) == Lower(b)
    ensures DetectTown(a) == DetectTown(b)
  {
    TownsInPriorityOrder();
    DetectTownFirstMatch(a);
    DetectTownFirstMatch(b);
    forall t: Town
      ensures Mentions(a, t) == Mentions(b, t)
    {
    }
    var r, s := DetectTown(a), DetectTown(b);
    if r.Some? {
      assert Mentions(b, r.value) && Mentions(a, s.value);
      assert s.value.Priority() == r.value.Priority();
      assert TOWNS[s.value.Priority()] == TOWNS[r.value.Priority()];
    }
  }

  /** Town detection is case-insensitive: upper- or lower-casing the address changes nothing. */
  lemma DetectTownIgnoresCase(address: string)
    ensures DetectTown(Upper(address)) == DetectTown(address)
    ensures DetectTown(Lower(address)) == DetectTown(address)
  {
    LowerOfUpper(address);
    DetectTownOfLower(Upper(address), address);
    LowerIdempotent(address);
    DetectTownOfLower(Lower(address), address);
  }

  /** The keys of the dictionary `group_addresses_by_town` builds. */
  datatype Bucket = InTown(town: Town) | Unknown

  /** The dictionary's insertion order: the towns in `TOWNS` order, then "Unknown". */
  const GROUP_ORDER: seq<Bucket> :=
    [InTown(Clarkstown), InTown(Orangetown), InTown(Ramapo), InTown(StonyPoint), Unknown]

  /** `GROUP_ORDER` lists every bucket exactly once. */
  lemma EachBucketOnce(b: Bucket)
    ensures Occurrences(GROUP_ORDER, b) == 1
  {
    match b
    case InTown(t) => assert t.Clarkstown? || t.Orangetown? || t.Ramapo? || t.StonyPoint?;
    case Unknown =>
  }

  /** The group an address is appended to. */
  function BucketOf(address: string): Bucket {
    match DetectTown(address)
    case Some(t) => InTown(t)
    case None => Unknown
  }

  /** The elements of `s` whose key is `b`, in order. */
  function Select<K(==)>(s: seq<string>, key: string -> K, b: K): (r: seq<string>)
    ensures |r| <= |s|
  {
    if s == [] then []
    else
      var last := s[|s| - 1];
      Select(s[..|s| - 1], key, b) + (if key(last) == b then [last] else [])
  }

  /** The addresses of `addresses` that land in bucket `b`, in input order. */
  function Routed(addresses: seq<string>, b: Bucket): (r: seq<string>)
    ensures |r| <= |addresses|
  {
    Select(addresses, BucketOf, b)
  }

  /** `group_addresses_by_town`: one list per bucket, each address appended to the list of its bucket. */
  method GroupAddressesByTown(addresses: seq<string>) returns (grouped: map<Bucket, seq<string>>)
    ensures forall b: Bucket :: b in grouped
    ensures forall b :: b in grouped ==> grouped[b] == Select(addresses, BucketOf, b)
  {
    grouped := map[InTown(Clarkstown) := [], InTown(Orangetown) := [], InTown(Ramapo) := [],
                   InTown(StonyPoint) := [], Unknown := []];
    forall b: Bucket
      ensures b in grouped
    {
      match b
      case InTown(t) => assert t.Clarkstown? || t.Orangetown? || t.Ramapo? || t.StonyPoint?;
      case Unknown =>
    }
    for i := 0 to |addresses|
      invariant forall b: Bucket :: b in grouped
      invariant forall b :: b in grouped ==> grouped[b] == Select(addresses[..i], BucketOf, b)
    {
      var addr := addresses[i];
      assert addresses[..i + 1][..i] == addresses[..i];
      var town := DetectTown(addr);
      match town
      case Some(t) =>
        grouped := grouped[InTown(t) := grouped[InTown(t)] + [addr]];
      case None =>
        grouped := grouped[Unknown := grouped[Unknown] + [addr]];
    }
    assert addresses[..|addresses|] == addresses;
  }

  lemma {:induction false} SelectMembers<K>(s: seq<string>, key: string -> K, b: K, x: string)
    ensures x in Select(s, key, b) <==> x in s && key(x) == b
  {
    if s != [] {
      var init := s[..|s| - 1];
      SelectMembers(init, key, b, x);
      assert s == init + [s[|s| - 1]];
    }
  }

  lemma {:induction false} SelectAppend<K>(a: seq<string>, c: seq<string>, key: string -> K, b: K)
    ensures Select(a + c, key, b) == Select(a, key, b) + Select(c, key, b)
  {
    if c == [] {
      assert a + c == a;
    } else {
      var init := c[..|c| - 1];
      SelectAppend(a, init, key, b);
      assert (a + c)[..|a + c| - 1] == a + init;
      assert (a + c)[|a + c| - 1] == c[|c| - 1];
    }
  }

  /** Each address is in exactly the group of its own bucket: the groups are disjoint and cover the input. */
  lemma RoutedMembers(addresses: seq<string>, b: Bucket, x: string)
    ensures x in Routed(addresses, b) <==> x in addresses && BucketOf(x) == b
  {
    SelectMembers(addresses, BucketOf, b, x);
  }

  /** Grouping keeps input order: the groups of a concatenation are the concatenated groups. */
  lemma RoutedAppend(a: seq<string>, c: seq<string>, b: Bucket)
    ensures Routed(a + c, b) == Routed(a, b) + Routed(c, b)
  {
    SelectAppend(a, c, BucketOf, b);
  }

  /** The selections of `s` for each key of `keys`, one after the other. */
  function Concat<K(==)>(s: seq<string>, key: string -> K, keys: seq<K>): seq<string> {
    if keys == [] then [] else Select(s, key, keys[0]) + Concat(s, key, keys[1..])
  }

  /** How many of `keys` equal `b`. */
  function Occurrences<K(==)>(keys: seq<K>, b: K): nat {
    if keys == [] then 0 else (if keys[0] == b then 1 else 0) + Occurrences(keys[1..], b)
  }

  /** An element appended to `s` shows up once in the concatenated selections if its key is listed once, and not at all if it is not listed. */
  lemma {:induction false} ConcatOfSnoc<K>(s: seq<string>, x: string, key: string -> K, keys: seq<K>)
    requires Occurrences(keys, key(x)) <= 1
    ensures multiset(Concat(s + [x], key, keys)) ==
            multiset(Concat(s, key, keys)) + if Occurrences(keys, key(x)) == 1 then multiset{x} else multiset{}
  {
    if keys != [] {
      ConcatOfSnoc(s, x, key, keys[1..]);
      assert (s + [x])[..|s + [x]| - 1] == s;
    }
  }

  /** Selecting by every key, each listed once, rearranges `s` without loss or duplication. */
  lemma {:induction false} SelectPartition<K>(s: seq<string>, key: string -> K, keys: seq<K>)
    requires forall x :: Occurrences(keys, key(x)) == 1
    ensures multiset(Concat(s, key, keys)) == multiset(s)
  {
    if s == [] {
      ConcatOfEmpty(key, keys);
    } else {
      var init, last := s[..|s| - 1], s[|s| - 1];
      SelectPartition(init, key, keys);
      ConcatOfSnoc(init, last, key, keys);
      assert s == init + [last];
    }
  }

  lemma {:induction false} ConcatOfEmpty<K>(key: string -> K, keys: seq<K>)
    ensures Concat([], key, keys) == []
  {
    if keys != [] {
      ConcatOfEmpty(key, keys[1..]);
    }
  }

  lemma ConcatCons<K>(s: seq<string>, key: string -> K, k: K, rest: seq<K>)
    ensures Concat(s, key, [k] + rest) == Select(s, key, k) + Concat(s, key, rest)
  {
    assert ([k] + rest)[1..] == rest;
  }

  /** The concatenated selections for five keys, written out. */
  lemma ConcatOfFive<K>(s: seq<string>, key: string -> K, k0: K, k1: K, k2: K, k3: K, k4: K)
    ensures Concat(s, key, [k0, k1, k2, k3, k4]) ==
            Select(s, key, k0) + (Select(s, key, k1) + (Select(s, key, k2) + (Select(s, key, k3) + Select(s, key, k4))))
  {
    var c4 := Concat(s, key, [k4]);
    assert c4 == Select(s, key, k4) by {
      ConcatCons(s, key, k4, []);
      assert [k4] + [] == [k4];
    }
    var c3 := Concat(s, key, [k3, k4]);
    assert c3 == Select(s, key, k3) + c4 by {
      ConcatCons(s, key, k3, [k4]);
      assert [k3] + [k4] == [k3, k4];
    }
    var c2 := Concat(s, key, [k2, k3, k4]);
    assert c2 == Select(s, key, k2) + c3 by {
      ConcatCons(s, key, k2, [k3, k4]);
      assert [k2] + [k3, k4] == [k2, k3, k4];
    }
    var c1 := Concat(s, key, [k1, k2, k3, k4]);
    assert c1 == Select(s, key, k1) + c2 by {
      ConcatCons(s, key, k1, [k2, k3, k4]);
      assert [k1] + [k2, k3, k4] == [k1, k2, k3, k4];
    }
    ConcatCons(s, key, k0, [k1, k2, k3, k4]);
    assert [k0] + [k1, k2, k3, k4] == [k0, k1, k2, k3, k4];
  }

  /** The five groups, in `GROUP_ORDER`. */
  function AllGroups(addresses: seq<string>): seq<string> {
    Concat(addresses, BucketOf, GROUP_ORDER)
  }

  /** The four town groups, one after the other. */
  function TownGroups(addresses: seq<string>): seq<string> {
    Routed(addresses, InTown(Clarkstown)) + Routed(addresses, InTown(Orangetown)) +
    Routed(addresses, InTown(Ramapo)) + Routed(addresses, InTown(StonyPoint))
  }

  lemma Reassociate<T>(a: seq<T>, b: seq<T>, c: seq<T>, d: seq<T>, e: seq<T>)
    ensures a + (b + (c + (d + e))) == a + b + c + d + e
  {
  }

  /** All five groups are the town groups followed by "Unknown". */
  lemma AllGroupsSplit(addresses: seq<string>)
    ensures AllGroups(addresses) == TownGroups(addresses) + Routed(addresses, Unknown)
  {
    ConcatOfFive(addresses, BucketOf, InTown(Clarkstown), InTown(Orangetown), InTown(Ramapo), InTown(StonyPoint), Unknown);
    Reassociate(Routed(addresses, InTown(Clarkstown)), Routed(addresses, InTown(Orangetown)),
                Routed(addresses, InTown(Ramapo)), Routed(addresses, InTown(StonyPoint)), Routed(addresses, Unknown));
  }

  /** The groups together are a permutation of the input: nothing is dropped or duplicated. */
  lemma RoutedPartition(addresses: seq<string>)
    ensures multiset(AllGroups(addresses)) == multiset(addresses)
    ensures |AllGroups(addresses)| == |addresses|
  {
    forall x: string
      ensures Occurrences(GROUP_ORDER, BucketOf(x)) == 1
    {
      EachBucketOnce(BucketOf(x));
    }
    SelectPartition(addresses, BucketOf, GROUP_ORDER);
    assert |multiset(AllGroups(addresses))| == |AllGroups(addresses)|;
  }
}
