/**
 * The drivers page (app/drivers/page.tsx): the list shown is the drivers
 * whose name or reference contains the search term (case-insensitively),
 * sorted by predicted wins, by races, or by name. Both steps build new
 * sequences; the page's `drivers` state is a value here and is never
 * changed.
 */
module Drivers {
  import opened Wrappers

  /** One driver as delivered by the drivers endpoint. */
  datatype Driver = Driver(
    driverRef: string,
    driverName: string,
    totalRaces: int,
    predictedWins: int,
    currentTeam: Option<string>)

  /** The three orders offered by the sort selector. */
  datatype SortBy = Wins | Races | Name

  // ---------------------------------------------------------------------
  // Case-insensitive substring search
  // ---------------------------------------------------------------------

  /** `toLowerCase` on one character, for the ASCII letters. */
  function LowerChar(c: char): char {
    if 'A' <= c <= 'Z' then (c as int + 32) as char else c
  }

  /**
   * `toLowerCase`, character by character: no upper-case letter is left,
   * and every other character is kept where it was.
   */
  function ToLower(s: string): (r: string)
    ensures |r| == |s| && forall i :: 0 <= i < |s| ==> r[i] == LowerChar(s[i])
    ensures forall i :: 0 <= i < |r| ==> !('A' <= r[i] <= 'Z')
    ensures forall i :: 0 <= i < |s| && !('A' <= s[i] <= 'Z') ==> r[i] == s[i]
  {
    seq(|s|, i requires 0 <= i < |s| => LowerChar(s[i]))
  }

  /** Lowercasing twice is lowercasing once. */
  lemma ToLowerIdempotent(s: string)
    ensures ToLower(ToLower(s)) == ToLower(s)
  {
  }

  /** `s.includes(term)`, searching from the left. */
  predicate Contains(s: string, term: string)
    decreases |s|
  {
    term <= s || (s != [] && Contains(s[1..], term))
  }

  /** `term` occurs in `s` at position `i`. */
  predicate OccursAt(s: string, term: string, i: int) {
    0 <= i && i + |term| <= |s| && s[i..i + |term|] == term
  }

  /** Dropping the first character moves every occurrence one position left. */
  lemma OccursShift(s: string, term: string, i: int)
    requires s != [] && 0 <= i
    ensures OccursAt(s[1..], term, i) <==> OccursAt(s, term, i + 1)
  {
    if 0 <= i && i + |term| <= |s| - 1 {
      assert s[1..][i..i + |term|] == s[i + 1..i + 1 + |term|];
    }
  }

  /** The search agrees with the definition of a substring: some position holds `term`. */
  lemma {:induction false} ContainsIffOccurs(s: string, term: string)
    ensures Contains(s, term) <==> exists i :: OccursAt(s, term, i)
    decreases |s|
  {
    if term <= s {
      assert OccursAt(s, term, 0);
    } else if s != [] {
      ContainsIffOccurs(s[1..], term);
      if exists i :: OccursAt(s[1..], term, i) {
        var i :| OccursAt(s[1..], term, i);
        OccursShift(s, term, i);
      }
      if exists i :: OccursAt(s, term, i) {
        var i :| OccursAt(s, term, i);
        assert i != 0;
        OccursShift(s, term, i - 1);
      }
    }
  }

  /** The filter predicate: the lowercased term occurs in the lowercased name or reference. */
  predicate Matches(d: Driver, searchTerm: string) {
    Contains(ToLower(d.driverName), ToLower(searchTerm)) ||
    Contains(ToLower(d.driverRef), ToLower(searchTerm))
  }

  /** The search ignores the case of the term: lowercasing it first changes nothing. */
  lemma MatchesIgnoresTermCase(d: Driver, searchTerm: string)
    ensures Matches(d, ToLower(searchTerm)) <==> Matches(d, searchTerm)
  {
    ToLowerIdempotent(searchTerm);
  }

  /** An empty search term matches every driver. */
  lemma EmptyTermMatches(d: Driver)
    ensures Matches(d, "")
  {
    assert ToLower("") == "";
  }

  /**
   * `drivers.filter(Matches)`: the matching drivers, each as often as in the
   * input, and nothing else.
   */
  function Filter(ds: seq<Driver>, searchTerm: string): (r: seq<Driver>)
    ensures |r| <= |ds|
    ensures forall i :: 0 <= i < |r| ==> Matches(r[i], searchTerm)
    ensures forall d :: multiset(r)[d] == if Matches(d, searchTerm) then multiset(ds)[d] else 0
  {
    if ds == [] then []
    else
      var rest := Filter(ds[1..], searchTerm);
      assert ds == [ds[0]] + ds[1..];
      if Matches(ds[0], searchTerm) then [ds[0]] + rest else rest
  }

  /** With an empty search term the filter keeps the whole list, in order. */
  lemma {:induction false} FilterEmptyTermKeepsAll(ds: seq<Driver>)
    ensures Filter(ds, "") == ds
  {
    if ds != [] {
      EmptyTermMatches(ds[0]);
      FilterEmptyTermKeepsAll(ds[1..]);
    }
  }

  // ---------------------------------------------------------------------
  // The comparator and the sort
  // ---------------------------------------------------------------------

  /**
   * `a.localeCompare(b)`, taken here as the order of character codes:
   * negative, zero or positive as `a` sorts before, with or after `b`.
   */
  function LocaleCompare(a: string, b: string): (r: int)
    ensures -1 <= r <= 1
    ensures r == 0 <==> a == b
  {
    if a == [] && b == [] then 0
    else if a == [] then -1
    else if b == [] then 1
    else if a[0] < b[0] then -1
    else if a[0] > b[0] then 1
    else
      var r := LocaleCompare(a[1..], b[1..]);
      assert a == [a[0]] + a[1..] && b == [b[0]] + b[1..];
      r
  }

  /** Swapping the operands of `LocaleCompare` negates the result. */
  lemma {:induction false} LocaleCompareAntisymmetric(a: string, b: string)
    ensures LocaleCompare(b, a) == -LocaleCompare(a, b)
  {
    if a != [] && b != [] && a[0] == b[0] {
      LocaleCompareAntisymmetric(a[1..], b[1..]);
    }
  }

  /**
   * The comparator passed to `sort`: by wins descending (`b - a`), by races
   * descending, or by name through `localeCompare`. A non-positive value
   * lets `a` stand before `b`.
   */
  function Compare(key: SortBy, a: Driver, b: Driver): int {
    match key
    case Wins => b.predictedWins - a.predictedWins
    case Races => b.totalRaces - a.totalRaces
    case Name => LocaleCompare(a.driverName, b.driverName)
  }

  /** The comparator is antisymmetric, so any two drivers can be ordered one way round. */
  lemma CompareFlip(key: SortBy, a: Driver, b: Driver)
    ensures Compare(key, b, a) == -Compare(key, a, b)
  {
    if key == Name {
      LocaleCompareAntisymmetric(a.driverName, b.driverName);
    }
  }

  /** Every neighbouring pair is in comparator order. */
  predicate Sorted(key: SortBy, s: seq<Driver>) {
    forall i :: 0 < i < |s| ==> Compare(key, s[i - 1], s[i]) <= 0
  }

  /** Insert `x` into a sorted sequence, ahead of the first element it may precede. */
  function Insert(key: SortBy, x: Driver, s: seq<Driver>): (r: seq<Driver>)
    requires Sorted(key, s)
    ensures Sorted(key, r)
    ensures multiset(r) == multiset(s) + multiset{x}
    ensures |r| == |s| + 1 && (r[0] == x || (s != [] && r[0] == s[0]))
  {
    if s == [] then [x]
    else if Compare(key, x, s[0]) <= 0 then [x] + s
    else
      var rest := Insert(key, x, s[1..]);
      CompareFlip(key, x, s[0]);
      assert s == [s[0]] + s[1..];
      [s[0]] + rest
  }

  /**
   * `Array.prototype.sort` with the comparator: a sorted permutation of the
   * input. (Insertion keeps drivers that compare equal in input order, as
   * the stable sort of the language does.)
   */
  function SortDrivers(key: SortBy, s: seq<Driver>): (r: seq<Driver>)
    ensures Sorted(key, r)
    ensures multiset(r) == multiset(s)
  {
    if s == [] then []
    else
      assert s == [s[0]] + s[1..];
      Insert(key, s[0], SortDrivers(key, s[1..]))
  }

  /**
   * `filteredAndSorted`: the list the page displays. It is sorted by the
   * chosen key, every driver in it matches the search, and every matching
   * driver of the input appears in it exactly as often as in the input.
   */
  function FilteredAndSorted(ds: seq<Driver>, searchTerm: string, key: SortBy): (r: seq<Driver>)
    ensures Sorted(key, r)
    ensures forall i :: 0 <= i < |r| ==> Matches(r[i], searchTerm)
    ensures forall d :: multiset(r)[d] == if Matches(d, searchTerm) then multiset(ds)[d] else 0
  {
    var kept := Filter(ds, searchTerm);
    var r := SortDrivers(key, kept);
    assert forall i :: 0 <= i < |r| ==> r[i] in multiset(kept);
    r
  }

  /** A driver is displayed if and only if it is in the input and matches the search. */
  lemma DisplayedIffMatching(ds: seq<Driver>, searchTerm: string, key: SortBy, d: Driver)
    ensures d in FilteredAndSorted(ds, searchTerm, key) <==> d in ds && Matches(d, searchTerm)
  {
    var r := FilteredAndSorted(ds, searchTerm, key);
    assert d in r <==> multiset(r)[d] > 0;
    assert d in ds <==> multiset(ds)[d] > 0;
  }

  /** With an empty search every driver is displayed: the result is a permutation of the input. */
  lemma EmptySearchShowsAll(ds: seq<Driver>, key: SortBy)
    ensures multiset(FilteredAndSorted(ds, "", key)) == multiset(ds)
  {
    FilterEmptyTermKeepsAll(ds);
  }

  /** Sorted by wins, predicted wins never increase down the list. */
  lemma {:induction false} WinsNonIncreasing(s: seq<Driver>)
    requires Sorted(Wins, s)
    ensures forall i, j :: 0 <= i < j < |s| ==> s[i].predictedWins >= s[j].predictedWins
  {
    if |s| > 1 {
      WinsNonIncreasing(s[1..]);
      assert forall j :: 1 <= j < |s| ==> s[j] == s[1..][j - 1];
      assert Compare(Wins, s[0], s[1]) <= 0;
    }
  }

  /** Sorted by races, the race counts never increase down the list. */
  lemma {:induction false} RacesNonIncreasing(s: seq<Driver>)
    requires Sorted(Races, s)
    ensures forall i, j :: 0 <= i < j < |s| ==> s[i].totalRaces >= s[j].totalRaces
  {
    if |s| > 1 {
      RacesNonIncreasing(s[1..]);
      assert forall j :: 1 <= j < |s| ==> s[j] == s[1..][j - 1];
      assert Compare(Races, s[0], s[1]) <= 0;
    }
  }

  /** Sorted by name, each name is at most its successor under `localeCompare`. */
  lemma NamesAscending(s: seq<Driver>)
    requires Sorted(Name, s)
    ensures forall i :: 0 < i < |s| ==> LocaleCompare(s[i - 1].driverName, s[i].driverName) <= 0
  {
    assert forall i :: 0 < i < |s| ==> Compare(Name, s[i - 1], s[i]) <= 0;
  }
}
