/** Facts that relate the checks of the assertion library to each other:
    which of them exclude one another, which imply which, how the count
    bounds move with their parameter, and what passing the telemetry checks
    together says about the generation time. */
module SearchRulesProperties {
  import opened Json
  import opened Text
  import opened SearchRulesAssert

  // ---------------------------------------------------------------------
  // "no results" against "has results"

  /** No response passes both the "no results" check and a "has results"
      check asking for at least one result, whatever its shape. */
  lemma NoResultsExcludesHasResults(r: Response, minCount: int)
    requires minCount >= 1
    ensures !(AssertNoResults(r).Pass? && AssertHasResults(r, minCount).Pass?)
  {
  }

  /** When the body exists and `results` is absent, falsy or an array,
      exactly one of "no results" and "has results" (default minimum 1)
      passes. With any other `results` (a string, a number, an object) both
      can fail. */
  lemma NoResultsIffNotHasResults(r: Response)
    requires Truthy(r.data)
    requires ResultsField(r).None? || !Truthy(ResultsField(r).value) || ResultsField(r).value.Arr?
    ensures AssertNoResults(r).Pass? <==> !AssertHasResults(r).Pass?
  {
  }

  /** A non-empty string in `results` fails both checks. */
  lemma StringResultsFailBoth(r: Response, s: string)
    requires Truthy(r.data) && ResultsField(r) == Some(Str(s)) && s != ""
    ensures AssertNoResults(r) == Fail(UnexpectedResults)
    ensures AssertHasResults(r) == Fail(ResultsNotArray)
  {
  }

  // ---------------------------------------------------------------------
  // Exact match

  /** Whatever passes "no results" passes the exact-match check for every
      search term: no results is a valid answer to a two-letter search. */
  lemma ExactMatchVacuous(r: Response, searchTerm: string)
    ensures AssertNoResults(r).Pass? ==> AssertExactMatch(r, searchTerm).Pass?
  {
  }

  /** On a result list whose every entry has a string name, the exact-match
      check passes exactly when the list is empty or some name equals the
      term once both are upper-cased. */
  lemma ExactMatchOnNamedResults(r: Response, searchTerm: string)
    requires Results(r).Some? && AllNamed(Results(r).value)
    ensures AssertExactMatch(r, searchTerm).Pass? <==>
      || |Results(r).value| == 0
      || exists i :: 0 <= i < |Results(r).value| &&
           Upper(NameOf(Results(r).value[i]).value) == Upper(searchTerm)
  {
  }

  /** On a non-empty result array, the exact-match check is decided by the
      first city that matches or has no string name: it passes when that city
      matches and throws when that city has no name. */
  lemma ExactMatchDecidedByFirstCity(r: Response, searchTerm: string)
    requires Results(r).Some? && |Results(r).value| > 0
    ensures AssertExactMatch(r, searchTerm).Pass? <==>
      exists k :: 0 <= k < |Results(r).value| && UpperNameIs(Results(r).value[k], Upper(searchTerm)) &&
        ScannedPast(Results(r).value, k, Upper(searchTerm))
    ensures AssertExactMatch(r, searchTerm) == Fail(TypeError) <==>
      exists k :: 0 <= k < |Results(r).value| && NameOf(Results(r).value[k]).None? &&
        ScannedPast(Results(r).value, k, Upper(searchTerm))
  {
  }

  /** The exact-match check stops at the first matching city, at any
      position: a city without a name after it is never read, so the check
      passes, while the city-name check, which lower-cases every name first,
      throws on it. */
  lemma ExactMatchStopsAtFirstMatch(r: Response, searchTerm: string, k: nat, later: nat)
    requires Results(r).Some? && k < later < |Results(r).value|
    requires UpperNameIs(Results(r).value[k], Upper(searchTerm))
    requires ScannedPast(Results(r).value, k, Upper(searchTerm))
    requires NameOf(Results(r).value[later]).None?
    ensures AssertExactMatch(r, searchTerm).Pass?
    ensures AssertContainsCityName(r, searchTerm) == Fail(TypeError)
  {
  }

  // ---------------------------------------------------------------------
  // Count bounds

  /** Passing the maximum-count check for `maxCount` implies passing it for
      every larger bound. */
  lemma MaxResultsMonotone(r: Response, maxCount: int, larger: int)
    requires maxCount <= larger
    ensures AssertMaxResults(r, maxCount).Pass? ==> AssertMaxResults(r, larger).Pass?
  {
  }

  /** Passing the minimum-count check for `minCount` implies passing it for
      every smaller minimum. */
  lemma HasResultsAntitone(r: Response, minCount: int, smaller: int)
    requires smaller <= minCount
    ensures AssertHasResults(r, minCount).Pass? ==> AssertHasResults(r, smaller).Pass?
  {
  }

  /** Passing both count checks pins the number of results between the two
      bounds, so the minimum cannot exceed the maximum. */
  lemma CountWindow(r: Response, minCount: int, maxCount: int)
    requires AssertHasResults(r, minCount).Pass? && AssertMaxResults(r, maxCount).Pass?
    ensures Results(r).Some? && minCount <= |Results(r).value| <= maxCount
  {
  }

  /** An absent `results` fails the maximum-count check, although no
      results is within every non-negative bound. */
  lemma MaxResultsRejectsAbsentResults(r: Response, maxCount: int)
    requires r.data.Obj? && ResultsKey !in r.data.fields
    ensures AssertMaxResults(r, maxCount) == Fail(MissingResults)
    ensures AssertNoResults(r).Pass?
  {
  }

  // ---------------------------------------------------------------------
  // Coordinates

  /** The position of the first city without numeric coordinates, or the
      length of the list when every city has them. A proof aid for the
      lemmas below; its meaning is stated by CheckCoordinatesFailsAtFirst. */
  function FirstOffender(cities: seq<Value>): (k: nat)
    ensures k <= |cities|
  {
    if cities == [] || !HasCoordinates(cities[0]) then 0 else 1 + FirstOffender(cities[1..])
  }

  /** The coordinate loop passes exactly when no city offends, and otherwise
      fails with what the first offending city produces, at its position. */
  lemma {:induction false} CheckCoordinatesFailsAtFirst(cities: seq<Value>, index: nat)
    ensures forall j :: 0 <= j < FirstOffender(cities) ==> HasCoordinates(cities[j])
    ensures FirstOffender(cities) < |cities| ==>
      && !HasCoordinates(cities[FirstOffender(cities)])
      && CheckCoordinates(cities, index) == CityCoordinates(cities[FirstOffender(cities)], index + FirstOffender(cities))
    ensures FirstOffender(cities) == |cities| ==> CheckCoordinates(cities, index).Pass?
  {
    if cities != [] && HasCoordinates(cities[0]) {
      var tail := cities[1..];
      CheckCoordinatesFailsAtFirst(tail, index + 1);
      var k := FirstOffender(tail);
      assert FirstOffender(cities) == k + 1;
      forall j | 0 <= j < k + 1 ensures HasCoordinates(cities[j]) {
        if j > 0 { assert cities[j] == tail[j - 1]; }
      }
      if k < |tail| {
        assert cities[k + 1] == tail[k];
      }
    }
  }

  /** When results exist but the coordinate check fails, the failure is the
      one the first offending city produces, at that city's index; every city
      before it has numeric coordinates. */
  lemma HasCoordinatesReportsFirstOffender(r: Response)
    requires AssertHasResults(r).Pass? && AssertHasCoordinates(r).Fail?
    ensures FirstOffender(Results(r).value) < |Results(r).value|
    ensures forall j :: 0 <= j < FirstOffender(Results(r).value) ==> HasCoordinates(Results(r).value[j])
    ensures AssertHasCoordinates(r) ==
      CityCoordinates(Results(r).value[FirstOffender(Results(r).value)], FirstOffender(Results(r).value))
  {
    CheckCoordinatesFailsAtFirst(Results(r).value, 0);
  }

  /** The coordinate check and the city-name check never pass on an absent
      or empty result list. */
  lemma ResultChecksNeedResults(r: Response, expectedCity: string)
    requires Results(r).None? || Results(r) == Some([])
    ensures AssertHasCoordinates(r).Fail?
    ensures AssertContainsCityName(r, expectedCity).Fail?
  {
  }

  // ---------------------------------------------------------------------
  // City name against exact match

  /** On a non-empty list of ASCII names and an ASCII term, the city-name
      check (lower-casing) and the exact-match check (upper-casing) agree. */
  lemma ContainsCityNameAgreesWithExactMatch(r: Response, term: string)
    requires Results(r).Some? && |Results(r).value| > 0 && AllNamed(Results(r).value)
    requires forall i :: 0 <= i < |Results(r).value| ==> IsAscii(NameOf(Results(r).value[i]).value)
    requires IsAscii(term)
    ensures AssertContainsCityName(r, term).Pass? <==> AssertExactMatch(r, term).Pass?
  {
    var items := Results(r).value;
    ExactMatchOnNamedResults(r, term);
    forall i | 0 <= i < |items|
      ensures Upper(NameOf(items[i]).value) == Upper(term) <==>
              Lower(NameOf(items[i]).value) == Lower(term)
    {
      FoldAgree(NameOf(items[i]).value, term);
    }
  }

  // ---------------------------------------------------------------------
  // Query strings

  /** No query is both digits only and special characters only, and the
      empty query is neither. */
  lemma QueryClassesExclusive(query: string)
    ensures !(AssertOnlyNumbers(query).Pass? && AssertOnlySpecialCharacters(query).Pass?)
    ensures query == [] ==> AssertOnlyNumbers(query).Fail? && AssertOnlySpecialCharacters(query).Fail?
  {
  }

  /** An exact length is the one-point range; a range whose minimum exceeds
      its maximum admits no query. */
  lemma QueryLengthIsPointRange(query: string, n: int, min: int, max: int)
    ensures AssertQueryLength(query, n).Pass? <==> AssertQueryLengthInRange(query, n, n).Pass?
    ensures min > max ==> AssertQueryLengthInRange(query, min, max).Fail?
  {
  }

  // ---------------------------------------------------------------------
  // Generation time and status

  /** Passing both telemetry checks means the generation time is a number
      in [0, maxTimeMs), which forces a positive threshold. */
  lemma GenerationTimeWindow(r: Response, maxTimeMs: real)
    requires AssertHasGenerationTime(r).Pass? && AssertResponseTime(r, maxTimeMs).Pass?
    ensures GenerationTime(r).Some? && GenerationTime(r).value.Num?
    ensures 0.0 <= GenerationTime(r).value.n < maxTimeMs
    ensures maxTimeMs > 0.0
  {
  }

  /** The response-time check does not look at the type of the field: a
      `null` generation time compares as 0 and passes any positive
      threshold, while the generation-time check rejects it. */
  lemma ResponseTimeAcceptsNullTime(r: Response, maxTimeMs: real)
    requires GenerationTime(r) == Some(Null) && maxTimeMs > 0.0
    ensures AssertResponseTime(r, maxTimeMs).Pass?
    ensures AssertHasGenerationTime(r) == Fail(GenerationTimeNotNumber)
  {
  }

  /** The status check and the body checks look at disjoint parts of the
      response: changing the status leaves every body check's outcome as it
      was, and changing the body leaves the status check's outcome as it was.
      So passing the body checks says nothing about the status, and the other
      way round. */
  lemma StatusAndBodyChecksIndependent(r: Response, status: int, data: Value, expected: int,
                                       maxTimeMs: real, minCount: int, maxCount: int, term: string)
    ensures AssertStatusCode(r.(data := data), expected) == AssertStatusCode(r, expected)
    ensures AssertStatusCode(r.(status := status), expected).Pass? <==> status == expected
    ensures AssertHasGenerationTime(r.(status := status)) == AssertHasGenerationTime(r)
    ensures AssertResponseTime(r.(status := status), maxTimeMs) == AssertResponseTime(r, maxTimeMs)
    ensures AssertNoResults(r.(status := status)) == AssertNoResults(r)
    ensures AssertHasResults(r.(status := status), minCount) == AssertHasResults(r, minCount)
    ensures AssertExactMatch(r.(status := status), term) == AssertExactMatch(r, term)
    ensures AssertMaxResults(r.(status := status), maxCount) == AssertMaxResults(r, maxCount)
    ensures AssertHasCoordinates(r.(status := status)) == AssertHasCoordinates(r)
    ensures AssertContainsCityName(r.(status := status), term) == AssertContainsCityName(r, term)
  {
  }
}
