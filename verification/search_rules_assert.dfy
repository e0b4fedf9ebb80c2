/** The assertion library for city-search responses: thirteen checks over a
    normalised response `{status, data, error}` and over a raw query string.
    Each check is a function that passes or names the guard that failed;
    a JavaScript `TypeError` raised on the way (a property read on `null`,
    a method missing from a value) is a failure of its own. */
module SearchRulesAssert {
  import opened Json
  import opened Text

  /** The response shape every check receives: the HTTP status, the parsed
      body (`Null` when the request failed without one) and an optional
      transport error message. */
  datatype Response = Response(status: int, data: Value, error: Option<string>)

  /** Which guard rejected the response or the query. */
  datatype Failure =
    | NoData
    | MissingGenerationTime
    | GenerationTimeNotNumber
    | NegativeGenerationTime
    | TooSlow
    | UnexpectedResults
    | MissingResults
    | ResultsNotArray
    | TooFewResults
    | NoExactMatch
    | TooManyResults
    | MissingLatitude(index: nat)
    | MissingLongitude(index: nat)
    | LatitudeNotNumber(index: nat)
    | LongitudeNotNumber(index: nat)
    | CityNotFound
    | NotOnlyNumbers
    | NotOnlySpecialCharacters
    | WrongQueryLength
    | QueryLengthOutOfRange
    | WrongStatus
    | TypeError

  datatype Check = Pass | Fail(why: Failure)

  const GenerationTimeKey: string := "generationtime_ms"
  const ResultsKey: string := "results"
  const NameKey: string := "name"
  const LatitudeKey: string := "latitude"
  const LongitudeKey: string := "longitude"

  /** The body's own `generationtime_ms` field, if it has one. */
  function GenerationTime(r: Response): Option<Value> {
    if HasOwn(r.data, GenerationTimeKey) then Some(r.data.fields[GenerationTimeKey]) else None
  }

  /** `response.data.results` on a body that is not `null`. */
  function ResultsField(r: Response): Option<Value> {
    Prop(r.data, ResultsKey)
  }

  /** The result list, when `results` is an array. */
  function Results(r: Response): Option<seq<Value>> {
    match ResultsField(r)
    case Some(Arr(items)) => Some(items)
    case _ => None
  }

  /** `!results || results.length === 0`. */
  predicate AbsentOrEmpty(results: Option<Value>) {
    results.None? || !Truthy(results.value) || Prop(results.value, "length") == Some(Num(0.0))
  }

  /** `city.name` when it is a string (so that `toUpperCase` and
      `toLowerCase` can be called on it); `None` when reading it throws. */
  function NameOf(city: Value): Option<string> {
    if city.Null? then None
    else match Prop(city, NameKey)
      case Some(Str(s)) => Some(s)
      case _ => None
  }

  predicate AllNamed(cities: seq<Value>) {
    forall i :: 0 <= i < |cities| ==> NameOf(cities[i]).Some?
  }

  /** A city carries `latitude` and `longitude` of type number. */
  predicate HasCoordinates(city: Value) {
    && city.Obj?
    && LatitudeKey in city.fields && city.fields[LatitudeKey].Num?
    && LongitudeKey in city.fields && city.fields[LongitudeKey].Num?
  }

  // ---------------------------------------------------------------------
  // Generation-time telemetry

  /** `assertHasGenerationTime`: the body exists and carries a non-negative
      number `generationtime_ms`. */
  function AssertHasGenerationTime(r: Response): (c: Check)
    ensures c.Pass? <==>
      GenerationTime(r).Some? && GenerationTime(r).value.Num? && GenerationTime(r).value.n >= 0.0
    ensures c == Fail(NoData) <==> !Truthy(r.data)
    ensures c == Fail(MissingGenerationTime) <==> Truthy(r.data) && GenerationTime(r).None?
  {
    if !Truthy(r.data) then Fail(NoData)
    else if !HasOwn(r.data, GenerationTimeKey) then Fail(MissingGenerationTime)
    else
      match Prop(r.data, GenerationTimeKey)
      case Some(Num(t)) => if t >= 0.0 then Pass else Fail(NegativeGenerationTime)
      case _ => Fail(GenerationTimeNotNumber)
  }

  /** `assertResponseTime`: the body exists, has the field, and the field
      compares below the threshold. The type of the field is not checked. */
  function AssertResponseTime(r: Response, maxTimeMs: real): (c: Check)
    ensures c == Fail(NoData) <==> !Truthy(r.data)
    ensures c.Pass? ==> GenerationTime(r).Some? && Less(GenerationTime(r), maxTimeMs)
    ensures GenerationTime(r).Some? && GenerationTime(r).value.Num? ==>
      (c.Pass? <==> GenerationTime(r).value.n < maxTimeMs)
  {
    if !Truthy(r.data) then Fail(NoData)
    else if !HasOwn(r.data, GenerationTimeKey) then Fail(MissingGenerationTime)
    else if Less(Prop(r.data, GenerationTimeKey), maxTimeMs) then Pass
    else Fail(TooSlow)
  }

  // ---------------------------------------------------------------------
  // Result-list checks

  /** `assertNoResults`: the body exists and `results` is absent, falsy or
      of length 0. */
  function AssertNoResults(r: Response): (c: Check)
    ensures c == Fail(NoData) <==> !Truthy(r.data)
    ensures Results(r).Some? ==> (c.Pass? <==> |Results(r).value| == 0)
    ensures Truthy(r.data) && !(ResultsField(r).Some? && Truthy(ResultsField(r).value)) ==> c.Pass?
    ensures c.Fail? ==> c.why in {NoData, UnexpectedResults}
  {
    if !Truthy(r.data) then Fail(NoData)
    else if AbsentOrEmpty(Prop(r.data, ResultsKey)) then Pass
    else Fail(UnexpectedResults)
  }

  /** `assertHasResults`: `results` is an array with at least `minCount`
      entries (the default is 1). */
  function AssertHasResults(r: Response, minCount: int := 1): (c: Check)
    ensures c.Pass? <==> Results(r).Some? && |Results(r).value| >= minCount
    ensures c == Fail(NoData) <==> !Truthy(r.data)
    ensures c == Fail(TooFewResults) <==> Results(r).Some? && |Results(r).value| < minCount
  {
    if !Truthy(r.data) then Fail(NoData)
    else
      var results := Prop(r.data, ResultsKey);
      if results.None? || !Truthy(results.value) then Fail(MissingResults)
      else if !results.value.Arr? then Fail(ResultsNotArray)
      else if |results.value.items| >= minCount then Pass
      else Fail(TooFewResults)
  }

  /** Outcome of `Array.prototype.some` with a callback that may throw. */
  datatype Scan = Hit | Miss | Threw

  /** The city's name exists and upper-cases to `target`. */
  predicate UpperNameIs(city: Value, target: string) {
    NameOf(city).Some? && Upper(NameOf(city).value) == target
  }

  /** Every city before position `k` has a string name that does not
      upper-case to `target`: the scan reads past all of them. */
  predicate ScannedPast(cities: seq<Value>, k: int, target: string)
    requires 0 <= k <= |cities|
  {
    forall j :: 0 <= j < k ==> NameOf(cities[j]).Some? && !UpperNameIs(cities[j], target)
  }

  /** `cities.some(city => city.name.toUpperCase() === target)`: visits the
      cities in order and stops at the first city that matches or throws, so
      nothing after it is read. */
  function FindUpperName(cities: seq<Value>, target: string): (s: Scan)
    ensures s == Miss <==> ScannedPast(cities, |cities|, target)
    ensures s == Hit <==>
      exists k :: 0 <= k < |cities| && UpperNameIs(cities[k], target) && ScannedPast(cities, k, target)
    ensures s == Threw <==>
      exists k :: 0 <= k < |cities| && NameOf(cities[k]).None? && ScannedPast(cities, k, target)
  {
    if cities == [] then Miss
    else
      match NameOf(cities[0])
      case None => Threw
      case Some(name) =>
        if Upper(name) == target then Hit else FindUpperName(cities[1..], target)
  }

  /** `assertExactMatch`: passes on an absent or empty result list; otherwise
      some result's upper-cased name must equal the upper-cased term. It
      reads `response.data.results` without checking `data`. */
  function AssertExactMatch(r: Response, searchTerm: string): (c: Check)
    ensures !r.data.Null? && (ResultsField(r).None? || !Truthy(ResultsField(r).value)) ==> c.Pass?
    ensures Results(r) == Some([]) ==> c.Pass?
    ensures r.data.Null? ==> c == Fail(TypeError)
    ensures c.Fail? ==> c.why in {TypeError, NoExactMatch}
    ensures c == Fail(NoExactMatch) ==> Results(r).Some? && |Results(r).value| > 0
  {
    if r.data.Null? then Fail(TypeError)
    else
      var results := Prop(r.data, ResultsKey);
      if AbsentOrEmpty(results) then Pass
      else if !results.value.Arr? then Fail(TypeError)
      else
        match FindUpperName(results.value.items, Upper(searchTerm))
        case Hit => Pass
        case Miss => Fail(NoExactMatch)
        case Threw => Fail(TypeError)
  }

  /** `assertMaxResults`: `results` must be truthy and its `length` at most
      `maxCount` (the default is 10). An absent `results` fails. */
  function AssertMaxResults(r: Response, maxCount: int := 10): (c: Check)
    ensures Results(r).Some? ==> (c.Pass? <==> |Results(r).value| <= maxCount)
    ensures !r.data.Null? && ResultsField(r).None? ==> c == Fail(MissingResults)
    ensures r.data.Null? ==> c == Fail(TypeError)
  {
    if r.data.Null? then Fail(TypeError)
    else
      var results := Prop(r.data, ResultsKey);
      if results.None? || !Truthy(results.value) then Fail(MissingResults)
      else if AtMost(Prop(results.value, "length"), maxCount as real) then Pass
      else Fail(TooManyResults)
  }

  /** The four guards of the `forEach` callback for the city at `index`. */
  function CityCoordinates(city: Value, index: nat): (c: Check)
    ensures c.Pass? <==> HasCoordinates(city)
    ensures c.Fail? ==> c.why in {TypeError, MissingLatitude(index), MissingLongitude(index),
                                  LatitudeNotNumber(index), LongitudeNotNumber(index)}
  {
    if city.Null? then Fail(TypeError)
    else if !HasOwn(city, LatitudeKey) then Fail(MissingLatitude(index))
    else if !HasOwn(city, LongitudeKey) then Fail(MissingLongitude(index))
    else if !city.fields[LatitudeKey].Num? then Fail(LatitudeNotNumber(index))
    else if !city.fields[LongitudeKey].Num? then Fail(LongitudeNotNumber(index))
    else Pass
  }

  /** The `forEach` over `cities`, the first of them at position `index`:
      the first failing city aborts the loop. */
  function CheckCoordinates(cities: seq<Value>, index: nat): (c: Check)
    ensures c.Pass? <==> forall i :: 0 <= i < |cities| ==> HasCoordinates(cities[i])
  {
    if cities == [] then Pass
    else
      var first := CityCoordinates(cities[0], index);
      if first.Fail? then first else CheckCoordinates(cities[1..], index + 1)
  }

  /** `assertHasCoordinates`: `assertHasResults` first, then every result
      carries numeric `latitude` and `longitude`. */
  function AssertHasCoordinates(r: Response): (c: Check)
    ensures AssertHasResults(r).Fail? ==> c == AssertHasResults(r)
    ensures c.Pass? <==>
      && AssertHasResults(r).Pass?
      && forall i :: 0 <= i < |Results(r).value| ==> HasCoordinates(Results(r).value[i])
  {
    var hasResults := AssertHasResults(r);
    if hasResults.Fail? then hasResults
    else CheckCoordinates(Results(r).value, 0)
  }

  /** `cities.map(city => city.name.toLowerCase())`; `None` when some city
      has no string name, where `map` throws. */
  function LowerNames(cities: seq<Value>): (names: Option<seq<string>>)
    ensures names.Some? <==> AllNamed(cities)
    ensures names.Some? ==> |names.value| == |cities|
    ensures names.Some? ==>
      forall i :: 0 <= i < |cities| ==> names.value[i] == Lower(NameOf(cities[i]).value)
  {
    if cities == [] then Some([])
    else
      match NameOf(cities[0])
      case None => None
      case Some(name) =>
        match LowerNames(cities[1..])
        case None => None
        case Some(rest) => Some([Lower(name)] + rest)
  }

  /** `assertContainsCityName`: `assertHasResults` first, then every name is
      lower-cased and one of them must equal the lower-cased expectation. */
  function AssertContainsCityName(r: Response, expectedCity: string): (c: Check)
    ensures AssertHasResults(r).Fail? ==> c == AssertHasResults(r)
    ensures c.Pass? <==>
      && AssertHasResults(r).Pass?
      && AllNamed(Results(r).value)
      && exists i :: 0 <= i < |Results(r).value| &&
           Lower(NameOf(Results(r).value[i]).value) == Lower(expectedCity)
  {
    var hasResults := AssertHasResults(r);
    if hasResults.Fail? then hasResults
    else
      match LowerNames(Results(r).value)
      case None => Fail(TypeError)
      case Some(names) => if Lower(expectedCity) in names then Pass else Fail(CityNotFound)
  }

  // ---------------------------------------------------------------------
  // Query-string checks

  /** `assertOnlyNumbers`: the query matches `^\d+$`. */
  function AssertOnlyNumbers(query: string): (c: Check)
    ensures c.Pass? <==> |query| > 0 && forall i :: 0 <= i < |query| ==> IsDigit(query[i])
    ensures c.Fail? ==> c.why == NotOnlyNumbers
  {
    if MatchesOneOrMore(IsDigit, query) then Pass else Fail(NotOnlyNumbers)
  }

  /** `assertOnlySpecialCharacters`: the query matches `^[^a-zA-Z0-9]+$`. */
  function AssertOnlySpecialCharacters(query: string): (c: Check)
    ensures c.Pass? <==> |query| > 0 && forall i :: 0 <= i < |query| ==> !IsAlphanumeric(query[i])
    ensures c.Fail? ==> c.why == NotOnlySpecialCharacters
  {
    if MatchesOneOrMore(IsSpecial, query) then Pass else Fail(NotOnlySpecialCharacters)
  }

  /** `assertQueryLength`: strict equality of the length with the expectation. */
  function AssertQueryLength(query: string, expectedLength: int): (c: Check)
    ensures c.Pass? <==> |query| == expectedLength
    ensures c.Fail? ==> c.why == WrongQueryLength
  {
    if |query| == expectedLength then Pass else Fail(WrongQueryLength)
  }

  /** `assertQueryLengthInRange`: both bounds inclusive. */
  function AssertQueryLengthInRange(query: string, min: int, max: int): (c: Check)
    ensures c.Pass? <==> min <= |query| <= max
    ensures c.Fail? ==> c.why == QueryLengthOutOfRange
  {
    if |query| >= min && |query| <= max then Pass else Fail(QueryLengthOutOfRange)
  }

  // ---------------------------------------------------------------------
  // Status code

  /** `assertStatusCode`: strict equality with the expected status (the
      default is 200). */
  function AssertStatusCode(r: Response, expectedStatus: int := 200): (c: Check)
    ensures c.Pass? <==> r.status == expectedStatus
    ensures c.Fail? ==> c.why == WrongStatus
  {
    if r.status == expectedStatus then Pass else Fail(WrongStatus)
  }
}
