# City-search response assertions in Dafny

This project models the assertion library of an end-to-end test suite for a
city-geocoding HTTP API (`features/assertions/searchRulesAssert.js`). The
library has thirteen checks. Each takes the normalised response
`{status, data, error}` or the raw query string, and either returns or
throws an assertion error. The model makes each check a total function
that returns `Pass` or `Fail(why)`. `why` names the guard that fired, or
`TypeError` when the JavaScript would raise a runtime error first (a
property read on `null`, `.some` called on a non-array, `.toUpperCase`
called on a missing name).

Files:

- `json.dfy` (module `Json`): the JSON body as a `Value` datatype (`Null`,
  `Bool`, `Num` over reals, `Str`, `Arr`, `Obj`). It also defines the
  JavaScript operations the checks use: truthiness, property reads (`.length`
  on arrays, strings and objects), `hasOwnProperty`, and the number
  conversion behind `<` and `<=`.
- `text.dfy` (module `Text`): character classes, ASCII case folding, and the
  anchored one-or-more regular expressions `^\d+$` and `^[^a-zA-Z0-9]+$` as
  a recursive matcher. The matcher is proved equal to its
  "non-empty and every character in the class" meaning.
- `search_rules_assert.dfy` (module `SearchRulesAssert`): the thirteen
  checks, the `some`, `map` and `forEach` callbacks they run, and the views
  (`GenerationTime`, `ResultsField`, `Results`, `NameOf`) that their
  contracts are stated in. `AbsentOrEmpty` is the shared guard
  `!results || results.length === 0` of `assertNoResults` and
  `assertExactMatch`.
- `search_rules_properties.dfy` (module `SearchRulesProperties`): lemmas
  relating the checks to each other.

JavaScript behaviour the model keeps:

- A truthy but non-object body, such as a non-empty string, has no
  `results` and no `generationtime_ms`.
- `results.length === 0` also holds for an object with an own `length` of 0.
- `assertExactMatch` stops at the first match (`some` short-circuits), so a
  malformed city after the match is never read.
- `assertContainsCityName` lower-cases every name with `map` before
  searching, so any malformed city makes it throw.
- `assertResponseTime` compares without a type check, so a `null`
  generation time counts as 0.

Behaviour of the source worth knowing, kept by the model:

- `assertNoResults` fails on a falsy body before it looks at `results`
  (line 43).
- `assertMaxResults` fails when `results` is absent (line 93), so a query
  with no match fails it although no results are within any bound
  (`MaxResultsRejectsAbsentResults`).
- `assertExactMatch` reads `response.data.results` without checking
  `data`, so it throws on a `null` body (line 74).
- `assertSearchBehavior` is imported at
  `features/stepDefinitions/citySearchRules.steps.js:13`, but the library
  never defines or exports it (lines 199-213). The model therefore has no
  query classifier and no precedence between the query checks: they are the
  separate predicates the library exports.

## Model

| member | source | states |
|---|---|---|
| `SearchRulesAssert.AssertHasGenerationTime` | features/assertions/searchRulesAssert.js:6-20 | passes exactly when the body has an own `generationtime_ms` that is a number >= 0; fails with `NoData` exactly when the body is falsy, and with `MissingGenerationTime` exactly when a truthy body lacks the field |
| `SearchRulesAssert.AssertResponseTime` | features/assertions/searchRulesAssert.js:25-37 | fails with `NoData` exactly when the body is falsy; passing means the field exists and converts to a number below the threshold; for a numeric field it passes exactly when the field is below the threshold |
| `SearchRulesAssert.AssertNoResults` | features/assertions/searchRulesAssert.js:42-52 | fails with `NoData` exactly when the body is falsy; on an array `results` it passes exactly when the array is empty; with a truthy body and an absent or falsy `results` it passes; the only failures are `NoData` and `UnexpectedResults` |
| `SearchRulesAssert.AssertHasResults` | features/assertions/searchRulesAssert.js:57-68 | passes exactly when `results` is an array of at least `minCount` entries (default 1); `NoData` exactly on a falsy body; `TooFewResults` exactly when the array is shorter than `minCount` |
| `SearchRulesAssert.FindUpperName` | features/assertions/searchRulesAssert.js:79-81 | the `some` scan stops at the first city that matches or throws: it hits exactly when some city matches and every city before it has a non-matching string name; it throws exactly when some city has no string name and every city before it has a non-matching one; it misses exactly when every city has a non-matching string name |
| `SearchRulesAssert.AssertExactMatch` | features/assertions/searchRulesAssert.js:73-87 | passes when `results` is absent, falsy or an empty array; throws (`TypeError`) on a `null` body; fails only with `TypeError` or `NoExactMatch`, and `NoExactMatch` only on a non-empty array |
| `SearchRulesAssert.AssertMaxResults` | features/assertions/searchRulesAssert.js:92-100 | on an array `results` passes exactly when its length is at most `maxCount` (default 10); an absent `results` fails with `MissingResults`; a `null` body throws |
| `SearchRulesAssert.CityCoordinates` | features/assertions/searchRulesAssert.js:109-126 | the per-city callback passes exactly when the city is an object with numeric `latitude` and `longitude`; its failures carry the city's index (or are a `TypeError` for a `null` city) |
| `SearchRulesAssert.CheckCoordinates` | features/assertions/searchRulesAssert.js:108-127 | the `forEach` passes exactly when every city has numeric coordinates |
| `SearchRulesAssert.AssertHasCoordinates` | features/assertions/searchRulesAssert.js:105-128 | a failing `assertHasResults` is passed through unchanged; passes exactly when `assertHasResults` passes and every result has numeric `latitude` and `longitude` |
| `SearchRulesAssert.LowerNames` | features/assertions/searchRulesAssert.js:136 | the `map` succeeds exactly when every city has a string name, and then yields each name lower-cased, in order |
| `SearchRulesAssert.AssertContainsCityName` | features/assertions/searchRulesAssert.js:133-143 | a failing `assertHasResults` is passed through; passes exactly when `assertHasResults` passes, every city has a string name, and some lower-cased name equals the lower-cased expectation |
| `SearchRulesAssert.AssertOnlyNumbers` | features/assertions/searchRulesAssert.js:148-154 | passes exactly on non-empty queries made only of 0-9; otherwise fails with `NotOnlyNumbers` |
| `SearchRulesAssert.AssertOnlySpecialCharacters` | features/assertions/searchRulesAssert.js:159-165 | passes exactly on non-empty queries with no character in a-z, A-Z, 0-9; otherwise fails with `NotOnlySpecialCharacters` |
| `SearchRulesAssert.AssertQueryLength` | features/assertions/searchRulesAssert.js:170-176 | passes exactly when the query length equals the expectation |
| `SearchRulesAssert.AssertQueryLengthInRange` | features/assertions/searchRulesAssert.js:181-186 | passes exactly when min <= length <= max, both bounds inclusive |
| `SearchRulesAssert.AssertStatusCode` | features/assertions/searchRulesAssert.js:191-197 | passes exactly when the status equals the expectation (default 200) |
| `Text.Upper` | features/assertions/searchRulesAssert.js:80 | `toUpperCase` on ASCII: same length, each character upper-cased, no lower-case ASCII letter left |
| `Text.Lower` | features/assertions/searchRulesAssert.js:136-137 | `toLowerCase` on ASCII: same length, each character lower-cased, no upper-case ASCII letter left |
| `Text.FoldAgree` | features/assertions/searchRulesAssert.js:80 | on ASCII strings, equality after upper-casing holds exactly when equality after lower-casing does |
| `Text.MatchesOneOrMore` | features/assertions/searchRulesAssert.js:149 | the anchored `^[class]+$` match holds exactly when the string is non-empty and every character is in the class |
| `SearchRulesProperties.NoResultsExcludesHasResults` | features/assertions/searchRulesAssert.js:42-68 | no response, whatever its shape, passes both "no results" and "has results" for any minimum >= 1 |
| `SearchRulesProperties.NoResultsIffNotHasResults` | features/assertions/searchRulesAssert.js:42-68 | with a truthy body and `results` absent, falsy or an array, "no results" passes exactly when "has results" fails |
| `SearchRulesProperties.StringResultsFailBoth` | features/assertions/searchRulesAssert.js:45-46 | a non-empty string in `results` fails both "no results" and "has results" |
| `SearchRulesProperties.ExactMatchVacuous` | features/assertions/searchRulesAssert.js:74-77 | every response that passes "no results" passes the exact-match check for every term |
| `SearchRulesProperties.ExactMatchOnNamedResults` | features/assertions/searchRulesAssert.js:73-87 | on a result list where every city has a string name, exact match passes exactly when the list is empty or some upper-cased name equals the upper-cased term |
| `SearchRulesProperties.ExactMatchDecidedByFirstCity` | features/assertions/searchRulesAssert.js:79-86 | on a non-empty result array, exact match passes exactly when the first city that matches or has no name matches, and throws exactly when that city has no name |
| `SearchRulesProperties.ExactMatchStopsAtFirstMatch` | features/assertions/searchRulesAssert.js:79-81 | a match at any position passes exact match even when a later city has no name, while the city-name check then throws (line 136) |
| `SearchRulesProperties.MaxResultsMonotone` | features/assertions/searchRulesAssert.js:92-100 | passing for a bound implies passing for every larger bound |
| `SearchRulesProperties.HasResultsAntitone` | features/assertions/searchRulesAssert.js:57-68 | passing for a minimum implies passing for every smaller minimum |
| `SearchRulesProperties.CountWindow` | features/assertions/searchRulesAssert.js:57-100 | passing both count checks puts the result count between the minimum and the maximum |
| `SearchRulesProperties.MaxResultsRejectsAbsentResults` | features/assertions/searchRulesAssert.js:93 | a body without `results` passes "no results" but fails the maximum-count check with `MissingResults` |
| `SearchRulesProperties.CheckCoordinatesFailsAtFirst` | features/assertions/searchRulesAssert.js:108-127 | every city before the first offender has coordinates; the loop reports that offender's failure at its index, and passes when there is none |
| `SearchRulesProperties.HasCoordinatesReportsFirstOffender` | features/assertions/searchRulesAssert.js:105-128 | when results exist and the coordinate check fails, its failure is the first offending city's, at that city's index |
| `SearchRulesProperties.ResultChecksNeedResults` | features/assertions/searchRulesAssert.js:105-143 | the coordinate and city-name checks never pass on an absent or empty result list |
| `SearchRulesProperties.ContainsCityNameAgreesWithExactMatch` | features/assertions/searchRulesAssert.js:73-143 | on a non-empty list of ASCII names and an ASCII term, the city-name check and the exact-match check agree |
| `SearchRulesProperties.QueryClassesExclusive` | features/assertions/searchRulesAssert.js:148-165 | no query passes both the digits-only and the special-only check; the empty query passes neither |
| `SearchRulesProperties.QueryLengthIsPointRange` | features/assertions/searchRulesAssert.js:170-186 | an exact length check is the range check with equal bounds; a range with min > max admits nothing |
| `SearchRulesProperties.GenerationTimeWindow` | features/assertions/searchRulesAssert.js:6-37 | passing both telemetry checks means the generation time is a number in [0, max), so max > 0 |
| `SearchRulesProperties.ResponseTimeAcceptsNullTime` | features/assertions/searchRulesAssert.js:32-36 | a `null` generation time passes the response-time check for any positive threshold, while the generation-time check rejects it |
| `SearchRulesProperties.StatusAndBodyChecksIndependent` | features/assertions/searchRulesAssert.js:191-197 | the status check reads only the status and the body checks never read it: changing the status leaves every body check's outcome unchanged, and changing the body leaves the status check's outcome unchanged |

## Left out

- The HTTP client (`features/support/api_openMeteo.js`) is not part of this model. The model does not capture the outbound GET or the error normalisation (status defaulting to 500, data to `null`). A response is an input of every check.
- The Cucumber world (`features/support/world.js`) and the step bindings (`features/stepDefinitions/citySearchRules.steps.js`) are not part of this model. Their inline checks repeat the library's checks: coordinates on the first result only, and the city-name check.
- No query classifier and no composite "search behaviour" check are modelled, because the library does not define them.
- Failure messages are not modelled. A `Failure` value names the guard that fired instead of carrying text.
- Numbers are reals. IEEE doubles, NaN, -0 and the infinities are not modelled.
- Text.Upper: only ASCII letters are case-folded. JavaScript's full Unicode mapping (such as `ß` to `SS`) is not modelled, and nothing about case folding outside ASCII is claimed.
- Text.Lower: only ASCII letters are case-folded, as for `Text.Upper`.
- AssertResponseTime: a string, array or object generation time is treated as NaN in `<`. JavaScript would first convert it to a number (`'5' < 10` holds there).
- AssertMaxResults: an object `results` whose `length` is a string, array or object is treated as NaN in `<=`. JavaScript would first convert it to a number. Also, a string `results` has its length counted in Unicode scalar values, not UTF-16 code units. For example, `{results: "😀"}` with `maxCount` 1 passes in the model, but fails in JavaScript, where the length is 2.
- AssertQueryLength: length counts Unicode scalar values. JavaScript counts UTF-16 code units, so the two differ on characters outside the Basic Multilingual Plane.
- AssertQueryLengthInRange: length counts Unicode scalar values, as for `AssertQueryLength`.
- AssertHasResults: `minCount` is an integer. A fractional JavaScript number is not modelled. The same holds for `maxCount`, `expectedLength`, `min`, `max` and the status codes.
- A body or city with its own `hasOwnProperty` key, which shadows the method so that the call throws, is not modelled. Neither are property reads by numeric index.
