# customer-partner: a Dafny model of the partner-matching service

The service matches a customer to craftsmen ("partners") for a flooring
material. A search takes a material and the customer's coordinates. It asks
the in-memory store for the partners that list the material. It keeps those
whose operating radius reaches strictly beyond the customer, and ranks them by
rating (higher first), then by distance (nearer first). A lookup by id returns
the first stored partner with that id, or `ErrRecordNotExist`. An HTTP layer
validates the search query in a fixed order and maps lookup errors to status
codes.

Modules, one per source package, plus `Wrappers`:

- `wrappers.dfy` (`Wrappers`): `Option` and `Result`.
- `entities.dfy` (`Entities`): `Address`, `Partner`, the lookup `Error` (with `ErrRecordNotExist`) and Go's zero `Partner`.
- `db_partner.dfy` (`Db`): the class `PartnerInMemoryRepository` over a `partners: seq<Partner>` field.
  - Its two read-only loops are proved against the functions `ByMaterial` and `LookupByID`.
  - The lemmas about those functions state what the store promises.
  - Neither method has a `modifies` clause, so neither can change `partners`.
- `domain_partner.dfy` (`Domain`): the filter loop, proved against `Eligible`, and the distance-stripping loop, proved against `PartnersOf`.
  - `Swap` and an in-place insertion sort over an `array<Match>` built from adjacent swaps. Its result is proved sorted under the intended key `Before` and a permutation of its input.
  - The class `PartnerService`, whose `GetPartners` composes these.
  - `LessAsWritten` is the comparator as the source has it (see Findings).
- `web_partner.dfy` (`Web`): the query validator, the options builder and the two endpoints' status decisions, as pure functions.
  - The `stringInSlice` loop is a method, proved to compute list membership. The validator, being a function, uses membership (`in`) directly.
  - The float parser is a parameter `string -> Option<real>`.
  - The service's operations are function parameters, because the handlers reach the service through an interface.

`distance` (great-circle trigonometry on float64) is a parameter of type
`(real, real, real, real) -> real`: (customer lat, customer long, partner lat,
partner long) to km. Every result about filtering and ranking holds for any such
function.

Two points of the source shape the model:
- A partner's materials are a list, not a set: `ExperiencedMaterial` is a `[]string` (internal/entities/partner.go:15), and the store's own TODO only considers making it a set (internal/db/partner.go:20-21). A partner that lists the material twice is returned twice by the store.
- `Less` is not the rating-then-distance order the ranking tests expect (internal/domain/partners_test.go:74-141; see Findings).

## Model

| member | source | states |
|---|---|---|
| `Db.PartnerInMemoryRepository.constructor` | internal/db/partner.go:7-14 | the store holds exactly the given partner list |
| `Db.PartnerInMemoryRepository.GetPartnersByMaterial` | internal/db/partner.go:17-30 | the nested loops return `ByMaterial(partners, material)`; the list is not modified |
| `Db.PartnerInMemoryRepository.GetPartnerByID` | internal/db/partner.go:34-41 | the scan with early return yields `LookupByID(partners, id)`; the list is not modified |
| `Db.CopiesAreCount` | internal/db/partner.go:22-26 | the inner loop appends the partner once per list entry equal to the material, and nothing else |
| `Db.ByMaterialSound` | internal/db/partner.go:19-28 | every returned partner is stored and lists the material |
| `Db.ByMaterialComplete` | internal/db/partner.go:19-28 | every stored partner that lists the material is returned |
| `Db.ByMaterialMultiplicity` | internal/db/partner.go:22-26 | a partner occurs in the result (occurrences of the material in its list) × (stored copies) times |
| `Db.ByMaterialOncePerStoredCopy` | internal/db/partner.go:22-26 | with a duplicate-free material list, each stored copy that lists the material is returned exactly once, and none is returned otherwise |
| `Db.ByMaterialConcat` | internal/db/partner.go:19-28 | the search keeps store order: searching `a + b` is searching `a`, then `b` |
| `Db.ByMaterialNone` | internal/db/partner.go:19-29 | a store where nobody lists the material (the empty store included) yields an empty result |
| `Db.DuplicateListingReturnedTwice` | internal/db/partner.go:22-26 | the `continue` only continues the inner loop: a partner listing "wood" twice is returned twice |
| `Db.LookupByIDFirstMatch` | internal/db/partner.go:34-41 | no error iff some stored partner has the id, and then the result is the first such partner; otherwise the zero partner with `ErrRecordNotExist` |
| `Db.EmptyStoreNotFound` | internal/db/partner.go:40 | an empty store answers every id with the zero partner and `ErrRecordNotExist` |
| `Domain.ConvertPartnersToMatchesAndFilterByOperatingRadius` | internal/domain/partner.go:71-94 | the loop returns `Eligible(partners, lat, long, distance)` |
| `Domain.EligibleMembership` | internal/domain/partner.go:76-93 | a match is produced for a partner iff its distance is strictly below its radius, and it carries that partner's own distance |
| `Domain.EligibleConcat` | internal/domain/partner.go:77-92 | filtering keeps input order: filtering `a + b` is filtering `a`, then `b` |
| `Domain.EligibleLength` | internal/domain/partner.go:76-93 | filtering never yields more matches than partners |
| `Domain.RadiusBoundaryExcluded` | internal/domain/partner.go:85 | a partner exactly at its radius is dropped |
| `Domain.RadiusCutAtTestDistance` | internal/domain/partners_test.go:33-72 | a partner 7.72 km away is kept with radius 10 (with that distance) and dropped with radius 5 |
| `Domain.ConvertMatchesToPartners` | internal/domain/partner.go:96-102 | the loop returns `PartnersOf(matches)` |
| `Domain.PartnersOfAt` | internal/domain/partner.go:96-102 | stripping distances keeps length and order: element i is the partner of match i |
| `Domain.PartnersOfPermutation` | internal/domain/partner.go:61-62 | a permutation of the matches gives a permutation of their partners |
| `Domain.LessAsWrittenDiffersFromBefore` | internal/domain/partner.go:20-25 | `Less` as written disagrees with the intended key exactly when the first match has the lower rating and the smaller distance |
| `Domain.LessAsWrittenNotAsymmetric` | internal/domain/partner.go:20-25 | a rating-4 match at 2 km and a rating-5 match at 7 km are each `Less` than the other |
| `Domain.BeforeIsStrictWeakOrder` | internal/domain/partner.go:20-25 | the intended key (rating descending, then distance ascending) is irreflexive, asymmetric and transitive, and its ties are transitive |
| `Domain.Swap` | internal/domain/partner.go:26-28 | exchanges exactly the elements at i and j, leaves every other index unchanged, and keeps the multiset |
| `Domain.SortByRatingAndDistance` | internal/domain/partner.go:61 | sorts in place: the result is sorted under the intended key and is a permutation of the input |
| `Domain.SortedMatchesRankPartners` | internal/domain/partner.go:61-62 | sorting the eligible matches and stripping distances yields a permutation of the eligible partners, ranked by the key of each partner's own match |
| `Domain.RankingUnique` | internal/domain/partner.go:61 | two rankings of the same partners are identical when no two different partners tie on both rating and distance |
| `Domain.RankingOfTestScenario` | internal/domain/partners_test.go:103-141 | partner 345 (rating 5), then 234 (rating 4, same distance), then 123 (rating 4, farther) is the only possible ranking of the three |
| `Domain.PartnerService.constructor` | internal/domain/partner.go:43-45 | the service holds the given repository |
| `Domain.PartnerService.GetPartners` | internal/domain/partner.go:54-63 | the result is a permutation of the partners of `Eligible(ByMaterial(store, opts.Material), …)`, i.e. the store is queried with exactly `opts.Material`, and it is ranked by rating descending, then distance ascending |
| `Domain.PartnerService.GetPartner` | internal/domain/partner.go:67-69 | returns the store's `(partner, error)` pair for the id unchanged |
| `Domain.SearchBounded` | internal/domain/partner.go:54-63 | a search result is no longer than the store's answer for the material, and is empty when that answer is empty |
| `Web.TrimPrefix` | internal/web/partner.go:62 | the id is the path after "/partners/", or the whole path when it lacks that prefix |
| `Web.StringInSlice` | internal/web/partner.go:128-135 | true iff the string is an element of the list |
| `Web.FirstFailure` | internal/web/partner.go:95-118 | none iff every check holds; otherwise the error of a failing check preceded only by passing ones |
| `Web.ValidateReportsFirstFailure` | internal/web/partner.go:95-118 | the validator reports the first failure of: material missing, material not wood/carpet/tiles, long missing, long unparsable or outside [-180,180], lat missing, lat unparsable or outside [-90,90]; the second parse of long (lines 108-110) never fires |
| `Web.ValidRequestExactly` | internal/web/partner.go:95-118 | a query is valid iff the material is present and allowed and long and lat are present, parse, and lie in their closed ranges |
| `Web.ValidationExamples` | internal/web/partner_test.go:72-178 | the validation outcome for each query string the handler tests use |
| `Web.MessagesIdentifyErrors` | internal/web/partner.go:120-126 | "parameter X missing" and "invalid input for parameter X" never coincide, and each determines X |
| `Web.ValidRequestYieldsOpts` | internal/web/partner.go:78-93 | for a valid query the options are always built, and they carry exactly the query's material, parsed long and parsed lat |
| `Web.GetPartnersHandlerOutcome` | internal/web/partner.go:38-56 | a GET search answers 400 with "Bad request: " and the error text iff validation fails; otherwise 200 with the service's answer for the query's own material, long and lat; it never answers 500 |
| `Web.ServiceOnlyForValidRequests` | internal/web/partner.go:42-52 | for an invalid query (or a non-GET method) the response does not depend on the service |
| `Web.GetPartnerHandlerOutcome` | internal/web/partner.go:58-76 | the service is asked for the id after "/partners/"; the answer is 404 iff `ErrRecordNotExist`, 500 iff another error, and 200 with the partner iff no error |

## Findings

| source | as written | input that shows it | evidently intended | confidence | as-written member | corrected member |
|---|---|---|---|---|---|---|
| internal/domain/partner.go:20-25 | `Less(i, j)` returns `distance[i] < distance[j]` whenever `rating[i] <= rating[j]`, without checking that the ratings are equal | match A: rating 4 at 2 km; match B: rating 5 at 7 km. `Less(A, B)` and `Less(B, A)` both hold, so `sort.Sort` may put A first | rating descending, then distance ascending only among equal ratings, which the ranking tests expect (internal/domain/partners_test.go:74-141) | not executed; high | `Domain.LessAsWrittenNotAsymmetric` | `Domain.BeforeIsStrictWeakOrder` |

The rest of the model ranks with the corrected key `Before`. `Domain.SortByRatingAndDistance` and `Domain.PartnerService.GetPartners` are proved against it.

## Left out

- `distance` (internal/domain/partner.go:131-158) is floating-point trigonometry. It is a function parameter, with no property assumed, so the ≈7.72 km value of the tests is not derived. Its statute-mile and nautical-mile branches are unused, because only "K" is passed.
- `strconv.ParseFloat` is a parameter `string -> Option<real>`. Its NaN/Inf spellings and float64 rounding are not modelled. Coordinates, distances and radii are `real`. Ratings and radii are unbounded `int`, and `float64(OperatingRadius)` is taken as exact.
- Web.GetPartnersOptsFromQuery: the error it returns carries the text that failed to parse, not Go's `*NumError`.
- `sort.Sort`'s algorithm is unstable and its result is unspecified for an inconsistent `Less`. It is replaced by an insertion sort under the corrected key. Tied matches (equal rating and distance) may come out in an order other than `sort.Sort`'s, and both are unspecified.
- `Len` is the array's `Length`, used directly.
- `PartnerRepository` and the web layer's `PartnerService` are Go interfaces, and the model uses no traits, so:
  - `PartnerService` holds the in-memory repository itself;
  - the handlers take the service's two operations as function parameters;
  - `NewPartnerAPI` and the `PartnerAPI` struct have no separate model.
- `NewPartnerInMemoryRepository` loads a fixed demo list. The constructor takes the list instead, as the store's tests do.
- HTTP transport is not modelled:
  - `ListenAndServe` is left out;
  - query-string decoding is replaced by a `map<string, seq<string>>`;
  - response writing and JSON encoding are left out;
  - the newline `http.Error` appends is not modelled;
  - `fmt.Println` logging is left out.

  A handler yields the status and the text or value it would write.
- `errors.Is` is modelled as equality with `ErrRecordNotExist`. Wrapped errors are not modelled.
- Concurrency: the core holds no shared mutable state, and none is modelled.
- The generated mocks, the bootstrap in cmd/server.go and the demo data are not part of this model.
