# Product catalogue service, modelled in Dafny

The service is a small Express REST server (`server.js`) over an in-memory
catalogue of products. Each product has an id, name, description, price,
category and an in-stock flag. Its routes:

- list the products, filtered by category (exact match, case ignored) and by
  a search term (substring of the name, case ignored), one page at a time;
- read one product by id;
- create, update (full replacement) and delete a product, each behind a
  bearer-token check, and the first two behind a body validation;
- count the products per category.

Thrown errors reach one global handler, which turns them into a status and a
JSON error body.

The model has one module per concern:

- `Wrappers`: `Option` (a missing or null JavaScript value) and `Outcome`
  (a check that passes or raises).
- `Text`: lower-casing and substring search.
- `Catalogue`: the records, request bodies, errors and responses, and the
  three seed records.
- `Errors`: the two error classes and the global error handler.
- `Middleware`: authentication and validation.
- `Query`: the list route. It filters, then pages with the exact clamping
  and negative-index rules of `Array.prototype.slice`.
- `Stats`: the category counts.
- `Routes`: each route as a function from the store to its response and
  the new store.
- `Server`: the store itself, a class whose `products` sequence the route
  methods change in place, each method proved equal to its `Routes` function.
- `Scenarios`: the routes applied to the seed records.

The store invariant `Server.Store.Valid` holds from construction and after
every route: ids are unique and every record has non-empty text fields.

Where the description of the service and the code differ, the model follows
the code, except in the statistics route: `Routes.CategoryStats` and
`Server.Store.CategoryCount` compute the intended per-category counts, while
the plain-object computation the code performs is `Stats.StatsAsWritten`
(see "## Findings"). `limit=0` falls back to the whole filtered count, so page 1 shows
every filtered record, not an empty page. A negative `limit` is not an error
either: on page 1 it drops that many records from the end of the result
(`Query.NegativeLimitDropsTail`).

## Model

| member | source | states |
|---|---|---|
| Text.ToLower | server.js:100 | lower-casing keeps the length, lower-cases each character and leaves no upper-case letter |
| Text.ToLowerIdempotent | server.js:105 | lower-casing an already lower-cased string changes nothing |
| Text.Includes | server.js:106 | `includes` always finds the empty term and never a term longer than the name |
| Text.IncludesIff | server.js:106 | the substring test holds exactly when the term occurs at some position of the name |
| Text.IncludesFindsOccurrence | server.js:106 | a positive substring test has an occurrence behind it |
| Text.OccurrenceIsIncluded | server.js:106 | every occurrence of the term is found by the substring test |
| Catalogue.Seed | server.js:59-84 | the three seed records have unique ids and non-empty text fields |
| Errors.HandleError | server.js:187-191 | the status is the error's own truthy status, and 500 when it is missing or 0; the body is the error's non-empty message, else "Internal Server Error" |
| Errors.NotFoundError | server.js:9-15 | an error of class NotFoundError with the given message, which the global handler answers with 404 and that message |
| Errors.ValidationError | server.js:17-23 | an error of class ValidationError with the given message, which the global handler answers with 400 and that message |
| Middleware.Authenticate | server.js:41-47 | the check passes exactly when the Authorization header equals "Bearer mysecrettoken" |
| Middleware.Unauthorized | server.js:44 | the failed check answers 401 with "Unauthorized: Invalid or missing token", a response the global handler never produces for either error class |
| Middleware.ValidateProduct | server.js:50-56 | a rejection is a ValidationError with the all-fields-required message; a pass means all five fields are present |
| Middleware.MakeProduct | server.js:133-141 | the record built from a validated body carries the given id, has non-empty text fields and holds exactly the body's fields |
| Middleware.ValidIffBodyOfStorable | server.js:52-55 | validation accepts exactly the bodies of records whose name, description and category are non-empty |
| Middleware.BodyRoundTrip | server.js:152-160 | a stored record's fields, sent back as a body, pass validation and rebuild the same record |
| Middleware.ZeroPriceAndOutOfStockPass | server.js:52 | price 0 and inStock false pass validation, since only null or missing values fail |
| Middleware.EmptyNameRejected | server.js:52-53 | an empty or missing name is rejected with the validation error |
| Query.Filter | server.js:100 | the result is no longer than the input and holds exactly the input's elements that the condition accepts |
| Query.FilterKeepsOrder | server.js:100-106 | the filter result is the input read at exactly the accepted positions, in increasing order |
| Query.KeptPositionsAscend | server.js:100 | the accepted positions are in range and strictly increasing |
| Query.FilterReadsKeptPositions | server.js:100 | each element of the filter result is the input's element at the matching accepted position |
| Query.KeptPositionsExact | server.js:100 | a position is among the accepted ones exactly when the condition accepts the element there |
| Query.FilterTwice | server.js:99-107 | filtering by category and then by name is one filter by both conditions |
| Query.FilterSameKeep | server.js:100 | two conditions that agree on every record give the same filter result |
| Query.FilterKeepAll | server.js:96 | a condition that accepts everything returns the whole copy of the store |
| Query.CategoryMatches | server.js:100 | a record matches a category exactly when the two have the same length and agree letter by letter, case ignored |
| Query.NameMatches | server.js:105-106 | a record matches a search term exactly when the term occurs somewhere in its name, case ignored |
| Query.Filtered | server.js:96-107 | before paging, the list holds exactly the store's records that match every filter in force, and no more records than the store |
| Query.FilteredIsOneFilter | server.js:96-107 | the list route's filtering equals one filter by "matches every filter in force" |
| Query.FilteredByCategoryOnly | server.js:99-107 | with a category and no search term, only the category filter applies |
| Query.ListFilterSelects | server.js:96-107 | before paging, the list holds exactly the store records matching the query, in store order |
| Query.CategoryIgnoresCase | server.js:100 | the category match gives the same answer for a query value and its lower-cased form |
| Query.RelativeIndex | server.js:114 | a slice bound, once made relative, lies between 0 and the length |
| Query.OrDefault | server.js:110-111 | a parsed parameter with a fallback: a non-zero value is kept; a missing, unparsable or 0 value gives the fallback |
| Query.Slice | server.js:114 | a slice is no longer than its input and holds only elements of it |
| Query.ListProducts | server.js:95-122 | status 200; total is the filtered count before paging; page and limit are the defaulted values; the page holds only records the query selects |
| Query.PageIsContiguousRun | server.js:110-114 | for page >= 1 and limit >= 1, the page is the filtered run from (page-1)*limit to page*limit, cut at the total, so at most limit records |
| Query.DefaultsFallBack | server.js:110-111 | a missing, unparsable or zero page means 1; the same for limit means the filtered count, and that first page shows every filtered record |
| Query.NegativeLimitDropsTail | server.js:111-114 | on page 1 a limit of -k drops the last k filtered records, or returns nothing when k is at least the total |
| Stats.Count | server.js:179-181 | the count of a category is at most the store size and is positive exactly when some record carries that category |
| Stats.TallyCounts | server.js:178-181 | the statistics the loop builds (`Stats.Tally`) name exactly the categories present, each with the number of records carrying it |
| Stats.MapSumRemove | server.js:178-181 | the sum of the counts does not depend on the order the categories are taken |
| Stats.BumpAddsOne | server.js:180 | bumping one category's count raises the sum of the counts by one |
| Stats.TallySumsToSize | server.js:178-181 | the counts add up to the number of records |
| Stats.StatsAsWrittenKeys | server.js:178-181 | the plain object as the code builds it (`Stats.StatsAsWritten`) has a key for every present category except "__proto__" |
| Stats.StatsAsWrittenAgreesOnOrdinary | server.js:178-181 | when no category is named after a member every object inherits, the plain-object computation gives exactly the counts |
| Stats.InheritedNamesMiscounted | server.js:180 | one record in category "toString" is reported with a text in place of 1; one in category "__proto__" is not reported |
| Routes.FindIndex | server.js:149 | the result is -1 when no record has the id, else the first position holding it |
| Routes.FindIndexFound | server.js:126-127 | the search succeeds exactly when the id is in the store |
| Routes.GetProduct | server.js:125-129 | 200 with a store record carrying the id exactly when the id is present, else the 404 "Product not found" response |
| Routes.CreateProduct | server.js:132-144 | 401 exactly when the token is wrong; 400 exactly when it is right and the body invalid; both leave the store unchanged and answer with the fixed 401 body or the all-fields validation message; otherwise 201, and the store grows by one fresh-id record holding the body, with earlier records unchanged |
| Routes.UpdateProduct | server.js:147-164 | 401, 400, then 404 for an unknown id, each leaving the store unchanged and answering with the fixed 401 body, the all-fields validation message or "Product not found"; otherwise 200, the same length, and only the first record with the id replaced, keeping the id and taking the body |
| Routes.DeleteProduct | server.js:167-174 | 401 or 404 leave the store unchanged and answer with the fixed 401 body or "Product not found"; otherwise 200 with the first record carrying the id, which is spliced out with the rest kept in order |
| Routes.RemoveAt | server.js:172 | splicing out one record keeps the others in order and loses exactly that record |
| Routes.RemoveAtKeepsUnique | server.js:172 | splicing a record out of a store with unique ids keeps them unique, and the removed id is gone |
| Routes.CreateKeepsWellFormed | server.js:132-144 | a create, successful or not, keeps ids unique and every record valid |
| Routes.UpdateKeepsWellFormed | server.js:147-164 | an update, successful or not, keeps ids unique and every record valid |
| Routes.DeleteKeepsWellFormed | server.js:167-174 | a delete, successful or not, keeps ids unique and every record valid |
| Routes.CategoryStats | server.js:177-183 | status 200 with exactly the present categories, each with its record count |
| Routes.StatsAddUp | server.js:177-182 | the counts returned by the statistics route add up to the store size |
| Routes.CreatedIsFound | server.js:125-144 | after a successful create, reading the new id returns the created record |
| Routes.FindIndexOfAppended | server.js:142 | a record appended under a new id is found at the end |
| Routes.DeleteThenGetNotFound | server.js:125-174 | in a store with unique ids, a successful delete is followed by a 404 on the same id |
| Routes.UpdatedIsRead | server.js:147-164 | after a successful update, reading the id returns the updated record |
| Server.Store.constructor | server.js:59-84 | the store starts as the seed records and satisfies the invariant |
| Server.Store.List | server.js:95-122 | the list handler answers as the list route specifies |
| Server.Store.Get | server.js:125-129 | the read handler answers as the read route specifies, and in the store, whose ids are unique, the record it returns is the only one carrying the id |
| Server.Store.Create | server.js:132-144 | the create handler appends in place and answers as the create route specifies, keeping the invariant |
| Server.Store.Update | server.js:147-164 | the update handler assigns at the found index and answers as the update route specifies, keeping the invariant |
| Server.Store.Delete | server.js:167-174 | the delete handler splices in place and answers as the delete route specifies, keeping the invariant |
| Server.Store.CategoryCount | server.js:177-183 | the loop over the records builds exactly the category statistics |
| Scenarios.SeedStatistics | server.js:59-84 | the seed store counts 2 electronics and 1 kitchen |
| Scenarios.SeedElectronics | server.js:95-122 | category "electronics" on the seed store lists the laptop and the smartphone, total 2 |
| Scenarios.ElectronicsFiltered | server.js:99-101 | the category filter "electronics" keeps the first two seed records |
| Scenarios.ElectronicsMatches | server.js:100 | the category filter "electronics" accepts the laptop and the smartphone and rejects the coffee maker |
| Scenarios.SeedFirstPageOfTwo | server.js:109-121 | page 1 with limit 2 on the seed store shows the first two records, total 3 |

## Left out

- Express wiring is not modelled: middleware registration, route matching, `next()` chaining and `app.listen`. Each route is one function and one method that run the route's checks in order.
- The root route (`GET /`, a fixed welcome text) is not modelled; it has no state or logic.
- JSON parsing, serialisation and the request-logging middleware are not modelled. A body is already a record of optional fields; a response is a status and a payload datatype.
- Text.ToLower: models `toLowerCase` on ASCII letters only; other Unicode case mappings are not modelled.
- Body fields and query parameters are typed. A name that is a number, or a query parameter repeated into an array, is not modelled. So the TypeError such a value causes, and its 500 response, are not modelled either.
- `parseInt` is not modelled: `page` and `limit` arrive already parsed as `Option<int>` (`None` for missing or not a number).
- Floating-point behaviour is not modelled. `price` is an integer, and page arithmetic uses unbounded integers, not JavaScript doubles.
- `uuidv4()` is the parameter `freshId`. Create requires that it is not already an id in the store; that is the only thing the model assumes of the generator.
- Routes.CategoryStats: answers with the intended per-category counts, not with the plain object the code builds, which loses a "__proto__" category and turns inherited names such as "toString" into text; that behaviour is modelled separately as `Stats.StatsAsWritten` (see "## Findings").
- The key order of the statistics object is not modelled; the statistics are a map.
- Logging of errors to the console and the `PORT`/dotenv configuration are not modelled.

## Findings

| source | as written | input that shows it | evidently intended | confidence | as-written member | corrected member |
|---|---|---|---|---|---|---|
| server.js:178-181 | the counts live in a plain object literal. Reading the count of a category named like an inherited member ("toString", "constructor", ...) finds that member, and adding 1 concatenates text. Writing to "__proto__" is silently ignored | a store holding one record whose category is "toString" (or "__proto__") | every category maps to its record count (an object without a prototype, or a Map) | high, not executed | Stats.InheritedNamesMiscounted | Stats.TallyCounts |
