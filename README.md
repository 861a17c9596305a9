# Express/Mongoose boilerplate core in Dafny

This project models four parts of a TypeScript REST boilerplate built on Express and Mongoose:

- **Pagination metadata.** `buildPaginationMeta` clamps the page number and the page size. It computes the number of pages and the neighbour-page fields.
- **Data-access layer.** These are the eleven operations of `dbOperationsMongo.ts`: creating, reading, counting, aggregating, updating and deleting.
  - Each one returns a `DbOperationResult` envelope: a `status`, a `message`, and optionally `data` and the pagination fields.
  - The Mongoose model becomes an in-memory collection: a sequence of documents in stored order, with a unique index on `_id`.
  - Every operation is a pure function from the collection to the envelope and, for a write, the new collection.
  - The class `DbOperations.Collection` holds the collection as a field. Its methods apply the writes in place, keep the unique index, and are proved equal to those functions.
- **Request-body validators.** These are the nine handlers of `userValidation` (`userValidation.ts`).
  - Each handler either answers 400 Bad Request or calls `next()` with a body rewritten by its `Object.assign` calls.
  - The model includes the `validator` library's `trim` (JavaScript `\s` whitespace stripped at both ends) and `isLength`.
- **CORS origin decision.** The middleware's `origin` callback checks the request's origin against the fixed list of five allowed origins.

The model has these files:

- `wrappers.dfy`: the `Option` datatype.
- `js.dfy`: JSON values and JavaScript truthiness.
- `pagination.dfy`: pagination metadata.
- `cors.dfy`: the origin decision.
- `validator.dfy`: `trim` and `isLength`.
- `user_validation.dfy`: the nine handlers.
- `query.dfy`: filter, stable sort and `skip`/`limit` slicing, as the store applies them.
- `db_operations.dfy`: the envelope, the operations and the `Collection` class.

Several things outside the code become parameters:

- A failure of the store (a lost connection, a schema validation error, a thrown driver error) is the explicit argument `fault: Option<string>`. `Some(m)` means the store call throws with message `m`, and the operation's `catch` answers `{ status: false, message: m }`.
- The store's sort comparison is a parameter `order`.
- An aggregation pipeline is a function of the collection.
- `normalizeEmail` and `isEmail` are the parameter `EmailLibrary`.
- The values of the `SubscriptionStatus` enum are the parameter `subscriptionValues`. That enum is in `src/contracts/user.ts`, which is not part of this model.

Where the store itself decides an outcome, the model follows the store:

- A second document with an existing `_id` causes an E11000 duplicate-key failure.
- A `$set` on `_id` is refused when the filter selects a document. When it selects none, nothing is applied and the answer is "No Record Found".
- A negative `skip` is refused.
- `limit(0)` means no limit, and `limit(-n)` returns `n` documents.
- `new ObjectId(s)` accepts exactly 24 hexadecimal digits, in either case.

## Model

| member | source | states |
|---|---|---|
| Pagination.BuildPaginationMeta | src/utils/pagination.ts:8-37 | page size and page number are clamped to at least 1; total_pages is 0 exactly for a non-positive total, otherwise the least q with total <= q*page_size; has_prev iff page > 1 on a non-empty set; has_next iff page < total_pages; prev/next page exist iff the flags hold and are one step away; counters never negative |
| Pagination.AtLeastOne | src/utils/pagination.ts:14-15 | `Math.max(1, Number(x) \|\| 1)` is x when x >= 1 and 1 otherwise |
| Pagination.NonNegative | src/utils/pagination.ts:29-31 | `Math.max(0, Number(x) \|\| 0)` is x when x >= 0 and 0 otherwise |
| Pagination.CeilDiv | src/utils/pagination.ts:17-18 | for positive a and b the result q is at least 1 and (q-1)*b < a <= q*b |
| Pagination.CeilDivUnique | src/utils/pagination.ts:17-18 | any q with (q-1)*b < a <= q*b is the ceiling, so the ceiling is unique |
| Pagination.EmptyResultHasNoNeighbours | src/utils/pagination.ts:17-24 | with no items there are 0 pages and neither neighbour, whatever page was asked for |
| Pagination.NoNextFromLastPage | src/utils/pagination.ts:21-24 | on the last page or past it there is no next page |
| Pagination.PrevPagePastTheEnd | src/utils/pagination.ts:20-23 | for every page past the end of a non-empty set, has_prev holds and prev_page is the page one back, which is the last page or beyond it |
| Pagination.PrevPageBeyondLastPage | src/utils/pagination.ts:8-37 | 15 items, size 10, page 5: two pages, and prev_page is 4, beyond the last page |
| Pagination.FifteenItemsSecondPage | src/utils/pagination.ts:8-37 | 15 items, size 10, page 2: two pages, a previous page 1 and no next page |
| Cors.IndexOf | src/middlewares/corsMiddleware.ts:18 | `indexOf` returns -1 iff absent, else the first position holding the value |
| Cors.OriginDecision | src/middlewares/corsMiddleware.ts:5-23 | allowed iff the origin is missing, empty, or one of the five listed; otherwise the error "Not allowed by CORS" |
| Cors.NoOriginAllowed | src/middlewares/corsMiddleware.ts:15-16 | a request without an Origin header is allowed |
| Cors.ListedOriginsAllowed | src/middlewares/corsMiddleware.ts:7-19 | each of the five listed origins is allowed |
| Cors.UnlistedOriginDenied | src/middlewares/corsMiddleware.ts:18-22 | any other non-empty origin is refused with the CORS error |
| Cors.MatchingIsExact | src/middlewares/corsMiddleware.ts:7-22 | no case folding, no trailing-slash normalisation, and the origin "null" is refused |
| Validator.TrimStrips | src/validations/userValidation.ts:66-75 | trim's result is a slice of the input between a whitespace prefix and a whitespace suffix, with no outer whitespace |
| Validator.StripsToUnique | src/validations/userValidation.ts:66-75 | only one slice has that property, so it characterises trim completely |
| Validator.TrimIdempotent | src/validations/userValidation.ts:329-330 | trimming twice is trimming once |
| Validator.TrimNoOuterSpace | src/validations/userValidation.ts:329-330 | a string with no outer whitespace is its own trim |
| Validator.TrimPadding | src/validations/userValidation.ts:329-330 | whitespace added at either end does not change the trim |
| Validator.TrimSlice | src/validations/userValidation.ts:329-330 | trim (an rtrim of an ltrim) keeps exactly the part between the leading and the trailing whitespace runs, or nothing for an all-blank string |
| Validator.LeadingSpaceUnique | src/validations/userValidation.ts:66-67 | a whitespace run followed by a non-blank character or the end is what ltrim strips |
| Validator.TrailingSpaceUnique | src/validations/userValidation.ts:66-67 | a whitespace run preceded by a non-blank character or the start is what rtrim strips |
| Validator.Trim | src/validations/userValidation.ts:46 | `validator.trim` as `rtrim(ltrim(s))`: the slice left after the leading and trailing JavaScript `\s` runs; TrimStrips and StripsToUnique characterise it, TrimIdempotent and TrimPadding are its laws; also used at :67, :78, :159, :170 and :329-330 |
| Validator.IsLength | src/validations/userValidation.ts:59 | `validator.isLength(s, { min, max })`: min <= length <= max, the length counted in Unicode scalar values; also used at :68, :79, :210, :333 and :409 |
| Js.Truthy | src/validations/userValidation.ts:37 | JavaScript truthiness behind every `!x` and `if (x)` test: `undefined`, `null`, `false`, `0` and `""` are falsy, everything else truthy |
| Js.Get | src/validations/userValidation.ts:27-35 | destructuring `req.body`: a missing key reads as `undefined`, a present key as its value |
| UserValidation.NormalizedEmail | src/validations/userValidation.ts:44-57 | an address is stored iff the e-mail is a truthy string, normalisation succeeds, and the trimmed result is non-empty and passes isEmail; the stored value is that trimmed result |
| UserValidation.AssignTrimmedName | src/validations/userValidation.ts:66-75 | a truthy name is replaced by its trim; a falsy one leaves the body alone |
| UserValidation.NameOk | src/validations/userValidation.ts:66-86 | a name passes when it is falsy (the check is skipped) or a string whose trim is 2..48 long; AssignTrimmedNameStores and AssignTrimmedNameAgain are its partner lemmas |
| UserValidation.PasswordOk | src/validations/userValidation.ts:59 | the password, untrimmed, is a string of 6..48 characters |
| UserValidation.UserTypeOk | src/validations/userValidation.ts:88-96 | a falsy userType passes; otherwise it must be one of the two UserTypes values |
| UserValidation.SubscriptionOk | src/validations/userValidation.ts:98-108 | a falsy subscriptionStatus passes; otherwise it must be one of the SubscriptionStatus values |
| UserValidation.VerifiedOk | src/validations/userValidation.ts:110-115 | verified passes when it is `undefined` or a boolean; `null`, numbers and strings are refused |
| UserValidation.AdminCreateUser | src/validations/userValidation.ts:21-127 | next() iff email and password are present, the e-mail is accepted, the password is 6..48 long, the names trim to 2..48, and userType, subscriptionStatus and verified are valid; the body passed on has trimmed names and the normalised e-mail; everything else is 400 |
| UserValidation.AdminUpdateUser | src/validations/userValidation.ts:129-227 | 400 when none of the six fields is present; otherwise next() iff the names, userType, subscriptionStatus, verified and an optional 6..48 password are valid, with trimmed names |
| UserValidation.UpdateUserTypeByMail | src/validations/userValidation.ts:229-272 | next() iff user_type is truthy and the e-mail is accepted; only the e-mail is rewritten |
| UserValidation.VerificationRequest | src/validations/userValidation.ts:274-314 | next() iff the e-mail is accepted; only the e-mail is rewritten |
| UserValidation.UpdateProfile | src/validations/userValidation.ts:316-356 | next() iff both names are strings whose trims are 2..48 long; both are stored trimmed |
| UserValidation.UpdateEmail | src/validations/userValidation.ts:358-398 | next() iff the password is truthy and the e-mail is accepted; only the e-mail is rewritten |
| UserValidation.UpdatePassword | src/validations/userValidation.ts:400-426 | next() with an unchanged body iff oldPassword is truthy and newPassword is a 6..48 string |
| UserValidation.UpdateAvatar | src/validations/userValidation.ts:428-450 | next() with an unchanged body iff imageId is truthy |
| UserValidation.DeleteProfile | src/validations/userValidation.ts:452-474 | next() with an unchanged body iff password is truthy |
| UserValidation.AssignTrimmedNameStores | src/validations/userValidation.ts:66-86 | after the assignment the name is the stripped form of the original (StripsTo) of 2..48 characters, and no other key changes |
| UserValidation.AdminCreateUserAccepted | src/validations/userValidation.ts:21-127 | on success: untrimmed 6..48 password, e-mail that passed isEmail, stripped names, valid enumerations, no other field changed |
| UserValidation.AdminUpdateUserAccepted | src/validations/userValidation.ts:129-227 | on success: stripped names, an absent or 6..48 password, no field other than the names changed |
| UserValidation.AdminUpdateUserPresence | src/validations/userValidation.ts:144-167 | an empty body is 400; an empty first name passes (present but falsy, skipping the length check); `verified: null` and an empty password are 400 |
| UserValidation.AdminUpdateUserFixedPoint | src/validations/userValidation.ts:158-178 | a body adminUpdateUser accepted is accepted again and left unchanged |
| UserValidation.AssignTrimmedNameAgain | src/validations/userValidation.ts:158-167 | re-trimming a trimmed name changes nothing, it still passes, and presence is preserved |
| UserValidation.UpdateProfileAccepted | src/validations/userValidation.ts:322-346 | on success both names are stored stripped, 2..48 long and truthy; nothing else changes |
| UserValidation.UpdateProfileFixedPoint | src/validations/userValidation.ts:329-346 | a body updateProfile accepted is accepted again unchanged |
| UserValidation.UpdateProfileIgnoresPadding | src/validations/userValidation.ts:329-346 | outer whitespace around the first name changes neither the decision nor the rewritten body |
| UserValidation.UpdateProfileShortName | src/validations/userValidation.ts:332-340 | " A  " trims to one character and is refused |
| UserValidation.EmailHandlersChangeOnlyEmail | src/validations/userValidation.ts:229-398 | the three e-mail handlers replace `email` by an address that passed isEmail and change no other key |
| UserValidation.UpdateUserTypeByMailAnyUserType | src/validations/userValidation.ts:235-263 | a user_type outside UserTypes is passed on |
| UserValidation.EmailRejections | src/validations/userValidation.ts:44-57 | a failed normalisation or a failed isEmail answers 400 in every handler that reads the e-mail |
| DbOperations.ParseObjectId | src/services/dbOperationsMongo.ts:333 | accepts exactly 24 hexadecimal digits and yields the canonical lower-case id |
| DbOperations.ParseIds | src/services/dbOperationsMongo.ts:333 | the mapped ids exist iff every id parses, element by element |
| DbOperations.ParseCanonicalId | src/services/dbOperationsMongo.ts:333 | an id already in canonical form parses to itself |
| DbOperations.ParseIgnoresCase | src/services/dbOperationsMongo.ts:333 | the same id in either case parses to the same ObjectId |
| DbOperations.FirstMatch | src/services/dbOperationsMongo.ts:129-131 | -1 iff nothing matches, else the first matching position |
| DbOperations.Project | src/services/dbOperationsMongo.ts:129-131 | an empty projection keeps every field; otherwise exactly the listed fields present, with their values and the id |
| DbOperations.SplitSortSpec | src/services/dbOperationsMongo.ts:73-75 | limit and page default to 10 and 1; the sort fields are the remaining keys with their values |
| DbOperations.TotalPages | src/services/dbOperationsMongo.ts:86-87 | not finite iff the limit is 0; for a positive limit 0 for an empty set, else the least q with total <= q*limit |
| DbOperations.GetAllRecords | src/services/dbOperationsMongo.ts:63-116 | status iff the returned array is non-empty, with the matching message; unpaginated: every match sorted and projected; paginated: a negative skip fails, else the skip/limit slice of the sorted matches with total_records, current_page, per_page and total_pages |
| DbOperations.PaginatedRead | src/services/dbOperationsMongo.ts:77-98 | the paginated branch: a negative skip fails; otherwise the skip/limit slice of the sorted matches, projected, with status iff non-empty, its message, total_records, current_page, per_page and total_pages |
| DbOperations.LimitCount | src/services/dbOperationsMongo.ts:83 | how many documents `.limit(n)` lets through: all of them for 0, n for a positive n, -n for a negative n |
| DbOperations.Ordering | src/services/dbOperationsMongo.ts:81 | the comparison `.sort(sortFields)` applies: the store's order for a non-empty specification, all ties (stored order) for an empty one |
| DbOperations.SortedMatches | src/services/dbOperationsMongo.ts:79-81 | `find(condObj).sort(sortFields)`: the matches sorted by Ordering; TieFreeSortIsSortedMatches and Listing are its partner lemmas |
| DbOperations.GetRecord | src/services/dbOperationsMongo.ts:121-152 | status iff some document matches; then the projected first match, else "No Record Found" with `[]` |
| DbOperations.CountRecords | src/services/dbOperationsMongo.ts:221-239 | succeeds with the number of matches (0 included) unless the store fails |
| DbOperations.AggregateRecordFunction | src/services/dbOperationsMongo.ts:244-262 | succeeds with the pipeline's output, empty or not, unless the store fails |
| DbOperations.WithIds | src/services/dbOperationsMongo.ts:334-339 | exactly the stored documents whose id is listed |
| DbOperations.GetRecordsByIds | src/services/dbOperationsMongo.ts:327-352 | an unparsable id fails with the ObjectId error; otherwise succeeds with the projected documents whose id is listed |
| DbOperations.CreateRecordOp | src/services/dbOperationsMongo.ts:17-35 | succeeds iff there is no fault and the id is new; the record is appended and its id returned; a duplicate id fails with E11000 and changes nothing |
| DbOperations.CreateBulkRecordsOp | src/services/dbOperationsMongo.ts:40-57 | succeeds iff the batch's ids are new and distinct, appending the whole batch; otherwise nothing changes |
| DbOperations.Merge | src/services/dbOperationsMongo.ts:163 | `$set`: patched keys take the new values, other keys keep theirs, the id is untouched |
| DbOperations.UpdateRecordOp | src/services/dbOperationsMongo.ts:157-184 | a `$set` on `_id` fails when a document matches; otherwise only the first match is patched; status iff that document really changes (modifiedCount > 0), else "No Record Found" with no change |
| DbOperations.MergeAll | src/services/dbOperationsMongo.ts:195 | every selected document is patched, the others stay |
| DbOperations.Changes | src/services/dbOperationsMongo.ts:165 | a document counts in `modifiedCount` exactly when the `$set` really changes it; also the test at :197; MergeTwice shows a repeated patch changes nothing |
| DbOperations.UpdateBulkRecordsOp | src/services/dbOperationsMongo.ts:189-216 | a `$set` on `_id` fails when a document matches; otherwise every match is patched; status iff some match really changes; matched and modified counts reported |
| DbOperations.DeleteRecordOp | src/services/dbOperationsMongo.ts:267-293 | status iff something matches; then exactly the first match is removed |
| DbOperations.DeleteBulkRecordsOp | src/services/dbOperationsMongo.ts:298-322 | the non-matching documents remain in order; status iff something matched; deletedCount is the number removed |
| DbOperations.DeletedCount | src/services/dbOperationsMongo.ts:303-304 | deleteMany removes something iff the filter selects something, and otherwise keeps everything |
| DbOperations.Keep | src/services/dbOperationsMongo.ts:303 | the documents `deleteMany(condObj)` leaves: the non-matches in stored order; DeleteBulkRemovesMatches and DeletedCount are its partner lemmas |
| DbOperations.DeleteRecordsByIdsOp | src/services/dbOperationsMongo.ts:357-384 | an unparsable id fails and changes nothing; otherwise the listed documents are removed; status iff one was listed, else "No Records Found" |
| DbOperations.Collection.constructor | src/services/dbOperationsMongo.ts:18 | the `model` handle every operation receives: a collection that starts from documents with distinct ids |
| DbOperations.Collection.CreateRecord | src/services/dbOperationsMongo.ts:17-35 | the result and the new contents are CreateRecordOp's, and the ids stay distinct |
| DbOperations.Collection.CreateBulkRecords | src/services/dbOperationsMongo.ts:40-57 | the result and the new contents are CreateBulkRecordsOp's, and the ids stay distinct |
| DbOperations.Collection.UpdateRecord | src/services/dbOperationsMongo.ts:157-184 | the result and the new contents are UpdateRecordOp's, and the ids stay distinct |
| DbOperations.Collection.UpdateBulkRecords | src/services/dbOperationsMongo.ts:189-216 | the result and the new contents are UpdateBulkRecordsOp's, and the ids stay distinct |
| DbOperations.Collection.DeleteRecord | src/services/dbOperationsMongo.ts:267-293 | the result and the new contents are DeleteRecordOp's, and the ids stay distinct |
| DbOperations.Collection.DeleteBulkRecords | src/services/dbOperationsMongo.ts:298-322 | the result and the new contents are DeleteBulkRecordsOp's, and the ids stay distinct |
| DbOperations.Collection.DeleteRecordsByIds | src/services/dbOperationsMongo.ts:357-384 | the result and the new contents are DeleteRecordsByIdsOp's, and the ids stay distinct |
| DbOperations.AppendKeepsIdsUnique | src/services/dbOperationsMongo.ts:40-57 | appending documents with fresh, distinct ids keeps the unique index |
| DbOperations.FindKeepsIdsUnique | src/services/dbOperationsMongo.ts:298-322 | keeping a sub-sequence keeps the unique index |
| DbOperations.RemoveKeepsIdsUnique | src/services/dbOperationsMongo.ts:267-293 | removing one document keeps the unique index |
| DbOperations.MergeTwice | src/services/dbOperationsMongo.ts:163 | `$set` is idempotent: a second identical patch changes nothing |
| DbOperations.UpdateBulkTwiceReportsNothing | src/services/dbOperationsMongo.ts:189-216 | repeating an updateBulkRecords call reports that nothing was updated |
| DbOperations.UpdateRecordTwiceReportsNothing | src/services/dbOperationsMongo.ts:157-184 | repeating an updateRecord call reports nothing, when the filter still selects the patched document |
| DbOperations.UpdateRecordTwiceCanUpdateAgain | src/services/dbOperationsMongo.ts:157-184 | without that proviso a repeated updateRecord updates the next document and succeeds again |
| DbOperations.ModifiedAtMostMatched | src/services/dbOperationsMongo.ts:195-202 | on success 1 <= modifiedCount <= matchedCount |
| DbOperations.DeleteBulkRemovesMatches | src/services/dbOperationsMongo.ts:298-322 | the remaining documents plus the matches are the original multiset; deletedCount is the number of matches |
| DbOperations.DeleteByIdsRemovesListed | src/services/dbOperationsMongo.ts:357-384 | deleteRecordsByIds removes exactly what getRecordsByIds would return, and succeeds iff that is non-empty |
| DbOperations.CreatedRecordIsFound | src/services/dbOperationsMongo.ts:17-152 | after a successful createRecord, getRecord with a filter on its id returns the projected record |
| DbOperations.CreatedRecordIsFoundById | src/services/dbOperationsMongo.ts:17-352 | after a successful createRecord, getRecordsByIds with its id returns exactly that projected record |
| DbOperations.Listing | src/services/dbOperationsMongo.ts:79-84 | the projected, sorted matches number as many as the matches |
| DbOperations.PageRecordsIsSlice | src/services/dbOperationsMongo.ts:77-98 | for page p >= 1 and limit >= 1 the data is the slice of `limit` records starting at (p-1)*limit, with current_page p, per_page limit and the totals |
| DbOperations.PageRecordsSlice | src/services/dbOperationsMongo.ts:77-98 | the records of page p are that slice |
| DbOperations.PagesCoverAllMatches | src/services/dbOperationsMongo.ts:77-98 | reading pages 1..total_pages returns each page's slice, and the slices concatenate to every match exactly once in sorted order |
| DbOperations.EveryPageIsASlice | src/services/dbOperationsMongo.ts:77-98 | each page 1..n is the corresponding slice |
| DbOperations.PageStatus | src/services/dbOperationsMongo.ts:89-96 | a page reports success, with "Record Found", iff p <= total_pages |
| DbOperations.PageStartsInside | src/services/dbOperationsMongo.ts:78-87 | page p starts inside the listing iff p <= ceil(total/limit) |
| DbOperations.TotalPagesMatchesMeta | src/services/dbOperationsMongo.ts:86-87 | for a positive limit the envelope's ceiling is buildPaginationMeta's total_pages |
| DbOperations.EnvelopeTotalPagesAgreesWithMeta | src/services/dbOperationsMongo.ts:86-95 | a paginated read's total_pages equals buildPaginationMeta's for the same total and page size |
| DbOperations.MetaHasNextIffNextPageFound | src/services/dbOperationsMongo.ts:77-98 | buildPaginationMeta's has_next holds iff reading the next page succeeds |
| DbOperations.FifteenMatchesSecondPage | src/services/dbOperationsMongo.ts:73-98 | 15 matches, limit 10, page 2: the last five sorted matches, 15 total, page 2 of 2 |
| Query.Find | src/services/dbOperationsMongo.ts:79-81 | the filter's result holds exactly the matching documents, no more than there were |
| Query.FindPartition | src/services/dbOperationsMongo.ts:303 | a filter and its negation split the collection's multiset and its length |
| Query.FindAppend | src/services/dbOperationsMongo.ts:22 | filtering a concatenation filters each part in order |
| Query.SortBy | src/services/dbOperationsMongo.ts:81 | the sort is a permutation of its input |
| Query.SortBySorted | src/services/dbOperationsMongo.ts:81 | under a total preorder the sort's output is ordered |
| Query.SortByAllTies | src/services/dbOperationsMongo.ts:81 | with an empty sort specification the stored order is kept |
| Query.SortedUnique | src/services/dbOperationsMongo.ts:81 | without ties between distinct elements, two sorted permutations of the same elements are equal |
| DbOperations.TieFreeSortIsSortedMatches | src/services/dbOperationsMongo.ts:79-81 | for a sort key without ties among the matches, every sorted permutation of the matches the store may return is the model's sorted listing |
| DbOperations.UpdateWithIdMatchingNothing | src/services/dbOperationsMongo.ts:157-216 | with `_id` in the patch and no match, updateRecord and updateBulkRecords both answer "No Record Found" and change nothing |
| DbOperations.OneIdAtMostOneRecord | src/services/dbOperationsMongo.ts:327-352 | under the unique index on `_id`, getRecordsByIds with one identifier returns at most one document |
| Query.Page | src/services/dbOperationsMongo.ts:82-83 | skip/limit returns Min(take, remaining) documents starting at skip |
| Query.AllPagesPrefix | src/services/dbOperationsMongo.ts:82-83 | the first k pages concatenated are the first k*limit documents |
| Query.FlattenSlices | src/services/dbOperationsMongo.ts:82-83 | concatenating the first k page slices is the first k pages |

## Left out

- I/O, the Express request/response objects, logging (`winston`), the HTTP status constants beyond 400, and the `cors` package's header handling. Only the origin decision is modelled.
- The `validator` library's `normalizeEmail` and `isEmail` rules are parameters, and are not modelled.
- `isLength` counts Unicode scalar values. It does not discount the variation selectors U+FE0E/U+FE0F as the library does.
- When a handler rewrites `req.body` with its first `Object.assign` and a later check then answers 400, the partial rewrite is not modelled. The response has already ended.
- Mongoose internals are not modelled:
  - schema validation, casting and hooks (a store failure is the `fault` argument);
  - `populateConfig` (unused by the source);
  - `lean()` and timestamps (`updatedAt` would make a repeated update modify the document again).
- Exclusion projections (`{ field: 0 }`) are not modelled. A projection is the set of included fields.
- The store's sort comparison is a parameter. The model's sort is a stable insertion sort, so it always puts tied documents in stored order. It does this the same way on every call, even under a non-empty sort specification.
- DbOperations.PagesCoverAllMatches: ties are broken by stored order on every call. The store promises no tie order across separate skip/limit queries. There, the law holds only for a sort key without ties among the matches: under such a key, DbOperations.TieFreeSortIsSortedMatches shows every sorted permutation is the model's listing. On a key with ties, a store record can appear on two pages or on none.
- DbOperations.EveryPageIsASlice: the same tie caveat applies.
- DbOperations.CreateBulkRecordsOp, DbOperations.Collection.CreateBulkRecords: an ordered `insertMany` keeps the documents before the first duplicate. The model is all or nothing: a duplicate changes nothing.
- The paginated read and its `countDocuments` are two store calls that are not atomic. The model reads one snapshot.
- `limit` and `page` are integers. JavaScript coercion of strings, fractions and NaN (`Number(limit)`) is not modelled.
- DbOperations.TotalPages: for a negative limit the model gives `-(total / -limit)` rounded toward zero, which equals `Math.ceil` of the negative quotient. For limit 0 it gives NotFinite, which covers both Infinity and NaN.
- DbOperations.UpdateRecordOp, DbOperations.UpdateBulkRecordsOp: a patch holding `_id` fails whenever the filter selects a document. The store also accepts a `$set` of `_id` to its current value, which is not modelled.
- The messages `DuplicateKeyMessage` ("E11000 duplicate key error") and `NegativeSkipMessage` keep only the opening words of the store's text. The store adds the collection, index and key details, which are not modelled.
- DbOperations.CreateRecordOp: id generation is abstracted away. The record arrives with its `_id` already chosen, whereas a caller that omits `_id` gets a fresh ObjectId from Mongoose. A given id that is already stored fails with E11000.
- DbOperations.WithIds, DbOperations.GetRecordsByIds: the result is in stored order. `find({ _id: { $in: ids } })` promises no order; the lemmas about it (DeleteByIdsRemovesListed) are stated with multisets and do not depend on the order.
- DbOperations.ParseObjectId: follows bson 6 and later, which accepts exactly 24 hexadecimal digits; InvalidIdMessage is the bson 6 text. Earlier bson versions also accepted any 12-byte string, which is not modelled.
- Aggregation stages are not modelled: the pipeline is an opaque function of the collection.
- DbOperations.UpdateRecordTwiceReportsNothing: holds only when the filter still selects the patched document. The general promise, that a second identical call reports nothing, does not hold for `updateOne`, and DbOperations.UpdateRecordTwiceCanUpdateAgain exhibits the counterexample. Mongoose's own idempotence claim is only about the document's contents, and that is DbOperations.MergeTwice.
- The `Pagination` output's `next_page`/`prev_page` are `null` in the source and `None` here. JavaScript numbers are integers here.
- Validator.LeadingSpace, Validator.TrailingSpace: their quantified facts are separate lemmas (LeadingSpaceBlank, LeadingSpaceStops, TrailingSpaceBlank, TrailingSpaceStops) rather than ensures clauses.
