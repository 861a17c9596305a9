/**
 * The generic data-access layer of src/services/dbOperationsMongo.ts.
 *
 * The Mongoose model is replaced by an in-memory collection: a sequence of
 * documents in stored (natural) order. Each operation is a pure function from
 * the collection and its arguments to a `DbOperationResult` envelope (and, for
 * writes, the new collection); the `Collection` class applies the writes in
 * place. A fault of the store (connection loss, validation error, ...) is the
 * explicit argument `fault`: `Some(message)` makes the store call throw with
 * that message.
 */
module DbOperations {
  import opened Wrappers
  import opened Js
  import Query
  import Pagination

  // ---------------------------------------------------------------------------
  // Identifiers and documents

  /** An ObjectId, held as its 24 lower-case hexadecimal digits. */
  type ObjectId = string

  predicate IsHexDigit(c: char) {
    '0' <= c <= '9' || 'a' <= c <= 'f' || 'A' <= c <= 'F'
  }

  predicate IsCanonicalId(s: string) {
    |s| == 24 && forall i :: 0 <= i < |s| ==> ('0' <= s[i] <= '9' || 'a' <= s[i] <= 'f')
  }

  function LowerHex(c: char): (d: char)
    requires IsHexDigit(c)
    ensures '0' <= d <= '9' || 'a' <= d <= 'f'
  {
    if 'A' <= c <= 'F' then (c as int + 32) as char else c
  }

  /** `new ObjectId(s)` for a string: only 24 hexadecimal digits are accepted, in either case. */
  function ParseObjectId(s: string): (r: Option<ObjectId>)
    ensures r.Some? <==> |s| == 24 && forall i :: 0 <= i < |s| ==> IsHexDigit(s[i])
    ensures r.Some? ==> IsCanonicalId(r.value)
  {
    if |s| == 24 && forall i :: 0 <= i < |s| ==> IsHexDigit(s[i])
    then Some(seq(24, i requires 0 <= i < 24 => LowerHex(s[i])))
    else None
  }

  /** `idsArray.map(id => new ObjectId(id))`: None as soon as one id is invalid. */
  function ParseIds(ids: seq<string>): (r: Option<seq<ObjectId>>)
    ensures r.Some? <==> forall i :: 0 <= i < |ids| ==> ParseObjectId(ids[i]).Some?
    ensures r.Some? ==> |r.value| == |ids|
    ensures r.Some? ==> forall i :: 0 <= i < |ids| ==> r.value[i] == ParseObjectId(ids[i]).value
  {
    if ids == [] then Some([])
    else
      var head := ParseObjectId(ids[0]);
      var tail := ParseIds(ids[1..]);
      assert forall i :: 1 <= i < |ids| ==> ids[i] == ids[1..][i - 1];
      if head.Some? && tail.Some? then Some([head.value] + tail.value)
      else None
  }

  /** A stored document: its `_id` and its other fields. */
  datatype Doc = Doc(id: ObjectId, fields: map<string, Value>)

  /** The unique index on `_id`. */
  predicate UniqueIds(docs: seq<Doc>) {
    forall i, j :: 0 <= i < j < |docs| ==> docs[i].id != docs[j].id
  }

  function Ids(docs: seq<Doc>): set<ObjectId> {
    set d | d in docs :: d.id
  }

  // ---------------------------------------------------------------------------
  // The result envelope

  /** What an envelope's `data` holds. */
  datatype Data =
    | InsertedId(inserted_id: ObjectId)          // `{ inserted_id: result._id }`
    | Records(records: seq<Doc>)                  // an array of documents
    | Record(record: Doc)                         // one document
    | Count(count: nat)                           // countDocuments
    | UpdateResult(matchedCount: nat, modifiedCount: nat)
    | DeleteResult(deletedCount: nat)
    | EmptyArray                                  // `data: []`

  /** `Math.ceil(total / limit)` as a JavaScript number: Infinity or NaN when limit is 0. */
  datatype PageTotal = Pages(pages: int) | NotFinite

  /** `DbOperationResult` (src/services/dbOperationsMongo.ts:4-12); None is an absent field. */
  datatype DbOperationResult = DbOperationResult(
    status: bool,
    message: string,
    data: Option<Data>,
    total_records: Option<nat>,
    current_page: Option<int>,
    per_page: Option<int>,
    total_pages: Option<PageTotal>)

  /** `{ status: false, message: error.message }`, the `catch` branch of every operation. */
  function Failure(message: string): DbOperationResult {
    DbOperationResult(false, message, None, None, None, None, None)
  }

  function Envelope(status: bool, message: string, data: Data): DbOperationResult {
    DbOperationResult(status, message, Some(data), None, None, None, None)
  }

  /** Text the store's error carries when an id string is not an ObjectId (it comes from the bson library). */
  const InvalidIdMessage: string := "input must be a 24 character hex string, 12 byte Uint8Array, or an integer"
  /** Start of the store's error text for a second document with an existing `_id`. */
  const DuplicateKeyMessage: string := "E11000 duplicate key error"
  /** The store's refusal of a `$set` on `_id`. */
  const ImmutableIdMessage: string := "Performing an update on the path '_id' would modify the immutable field '_id'"
  /** The store's refusal of a negative `skip`. */
  const NegativeSkipMessage: string := "BSON field 'skip' value must be >= 0"

  const DefaultLimit: int := 10
  const DefaultPage: int := 1

  // ---------------------------------------------------------------------------
  // Queries

  /** The first stored document the filter selects (`findOne`, `updateOne`, `deleteOne`), or -1. */
  function FirstMatch(docs: seq<Doc>, cond: Doc -> bool): (i: int)
    ensures -1 <= i < |docs|
    ensures i == -1 <==> forall j :: 0 <= j < |docs| ==> !cond(docs[j])
    ensures 0 <= i ==> cond(docs[i]) && forall j :: 0 <= j < i ==> !cond(docs[j])
  {
    if docs == [] then -1
    else if cond(docs[0]) then 0
    else
      var i := FirstMatch(docs[1..], cond);
      assert forall j :: 1 <= j < |docs| ==> docs[j] == docs[1..][j - 1];
      if i == -1 then -1 else i + 1
  }

  /**
   * An inclusion projection: the listed fields (and `_id`, which Doc always
   * keeps). An empty projection returns every field.
   */
  function Project(d: Doc, projection: set<string>): (p: Doc)
    ensures p.id == d.id
    ensures projection == {} ==> p == d
    ensures projection != {} ==> p.fields.Keys == d.fields.Keys * projection
    ensures forall k :: k in p.fields ==> k in d.fields && p.fields[k] == d.fields[k]
  {
    if projection == {} then d
    else Doc(d.id, map k | k in d.fields && k in projection :: d.fields[k])
  }

  function ProjectAll(ds: seq<Doc>, projection: set<string>): (ps: seq<Doc>)
    ensures |ps| == |ds|
    ensures forall i :: 0 <= i < |ds| ==> ps[i] == Project(ds[i], projection)
  {
    seq(|ds|, i requires 0 <= i < |ds| => Project(ds[i], projection))
  }

  /** The result of `const { limit = 10, page = 1, ...sortFields } = sortObj`. */
  datatype SortSplit = SortSplit(limit: int, page: int, sortFields: map<string, int>)

  function SplitSortSpec(sortObj: map<string, int>): (r: SortSplit)
    ensures r.limit == (if "limit" in sortObj then sortObj["limit"] else DefaultLimit)
    ensures r.page == (if "page" in sortObj then sortObj["page"] else DefaultPage)
    ensures "limit" !in r.sortFields && "page" !in r.sortFields
    ensures r.sortFields.Keys == sortObj.Keys - {"limit", "page"}
    ensures forall k :: k in r.sortFields ==> r.sortFields[k] == sortObj[k]
  {
    SortSplit(
      if "limit" in sortObj then sortObj["limit"] else DefaultLimit,
      if "page" in sortObj then sortObj["page"] else DefaultPage,
      sortObj - {"limit", "page"})
  }

  /**
   * The store's comparison for a sort specification. `order(fields, a, b)` is
   * "a may come before b"; with no sort fields the stored order is kept.
   */
  type SortOrder = (map<string, int>, Doc, Doc) -> bool

  function Ordering(order: SortOrder, sortFields: map<string, int>): (Doc, Doc) -> bool {
    if sortFields == map[] then (a: Doc, b: Doc) => true
    else (a: Doc, b: Doc) => order(sortFields, a, b)
  }

  /** `model.find(condObj).sort(sortFields)`. */
  function SortedMatches(docs: seq<Doc>, cond: Doc -> bool, order: SortOrder, sortFields: map<string, int>): seq<Doc> {
    Query.SortBy(Ordering(order, sortFields), Query.Find(docs, cond))
  }

  /**
   * For a sort key without ties among the matches, whatever arrangement the
   * store returns (any sorted permutation of the matches) is SortedMatches.
   */
  lemma TieFreeSortIsSortedMatches(docs: seq<Doc>, cond: Doc -> bool, order: SortOrder, sortFields: map<string, int>, out: seq<Doc>)
    requires Query.TotalPreorder(Ordering(order, sortFields))
    requires forall a, b ::
      (a in Query.Find(docs, cond) && b in Query.Find(docs, cond) &&
       Ordering(order, sortFields)(a, b) && Ordering(order, sortFields)(b, a)) ==> a == b
    requires multiset(out) == multiset(Query.Find(docs, cond))
    requires Query.SortedBy(Ordering(order, sortFields), out)
    ensures out == SortedMatches(docs, cond, order, sortFields)
  {
    var le := Ordering(order, sortFields);
    var matches := Query.Find(docs, cond);
    var sorted := Query.SortBy(le, matches);
    Query.SortBySorted(le, matches);
    assert forall a :: a in sorted ==> a in multiset(matches);
    Query.SortedUnique(le, sorted, out);
  }

  /** How many documents `.limit(n)` lets through: 0 means no limit, a negative n means |n|. */
  function LimitCount(limit: int, available: nat): nat {
    if limit == 0 then available else if limit > 0 then limit else -limit
  }

  /** `Math.ceil(total_records / numericLimit)`. */
  function TotalPages(total: nat, limit: int): (t: PageTotal)
    ensures limit == 0 <==> t == NotFinite
    ensures limit >= 1 ==> t.Pages? && t.pages >= 0 && (total > 0 ==> t.pages >= 1)
    ensures limit >= 1 && total == 0 ==> t == Pages(0)
    ensures limit >= 1 && total > 0 ==>
      t.Pages? && (t.pages - 1) * limit < total <= t.pages * limit
  {
    if limit == 0 then NotFinite
    else if limit > 0 then Pages(if total == 0 then 0 else Pagination.CeilDiv(total, limit))
    else Pages(-(total / -limit))
  }

  // ---------------------------------------------------------------------------
  // Read operations

  /** `getAllRecords` (src/services/dbOperationsMongo.ts:63-116). */
  function GetAllRecords(
    docs: seq<Doc>, cond: Doc -> bool, projection: set<string>, sortObj: map<string, int>,
    paginate: bool, order: SortOrder, fault: Option<string>): (r: DbOperationResult)
    ensures fault.Some? ==> r == Failure(fault.value)
    // status and message follow whether the returned array is empty, in both branches
    ensures r.data.Some? ==> r.data.value.Records? && fault.None?
    ensures r.data.Some? ==> (r.status <==> |r.data.value.records| > 0)
    ensures r.data.Some? ==> r.message == (if r.status then "Record Found" else "No Record Found")
    ensures r.data.None? ==> !r.status
    // the plain branch returns every match, sorted and projected
    ensures fault.None? && !paginate ==>
      r == Envelope(r.status, r.message,
             Records(ProjectAll(SortedMatches(docs, cond, order, SplitSortSpec(sortObj).sortFields), projection)))
    // the paginated branch
    ensures fault.None? && paginate ==>
      var s := SplitSortSpec(sortObj);
      var sorted := SortedMatches(docs, cond, order, s.sortFields);
      var skip := (s.page - 1) * s.limit;
      if skip < 0 then r == Failure(NegativeSkipMessage)
      else
        && r.data == Some(Records(ProjectAll(Query.Page(sorted, skip, LimitCount(s.limit, |sorted|)), projection)))
        && r.total_records == Some(|Query.Find(docs, cond)|)
        && r.current_page == Some(s.page) && r.per_page == Some(s.limit)
        && r.total_pages == Some(TotalPages(|Query.Find(docs, cond)|, s.limit))
  {
    if fault.Some? then Failure(fault.value)
    else
      var s := SplitSortSpec(sortObj);
      var sorted := SortedMatches(docs, cond, order, s.sortFields);
      if paginate then PaginatedRead(sorted, |Query.Find(docs, cond)|, s, projection)
      else
        var result := ProjectAll(sorted, projection);
        Envelope(|result| > 0, if |result| > 0 then "Record Found" else "No Record Found", Records(result))
  }

  /** The paginated branch of getAllRecords, over the sorted matches and their count. */
  function PaginatedRead(sorted: seq<Doc>, total_records: nat, s: SortSplit, projection: set<string>): (r: DbOperationResult)
    ensures (s.page - 1) * s.limit < 0 ==> r == Failure(NegativeSkipMessage)
    ensures (s.page - 1) * s.limit >= 0 ==>
      && r.data == Some(Records(ProjectAll(Query.Page(sorted, (s.page - 1) * s.limit, LimitCount(s.limit, |sorted|)), projection)))
      && (r.status <==> |r.data.value.records| > 0)
      && r.message == (if r.status then "Record Found" else "No Record Found")
      && r.total_records == Some(total_records)
      && r.current_page == Some(s.page) && r.per_page == Some(s.limit)
      && r.total_pages == Some(TotalPages(total_records, s.limit))
  {
    var skip := (s.page - 1) * s.limit;
    if skip < 0 then Failure(NegativeSkipMessage)
    else
      var result := ProjectAll(Query.Page(sorted, skip, LimitCount(s.limit, |sorted|)), projection);
      DbOperationResult(
        status := |result| > 0,
        message := if |result| > 0 then "Record Found" else "No Record Found",
        data := Some(Records(result)),
        total_records := Some(total_records),
        current_page := Some(s.page),
        per_page := Some(s.limit),
        total_pages := Some(TotalPages(total_records, s.limit)))
  }

  /** `getRecord` (src/services/dbOperationsMongo.ts:121-152). */
  function GetRecord(docs: seq<Doc>, cond: Doc -> bool, projection: set<string>, fault: Option<string>): (r: DbOperationResult)
    ensures fault.Some? ==> r == Failure(fault.value)
    ensures fault.None? ==>
      (r.status <==> exists j :: 0 <= j < |docs| && cond(docs[j]))
    ensures fault.None? && r.status ==>
      r == Envelope(true, "Record Found", Record(Project(docs[FirstMatch(docs, cond)], projection)))
    ensures fault.None? && !r.status ==> r == Envelope(false, "No Record Found", EmptyArray)
  {
    if fault.Some? then Failure(fault.value)
    else
      var i := FirstMatch(docs, cond);
      if i >= 0 then Envelope(true, "Record Found", Record(Project(docs[i], projection)))
      else Envelope(false, "No Record Found", EmptyArray)
  }

  /** `countRecords` (src/services/dbOperationsMongo.ts:221-239): a count of 0 is a success too. */
  function CountRecords(docs: seq<Doc>, cond: Doc -> bool, fault: Option<string>): (r: DbOperationResult)
    ensures r.status <==> fault.None?
    ensures fault.None? ==> r == Envelope(true, "Record Found", Count(|Query.Find(docs, cond)|))
    ensures fault.Some? ==> r == Failure(fault.value)
  {
    if fault.Some? then Failure(fault.value)
    else Envelope(true, "Record Found", Count(|Query.Find(docs, cond)|))
  }

  /**
   * `aggregateRecordFunction` (src/services/dbOperationsMongo.ts:244-262). The
   * pipeline's stages are not modelled: it is an opaque function of the
   * collection. An empty result is still a success.
   */
  function AggregateRecordFunction(docs: seq<Doc>, pipeline: seq<Doc> -> seq<Doc>, fault: Option<string>): (r: DbOperationResult)
    ensures r.status <==> fault.None?
    ensures fault.None? ==> r == Envelope(true, "Record Found", Records(pipeline(docs)))
    ensures fault.Some? ==> r == Failure(fault.value)
  {
    if fault.Some? then Failure(fault.value)
    else Envelope(true, "Record Found", Records(pipeline(docs)))
  }

  /** The filter `{ _id: { $in: ids } }`. */
  function Listed(ids: seq<ObjectId>): Doc -> bool {
    (d: Doc) => d.id in ids
  }

  /** The documents whose `_id` is in the list, in stored order. */
  function WithIds(docs: seq<Doc>, ids: seq<ObjectId>): (r: seq<Doc>)
    ensures forall d :: d in r <==> d in docs && d.id in ids
  {
    Query.Find(docs, Listed(ids))
  }

  /** `getRecordsByIds` (src/services/dbOperationsMongo.ts:327-352). */
  function GetRecordsByIds(docs: seq<Doc>, ids: seq<string>, projection: set<string>, fault: Option<string>): (r: DbOperationResult)
    ensures ParseIds(ids).None? ==> r == Failure(InvalidIdMessage)
    ensures ParseIds(ids).Some? && fault.Some? ==> r == Failure(fault.value)
    ensures r.status <==> ParseIds(ids).Some? && fault.None?
    ensures r.status ==>
      r == Envelope(true, "Records Found", Records(ProjectAll(WithIds(docs, ParseIds(ids).value), projection)))
  {
    match ParseIds(ids)
    case None => Failure(InvalidIdMessage)
    case Some(objectIds) =>
      if fault.Some? then Failure(fault.value)
      else Envelope(true, "Records Found", Records(ProjectAll(WithIds(docs, objectIds), projection)))
  }

  // ---------------------------------------------------------------------------
  // Write operations: the envelope and the collection afterwards

  datatype Write = Write(result: DbOperationResult, docs: seq<Doc>)

  /** `createRecord` (src/services/dbOperationsMongo.ts:17-35): the new document goes last. */
  function CreateRecordOp(docs: seq<Doc>, record: Doc, fault: Option<string>): (w: Write)
    ensures w.result.status <==> fault.None? && record.id !in Ids(docs)
    ensures w.result.status ==>
      w.docs == docs + [record] && w.result == Envelope(true, "Record Created", InsertedId(record.id))
    ensures !w.result.status ==> w.docs == docs
    ensures fault.Some? ==> w.result == Failure(fault.value)
    ensures fault.None? && record.id in Ids(docs) ==> w.result == Failure(DuplicateKeyMessage)
  {
    if fault.Some? then Write(Failure(fault.value), docs)
    else if record.id in Ids(docs) then Write(Failure(DuplicateKeyMessage), docs)
    else Write(Envelope(true, "Record Created", InsertedId(record.id)), docs + [record])
  }

  /** The batch's ids clash neither with the collection nor with each other. */
  predicate FreshIds(docs: seq<Doc>, batch: seq<Doc>) {
    UniqueIds(batch) && forall d :: d in batch ==> d.id !in Ids(docs)
  }

  /** `createBulkRecords` (src/services/dbOperationsMongo.ts:40-57): all of the batch or none of it. */
  function CreateBulkRecordsOp(docs: seq<Doc>, batch: seq<Doc>, fault: Option<string>): (w: Write)
    ensures w.result.status <==> fault.None? && FreshIds(docs, batch)
    ensures w.result.status ==> w.docs == docs + batch && w.result == DbOperationResult(true, "Records Created", None, None, None, None, None)
    ensures !w.result.status ==> w.docs == docs
    ensures fault.Some? ==> w.result == Failure(fault.value)
  {
    if fault.Some? then Write(Failure(fault.value), docs)
    else if !FreshIds(docs, batch) then
      Write(Failure(DuplicateKeyMessage), docs)
    else Write(DbOperationResult(true, "Records Created", None, None, None, None, None), docs + batch)
  }

  /** `{ $set: updateObj }` on one document: patched fields take the new values, the rest stay. */
  function Merge(d: Doc, patch: map<string, Value>): (m: Doc)
    ensures m.id == d.id
    ensures m.fields.Keys == d.fields.Keys + patch.Keys
    ensures forall k :: k in patch ==> m.fields[k] == patch[k]
    ensures forall k :: k in d.fields && k !in patch ==> m.fields[k] == d.fields[k]
  {
    Doc(d.id, d.fields + patch)
  }

  /** The store's `modifiedCount` counts a document only when `$set` really changes it. */
  predicate Changes(d: Doc, patch: map<string, Value>) {
    Merge(d, patch) != d
  }

  /** `updateRecord` (src/services/dbOperationsMongo.ts:157-184). */
  function UpdateRecordOp(docs: seq<Doc>, cond: Doc -> bool, patch: map<string, Value>, fault: Option<string>): (w: Write)
    ensures |w.docs| == |docs|
    ensures fault.Some? ==> w == Write(Failure(fault.value), docs)
    // the store refuses a `$set` on `_id` only when it applies it to a match
    ensures fault.None? && "_id" in patch && FirstMatch(docs, cond) >= 0 ==>
      w == Write(Failure(ImmutableIdMessage), docs)
    // only the first match is patched
    ensures fault.None? && "_id" !in patch ==>
      forall j :: 0 <= j < |docs| ==>
        w.docs[j] == (if j == FirstMatch(docs, cond) then Merge(docs[j], patch) else docs[j])
    // status: some document really changed
    ensures w.result.status <==>
      fault.None? && "_id" !in patch && FirstMatch(docs, cond) >= 0 &&
      Changes(docs[FirstMatch(docs, cond)], patch)
    ensures w.result.status ==> w.result == Envelope(true, "Record Updated", UpdateResult(1, 1))
    ensures fault.None? && !("_id" in patch && FirstMatch(docs, cond) >= 0) && !w.result.status ==>
      w.result == Envelope(false, "No Record Found", EmptyArray) && w.docs == docs
  {
    if fault.Some? then Write(Failure(fault.value), docs)
    else
      var i := FirstMatch(docs, cond);
      if i >= 0 && "_id" in patch then Write(Failure(ImmutableIdMessage), docs)
      else if i >= 0 && Changes(docs[i], patch) then
        Write(Envelope(true, "Record Updated", UpdateResult(1, 1)), docs[i := Merge(docs[i], patch)])
      else
        Write(Envelope(false, "No Record Found", EmptyArray), docs)
  }

  /** `$set` applied to every document the filter selects. */
  function MergeAll(docs: seq<Doc>, cond: Doc -> bool, patch: map<string, Value>): (r: seq<Doc>)
    ensures |r| == |docs|
    ensures forall j :: 0 <= j < |docs| ==> r[j] == if cond(docs[j]) then Merge(docs[j], patch) else docs[j]
  {
    seq(|docs|, j requires 0 <= j < |docs| => if cond(docs[j]) then Merge(docs[j], patch) else docs[j])
  }

  /** The documents updateMany both selects and really changes. */
  function ChangedBy(cond: Doc -> bool, patch: map<string, Value>): Doc -> bool {
    (d: Doc) => cond(d) && Changes(d, patch)
  }

  /** `updateBulkRecords` (src/services/dbOperationsMongo.ts:189-216). */
  function UpdateBulkRecordsOp(docs: seq<Doc>, cond: Doc -> bool, patch: map<string, Value>, fault: Option<string>): (w: Write)
    ensures fault.Some? ==> w == Write(Failure(fault.value), docs)
    // the store refuses a `$set` on `_id` only when it applies it to a match
    ensures fault.None? && "_id" in patch && (exists j :: 0 <= j < |docs| && cond(docs[j])) ==>
      w == Write(Failure(ImmutableIdMessage), docs)
    ensures fault.None? && !("_id" in patch && exists j :: 0 <= j < |docs| && cond(docs[j])) ==>
      w.docs == MergeAll(docs, cond, patch)
    ensures w.result.status <==>
      fault.None? && "_id" !in patch && exists j :: 0 <= j < |docs| && cond(docs[j]) && Changes(docs[j], patch)
    ensures w.result.status ==>
      w.result == Envelope(true, "Records Updated",
        UpdateResult(|Query.Find(docs, cond)|, |Query.Find(docs, ChangedBy(cond, patch))|))
    ensures fault.None? && !("_id" in patch && exists j :: 0 <= j < |docs| && cond(docs[j])) && !w.result.status ==>
      w.result == Envelope(false, "No Record Found", EmptyArray)
  {
    if fault.Some? then Write(Failure(fault.value), docs)
    else if "_id" in patch && exists j :: 0 <= j < |docs| && cond(docs[j]) then
      Write(Failure(ImmutableIdMessage), docs)
    else
      var changed := Query.Find(docs, ChangedBy(cond, patch));
      assert changed != [] <==> exists j :: 0 <= j < |docs| && cond(docs[j]) && Changes(docs[j], patch) by {
        if changed != [] { assert changed[0] in changed; }
        else {
          forall j | 0 <= j < |docs| ensures !(cond(docs[j]) && Changes(docs[j], patch)) {
            assert docs[j] in docs;
          }
        }
      }
      if |changed| > 0 then
        Write(Envelope(true, "Records Updated", UpdateResult(|Query.Find(docs, cond)|, |changed|)),
              MergeAll(docs, cond, patch))
      else
        Write(Envelope(false, "No Record Found", EmptyArray), MergeAll(docs, cond, patch))
  }

  /** `deleteRecord` (src/services/dbOperationsMongo.ts:267-293): the first match is removed. */
  function DeleteRecordOp(docs: seq<Doc>, cond: Doc -> bool, fault: Option<string>): (w: Write)
    ensures fault.Some? ==> w == Write(Failure(fault.value), docs)
    // success exactly when the filter selects a document; FirstMatch is then the first one
    ensures w.result.status <==> fault.None? && FirstMatch(docs, cond) >= 0
    ensures w.result.status ==> w.result == Envelope(true, "Record Deleted", DeleteResult(1))
    ensures w.result.status ==>
      0 <= FirstMatch(docs, cond) &&
      w.docs == docs[..FirstMatch(docs, cond)] + docs[FirstMatch(docs, cond) + 1..]
    ensures fault.None? && !w.result.status ==>
      w == Write(Envelope(false, "No Record Found", EmptyArray), docs)
  {
    if fault.Some? then Write(Failure(fault.value), docs)
    else
      var i := FirstMatch(docs, cond);
      if i >= 0 then Write(Envelope(true, "Record Deleted", DeleteResult(1)), docs[..i] + docs[i + 1..])
      else Write(Envelope(false, "No Record Found", EmptyArray), docs)
  }

  /** The documents a deleteMany with this filter leaves behind. */
  function Keep(docs: seq<Doc>, cond: Doc -> bool): seq<Doc> {
    Query.Reject(docs, cond)
  }

  /** `deleteBulkRecords` (src/services/dbOperationsMongo.ts:298-322). */
  function DeleteBulkRecordsOp(docs: seq<Doc>, cond: Doc -> bool, fault: Option<string>): (w: Write)
    ensures fault.Some? ==> w == Write(Failure(fault.value), docs)
    ensures fault.None? ==> w.docs == Keep(docs, cond)
    ensures w.result.status <==> fault.None? && exists j :: 0 <= j < |docs| && cond(docs[j])
    ensures w.result.status ==>
      w.result == Envelope(true, "Records Deleted", DeleteResult(|docs| - |w.docs|)) && |w.docs| < |docs|
    ensures fault.None? && !w.result.status ==>
      w == Write(Envelope(false, "No Record Found", EmptyArray), docs)
  {
    if fault.Some? then Write(Failure(fault.value), docs)
    else
      var kept := Keep(docs, cond);
      DeletedCount(docs, cond);
      if |kept| < |docs| then Write(Envelope(true, "Records Deleted", DeleteResult(|docs| - |kept|)), kept)
      else Write(Envelope(false, "No Record Found", EmptyArray), docs)
  }

  /** deleteMany removes something exactly when the filter selects something; otherwise it keeps everything. */
  lemma {:induction false} DeletedCount(docs: seq<Doc>, cond: Doc -> bool)
    ensures |Keep(docs, cond)| < |docs| <==> exists j :: 0 <= j < |docs| && cond(docs[j])
    ensures |Keep(docs, cond)| == |docs| ==> Keep(docs, cond) == docs
  {
    if docs != [] {
      DeletedCount(docs[1..], cond);
      assert forall j :: 1 <= j < |docs| ==> docs[j] == docs[1..][j - 1];
      assert (exists j :: 1 <= j < |docs| && cond(docs[j])) <==>
             (exists j :: 0 <= j < |docs[1..]| && cond(docs[1..][j]));
      assert docs == [docs[0]] + docs[1..];
    }
  }

  /** `deleteRecordsByIds` (src/services/dbOperationsMongo.ts:357-384). */
  function DeleteRecordsByIdsOp(docs: seq<Doc>, ids: seq<string>, fault: Option<string>): (w: Write)
    ensures ParseIds(ids).None? ==> w == Write(Failure(InvalidIdMessage), docs)
    ensures ParseIds(ids).Some? && fault.Some? ==> w == Write(Failure(fault.value), docs)
    ensures ParseIds(ids).Some? && fault.None? ==>
      w.docs == Keep(docs, Listed(ParseIds(ids).value))
    ensures w.result.status <==>
      ParseIds(ids).Some? && fault.None? &&
      exists j :: 0 <= j < |docs| && docs[j].id in ParseIds(ids).value
    ensures w.result.status ==>
      w.result == Envelope(true, "Records Deleted", DeleteResult(|docs| - |w.docs|))
    ensures ParseIds(ids).Some? && fault.None? && !w.result.status ==>
      w == Write(Envelope(false, "No Records Found", EmptyArray), docs)
  {
    match ParseIds(ids)
    case None => Write(Failure(InvalidIdMessage), docs)
    case Some(objectIds) =>
      if fault.Some? then Write(Failure(fault.value), docs)
      else
        var cond := Listed(objectIds);
        var kept := Keep(docs, cond);
        DeletedCount(docs, cond);
        if |kept| < |docs| then Write(Envelope(true, "Records Deleted", DeleteResult(|docs| - |kept|)), kept)
        else Write(Envelope(false, "No Records Found", EmptyArray), docs)
  }

  // ---------------------------------------------------------------------------
  // The collection, updated in place by the write operations

  class Collection {
    var docs: seq<Doc>

    ghost predicate Valid()
      reads this
    {
      UniqueIds(docs)
    }

    constructor (initial: seq<Doc>)
      requires UniqueIds(initial)
      ensures Valid() && docs == initial
    {
      docs := initial;
    }

    method CreateRecord(record: Doc, fault: Option<string>) returns (r: DbOperationResult)
      requires Valid()
      modifies this
      ensures Valid()
      ensures Write(r, docs) == CreateRecordOp(old(docs), record, fault)
    {
      var w := CreateRecordOp(docs, record, fault);
      if w.result.status { AppendKeepsIdsUnique(docs, [record]); }
      r, docs := w.result, w.docs;
    }

    method CreateBulkRecords(batch: seq<Doc>, fault: Option<string>) returns (r: DbOperationResult)
      requires Valid()
      modifies this
      ensures Valid()
      ensures Write(r, docs) == CreateBulkRecordsOp(old(docs), batch, fault)
    {
      var w := CreateBulkRecordsOp(docs, batch, fault);
      if w.result.status { AppendKeepsIdsUnique(docs, batch); }
      r, docs := w.result, w.docs;
    }

    method UpdateRecord(cond: Doc -> bool, patch: map<string, Value>, fault: Option<string>) returns (r: DbOperationResult)
      requires Valid()
      modifies this
      ensures Valid()
      ensures Write(r, docs) == UpdateRecordOp(old(docs), cond, patch, fault)
    {
      var w := UpdateRecordOp(docs, cond, patch, fault);
      SameIdsKeepUnique(docs, w.docs);
      r, docs := w.result, w.docs;
    }

    method UpdateBulkRecords(cond: Doc -> bool, patch: map<string, Value>, fault: Option<string>) returns (r: DbOperationResult)
      requires Valid()
      modifies this
      ensures Valid()
      ensures Write(r, docs) == UpdateBulkRecordsOp(old(docs), cond, patch, fault)
    {
      var w := UpdateBulkRecordsOp(docs, cond, patch, fault);
      SameIdsKeepUnique(docs, w.docs);
      r, docs := w.result, w.docs;
    }

    method DeleteRecord(cond: Doc -> bool, fault: Option<string>) returns (r: DbOperationResult)
      requires Valid()
      modifies this
      ensures Valid()
      ensures Write(r, docs) == DeleteRecordOp(old(docs), cond, fault)
    {
      var w := DeleteRecordOp(docs, cond, fault);
      if w.result.status { RemoveKeepsIdsUnique(docs, FirstMatch(docs, cond)); }
      r, docs := w.result, w.docs;
    }

    method DeleteBulkRecords(cond: Doc -> bool, fault: Option<string>) returns (r: DbOperationResult)
      requires Valid()
      modifies this
      ensures Valid()
      ensures Write(r, docs) == DeleteBulkRecordsOp(old(docs), cond, fault)
    {
      var w := DeleteBulkRecordsOp(docs, cond, fault);
      FindKeepsIdsUnique(docs, Query.Not(cond));
      r, docs := w.result, w.docs;
    }

    method DeleteRecordsByIds(ids: seq<string>, fault: Option<string>) returns (r: DbOperationResult)
      requires Valid()
      modifies this
      ensures Valid()
      ensures Write(r, docs) == DeleteRecordsByIdsOp(old(docs), ids, fault)
    {
      var w := DeleteRecordsByIdsOp(docs, ids, fault);
      if ParseIds(ids).Some? {
        FindKeepsIdsUnique(docs, Query.Not(Listed(ParseIds(ids).value)));
      }
      r, docs := w.result, w.docs;
    }
  }

  // ---------------------------------------------------------------------------
  // The unique index on _id is kept by every write

  lemma AppendKeepsIdsUnique(docs: seq<Doc>, batch: seq<Doc>)
    requires UniqueIds(docs) && FreshIds(docs, batch)
    ensures UniqueIds(docs + batch)
  {
    forall i, j | 0 <= i < j < |docs + batch| ensures (docs + batch)[i].id != (docs + batch)[j].id {
      if j >= |docs| && i < |docs| {
        assert (docs + batch)[j] == batch[j - |docs|] && batch[j - |docs|] in batch;
        assert (docs + batch)[i] == docs[i] && docs[i] in docs;
      }
    }
  }

  lemma SameIdsKeepUnique(docs: seq<Doc>, after: seq<Doc>)
    requires UniqueIds(docs) && |after| == |docs|
    requires forall j :: 0 <= j < |docs| ==> after[j].id == docs[j].id
    ensures UniqueIds(after)
  {
  }

  lemma RemoveKeepsIdsUnique(docs: seq<Doc>, i: int)
    requires UniqueIds(docs) && 0 <= i < |docs|
    ensures UniqueIds(docs[..i] + docs[i + 1..])
  {
    var r := docs[..i] + docs[i + 1..];
    forall a, b | 0 <= a < b < |r| ensures r[a].id != r[b].id {
      var a' := if a < i then a else a + 1;
      var b' := if b < i then b else b + 1;
      assert r[a] == docs[a'] && r[b] == docs[b'];
    }
  }

  lemma {:induction false} FindKeepsIdsUnique(docs: seq<Doc>, cond: Doc -> bool)
    requires UniqueIds(docs)
    ensures UniqueIds(Query.Find(docs, cond))
  {
    if docs != [] {
      var rest := Query.Find(docs[1..], cond);
      assert UniqueIds(docs[1..]);
      FindKeepsIdsUnique(docs[1..], cond);
      forall x | x in rest ensures x.id != docs[0].id {
        var k :| 0 <= k < |docs[1..]| && docs[1..][k] == x;
        assert docs[k + 1] == x;
      }
      if cond(docs[0]) {
        var r := [docs[0]] + rest;
        forall a, b | 0 <= a < b < |r| ensures r[a].id != r[b].id {
          assert r[b] == rest[b - 1] && rest[b - 1] in rest;
          if a > 0 { assert r[a] == rest[a - 1]; }
        }
      } else {
        assert Query.Find(docs, cond) == rest;
      }
    }
  }

  // ---------------------------------------------------------------------------
  // Identifiers

  /** An id already in canonical form parses to itself. */
  lemma ParseCanonicalId(s: string)
    requires IsCanonicalId(s)
    ensures ParseObjectId(s) == Some(s)
  {
    assert forall i :: 0 <= i < |s| ==> IsHexDigit(s[i]);
    assert ParseObjectId(s).value == s;
  }

  /** The same id written in either case names the same document. */
  lemma ParseIgnoresCase(s: string, t: string)
    requires |s| == |t| == 24
    requires forall i :: 0 <= i < 24 ==> IsHexDigit(s[i]) && IsHexDigit(t[i]) && LowerHex(s[i]) == LowerHex(t[i])
    ensures ParseObjectId(s) == ParseObjectId(t) && ParseObjectId(s).Some?
  {
    assert ParseObjectId(s).value == ParseObjectId(t).value;
  }

  // ---------------------------------------------------------------------------
  // Updates

  /** `$set` is idempotent: patching twice is patching once, and the second patch changes nothing. */
  lemma MergeTwice(d: Doc, patch: map<string, Value>)
    ensures Merge(Merge(d, patch), patch) == Merge(d, patch)
    ensures !Changes(Merge(d, patch), patch)
  {
    assert (d.fields + patch) + patch == d.fields + patch;
  }

  /** Repeating an updateBulkRecords call reports that nothing was updated. */
  lemma UpdateBulkTwiceReportsNothing(docs: seq<Doc>, cond: Doc -> bool, patch: map<string, Value>)
    ensures var w := UpdateBulkRecordsOp(docs, cond, patch, None);
      !UpdateBulkRecordsOp(w.docs, cond, patch, None).result.status
  {
    var w := UpdateBulkRecordsOp(docs, cond, patch, None);
    if "_id" !in patch {
      forall j | 0 <= j < |w.docs| ensures !(cond(w.docs[j]) && Changes(w.docs[j], patch)) {
        if cond(docs[j]) { MergeTwice(docs[j], patch); }
      }
    }
  }

  /**
   * Repeating an updateRecord call reports that nothing was updated, provided
   * the filter still selects the document once it is patched.
   */
  lemma UpdateRecordTwiceReportsNothing(docs: seq<Doc>, cond: Doc -> bool, patch: map<string, Value>)
    requires forall j :: 0 <= j < |docs| && cond(docs[j]) ==> cond(Merge(docs[j], patch))
    ensures var w := UpdateRecordOp(docs, cond, patch, None);
      !UpdateRecordOp(w.docs, cond, patch, None).result.status
  {
    var w := UpdateRecordOp(docs, cond, patch, None);
    var i := FirstMatch(docs, cond);
    if "_id" !in patch && i >= 0 {
      assert w.docs[i] == Merge(docs[i], patch);
      assert forall j :: 0 <= j < i ==> w.docs[j] == docs[j];
      assert FirstMatch(w.docs, cond) == i;
      MergeTwice(docs[i], patch);
    }
  }

  const IdA: ObjectId := "65a1f0c2e4b0a1b2c3d4e5f6"
  const IdB: ObjectId := "65a1f0c2e4b0a1b2c3d4e5f7"

  function StatusIs(n: int): Doc -> bool {
    (d: Doc) => "s" in d.fields && d.fields["s"] == Num(n)
  }

  /**
   * Without that proviso a repeated updateRecord can succeed again: the patch
   * moves the first match out of the filter, so the second call updates the
   * next document.
   */
  lemma UpdateRecordTwiceCanUpdateAgain()
    ensures var docs := [Doc(IdA, map["s" := Num(1)]), Doc(IdB, map["s" := Num(1)])];
      var w := UpdateRecordOp(docs, StatusIs(1), map["s" := Num(2)], None);
      w.result.status && UpdateRecordOp(w.docs, StatusIs(1), map["s" := Num(2)], None).result.status
  {
    var docs := [Doc(IdA, map["s" := Num(1)]), Doc(IdB, map["s" := Num(1)])];
    var patch := map["s" := Num(2)];
    assert FirstMatch(docs, StatusIs(1)) == 0;
    assert Merge(docs[0], patch).fields["s"] == Num(2);
    var w := UpdateRecordOp(docs, StatusIs(1), patch, None);
    assert w.docs == [Merge(docs[0], patch), docs[1]];
    assert !StatusIs(1)(w.docs[0]);
    assert FirstMatch(w.docs, StatusIs(1)) == 1;
    assert Merge(docs[1], patch).fields["s"] == Num(2);
  }

  /** updateMany never reports more modified documents than it matched. */
  lemma ModifiedAtMostMatched(docs: seq<Doc>, cond: Doc -> bool, patch: map<string, Value>)
    ensures var r := UpdateBulkRecordsOp(docs, cond, patch, None).result;
      r.status ==> r.data.value.modifiedCount <= r.data.value.matchedCount && r.data.value.modifiedCount >= 1
  {
    Query.FindMonotone(docs, ChangedBy(cond, patch), cond);
  }

  /**
   * When the filter selects nothing, a patch holding `_id` is never applied:
   * both updates report "No Record Found" and leave the collection alone.
   */
  lemma UpdateWithIdMatchingNothing(docs: seq<Doc>, cond: Doc -> bool, patch: map<string, Value>)
    requires "_id" in patch
    requires forall j :: 0 <= j < |docs| ==> !cond(docs[j])
    ensures UpdateRecordOp(docs, cond, patch, None) == Write(Envelope(false, "No Record Found", EmptyArray), docs)
    ensures UpdateBulkRecordsOp(docs, cond, patch, None) == Write(Envelope(false, "No Record Found", EmptyArray), docs)
  {
    assert MergeAll(docs, cond, patch) == docs;
  }

  // ---------------------------------------------------------------------------
  // Deletes

  /** deleteMany removes exactly the matching documents, and reports how many. */
  lemma DeleteBulkRemovesMatches(docs: seq<Doc>, cond: Doc -> bool)
    ensures var w := DeleteBulkRecordsOp(docs, cond, None);
      multiset(w.docs) + multiset(Query.Find(docs, cond)) == multiset(docs) &&
      (w.result.status ==> w.result.data == Some(DeleteResult(|Query.Find(docs, cond)|)))
  {
    Query.FindPartition(docs, cond);
  }

  /** deleteRecordsByIds removes exactly the listed documents getRecordsByIds would return. */
  lemma DeleteByIdsRemovesListed(docs: seq<Doc>, ids: seq<string>)
    requires ParseIds(ids).Some?
    ensures var w := DeleteRecordsByIdsOp(docs, ids, None);
      var listed := WithIds(docs, ParseIds(ids).value);
      multiset(w.docs) + multiset(listed) == multiset(docs) &&
      (w.result.status <==> |listed| > 0) &&
      (w.result.status ==> w.result.data == Some(DeleteResult(|listed|)))
  {
    var objectIds := ParseIds(ids).value;
    var listed := WithIds(docs, objectIds);
    Query.FindPartition(docs, Listed(objectIds));
    DeletedCount(docs, Listed(objectIds));
    assert |listed| + |Keep(docs, Listed(objectIds))| == |docs|;
  }

  // ---------------------------------------------------------------------------
  // A created record can be read back

  /** Under the unique index on `_id`, looking up one identifier finds at most one document. */
  lemma OneIdAtMostOneRecord(docs: seq<Doc>, id: string, projection: set<string>)
    requires UniqueIds(docs)
    ensures var r := GetRecordsByIds(docs, [id], projection, None);
      r.status ==> |r.data.value.records| <= 1
  {
    var parsed := ParseIds([id]);
    if parsed.Some? {
      var found := WithIds(docs, parsed.value);
      FindKeepsIdsUnique(docs, Listed(parsed.value));
      assert parsed.value == [parsed.value[0]];
      SameIdAtMostOne(found, parsed.value[0]);
    }
  }

  lemma SameIdAtMostOne(ds: seq<Doc>, x: ObjectId)
    requires UniqueIds(ds)
    requires forall d :: d in ds ==> d.id == x
    ensures |ds| <= 1
  {
    if |ds| >= 2 {
      FirstTwoDiffer(ds);
      assert false;
    }
  }

  lemma FirstTwoDiffer(ds: seq<Doc>)
    requires UniqueIds(ds) && |ds| >= 2
    ensures ds[0] in ds && ds[1] in ds && ds[0].id != ds[1].id
  {
  }

  lemma {:induction false} FindNoneOf(docs: seq<Doc>, id: ObjectId)
    requires id !in Ids(docs)
    ensures Query.Find(docs, Listed([id])) == []
  {
    if docs != [] {
      assert docs[0] in docs;
      assert Ids(docs[1..]) <= Ids(docs);
      FindNoneOf(docs[1..], id);
    }
  }

  /** A record just created is what getRecord returns for a filter on its id. */
  lemma CreatedRecordIsFound(docs: seq<Doc>, record: Doc, projection: set<string>)
    requires record.id !in Ids(docs)
    ensures var w := CreateRecordOp(docs, record, None);
      w.result.status &&
      GetRecord(w.docs, (d: Doc) => d.id == record.id, projection, None) ==
        Envelope(true, "Record Found", Record(Project(record, projection)))
  {
    var after := docs + [record];
    var cond := (d: Doc) => d.id == record.id;
    FirstMatchAfterOthers(docs, record, cond);
  }

  lemma FirstMatchAfterOthers(docs: seq<Doc>, record: Doc, cond: Doc -> bool)
    requires cond(record) && forall d :: d in docs ==> !cond(d)
    ensures FirstMatch(docs + [record], cond) == |docs|
  {
    var after := docs + [record];
    forall j | 0 <= j < |docs| ensures !cond(after[j]) {
      assert after[j] == docs[j] && docs[j] in docs;
    }
    assert cond(after[|docs|]);
  }

  /** A record just created is what getRecordsByIds returns for its id. */
  lemma CreatedRecordIsFoundById(docs: seq<Doc>, record: Doc, projection: set<string>)
    requires record.id !in Ids(docs) && IsCanonicalId(record.id)
    ensures var w := CreateRecordOp(docs, record, None);
      w.result.status &&
      GetRecordsByIds(w.docs, [record.id], projection, None) ==
        Envelope(true, "Records Found", Records([Project(record, projection)]))
  {
    ParseCanonicalId(record.id);
    assert ParseIds([record.id]).Some?;
    var parsed := ParseIds([record.id]).value;
    assert |parsed| == 1 && parsed[0] == record.id;
    assert parsed == [record.id];
    assert CreateRecordOp(docs, record, None).docs == docs + [record];
    Query.FindAppend(docs, [record], Listed([record.id]));
    FindNoneOf(docs, record.id);
    assert Query.Find([record], Listed([record.id])) == [record];
    assert WithIds(docs + [record], [record.id]) == [record];
    assert ProjectAll([record], projection) == [Project(record, projection)];
  }

  // ---------------------------------------------------------------------------
  // Pagination

  lemma MulMono(a: int, b: int, l: int)
    requires a <= b && l >= 0
    ensures a * l <= b * l
  {
    assert b * l - a * l == (b - a) * l;
  }

  /** The index page p starts at, `(page - 1) * limit`, for a page and a limit of at least 1. */
  function PageStart(p: int, limit: int): (skip: nat)
    requires p >= 1 && limit >= 1
    ensures skip == (p - 1) * limit
  {
    MulMono(0, p - 1, limit);
    (p - 1) * limit
  }

  /** Projecting a page is taking the page of the projection. */
  lemma ProjectPage(xs: seq<Doc>, projection: set<string>, skip: nat, take: nat)
    ensures ProjectAll(Query.Page(xs, skip, take), projection) == Query.Page(ProjectAll(xs, projection), skip, take)
  {
  }

  /** The projected, sorted matches every page is cut from. */
  function Listing(docs: seq<Doc>, cond: Doc -> bool, projection: set<string>, sortObj: map<string, int>, order: SortOrder): (l: seq<Doc>)
    ensures |l| == |Query.Find(docs, cond)|
  {
    ProjectAll(SortedMatches(docs, cond, order, SplitSortSpec(sortObj).sortFields), projection)
  }

  /** The records of a paginated getAllRecords for page p, the other arguments unchanged. */
  function PageRecords(docs: seq<Doc>, cond: Doc -> bool, projection: set<string>, sortObj: map<string, int>, order: SortOrder, p: int): seq<Doc> {
    var r := GetAllRecords(docs, cond, projection, sortObj["page" := p], true, order, None);
    if r.data.Some? && r.data.value.Records? then r.data.value.records else []
  }

  /** Changing the page leaves the limit and the sort fields alone. */
  lemma SplitWithPage(sortObj: map<string, int>, p: int)
    ensures SplitSortSpec(sortObj["page" := p]) == SplitSortSpec(sortObj).(page := p)
  {
    assert sortObj["page" := p] - {"limit", "page"} == sortObj - {"limit", "page"};
  }

  /** Page p (p >= 1, limit >= 1) returns the p-th slice of `limit` records of the listing. */
  lemma PageRecordsIsSlice(docs: seq<Doc>, cond: Doc -> bool, projection: set<string>, sortObj: map<string, int>, order: SortOrder, p: int)
    requires p >= 1 && SplitSortSpec(sortObj).limit >= 1
    ensures var limit := SplitSortSpec(sortObj).limit;
      var r := GetAllRecords(docs, cond, projection, sortObj["page" := p], true, order, None);
      && r.data == Some(Records(Query.Page(Listing(docs, cond, projection, sortObj, order), PageStart(p, limit), limit)))
      && r.current_page == Some(p) && r.per_page == Some(limit)
      && r.total_records == Some(|Query.Find(docs, cond)|)
      && r.total_pages == Some(TotalPages(|Query.Find(docs, cond)|, limit))
  {
    var s := SplitSortSpec(sortObj);
    SplitWithPage(sortObj, p);
    ProjectPage(SortedMatches(docs, cond, order, s.sortFields), projection, PageStart(p, s.limit), s.limit);
  }

  lemma PageRecordsSlice(docs: seq<Doc>, cond: Doc -> bool, projection: set<string>, sortObj: map<string, int>, order: SortOrder, p: int)
    requires p >= 1 && SplitSortSpec(sortObj).limit >= 1
    ensures PageRecords(docs, cond, projection, sortObj, order, p) ==
      Query.Page(Listing(docs, cond, projection, sortObj, order), PageStart(p, SplitSortSpec(sortObj).limit), SplitSortSpec(sortObj).limit)
  {
    PageRecordsIsSlice(docs, cond, projection, sortObj, order, p);
  }

  /**
   * Reading pages 1..total_pages in turn returns every matching record exactly
   * once, in sorted order: page p holds the p-th slice of the listing, and the
   * slices concatenate to the whole listing.
   */
  lemma PagesCoverAllMatches(docs: seq<Doc>, cond: Doc -> bool, projection: set<string>, sortObj: map<string, int>, order: SortOrder)
    requires SplitSortSpec(sortObj).limit >= 1
    ensures var limit := SplitSortSpec(sortObj).limit;
      var n := TotalPages(|Query.Find(docs, cond)|, limit).pages;
      var listing := Listing(docs, cond, projection, sortObj, order);
      n >= 0 &&
      Query.Flatten(Query.Slices(listing, limit, n)) == listing &&
      forall p :: 1 <= p <= n ==> PageRecords(docs, cond, projection, sortObj, order, p) == Query.Slices(listing, limit, n)[p - 1]
  {
    var limit := SplitSortSpec(sortObj).limit;
    var total := |Query.Find(docs, cond)|;
    var n := TotalPages(total, limit).pages;
    var xs := Listing(docs, cond, projection, sortObj, order);
    Query.FlattenSlices(xs, limit, n);
    Query.AllPagesPrefix(xs, limit, n);
    assert Query.Min(n * limit, |xs|) == |xs|;
    EveryPageIsASlice(docs, cond, projection, sortObj, order, n);
  }

  lemma EveryPageIsASlice(docs: seq<Doc>, cond: Doc -> bool, projection: set<string>, sortObj: map<string, int>, order: SortOrder, n: nat)
    requires SplitSortSpec(sortObj).limit >= 1
    ensures forall p :: 1 <= p <= n ==>
      PageRecords(docs, cond, projection, sortObj, order, p) ==
      Query.Slices(Listing(docs, cond, projection, sortObj, order), SplitSortSpec(sortObj).limit, n)[p - 1]
  {
    forall p | 1 <= p <= n
      ensures PageRecords(docs, cond, projection, sortObj, order, p) ==
        Query.Slices(Listing(docs, cond, projection, sortObj, order), SplitSortSpec(sortObj).limit, n)[p - 1]
    {
      PageRecordsSlice(docs, cond, projection, sortObj, order, p);
    }
  }

  /** Page p is non-empty, and so reports success, exactly when p is at most total_pages. */
  lemma PageStatus(docs: seq<Doc>, cond: Doc -> bool, projection: set<string>, sortObj: map<string, int>, order: SortOrder, p: int)
    requires p >= 1 && SplitSortSpec(sortObj).limit >= 1
    ensures var limit := SplitSortSpec(sortObj).limit;
      var n := TotalPages(|Query.Find(docs, cond)|, limit).pages;
      var r := GetAllRecords(docs, cond, projection, sortObj["page" := p], true, order, None);
      (r.status <==> p <= n) &&
      r.message == (if p <= n then "Record Found" else "No Record Found")
  {
    PageRecordsIsSlice(docs, cond, projection, sortObj, order, p);
    PageStartsInside(|Query.Find(docs, cond)|, SplitSortSpec(sortObj).limit, p);
  }

  /** Page p starts before the end of the listing exactly when p is at most total_pages. */
  lemma PageStartsInside(total: nat, limit: int, p: int)
    requires p >= 1 && limit >= 1
    ensures (p - 1) * limit < total <==> p <= TotalPages(total, limit).pages
  {
    var n := TotalPages(total, limit).pages;
    if p <= n {
      MulMono(p - 1, n - 1, limit);
    } else {
      MulMono(n, p - 1, limit);
    }
  }

  /** total_pages in the envelope is the one buildPaginationMeta computes for the same total and page size. */
  lemma EnvelopeTotalPagesAgreesWithMeta(docs: seq<Doc>, cond: Doc -> bool, projection: set<string>, sortObj: map<string, int>, order: SortOrder, p: int, count: int)
    requires p >= 1 && SplitSortSpec(sortObj).limit >= 1
    ensures var m := Pagination.BuildPaginationMeta(Pagination.BuildMetaInput(|Query.Find(docs, cond)|, p, SplitSortSpec(sortObj).limit, count));
      GetAllRecords(docs, cond, projection, sortObj["page" := p], true, order, None).total_pages == Some(Pages(m.total_pages))
  {
    PageRecordsIsSlice(docs, cond, projection, sortObj, order, p);
    TotalPagesMatchesMeta(|Query.Find(docs, cond)|, SplitSortSpec(sortObj).limit, p, count);
  }

  /** The meta's `has_next` holds exactly when the next page has records. */
  lemma MetaHasNextIffNextPageFound(docs: seq<Doc>, cond: Doc -> bool, projection: set<string>, sortObj: map<string, int>, order: SortOrder, p: int, count: int)
    requires p >= 1 && SplitSortSpec(sortObj).limit >= 1
    ensures var m := Pagination.BuildPaginationMeta(Pagination.BuildMetaInput(|Query.Find(docs, cond)|, p, SplitSortSpec(sortObj).limit, count));
      m.has_next <==> GetAllRecords(docs, cond, projection, sortObj["page" := p + 1], true, order, None).status
  {
    PageStatus(docs, cond, projection, sortObj, order, p + 1);
    TotalPagesMatchesMeta(|Query.Find(docs, cond)|, SplitSortSpec(sortObj).limit, p, count);
  }

  /** For a positive limit, `Math.ceil(total / limit)` is buildPaginationMeta's total_pages. */
  lemma TotalPagesMatchesMeta(total: nat, limit: int, p: int, count: int)
    requires p >= 1 && limit >= 1
    ensures TotalPages(total, limit) ==
      Pages(Pagination.BuildPaginationMeta(Pagination.BuildMetaInput(total, p, limit, count)).total_pages)
  {
    var m := Pagination.BuildPaginationMeta(Pagination.BuildMetaInput(total, p, limit, count));
    if total > 0 {
      Pagination.CeilDivUnique(total, limit, m.total_pages);
    }
  }

  /** 15 matches, limit 10, page 2: the last five sorted matches, two pages in all. */
  lemma FifteenMatchesSecondPage(docs: seq<Doc>, cond: Doc -> bool, projection: set<string>, order: SortOrder)
    requires |Query.Find(docs, cond)| == 15
    ensures var r := GetAllRecords(docs, cond, projection, map["limit" := 10, "page" := 2], true, order, None);
      var sorted := SortedMatches(docs, cond, order, map[]);
      && r.status && r.message == "Record Found"
      && r.data == Some(Records(ProjectAll(sorted[10..], projection)))
      && r.total_records == Some(15) && r.current_page == Some(2) && r.per_page == Some(10)
      && r.total_pages == Some(Pages(2))
  {
    SplitLimitTenPageTwo();
    Pagination.CeilDivUnique(15, 10, 2);
    var sorted := SortedMatches(docs, cond, order, map[]);
    assert Query.Page(sorted, 10, 10) == sorted[10..];
  }

  lemma SplitLimitTenPageTwo()
    ensures SplitSortSpec(map["limit" := 10, "page" := 2]) == SortSplit(10, 2, map[])
  {
    assert map["limit" := 10, "page" := 2] - {"limit", "page"} == map[];
  }
}
