# Generic REST query service — a Dafny model

The service answers one kind of request: a generic query over a JPA entity. The request
(`GenericRequest`) names an entity. It may also give:

- a list of fields, where dotted fields such as `department.name` follow associations;
- a map of filters, where a key suffix picks the operator (`_like`, `_between`, `_inSubquery`, or none for equality);
- a legacy `sort` string `field,direction` or a list of sort specs;
- a page and a size, a `distinct` flag and an `export` flag.

`GenericQueryService.fetchData` compiles such a request into a criteria query. The query
has a multiselect projection, a where clause made by `buildPredicates`, orders made by
`buildOrders`, and a result window. All of it shares one From tree and one join map, and
`getPath` adds a LEFT join to that tree for each relationship prefix not joined before.
fetchData maps the resulting tuples to ordered records and counts the matching rows with
a separate query (`countTotal`) on a fresh From tree. It then returns either a page map
or, in export mode, the descriptor of a spreadsheet written by `exportAsExcel`.

These modules model that core:

- `Wrappers`, `Strings`, `Values`, `Schema`: the result types, Java's `String.split`,
  `toLowerCase`, `equalsIgnoreCase` and `toString`, the dynamically typed filter values,
  and the entity classes as a registry of attributes and associations. `Class.forName`
  becomes a lookup in that registry.
- `Request`: `GenericRequest` and its nested `SortSpec` as classes with their fields, getters and setters.
- `Joins`: `getPath`. The From tree is a class holding a sequence of nodes, and the join
  map is a class holding a map from dotted prefix to node. `Resolve` is the functional
  reading of one call and `GetPath` the in-place method. `Denote` is a cache-free meaning
  of a field that every resolution is proved to agree with.
- `Filters`, `Conditions`: `buildPredicates` and `buildInSubqueryPredicate`, their
  operator shapes and cache effects, and their agreement with a cache-free reading of the
  filter map (`ExpectFilters`).
- `Orders`: `buildOrders`, with a sort list or the legacy sort string.
- `Rows`: the mapping of tuples to `LinkedHashMap` records.
- `Export`: `exportAsExcel` and `deriveFieldsFromData`, with the workbook as a grid of cells.
- `Fetch`: `fetchData` and `countTotal`, the window with Java's 32-bit `page * size`, the
  page count, and the agreement of the data and count queries with the reference plans
  `ExpectQuery` and `ExpectCount`.

The database is a parameter. `run` gives the tuples of a compiled data query, and `count`
gives the number the count query returns. The model therefore states which query is asked
for and what is done with the answer. Java exceptions become `Error` values: an unknown
entity or attribute, a bad cast, a null `_like` value, an incomplete subquery spec, a
negative window, or a failed export.

Each loop of the source is a method with its own invariants (`JoinSegments`, `BuildFrom`,
`BuildSortOrders`, `SelectFields`, `MapRows`/`FillRecord`, `FillRows`/`FillRow`/`FillHeader`).
Each is proved equal to the recursive function that specifies it.

Three behaviours of the code that a reader might expect otherwise, as the model keeps them:

- A `_between` filter with a null list or fewer than two elements adds no predicate and is
  not an error.
- Operator suffixes are tested in the fixed order `_like`, `_between`, `_inSubquery`, not
  longest first. No suffix ends with another, so the two readings agree (`Filters.ClassifySuffixed`).
- The export file is always `.xlsx`. The code does not guarantee that a failed write leaves no file.

## Model

| member | source | states |
|---|---|---|
| Request.GenericRequest.constructor | src/main/java/com/example/dynamicquery/dto/GenericRequest.java:6-14 | A new request has an empty filter map, page 0, size 20, neither distinct nor export, and no entity, fields, sort string or sort list. |
| Request.GenericRequest.SetEntity | src/main/java/com/example/dynamicquery/dto/GenericRequest.java:16-17 | After setEntity, getEntity returns the new entity and every other getter returns what it did before. |
| Request.GenericRequest.SetFields | src/main/java/com/example/dynamicquery/dto/GenericRequest.java:19-20 | After setFields, getFields returns the new list and every other getter is unchanged. |
| Request.GenericRequest.SetFilters | src/main/java/com/example/dynamicquery/dto/GenericRequest.java:22-23 | After setFilters, getFilters returns the new map (null included) and every other getter is unchanged. |
| Request.GenericRequest.SetPage | src/main/java/com/example/dynamicquery/dto/GenericRequest.java:25-26 | After setPage, getPage returns the new page and every other getter is unchanged. |
| Request.GenericRequest.SetSize | src/main/java/com/example/dynamicquery/dto/GenericRequest.java:28-29 | After setSize, getSize returns the new size and every other getter is unchanged. |
| Request.GenericRequest.SetSort | src/main/java/com/example/dynamicquery/dto/GenericRequest.java:31-32 | After setSort, getSort returns the new legacy string and every other getter is unchanged. |
| Request.GenericRequest.SetSorts | src/main/java/com/example/dynamicquery/dto/GenericRequest.java:34-35 | After setSorts, getSorts reads the new sort specs through their getters and every other getter is unchanged. |
| Request.GenericRequest.SetDistinct | src/main/java/com/example/dynamicquery/dto/GenericRequest.java:37-38 | After setDistinct, isDistinct returns the new flag and every other getter is unchanged. |
| Request.GenericRequest.SetExport | src/main/java/com/example/dynamicquery/dto/GenericRequest.java:40-41 | After setExport, isExport returns the new flag and every other getter is unchanged. |
| Request.SortSpec.constructor | src/main/java/com/example/dynamicquery/dto/GenericRequest.java:43-45 | A new sort spec has neither a field nor a direction. |
| Request.SortSpec.SetField | src/main/java/com/example/dynamicquery/dto/GenericRequest.java:47-48 | After setField, getField returns the new field and getDirection is unchanged. |
| Request.SortSpec.SetDirection | src/main/java/com/example/dynamicquery/dto/GenericRequest.java:50-51 | After setDirection, getDirection returns the new direction and getField is unchanged. |
| Values.NormalizeComparable | src/main/java/com/example/dynamicquery/service/GenericQueryService.java:284-288 | A null or Comparable bound (string, number, boolean, date) is passed on unchanged. Any other bound becomes a string holding its toString form. |
| Strings.JavaSplitIsPrefix | src/main/java/com/example/dynamicquery/service/GenericQueryService.java:263 | String.split on "." yields a prefix of all the dot-separated pieces, and none of its pieces holds a dot. |
| Strings.JavaSplitWhole | src/main/java/com/example/dynamicquery/service/GenericQueryService.java:259-263 | `field.split("\\.")` returns the field alone exactly when it holds no dot, so two or more segments mean the field is dotted. |
| Strings.JavaSplitRoundTrip | src/main/java/com/example/dynamicquery/service/GenericQueryService.java:263-272 | For a field that does not end with a dot, the split keeps every segment (empty ones included), joining them with dots gives back the field, and there are two or more exactly when the field holds a dot. |
| Strings.SplitJoin | src/main/java/com/example/dynamicquery/service/GenericQueryService.java:263-272 | Splitting a join of separator-free pieces gives back those pieces. |
| Strings.FirstPieceIsPrefix | src/main/java/com/example/dynamicquery/service/GenericQueryService.java:240-241 | The first piece of the legacy sort string is the part before its first comma. |
| Strings.EqualsIgnoreCaseIsLowerEquality | src/main/java/com/example/dynamicquery/service/GenericQueryService.java:233 | equalsIgnoreCase holds exactly when the lower-cased strings are equal. |
| Joins.JoinGraph.constructor | src/main/java/com/example/dynamicquery/service/GenericQueryService.java:32 | cq.from(entityClass) yields a From tree holding only the root of that entity. |
| Joins.JoinCache.constructor | src/main/java/com/example/dynamicquery/service/GenericQueryService.java:34 | A fresh join map is empty. |
| Joins.GetPath | src/main/java/com/example/dynamicquery/service/GenericQueryService.java:256-282 | The in-place getPath fails exactly when the reference resolution fails, with the same error. Otherwise it returns the same path and leaves the From tree and join map that resolution describes. |
| Joins.JoinSegments | src/main/java/com/example/dynamicquery/service/GenericQueryService.java:263-280 | The in-place join loop returns the node the reference walk ends on, and leaves the From tree and cache that walk describes. On an error it returns the walk's error. |
| Joins.ResolveUndotted | src/main/java/com/example/dynamicquery/service/GenericQueryService.java:259-261 | A field with no dot is read directly on the root, and it adds no join and no cache entry. |
| Joins.ResolveExtends | src/main/java/com/example/dynamicquery/service/GenericQueryService.java:256-282 | Resolution only appends joins: every node that existed before is left unchanged. |
| Joins.NextJoinKey | src/main/java/com/example/dynamicquery/service/GenericQueryService.java:265-272 | At each iteration the StringBuilder holds the dotted prefix made of the segments up to and including the current one. |
| Joins.PrefixKeysDistinct | src/main/java/com/example/dynamicquery/service/GenericQueryService.java:265-272 | The loop visits pairwise distinct prefixes. |
| Joins.ResolveCache | src/main/java/com/example/dynamicquery/service/GenericQueryService.java:256-282 | Resolution keeps every existing cache entry unchanged. The keys it adds are exactly the field's proper relationship prefixes. It makes one new join per prefix that was missing, and the field itself never becomes a key. |
| Joins.FieldIsNoJoinKey | src/main/java/com/example/dynamicquery/service/GenericQueryService.java:265-272 | No proper prefix of a dotted field is the field itself. |
| Joins.WalkEnd | src/main/java/com/example/dynamicquery/service/GenericQueryService.java:274-281 | The loop ends on the node cached for the last relationship prefix. |
| Joins.ResolveStructure | src/main/java/com/example/dynamicquery/service/GenericQueryService.java:263-281 | Each join made for a dotted field hangs off the join cached for the previous prefix (the root for the first segment) and follows that segment. The path returned is the last segment, read on the last node reached. |
| Joins.ResolveReuses | src/main/java/com/example/dynamicquery/service/GenericQueryService.java:274-279 | When every relationship prefix is already cached, resolution makes no join and leaves the cache as it was. |
| Joins.ResolveIdempotent | src/main/java/com/example/dynamicquery/service/GenericQueryService.java:256-282 | Resolving the same field a second time makes no join, leaves the cache unchanged and returns the same path. |
| Joins.ResolveNamesAttribute | src/main/java/com/example/dynamicquery/service/GenericQueryService.java:260-281 | A resolved path reads an attribute that its node's entity has. |
| Joins.ResolveSibling | src/main/java/com/example/dynamicquery/service/GenericQueryService.java:263-281 | Once a dotted field is resolved, any other field with the same relationship prefix ("department.name" and "department.id", say) adds no join, leaves the cache unchanged and is read on the same node. |
| Joins.ResolveDenotes | src/main/java/com/example/dynamicquery/service/GenericQueryService.java:256-282 | Under a sound cache, resolution fails exactly when the field's cache-free meaning is an error, and with that error. Otherwise its path's attribute chain is the field's segments, and the cache stays sound. |
| Joins.ResolveCacheIndependent | src/main/java/com/example/dynamicquery/service/GenericQueryService.java:256-282 | Two sound caches over roots of the same entity resolve a field alike: the same error, or paths with the same attribute chain. |
| Joins.FreshIsSound | src/main/java/com/example/dynamicquery/service/GenericQueryService.java:32-34 | A fresh root with an empty join map is a sound starting state. |
| Joins.ResolveReads | src/main/java/com/example/dynamicquery/service/GenericQueryService.java:256-282 | Resolution under a sound cache extends the From tree and reads the field as its cache-free meaning. |
| Filters.BuildPredicates | src/main/java/com/example/dynamicquery/service/GenericQueryService.java:172-218 | The in-place buildPredicates fails or succeeds as the reference compilation does. On success it returns its predicates and leaves its From tree and join map. |
| Filters.BuildFrom | src/main/java/com/example/dynamicquery/service/GenericQueryService.java:180-216 | The in-place loop over the filter map's entries agrees with the reference loop: the same error, or the same predicates, tree and cache. |
| Filters.BuildEntry | src/main/java/com/example/dynamicquery/service/GenericQueryService.java:181-215 | One iteration of the loop, in place: the predicates that entry adds and the state it leaves, as the reference computes them. |
| Filters.BuildInSubqueryPredicate | src/main/java/com/example/dynamicquery/service/GenericQueryService.java:294-332 | The in-place subquery builder agrees with the reference: the same error, or the same in predicate and main From tree. Only the main From tree changes. |
| Filters.ClassifySuffixed | src/main/java/com/example/dynamicquery/service/GenericQueryService.java:184-213 | A key built as field plus an operator suffix is read back as exactly that operator and field. |
| Filters.ClassifySplits | src/main/java/com/example/dynamicquery/service/GenericQueryService.java:184-213 | Every key is split into a field and a suffix. The suffixes are tried in the order _like, _between, _inSubquery, and a key taken as equality ends with none of them. |
| Filters.CompileFromOps | src/main/java/com/example/dynamicquery/service/GenericQueryService.java:180-216 | The loop adds one predicate per emitting entry, in order, each with that entry's operator. |
| Filters.CompileFiltersOps | src/main/java/com/example/dynamicquery/service/GenericQueryService.java:172-218 | A null filter map gives no predicates and changes nothing. Otherwise there is one predicate per emitting entry, in enumeration order. |
| Filters.CompileEntryStep | src/main/java/com/example/dynamicquery/service/GenericQueryService.java:181-215 | An entry that compiles adds one predicate of its key's operator, or none exactly when it does not emit. It keeps every cache entry and adds exactly its field's join keys. An _inSubquery entry leaves the caller's cache untouched. |
| Filters.ResolvedShape | src/main/java/com/example/dynamicquery/service/GenericQueryService.java:184-204 | A _like, emitting _between or equality entry adds one predicate of its operator and leaves the state its field's resolution leaves. A _between entry with a null value or fewer than two bounds changes nothing. |
| Filters.CompileFromCache | src/main/java/com/example/dynamicquery/service/GenericQueryService.java:180-216 | The filter loop keeps every cache entry and adds exactly the join keys of the fields of its entries. |
| Filters.SubqueryNeedsEntityAndField | src/main/java/com/example/dynamicquery/service/GenericQueryService.java:300-306 | A subquery spec that lacks entity or field is refused with IllegalArgumentException. |
| Filters.SubqueryMissingFiltersIsEmpty | src/main/java/com/example/dynamicquery/service/GenericQueryService.java:302-322 | A subquery spec without a filters entry compiles exactly as one with an empty filter map. |
| Conditions.LikeMeans | src/main/java/com/example/dynamicquery/service/GenericQueryService.java:184-189 | A _like entry means: the lower-cased attribute its field names matches the lower-cased %value% pattern. Otherwise it fails with its field's error, or with the null value. |
| Conditions.BetweenMeans | src/main/java/com/example/dynamicquery/service/GenericQueryService.java:191-204 | A _between entry means the field's attribute lies between the two normalised bounds. A null list or one with fewer than two elements means nothing. |
| Conditions.EqualMeans | src/main/java/com/example/dynamicquery/service/GenericQueryService.java:211-214 | A key without a suffix means that attribute equals the value. |
| Conditions.InMeans | src/main/java/com/example/dynamicquery/service/GenericQueryService.java:206-209 | An _inSubquery entry means the subquery condition that its spec reads as, and it keeps the caller's cache sound. |
| Conditions.EntryMeans | src/main/java/com/example/dynamicquery/service/GenericQueryService.java:181-215 | Every entry compiles to the conditions the cache-free reference reads, or fails with that reference's error. |
| Conditions.FromMeans | src/main/java/com/example/dynamicquery/service/GenericQueryService.java:180-216 | The loop from any entry on adds the conditions that the reference reads for the remaining entries. |
| Conditions.SubqueryMeans | src/main/java/com/example/dynamicquery/service/GenericQueryService.java:294-332 | buildInSubqueryPredicate yields the in condition the reference reads: the subquery's filters and selected field read on the sub-entity, and the main field on the outer entity. |
| Conditions.SelectMeans | src/main/java/com/example/dynamicquery/service/GenericQueryService.java:313-331 | Once the subquery's where clause agrees with its reference, so does the in condition built on its selected field. |
| Conditions.FiltersMean | src/main/java/com/example/dynamicquery/service/GenericQueryService.java:172-218 | Under any sound cache, buildPredicates compiles the filter map to exactly the conditions the reference reads, or fails with the error the reference names. |
| Conditions.FiltersIndependentOfCache | src/main/java/com/example/dynamicquery/service/GenericQueryService.java:67-148 | The data query (on the tree its projections left) and the count query (on a fresh root) fail alike or compile the same conditions. |
| Orders.BuildOrders | src/main/java/com/example/dynamicquery/service/GenericQueryService.java:223-250 | The in-place buildOrders agrees with the reference compilation: the same error, or the same orders, tree and cache. |
| Orders.BuildSortOrders | src/main/java/com/example/dynamicquery/service/GenericQueryService.java:230-238 | The in-place loop over a non-empty sort list agrees with the reference sort loop. |
| Orders.SortFromReads | src/main/java/com/example/dynamicquery/service/GenericQueryService.java:231-238 | Under a sound cache, the sort loop compiles exactly the orders the reference reads. |
| Orders.OrdersRead | src/main/java/com/example/dynamicquery/service/GenericQueryService.java:223-250 | Under a sound cache, buildOrders compiles exactly the orders (attribute chain and direction) that the reference reads. |
| Orders.LegacyReads | src/main/java/com/example/dynamicquery/service/GenericQueryService.java:239-247 | The legacy sort string compiles to what the reference reads. |
| Orders.OrdersIndependentOfCache | src/main/java/com/example/dynamicquery/service/GenericQueryService.java:223-250 | The orders mean the same whichever sound tree and cache they are compiled on. |
| Orders.SortListOrders | src/main/java/com/example/dynamicquery/service/GenericQueryService.java:230-238 | A non-empty sort list alone decides the orders, whatever the legacy string says: one order per spec, in list order, on that spec's field and with its direction. |
| Orders.LegacyStringOrder | src/main/java/com/example/dynamicquery/service/GenericQueryService.java:239-247 | Without a sort list, the legacy string gives exactly one order, on the part before its first comma. It is descending only when the part after the comma is "desc" in any case. |
| Orders.NoSortNoOrders | src/main/java/com/example/dynamicquery/service/GenericQueryService.java:228-249 | With neither a sort list nor a legacy string there are no orders, and nothing is resolved. |
| Orders.DirectionIgnoresCase | src/main/java/com/example/dynamicquery/service/GenericQueryService.java:233 | The direction test holds exactly for the strings whose lower-case form is "desc". |
| Rows.MapRows | src/main/java/com/example/dynamicquery/service/GenericQueryService.java:88-114 | The in-place mapping loop makes one record per tuple, in result order, each as fetchData builds it. |
| Rows.FillRecord | src/main/java/com/example/dynamicquery/service/GenericQueryService.java:107-113 | The inner loop builds the record of one tuple by putting each field in turn. |
| Rows.PutGet | src/main/java/com/example/dynamicquery/service/GenericQueryService.java:108-111 | After put(key, v) the key maps to v, and every other key maps to what it did. |
| Rows.PutKeys | src/main/java/com/example/dynamicquery/service/GenericQueryService.java:108-111 | put appends a key the map lacks and otherwise leaves the key order alone. |
| Rows.RowOfReads | src/main/java/com/example/dynamicquery/service/GenericQueryService.java:108-111 | The general mapping loop puts each field's tuple value under that field's name, leaves other keys as they were, and adds exactly the field names to the keys. |
| Rows.RowOfKeys | src/main/java/com/example/dynamicquery/service/GenericQueryService.java:108-111 | The mapping loop never repeats a key, and on distinct fields its keys are those fields in request order. |
| Rows.RecordOfFields | src/main/java/com/example/dynamicquery/service/GenericQueryService.java:99-113 | A record of requested fields holds each field's value under its name and no other key, with no key repeated, in request order when the fields are distinct. The single-field distinct branch builds the same record as the general loop. |
| Rows.RecordOfEntity | src/main/java/com/example/dynamicquery/service/GenericQueryService.java:93-98 | Without requested fields, each record holds the tuple's entity under "entity" and nothing else. |
| Export.ExportAsExcel | src/main/java/com/example/dynamicquery/service/GenericQueryService.java:337-400 | The in-place workbook construction yields the reference export: the header row and then the record rows, or the export failure. |
| Export.FillHeader | src/main/java/com/example/dynamicquery/service/GenericQueryService.java:350-353 | The header loop makes one text cell per column name, in order. |
| Export.FillRows | src/main/java/com/example/dynamicquery/service/GenericQueryService.java:360-380 | The row loop makes the header row and then one row per record, in record order. |
| Export.FillRow | src/main/java/com/example/dynamicquery/service/GenericQueryService.java:363-379 | The cell loop makes the cell of each column's value, in column order. |
| Export.CellKeepsValue | src/main/java/com/example/dynamicquery/service/GenericQueryService.java:367-378 | A null or missing value gives a blank cell, and only those do. Strings, numbers, dates and booleans keep their value. Any other value is written as its string form. |
| Export.ExportGrid | src/main/java/com/example/dynamicquery/service/GenericQueryService.java:337-400 | The export fails exactly when the file cannot be written. Otherwise the sheet is named after the entity, its first row gives the column names, then one row per record, each cell holding the cell for that column's value. The result names <tmpdir>/<entity>_export.xlsx and reports success. |
| Export.DeriveFields | src/main/java/com/example/dynamicquery/service/GenericQueryService.java:402-405 | With no records there are no columns. Otherwise the columns are the first record's keys, in its order. |
| Export.ExportDerivesColumns | src/main/java/com/example/dynamicquery/service/GenericQueryService.java:344-347 | When no fields are requested, the columns are the first record's keys, or none for an empty result. |
| Fetch.FetchData | src/main/java/com/example/dynamicquery/service/GenericQueryService.java:26-135 | fetchData on the request object, read through its getters, answers what the reference fetch does. |
| Fetch.BuildQuery | src/main/java/com/example/dynamicquery/service/GenericQueryService.java:28-85 | The in-place construction of the data query (its projection, filters, orders and window, all sharing one From tree and join map) yields the reference data query or its error. |
| Fetch.BuildProjection | src/main/java/com/example/dynamicquery/service/GenericQueryService.java:41-62 | The in-place projection block agrees with the reference projection: the same error, or the same selection, tree and cache. |
| Fetch.SelectFields | src/main/java/com/example/dynamicquery/service/GenericQueryService.java:55-61 | The in-place loop over the requested fields agrees with the reference selection loop. |
| Fetch.CountTotal | src/main/java/com/example/dynamicquery/service/GenericQueryService.java:140-166 | countTotal fails as the reference count query does, or returns what the store counts for that query. |
| Fetch.Reply | src/main/java/com/example/dynamicquery/service/GenericQueryService.java:124-134 | The end of fetchData gives the export of the records in export mode, and the page map otherwise. |
| Fetch.EntityOf | src/main/java/com/example/dynamicquery/service/GenericQueryService.java:28 | Class.forName succeeds exactly for a registered entity name. A null entity fails naming the class "null", and an unknown name fails naming that name. |
| Fetch.Wrap32 | src/main/java/com/example/dynamicquery/service/GenericQueryService.java:83 | Java int multiplication: the product modulo 2^32, equal to the exact product when that fits in an int. |
| Fetch.WindowOf | src/main/java/com/example/dynamicquery/service/GenericQueryService.java:82-85 | There is no window in export mode. Outside export mode a successful window has a size of at least 0. |
| Fetch.ProjectionReads | src/main/java/com/example/dynamicquery/service/GenericQueryService.java:47-62 | Under a sound cache, the projection selects exactly the columns the reference reads, or fails with the reference's error. |
| Fetch.FieldColumns | src/main/java/com/example/dynamicquery/service/GenericQueryService.java:41-62 | With requested fields, the multiselect has one column per field, in request order, aliased by the field and reading that field's attribute chain. It fails exactly when some field names no path. The single-field distinct branch selects what the general loop would. Without fields it selects the root entity. |
| Fetch.SelectFromReads | src/main/java/com/example/dynamicquery/service/GenericQueryService.java:55-61 | Under a sound cache, the projection loop selects exactly the columns the reference reads. |
| Fetch.QueryReads | src/main/java/com/example/dynamicquery/service/GenericQueryService.java:28-85 | The data query compiles to exactly the plan the cache-free reference reads, whatever joins its parts share, or fails with the error the reference names. |
| Fetch.CountReads | src/main/java/com/example/dynamicquery/service/GenericQueryService.java:140-166 | The count query compiles to exactly the plan the reference reads, or fails with the error it names. |
| Fetch.CountMatchesData | src/main/java/com/example/dynamicquery/service/GenericQueryService.java:41-163 | Whenever the data query compiles, the count query compiles too. It has the same conditions, and it counts distinct values of the single selected column exactly when the data query is a single-field distinct projection. |
| Fetch.WindowExact | src/main/java/com/example/dynamicquery/service/GenericQueryService.java:82-85 | When page * size fits in an int, the window sets the first result to exactly page * size and the maximum number of results to size. |
| Fetch.WindowRejects | src/main/java/com/example/dynamicquery/service/GenericQueryService.java:82-85 | Outside export mode, a negative size is rejected, and so is a negative page whose product with a positive size fits in an int. In export mode no window is applied. |
| Fetch.WindowWraps | src/main/java/com/example/dynamicquery/service/GenericQueryService.java:83 | page * size is an int product: page 2^30 with size 4 wraps to offset 0. |
| Fetch.TotalPagesCover | src/main/java/com/example/dynamicquery/service/GenericQueryService.java:133 | For size > 0, totalPages is the least page count that holds every row, capped at the largest int. For size 0 it is 0 for no rows and the largest int otherwise. |
| Fetch.FetchFails | src/main/java/com/example/dynamicquery/service/GenericQueryService.java:26-135 | fetchData fails exactly when the data query cannot be compiled or an export cannot be written. The error is the query's own, or the export failure. |
| Fetch.FetchPage | src/main/java/com/example/dynamicquery/service/GenericQueryService.java:82-134 | Outside export mode, a fetch that compiles returns one record per tuple of the windowed query, the count of the count query, the requested page and size, and a page count that covers the total. |
| Fetch.FetchExport | src/main/java/com/example/dynamicquery/service/GenericQueryService.java:119-126 | In export mode the whole unwindowed result is exported: the workbook with one record per tuple, or the export failure. |
| Fetch.FetchUnknownEntity | src/main/java/com/example/dynamicquery/service/GenericQueryService.java:28 | A null or unregistered entity fails with ClassNotFoundException before anything is compiled. |

## Left out

- JPA and the database: the `EntityManager`, query execution and the SQL it generates are not modelled. The tuples and the count are parameters of `Fetch.Fetch`. Whether the store honours the window, so that a page holds at most `size` rows, is not stated.
- `@Transactional`, the REST controller, the web client, `DataLoader` and the repositories are not part of this model.
- `Class.forName` is a lookup in a registry of entity attributes (`Schema.Registry`). `Schema.ExampleRegistry` is the application's Employee/Department model. Department.java is not part of this model, so its attributes `id` and `name` are assumed.
- Exception messages are not modelled, only which exception is raised, as an `Error` value.
- Apache POI: cell styles, the date display format, column auto-sizing and the bytes of the file are not modelled. Writing the file is a parameter (`writes`), and `java.io.tmpdir` is a parameter (`tmpdir`).
- Export.CellKeepsValue: numeric cells keep the integer value. `Number.doubleValue` and floating-point salaries are not modelled, because `Values.Num` is an unbounded integer.
- Fetch.TotalPagesCover: the page count is the exact integer ceiling. `Math.ceil` on a `double` quotient can round differently for totals above 2^53.
- Values.Num is an unbounded integer, so no value is a `Double`, a `Long` with overflow, or a `BigDecimal`. This affects filter values, such as a `_between` bound of 30000.5 or a `_like` on a number whose `toString` is "5.0". It also affects the values the store returns, such as Employee's `Double` salary, and their `toString` form in records and text cells.
- The `Long` total is a `nat`, so the count never overflows.
- Strings.Lower and Strings.EqualsIgnoreCase fold only ASCII letters. Java's locale-sensitive Unicode case mapping is not modelled.
- A filter map, a `LinkedHashMap` record and a subquery spec are each a sequence of entries in iteration order. A `HashMap`'s iteration order is taken as one given enumeration. Duplicate keys are not excluded in filter maps. Record lemmas state key uniqueness where the source guarantees it.
- Entity objects are opaque values (`Values.Entity`) carrying their `toString` text. Lazy loading is not modelled.
- Null elements inside the `fields` list or the `sorts` list, and null keys in a filter map, are not modelled. A request with `"sorts": [null]` makes `spec.getField()` throw a NullPointerException, but `Request.SortViews` has no null element to read, so the model does not cover that case.
- `Tuple.get` of an alias that the tuple lacks reads as null. JPA would throw, but the mapping only asks for aliases that the projection defines.
- JSON deserialisation of the request is not modelled. A request is its Java object after binding.
