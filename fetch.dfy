/** fetchData and countTotal: the data query and the count query built from one request,
    their execution, and the page or export response. The database is a pair of functions
    from a compiled query to its result, so the model fixes what is asked of it, not what
    it answers. */
module Fetch {
  import opened Wrappers
  import opened Strings
  import opened Values
  import opened Schema
  import opened Joins
  import opened Filters
  import opened Conditions
  import opened Orders
  import opened Request
  import opened Rows
  import opened Export

  // ---------------------------------------------------------------------------
  // Compiled queries
  // ---------------------------------------------------------------------------

  /** The multiselect of the data query: the root entity itself, or aliased paths. */
  datatype Projection = WholeEntity | Aliased(items: seq<(string, PathRef)>)

  datatype Selected = Selected(projection: Projection, graph: Graph, cache: Cache)

  /** setFirstResult and setMaxResults. */
  datatype Window = Window(first: int32, max: int32)

  /** The data query: entity, distinct flag, projection, where, order by, the From tree
      the paths live in, and the result window (none in export mode). */
  datatype Query = Query(entity: string, distinct: bool, projection: Projection, where: seq<Pred>,
                         orders: seq<Order>, from: Graph, window: Option<Window>)

  /** What the count query counts: all rows, or the distinct values of one path. */
  datatype CountTarget = AllRows | DistinctValues(path: PathRef)

  datatype CountQuery = CountQuery(entity: string, where: seq<Pred>, target: CountTarget, from: Graph)

  /** The map fetchData returns. */
  datatype Response =
    | Page(content: seq<Entries>, totalElements: nat, page: int32, size: int32, totalPages: int32)
    | Workbook(exported: Exported)

  /** Class.forName on the model package: a null entity names the class "null". */
  function EntityOf(reg: Registry, entity: Option<string>): (r: Result<string, Error>)
    ensures r.Success? <==> entity.Some? && entity.value in reg
    ensures r.Success? ==> r.value == entity.value
    ensures entity.None? ==> r == Failure(UnknownEntity("null"))
    ensures entity.Some? && entity.value !in reg ==> r == Failure(UnknownEntity(entity.value))
  {
    if entity.None? then Failure(UnknownEntity("null"))
    else if entity.value !in reg then Failure(UnknownEntity(entity.value))
    else Success(entity.value)
  }

  /** The projections loop from field `i` on, with the aliased paths `acc` made so far. */
  function SelectFrom(reg: Registry, g: Graph, c: Cache, fields: seq<string>, i: nat, acc: seq<(string, PathRef)>): (r: Result<Selected, Error>)
    requires i <= |fields| && |g| >= 1 && InRange(g, c)
    ensures r.Success? ==> |g| <= |r.value.graph| && InRange(r.value.graph, r.value.cache)
    decreases |fields| - i
  {
    if i == |fields| then Success(Selected(Aliased(acc), g, c))
    else
      match Resolve(reg, g, c, fields[i])
      case Failure(e) => Failure(e)
      case Success(p) => SelectFrom(reg, p.graph, p.cache, fields, i + 1, acc + [(fields[i], p.path)])
  }

  /** The projections of fetchData. */
  function CompileProjection(reg: Registry, g: Graph, c: Cache, req: RequestView): (r: Result<Selected, Error>)
    requires |g| >= 1 && InRange(g, c)
    ensures r.Success? ==> |g| <= |r.value.graph| && InRange(r.value.graph, r.value.cache)
  {
    if SingleFieldDistinct(req) then
      var f := req.fields.value[0];
      match Resolve(reg, g, c, f)
      case Failure(e) => Failure(e)
      case Success(p) => Success(Selected(Aliased([(f, p.path)]), p.graph, p.cache))
    else if !HasFields(req) then Success(Selected(WholeEntity, g, c))
    else SelectFrom(reg, g, c, req.fields.value, 0, [])
  }

  /** Java's int multiplication: the product modulo 2^32, read as a signed int. */
  function Wrap32(x: int): (r: int32)
    ensures (r as int - x) % 0x1_0000_0000 == 0
    ensures -0x8000_0000 <= x < 0x8000_0000 ==> r as int == x
  {
    ((x + 0x8000_0000) % 0x1_0000_0000 - 0x8000_0000) as int32
  }

  /** The result window: none in export mode; otherwise the first result is page * size
      and the maximum number of results is size, and JPA rejects a negative value for
      either. */
  function WindowOf(req: RequestView): (r: Result<Option<Window>, Error>)
    ensures r.Success? ==> (r.value.None? <==> req.isExport)
    ensures r.Success? && !req.isExport ==> req.size >= 0
  {
    if req.isExport then Success(None)
    else
      var first := Wrap32(req.page as int * req.size as int);
      if first < 0 || req.size < 0 then Failure(NegativeWindow)
      else Success(Some(Window(first, req.size)))
  }

  /** The data query of fetchData: projections, then filters, then orders, all on one From
      tree and join cache. */
  function CompileQuery(reg: Registry, req: RequestView): (r: Result<Query, Error>)
    ensures r.Success? ==> r.value.entity in reg && req.entity == Some(r.value.entity)
    ensures r.Success? && !req.isExport ==> req.size >= 0
  {
    var e :- EntityOf(reg, req.entity);
    var s :- CompileProjection(reg, RootGraph(e), map[], req);
    var f :- CompileFilters(reg, s.graph, s.cache, req.filters);
    var o :- CompileOrders(reg, f.graph, f.cache, req.sorts, req.sort);
    var w :- WindowOf(req);
    Success(Query(e, req.distinct, s.projection, f.preds, o.orders, o.graph, w))
  }

  /** countDistinct on the field when exactly one field is asked for distinct values. */
  predicate CountsDistinct(req: RequestView)
  {
    req.distinct && req.fields.Some? && |req.fields.value| == 1
  }

  /** countTotal: the filters on a fresh From tree and cache, then what to count. */
  function CompileCount(reg: Registry, entity: string, req: RequestView): (r: Result<CountQuery, Error>)
  {
    var f :- CompileFilters(reg, RootGraph(entity), map[], req.filters);
    if CountsDistinct(req) then
      var p :- Resolve(reg, f.graph, f.cache, req.fields.value[0]);
      Success(CountQuery(entity, f.preds, DistinctValues(p.path), p.graph))
    else Success(CountQuery(entity, f.preds, AllRows, f.graph))
  }

  /** (int) Math.ceil((double) total / size), for the sizes the window lets through: the
      least number of pages of `size` rows that hold `total` rows, capped at the largest
      int; with size 0 the quotient is infinite (0/0 is NaN, which the cast makes 0). */
  function TotalPages(total: nat, size: int32): int32
    requires size >= 0
  {
    if size == 0 then (if total == 0 then 0 else INT_MAX)
    else
      var q := (total + size as int - 1) / size as int;
      if q > INT_MAX as int then INT_MAX else q as int32
  }

  /** fetchData on a request. `run` answers the data query with its tuples, `count`
      answers the count query; `tmpdir` is java.io.tmpdir and `writes` tells whether
      writing the export file succeeds. */
  function Fetch(reg: Registry, req: RequestView, run: Query -> seq<Tuple>, count: CountQuery -> nat,
                 tmpdir: string, writes: bool): Result<Response, Error>
  {
    var q :- CompileQuery(reg, req);
    var cq :- CompileCount(reg, q.entity, req);
    Respond(req, Records(req, run(q)), count(cq), tmpdir, writes)
  }

  /** The end of fetchData: the export of the records, or the page map. */
  function Respond(req: RequestView, data: seq<Entries>, total: nat, tmpdir: string, writes: bool): Result<Response, Error>
    requires !req.isExport ==> req.size >= 0
  {
    if req.isExport then
      var x :- ExportWorkbook(data, req.entity, req.fields, tmpdir, writes);
      Success(Workbook(x))
    else Success(Page(data, total, req.page, req.size, TotalPages(total, req.size)))
  }

  // ---------------------------------------------------------------------------
  // The service, in place
  // ---------------------------------------------------------------------------

  /** fetchData on the request object, read through its getters. */
  method FetchData(reg: Registry, request: GenericRequest, run: Query -> seq<Tuple>, count: CountQuery -> nat,
                   tmpdir: string, writes: bool) returns (r: Result<Response, Error>)
    ensures r == Fetch(reg, request.View(), run, count, tmpdir, writes)
  {
    var req := request.View();
    r := Serve(reg, req, run, count, tmpdir, writes);
    assert request.View() == req;
  }

  /** The steps of fetchData: compile the data query in place, run it, map its tuples,
      count, then export or page. */
  method Serve(reg: Registry, req: RequestView, run: Query -> seq<Tuple>, count: CountQuery -> nat,
               tmpdir: string, writes: bool) returns (r: Result<Response, Error>)
    ensures r == Fetch(reg, req, run, count, tmpdir, writes)
  {
    var query := BuildQuery(reg, req);
    if query.Failure? {
      return Failure(query.error);
    }
    var tuples := run(query.value);
    var data := MapRows(req, tuples);
    var total := CountTotal(reg, query.value.entity, req, count);
    if total.Failure? {
      return Failure(total.error);
    }
    r := Reply(req, data, total.value, tmpdir, writes);
  }

  /** The export or the page map of fetchData. */
  method Reply(req: RequestView, data: seq<Entries>, total: nat, tmpdir: string, writes: bool) returns (r: Result<Response, Error>)
    requires !req.isExport ==> req.size >= 0
    ensures r == Respond(req, data, total, tmpdir, writes)
  {
    if req.isExport {
      var x := ExportAsExcel(data, req.entity, req.fields, tmpdir, writes);
      if x.Failure? {
        return Failure(x.error);
      }
      return Success(Workbook(x.value));
    }
    return Success(Page(data, total, req.page, req.size, TotalPages(total, req.size)));
  }

  /** The criteria query of fetchData, built on one root and one join map. */
  method BuildQuery(reg: Registry, req: RequestView) returns (r: Result<Query, Error>)
    ensures r == CompileQuery(reg, req)
  {
    var entity := EntityOf(reg, req.entity);
    if entity.Failure? {
      return Failure(entity.error);
    }
    var e := entity.value;
    var root := new JoinGraph(e);
    var joins := new JoinCache();
    var projection := BuildProjection(reg, root, joins, req);
    if projection.Failure? {
      return Failure(projection.error);
    }
    var predicates := BuildPredicates(reg, root, joins, req.filters);
    if predicates.Failure? {
      return Failure(predicates.error);
    }
    var orders := BuildOrders(reg, root, joins, req.sorts, req.sort);
    if orders.Failure? {
      return Failure(orders.error);
    }
    var window: Option<Window> := None;
    if !req.isExport {
      var first := Wrap32(req.page as int * req.size as int);
      if first < 0 || req.size < 0 {
        return Failure(NegativeWindow);
      }
      window := Some(Window(first, req.size));
    }
    return Success(Query(e, req.distinct, projection.value, predicates.value, orders.value, root.nodes, window));
  }

  /** The projections block of fetchData. */
  method BuildProjection(reg: Registry, root: JoinGraph, joins: JoinCache, req: RequestView)
    returns (r: Result<Projection, Error>)
    requires |root.nodes| >= 1 && InRange(root.nodes, joins.entries)
    modifies root, joins
    ensures var s := CompileProjection(reg, old(root.nodes), old(joins.entries), req);
      && r.Success? == s.Success?
      && (s.Failure? ==> r.error == s.error)
      && (s.Success? ==> r.value == s.value.projection && root.nodes == s.value.graph && joins.entries == s.value.cache)
  {
    var hasFields := req.fields.Some? && |req.fields.value| > 0;
    var singleFieldDistinct := req.distinct && hasFields && |req.fields.value| == 1;
    if singleFieldDistinct {
      var f := req.fields.value[0];
      var p := GetPath(reg, root, f, joins);
      if p.Failure? {
        return Failure(p.error);
      }
      return Success(Aliased([(f, p.value)]));
    } else if !hasFields {
      return Success(WholeEntity);
    }
    r := SelectFields(reg, root, joins, req.fields.value);
  }

  /** The loop of the projections over the requested fields. */
  method SelectFields(reg: Registry, root: JoinGraph, joins: JoinCache, fields: seq<string>)
    returns (r: Result<Projection, Error>)
    requires |root.nodes| >= 1 && InRange(root.nodes, joins.entries)
    modifies root, joins
    ensures var s := SelectFrom(reg, old(root.nodes), old(joins.entries), fields, 0, []);
      && r.Success? == s.Success?
      && (s.Failure? ==> r.error == s.error)
      && (s.Success? ==> r.value == s.value.projection && root.nodes == s.value.graph && joins.entries == s.value.cache)
  {
    var selections: seq<(string, PathRef)> := [];
    var i := 0;
    while i < |fields|
      invariant 0 <= i <= |fields|
      invariant |root.nodes| >= 1 && InRange(root.nodes, joins.entries)
      invariant SelectFrom(reg, old(root.nodes), old(joins.entries), fields, 0, [])
             == SelectFrom(reg, root.nodes, joins.entries, fields, i, selections)
    {
      var p := GetPath(reg, root, fields[i], joins);
      if p.Failure? {
        return Failure(p.error);
      }
      selections := selections + [(fields[i], p.value)];
      i := i + 1;
    }
    return Success(Aliased(selections));
  }

  /** countTotal, with `count` answering the count query. */
  method CountTotal(reg: Registry, entity: string, req: RequestView, count: CountQuery -> nat)
    returns (r: Result<nat, Error>)
    ensures var cq := CompileCount(reg, entity, req);
      && r.Success? == cq.Success?
      && (cq.Failure? ==> r.error == cq.error)
      && (cq.Success? ==> r.value == count(cq.value))
  {
    var countRoot := new JoinGraph(entity);
    var joins := new JoinCache();
    var preds := BuildPredicates(reg, countRoot, joins, req.filters);
    if preds.Failure? {
      return Failure(preds.error);
    }
    var target := AllRows;
    if req.distinct && req.fields.Some? && |req.fields.value| == 1 {
      var p := GetPath(reg, countRoot, req.fields.value[0], joins);
      if p.Failure? {
        return Failure(p.error);
      }
      target := DistinctValues(p.value);
    }
    return Success(count(CountQuery(entity, preds.value, target, countRoot.nodes)));
  }

  // ---------------------------------------------------------------------------
  // The reference reading of the projections
  // ---------------------------------------------------------------------------

  /** A selected column: its alias and the attribute chain it reads. */
  type Column = (string, seq<string>)

  /** What the multiselect returns: the root entity, or the named columns in order. */
  datatype Shape = RootEntity | Fields(columns: seq<Column>)

  function ColumnOf(g: Graph, item: (string, PathRef)): Column
  {
    (item.0, Chain(g, item.1))
  }

  function ColumnsOf(g: Graph, items: seq<(string, PathRef)>): (r: seq<Column>)
    ensures |r| == |items|
  {
    seq(|items|, i requires 0 <= i < |items| => ColumnOf(g, items[i]))
  }

  /** Every aliased path is a node of `g`. */
  predicate ItemsIn(g: Graph, items: seq<(string, PathRef)>)
  {
    forall i :: 0 <= i < |items| ==> items[i].1.node < |g|
  }

  function ProjectionReading(g: Graph, p: Projection): Shape
  {
    match p
    case WholeEntity => RootEntity
    case Aliased(items) => Fields(ColumnsOf(g, items))
  }

  predicate ProjectionIn(g: Graph, p: Projection)
  {
    p.Aliased? ==> ItemsIn(g, p.items)
  }

  /** One requested field read without any join cache, under its own name. */
  function ExpectField(reg: Registry, entity: string, f: string): Result<Column, Error>
  {
    match Denote(reg, entity, f)
    case Failure(e) => Failure(e)
    case Success(chain) => Success((f, chain))
  }

  function ExpectFieldEach(reg: Registry, entity: string, fields: seq<string>): (r: seq<Result<Column, Error>>)
    ensures |r| == |fields| && forall k :: 0 <= k < |fields| ==> r[k] == ExpectField(reg, entity, fields[k])
  {
    seq(|fields|, k requires 0 <= k < |fields| => ExpectField(reg, entity, fields[k]))
  }

  /** The requested fields from `i` on, read one by one, or the first field's error. */
  function ExpectFields(reg: Registry, entity: string, fields: seq<string>, i: nat): Result<seq<Column>, Error>
    requires i <= |fields|
  {
    Collect(ExpectFieldEach(reg, entity, fields), i)
  }

  /** The projections of fetchData read without any join cache on a query over `entity`. */
  function ExpectProjection(reg: Registry, entity: string, req: RequestView): Result<Shape, Error>
  {
    if SingleFieldDistinct(req) then
      var col :- ExpectField(reg, entity, req.fields.value[0]);
      Success(Fields([col]))
    else if !HasFields(req) then Success(RootEntity)
    else
      var cols :- ExpectFields(reg, entity, req.fields.value, 0);
      Success(Fields(cols))
  }

  /** The projections loop from `i` on agrees with the reference reading, after the
      aliased paths `acc`. */
  predicate SelectMatch(reg: Registry, g: Graph, acc: seq<(string, PathRef)>, r: Result<Selected, Error>, x: Result<seq<Column>, Error>)
  {
    && (r.Success? <==> x.Success?)
    && (r.Failure? ==> r.error == x.error)
    && (r.Success? ==>
          && Sound(reg, r.value.graph, r.value.cache) && Extends(g, r.value.graph)
          && r.value.projection.Aliased? && ItemsIn(r.value.graph, r.value.projection.items)
          && ColumnsOf(r.value.graph, r.value.projection.items) == ColumnsOf(g, acc) + x.value)
  }

  lemma ExtendsTransitive(g1: Graph, g2: Graph, g3: Graph)
    requires Extends(g1, g2) && Extends(g2, g3)
    ensures Extends(g1, g3)
  {
    assert g3[..|g1|] == g3[..|g2|][..|g1|];
  }

  /** Aliased paths on a From tree read the same on any extension of it. */
  lemma ColumnsExtend(g: Graph, g2: Graph, items: seq<(string, PathRef)>)
    requires Extends(g, g2) && ItemsIn(g, items)
    ensures ColumnsOf(g2, items) == ColumnsOf(g, items)
  {
    assert g2 == g + g2[|g|..];
    forall i | 0 <= i < |items|
      ensures ColumnOf(g2, items[i]) == ColumnOf(g, items[i])
    {
      SpellExtend(g, g2[|g|..], items[i].1.node);
    }
  }

  lemma ProjectionReadingExtend(g: Graph, g2: Graph, p: Projection)
    requires Extends(g, g2) && ProjectionIn(g, p)
    ensures ProjectionReading(g2, p) == ProjectionReading(g, p) && ProjectionIn(g2, p)
  {
    if p.Aliased? {
      ColumnsExtend(g, g2, p.items);
    }
  }

  lemma SelectFromStep(reg: Registry, g: Graph, c: Cache, fields: seq<string>, i: nat, acc: seq<(string, PathRef)>)
    requires i < |fields| && |g| >= 1 && InRange(g, c)
    ensures var p := Resolve(reg, g, c, fields[i]);
      SelectFrom(reg, g, c, fields, i, acc)
      == if p.Failure? then Failure(p.error)
         else SelectFrom(reg, p.value.graph, p.value.cache, fields, i + 1, acc + [(fields[i], p.value.path)])
  {
  }

  lemma ExpectFieldsStep(reg: Registry, entity: string, fields: seq<string>, i: nat)
    requires i < |fields| && Denote(reg, entity, fields[i]).Success?
    ensures var x := ExpectFields(reg, entity, fields, i); var xr := ExpectFields(reg, entity, fields, i + 1);
      var head := (fields[i], Denote(reg, entity, fields[i]).value);
      && (xr.Success? ==> x == Success([head] + xr.value))
      && (xr.Failure? ==> x == Failure(xr.error))
  {
  }

  /** Under a sound cache the projections loop selects exactly the columns the reference
      reads. */
  lemma {:induction false} SelectFromReads(reg: Registry, g: Graph, c: Cache, fields: seq<string>, i: nat, acc: seq<(string, PathRef)>)
    requires i <= |fields| && Sound(reg, g, c) && ItemsIn(g, acc)
    ensures SelectMatch(reg, g, acc, SelectFrom(reg, g, c, fields, i, acc), ExpectFields(reg, g[0].entity, fields, i))
    decreases |fields| - i
  {
    if i < |fields| {
      var p := Resolve(reg, g, c, fields[i]);
      if p.Success? {
        var v := p.value;
        var acc' := acc + [(fields[i], v.path)];
        SelectKeeps(reg, g, c, fields[i], acc);
        SelectFromReads(reg, v.graph, v.cache, fields, i + 1, acc');
        SelectFromReadsStep(reg, g, c, fields, i, acc);
      } else {
        SelectFromFails(reg, g, c, fields, i, acc);
      }
    } else {
      SelectFromEnd(reg, g, c, fields, acc);
    }
  }

  lemma SelectFromEnd(reg: Registry, g: Graph, c: Cache, fields: seq<string>, acc: seq<(string, PathRef)>)
    requires Sound(reg, g, c) && ItemsIn(g, acc)
    ensures SelectMatch(reg, g, acc, SelectFrom(reg, g, c, fields, |fields|, acc), ExpectFields(reg, g[0].entity, fields, |fields|))
  {
    assert g[..|g|] == g;
    assert ColumnsOf(g, acc) + [] == ColumnsOf(g, acc);
  }

  /** A field that does not resolve stops the projections loop with the error the reference
      reading names. */
  lemma SelectFromFails(reg: Registry, g: Graph, c: Cache, fields: seq<string>, i: nat, acc: seq<(string, PathRef)>)
    requires i < |fields| && Sound(reg, g, c) && Resolve(reg, g, c, fields[i]).Failure?
    ensures SelectMatch(reg, g, acc, SelectFrom(reg, g, c, fields, i, acc), ExpectFields(reg, g[0].entity, fields, i))
  {
    assert SelectFrom(reg, g, c, fields, i, acc) == Failure(Resolve(reg, g, c, fields[i]).error) by {
      SelectFromStep(reg, g, c, fields, i, acc);
    }
    ResolveReads(reg, g, c, fields[i]);
  }

  /** Resolving one more field keeps the cache sound, the root, and the paths selected so far. */
  lemma SelectKeeps(reg: Registry, g: Graph, c: Cache, f: string, acc: seq<(string, PathRef)>)
    requires Sound(reg, g, c) && ItemsIn(g, acc) && Resolve(reg, g, c, f).Success?
    ensures var v := Resolve(reg, g, c, f).value;
      Sound(reg, v.graph, v.cache) && ItemsIn(v.graph, acc + [(f, v.path)]) && v.graph[0].entity == g[0].entity
  {
    var v := Resolve(reg, g, c, f).value;
    ResolveReads(reg, g, c, f);
    assert v.graph[..|g|][0] == v.graph[0];
  }

  /** One step of SelectFromReads: a field that resolves, given the rest of the loop. */
  lemma SelectFromReadsStep(reg: Registry, g: Graph, c: Cache, fields: seq<string>, i: nat, acc: seq<(string, PathRef)>)
    requires i < |fields| && Sound(reg, g, c) && ItemsIn(g, acc)
    requires Resolve(reg, g, c, fields[i]).Success?
    requires var v := Resolve(reg, g, c, fields[i]).value;
      var acc' := acc + [(fields[i], v.path)];
      SelectMatch(reg, v.graph, acc', SelectFrom(reg, v.graph, v.cache, fields, i + 1, acc'), ExpectFields(reg, g[0].entity, fields, i + 1))
    ensures SelectMatch(reg, g, acc, SelectFrom(reg, g, c, fields, i, acc), ExpectFields(reg, g[0].entity, fields, i))
  {
    var v := Resolve(reg, g, c, fields[i]).value;
    var d := Denote(reg, g[0].entity, fields[i]);
    assert Extends(g, v.graph) && d.Success? && Chain(v.graph, v.path) == d.value by {
      ResolveReads(reg, g, c, fields[i]);
    }
    var item := (fields[i], v.path);
    var r := SelectFrom(reg, v.graph, v.cache, fields, i + 1, acc + [item]);
    var xr := ExpectFields(reg, g[0].entity, fields, i + 1);
    var x := ExpectFields(reg, g[0].entity, fields, i);
    assert SelectFrom(reg, g, c, fields, i, acc) == r by {
      SelectFromStep(reg, g, c, fields, i, acc);
    }
    assert (xr.Success? ==> x == Success([(fields[i], d.value)] + xr.value)) && (xr.Failure? ==> x == Failure(xr.error)) by {
      ExpectFieldsStep(reg, g[0].entity, fields, i);
    }
    SelectMatchCons(reg, g, v.graph, acc, item, d.value, r, xr, x);
  }

  /** Adding one aliased path read as `chain` in front of the rest of the loop. */
  lemma SelectMatchCons(reg: Registry, g: Graph, g2: Graph, acc: seq<(string, PathRef)>, item: (string, PathRef), chain: seq<string>,
                        r: Result<Selected, Error>, xr: Result<seq<Column>, Error>, x: Result<seq<Column>, Error>)
    requires Extends(g, g2) && ItemsIn(g, acc) && item.1.node < |g2| && Chain(g2, item.1) == chain
    requires SelectMatch(reg, g2, acc + [item], r, xr)
    requires xr.Success? ==> x == Success([(item.0, chain)] + xr.value)
    requires xr.Failure? ==> x == Failure(xr.error)
    ensures SelectMatch(reg, g, acc, r, x)
  {
    if r.Success? {
      assert ColumnsOf(g2, acc + [item]) == ColumnsOf(g, acc) + [(item.0, chain)] by {
        ColumnsExtend(g, g2, acc);
        assert ColumnsOf(g2, acc + [item]) == ColumnsOf(g2, acc) + [ColumnOf(g2, item)];
      }
      ExtendsTransitive(g, g2, r.value.graph);
    }
  }

  /** Under a sound cache the projections of fetchData select exactly what the reference
      reads, or fail with the error it names. */
  lemma ProjectionReads(reg: Registry, g: Graph, c: Cache, req: RequestView)
    requires Sound(reg, g, c)
    ensures var r := CompileProjection(reg, g, c, req); var x := ExpectProjection(reg, g[0].entity, req);
      && (r.Success? <==> x.Success?)
      && (r.Failure? ==> r.error == x.error)
      && (r.Success? ==>
            && Sound(reg, r.value.graph, r.value.cache) && Extends(g, r.value.graph)
            && ProjectionIn(r.value.graph, r.value.projection)
            && ProjectionReading(r.value.graph, r.value.projection) == x.value)
  {
    if SingleFieldDistinct(req) {
      ProjectionReadsSingle(reg, g, c, req);
    } else if HasFields(req) {
      ProjectionReadsFields(reg, g, c, req);
    }
  }

  /** ProjectionReads for the single-field distinct branch. */
  lemma ProjectionReadsSingle(reg: Registry, g: Graph, c: Cache, req: RequestView)
    requires Sound(reg, g, c) && SingleFieldDistinct(req)
    ensures var r := CompileProjection(reg, g, c, req); var x := ExpectProjection(reg, g[0].entity, req);
      && (r.Success? <==> x.Success?)
      && (r.Failure? ==> r.error == x.error)
      && (r.Success? ==>
            && Sound(reg, r.value.graph, r.value.cache) && Extends(g, r.value.graph)
            && ProjectionIn(r.value.graph, r.value.projection)
            && ProjectionReading(r.value.graph, r.value.projection) == x.value)
  {
    var f := req.fields.value[0];
    ResolveReads(reg, g, c, f);
    var r := CompileProjection(reg, g, c, req);
    if r.Success? {
      assert ColumnsOf(r.value.graph, r.value.projection.items)[0] == ColumnOf(r.value.graph, r.value.projection.items[0]);
    }
  }

  /** ProjectionReads for the general loop over the requested fields. */
  lemma ProjectionReadsFields(reg: Registry, g: Graph, c: Cache, req: RequestView)
    requires Sound(reg, g, c) && !SingleFieldDistinct(req) && HasFields(req)
    ensures var r := CompileProjection(reg, g, c, req); var x := ExpectProjection(reg, g[0].entity, req);
      && (r.Success? <==> x.Success?)
      && (r.Failure? ==> r.error == x.error)
      && (r.Success? ==>
            && Sound(reg, r.value.graph, r.value.cache) && Extends(g, r.value.graph)
            && ProjectionIn(r.value.graph, r.value.projection)
            && ProjectionReading(r.value.graph, r.value.projection) == x.value)
  {
    SelectFromReads(reg, g, c, req.fields.value, 0, []);
    assert ColumnsOf(g, []) == [];
  }

  /** With requested fields the multiselect is one column per field, in request order,
      aliased by the field's name and reading the chain the field names; it fails exactly
      when some field names no attribute path. The single-field distinct branch selects
      what the general loop would. Without requested fields it is the root entity. */
  lemma FieldColumns(reg: Registry, g: Graph, c: Cache, req: RequestView)
    requires Sound(reg, g, c)
    ensures !HasFields(req) ==> CompileProjection(reg, g, c, req) == Success(Selected(WholeEntity, g, c))
    ensures HasFields(req) ==>
      var fields := req.fields.value; var r := CompileProjection(reg, g, c, req);
      && (r.Success? <==> forall k :: 0 <= k < |fields| ==> Denote(reg, g[0].entity, fields[k]).Success?)
      && (r.Success? ==>
            && r.value.projection.Aliased? && |r.value.projection.items| == |fields|
            && forall k :: 0 <= k < |fields| ==>
                 && r.value.projection.items[k].0 == fields[k]
                 && Chain(r.value.graph, r.value.projection.items[k].1) == Denote(reg, g[0].entity, fields[k]).value)
  {
    if HasFields(req) {
      var fields := req.fields.value;
      var e := g[0].entity;
      ProjectionReads(reg, g, c, req);
      CollectShape(ExpectFieldEach(reg, e, fields), 0);
      assert (forall k :: 0 <= k < |fields| ==> ExpectField(reg, e, fields[k]).Success?)
         <==> (forall k :: 0 <= k < |fields| ==> Denote(reg, e, fields[k]).Success?);
      var r := CompileProjection(reg, g, c, req);
      if r.Success? {
        var items := r.value.projection.items;
        forall k | 0 <= k < |fields|
          ensures items[k].0 == fields[k] && Chain(r.value.graph, items[k].1) == Denote(reg, e, fields[k]).value
        {
          assert ColumnsOf(r.value.graph, items)[k] == ColumnOf(r.value.graph, items[k]);
        }
      }
    }
  }

  // ---------------------------------------------------------------------------
  // The reference reading of the data query and the count query
  // ---------------------------------------------------------------------------

  /** A data query read without its From tree: every path as the attribute chain it reads. */
  datatype Plan = Plan(entity: string, distinct: bool, shape: Shape, conditions: seq<Cond>,
                       orders: seq<(seq<string>, bool)>, window: Option<Window>)

  function ReadQuery(q: Query): Plan
  {
    Plan(q.entity, q.distinct, ProjectionReading(q.from, q.projection), Meanings(q.from, q.where),
         Readings(q.from, q.orders), q.window)
  }

  /** The data query fetchData asks for, read without any join cache: the errors of the
      entity, the projections, the filters, the sorts and the window, in that order. */
  function ExpectQuery(reg: Registry, req: RequestView): Result<Plan, Error>
  {
    var e :- EntityOf(reg, req.entity);
    var shape :- ExpectProjection(reg, e, req);
    var conds :- ExpectFilters(reg, e, req.filters);
    var ords :- ExpectOrders(reg, e, req.sorts, req.sort);
    var w :- WindowOf(req);
    Success(Plan(e, req.distinct, shape, conds, ords, w))
  }

  /** What the count query counts, read as attribute chains. */
  datatype Tally = EveryRow | DistinctChain(chain: seq<string>)

  datatype CountPlan = CountPlan(entity: string, conditions: seq<Cond>, tally: Tally)

  function ReadCount(cq: CountQuery): CountPlan
  {
    CountPlan(cq.entity, Meanings(cq.from, cq.where),
      match cq.target
      case AllRows => EveryRow
      case DistinctValues(p) => DistinctChain(Chain(cq.from, p)))
  }

  /** The count query countTotal asks for, read without any join cache. */
  function ExpectCount(reg: Registry, entity: string, req: RequestView): Result<CountPlan, Error>
  {
    var conds :- ExpectFilters(reg, entity, req.filters);
    if CountsDistinct(req) then
      var chain :- Denote(reg, entity, req.fields.value[0]);
      Success(CountPlan(entity, conds, DistinctChain(chain)))
    else Success(CountPlan(entity, conds, EveryRow))
  }

  /** The data query compiles to exactly the plan the reference reads whatever joins its
      projections, filters and sorts share, or fails with the error the reference names. */
  lemma QueryReads(reg: Registry, req: RequestView)
    ensures var r := CompileQuery(reg, req); var x := ExpectQuery(reg, req);
      && (r.Success? <==> x.Success?)
      && (r.Failure? ==> r.error == x.error)
      && (r.Success? ==> ReadQuery(r.value) == x.value)
  {
    var en := EntityOf(reg, req.entity);
    if en.Success? {
      var e := en.value;
      FreshIsSound(reg, e);
      ProjectionReads(reg, RootGraph(e), map[], req);
      var s := CompileProjection(reg, RootGraph(e), map[], req);
      if s.Success? {
        var sv := s.value;
        assert sv.graph[0].entity == e by {
          assert sv.graph[..1][0] == sv.graph[0];
        }
        QueryReadsTail(reg, req, e, sv);
      }
    }
  }

  /** QueryReads after the projections: the filters, then the sorts and the window. */
  lemma QueryReadsTail(reg: Registry, req: RequestView, e: string, sv: Selected)
    requires req.entity == Some(e) && e in reg
    requires CompileProjection(reg, RootGraph(e), map[], req) == Success(sv)
    requires Sound(reg, sv.graph, sv.cache) && sv.graph[0].entity == e && ProjectionIn(sv.graph, sv.projection)
    requires ExpectProjection(reg, e, req) == Success(ProjectionReading(sv.graph, sv.projection))
    ensures var r := CompileQuery(reg, req); var x := ExpectQuery(reg, req);
      && (r.Success? <==> x.Success?)
      && (r.Failure? ==> r.error == x.error)
      && (r.Success? ==> ReadQuery(r.value) == x.value)
  {
    FiltersMean(reg, sv.graph, sv.cache, req.filters);
    var f := CompileFilters(reg, sv.graph, sv.cache, req.filters);
    if f.Success? {
      var fv := f.value;
      assert fv.graph[0].entity == e by {
        assert fv.graph[..|sv.graph|][0] == fv.graph[0];
      }
      QueryReadsOrders(reg, req, e, sv, fv);
    }
  }

  /** QueryReads after the filters: the sorts and the window. */
  lemma QueryReadsOrders(reg: Registry, req: RequestView, e: string, sv: Selected, fv: Compiled)
    requires req.entity == Some(e) && e in reg
    requires CompileProjection(reg, RootGraph(e), map[], req) == Success(sv)
    requires ProjectionIn(sv.graph, sv.projection)
    requires ExpectProjection(reg, e, req) == Success(ProjectionReading(sv.graph, sv.projection))
    requires |sv.graph| >= 1 && InRange(sv.graph, sv.cache)
    requires CompileFilters(reg, sv.graph, sv.cache, req.filters) == Success(fv)
    requires Sound(reg, fv.graph, fv.cache) && Extends(sv.graph, fv.graph) && fv.graph[0].entity == e
    requires PathsIn(fv.graph, fv.preds) && ExpectFilters(reg, e, req.filters) == Success(Meanings(fv.graph, fv.preds))
    ensures var r := CompileQuery(reg, req); var x := ExpectQuery(reg, req);
      && (r.Success? <==> x.Success?)
      && (r.Failure? ==> r.error == x.error)
      && (r.Success? ==> ReadQuery(r.value) == x.value)
  {
    OrdersRead(reg, fv.graph, fv.cache, req.sorts, req.sort);
    var o := CompileOrders(reg, fv.graph, fv.cache, req.sorts, req.sort);
    if o.Success? {
      var ov := o.value;
      ExtendsTransitive(sv.graph, fv.graph, ov.graph);
      ProjectionReadingExtend(sv.graph, ov.graph, sv.projection);
      MeaningsExtend(fv.graph, ov.graph, fv.preds);
      assert Readings(fv.graph, []) == [];
    }
  }

  /** The count query compiles to exactly the plan the reference reads, or fails with the
      error it names. */
  lemma CountReads(reg: Registry, entity: string, req: RequestView)
    requires entity in reg
    ensures var r := CompileCount(reg, entity, req); var x := ExpectCount(reg, entity, req);
      && (r.Success? <==> x.Success?)
      && (r.Failure? ==> r.error == x.error)
      && (r.Success? ==> ReadCount(r.value) == x.value)
  {
    FreshIsSound(reg, entity);
    FiltersMean(reg, RootGraph(entity), map[], req.filters);
    var f := CompileFilters(reg, RootGraph(entity), map[], req.filters);
    if f.Success? && CountsDistinct(req) {
      var fv := f.value;
      assert fv.graph[0].entity == entity by {
        assert fv.graph[..1][0] == fv.graph[0];
      }
      ResolveReads(reg, fv.graph, fv.cache, req.fields.value[0]);
      var p := Resolve(reg, fv.graph, fv.cache, req.fields.value[0]);
      if p.Success? {
        MeaningsExtend(fv.graph, p.value.graph, fv.preds);
      }
    }
  }

  /** Whenever the data query compiles, the count query compiles too, on its own From tree:
      it counts under the same conditions, and it counts the distinct values of the one
      selected column exactly when the data query is a single-field distinct projection. */
  lemma CountMatchesData(reg: Registry, req: RequestView)
    requires CompileQuery(reg, req).Success?
    ensures var q := CompileQuery(reg, req).value; var cq := CompileCount(reg, q.entity, req);
      && cq.Success?
      && ReadCount(cq.value).conditions == ReadQuery(q).conditions
      && (cq.value.target.DistinctValues? <==> SingleFieldDistinct(req))
      && (SingleFieldDistinct(req) ==> ReadQuery(q).shape == Fields([(req.fields.value[0], ReadCount(cq.value).tally.chain)]))
  {
    var q := CompileQuery(reg, req).value;
    QueryReads(reg, req);
    CountReads(reg, q.entity, req);
  }

  // ---------------------------------------------------------------------------
  // Window and page count
  // ---------------------------------------------------------------------------

  /** A window whose first row fits in an int skips exactly page * size rows. */
  lemma WindowExact(req: RequestView)
    requires !req.isExport && 0 <= req.page && 0 <= req.size && req.page as int * req.size as int <= INT_MAX as int
    ensures var w := WindowOf(req);
      w.Success? && w.value.Some? && w.value.value.first as int == req.page as int * req.size as int && w.value.value.max == req.size
  {
    var x := req.page as int * req.size as int;
    ProductNonNegative(req.page as int, req.size as int);
    assert Wrap32(x) as int == x;
  }

  lemma ProductNonNegative(a: int, b: int)
    requires 0 <= a && 0 <= b
    ensures 0 <= a * b
  {
  }

  /** Negative pages or sizes are rejected outside export mode; in export mode every row
      is fetched, whatever the page and size say. */
  lemma WindowRejects(req: RequestView)
    ensures req.isExport ==> WindowOf(req) == Success(None)
    ensures !req.isExport && (req.size < 0 || (req.page < 0 && req.size > 0 && req.page as int * req.size as int >= -0x8000_0000))
      ==> WindowOf(req) == Failure(NegativeWindow)
  {
  }

  /** page * size is an int product: page 2^30 of size 4 wraps to offset 0, the first page. */
  lemma WindowWraps()
    ensures var req := RequestView(Some("Employee"), None, Some([]), 0x4000_0000, 4, None, None, false, false);
      WindowOf(req) == Success(Some(Window(0, 4)))
  {
  }

  /** With rows per page, the page count is the least number of pages that hold every row,
      or the largest int when that does not fit; without rows per page it is 0 for no rows
      and the largest int otherwise. */
  lemma TotalPagesCover(total: nat, size: int32)
    requires size >= 0
    ensures var tp := TotalPages(total, size);
      && 0 <= tp
      && (size > 0 ==> (tp == INT_MAX || total <= tp as int * size as int))
      && (size > 0 ==> (tp == 0 || (tp as int - 1) * size as int < total))
      && (size == 0 ==> (tp == 0 <==> total == 0))
      && (size == 0 && total > 0 ==> tp == INT_MAX)
  {
    if size > 0 {
      var n := size as int;
      var q := (total + n - 1) / n;
      assert q * n <= total + n - 1 < q * n + n;
    }
  }

  // ---------------------------------------------------------------------------
  // The response
  // ---------------------------------------------------------------------------

  /** fetchData fails exactly when the data query cannot be compiled, or an export cannot
      be written; the error is the query's own, or the export failure. */
  lemma FetchFails(reg: Registry, req: RequestView, run: Query -> seq<Tuple>, count: CountQuery -> nat, tmpdir: string, writes: bool)
    ensures var r := Fetch(reg, req, run, count, tmpdir, writes); var q := CompileQuery(reg, req);
      && (r.Failure? <==> q.Failure? || (req.isExport && !writes))
      && (q.Failure? ==> r.error == q.error)
      && (q.Success? && r.Failure? ==> r.error == ExportFailed)
  {
    if CompileQuery(reg, req).Success? {
      CountMatchesData(reg, req);
    }
  }

  /** Outside export mode a successful fetch answers one record per tuple of the windowed
      data query, the count of the count query, the page and size as requested, and a page
      count that covers the total. */
  lemma FetchPage(reg: Registry, req: RequestView, run: Query -> seq<Tuple>, count: CountQuery -> nat, tmpdir: string, writes: bool)
    requires !req.isExport && CompileQuery(reg, req).Success?
    ensures var q := CompileQuery(reg, req).value; var r := Fetch(reg, req, run, count, tmpdir, writes);
      && q.window == Some(Window(Wrap32(req.page as int * req.size as int), req.size))
      && CompileCount(reg, q.entity, req).Success?
      && r.Success? && r.value.Page?
      && r.value.content == Records(req, run(q))
      && r.value.totalElements == count(CompileCount(reg, q.entity, req).value)
      && r.value.page == req.page && r.value.size == req.size
      && r.value.totalPages == TotalPages(r.value.totalElements, req.size)
  {
    CountMatchesData(reg, req);
  }

  /** In export mode the whole unwindowed result is exported: the workbook of one record
      per tuple, or the export failure when the file cannot be written. */
  lemma FetchExport(reg: Registry, req: RequestView, run: Query -> seq<Tuple>, count: CountQuery -> nat, tmpdir: string, writes: bool)
    requires req.isExport && CompileQuery(reg, req).Success?
    ensures var q := CompileQuery(reg, req).value; var r := Fetch(reg, req, run, count, tmpdir, writes);
      && q.window == None
      && (writes ==> r == Success(Workbook(ExportWorkbook(Records(req, run(q)), req.entity, req.fields, tmpdir, true).value)))
      && (!writes ==> r == Failure(ExportFailed))
  {
    CountMatchesData(reg, req);
  }

  /** A null entity, or a name the model package lacks, fails before anything is compiled. */
  lemma FetchUnknownEntity(reg: Registry, req: RequestView, run: Query -> seq<Tuple>, count: CountQuery -> nat, tmpdir: string, writes: bool)
    requires req.entity.None? || req.entity.value !in reg
    ensures Fetch(reg, req, run, count, tmpdir, writes)
      == Failure(UnknownEntity(if req.entity.None? then "null" else req.entity.value))
  {
  }
}
