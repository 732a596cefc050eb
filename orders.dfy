/** The order compiler (GenericQueryService.buildOrders): a non-empty list of sort specs
    gives one order per spec, in list order, and the legacy "field,dir" string is read
    only when that list is null or empty. Directions compare with "desc" ignoring case;
    anything else, null included, is ascending. */
module Orders {
  import opened Wrappers
  import opened Strings
  import opened Values
  import opened Schema
  import opened Joins
  import opened Request

  /** cb.desc(path) or cb.asc(path). */
  datatype Order = Order(path: PathRef, descending: bool)

  /** The orders compiled so far, with the From tree and join cache after them. */
  datatype Ordered = Ordered(orders: seq<Order>, graph: Graph, cache: Cache)

  /** "desc".equalsIgnoreCase(direction); false for a null direction. */
  predicate IsDesc(direction: Option<string>)
  {
    direction.Some? && EqualsIgnoreCase("desc", direction.value)
  }

  /** The loop over the sort specs from spec `i` on, with `acc` the orders added so far.
      A spec whose field is null makes getPath throw. */
  function SortFrom(reg: Registry, g: Graph, c: Cache, sorts: seq<Sort>, i: nat, acc: seq<Order>): (r: Result<Ordered, Error>)
    requires i <= |sorts| && |g| >= 1 && InRange(g, c)
    ensures r.Success? ==> |g| <= |r.value.graph| && InRange(r.value.graph, r.value.cache)
    decreases |sorts| - i
  {
    if i == |sorts| then Success(Ordered(acc, g, c))
    else if sorts[i].field.None? then Failure(NullValue)
    else
      match Resolve(reg, g, c, sorts[i].field.value)
      case Failure(e) => Failure(e)
      case Success(p) => SortFrom(reg, p.graph, p.cache, sorts, i + 1, acc + [Order(p.path, IsDesc(sorts[i].direction))])
  }

  /** The legacy sort string: one order on the part before the first ',', descending when
      the part after it is "desc" in any case. A string that splits into no pieces at all
      (only commas) makes `sp[0]` throw. */
  function LegacyOrder(reg: Registry, g: Graph, c: Cache, sort: string): (r: Result<Ordered, Error>)
    requires |g| >= 1 && InRange(g, c)
    ensures r.Success? ==> |g| <= |r.value.graph| && InRange(r.value.graph, r.value.cache)
  {
    var sp := JavaSplit(sort, ',');
    if |sp| == 0 then Failure(NoPathSegments)
    else
      match Resolve(reg, g, c, sp[0])
      case Failure(e) => Failure(e)
      case Success(p) => Success(Ordered([Order(p.path, |sp| > 1 && IsDesc(Some(sp[1])))], p.graph, p.cache))
  }

  /** buildOrders(root, joins, request) on the request's `sorts` and `sort`. */
  function CompileOrders(reg: Registry, g: Graph, c: Cache, sorts: Option<seq<Sort>>, sort: Option<string>): (r: Result<Ordered, Error>)
    requires |g| >= 1 && InRange(g, c)
    ensures r.Success? ==> |g| <= |r.value.graph| && InRange(r.value.graph, r.value.cache)
  {
    if sorts.Some? && |sorts.value| > 0 then SortFrom(reg, g, c, sorts.value, 0, [])
    else if sort.Some? && |sort.value| > 0 then LegacyOrder(reg, g, c, sort.value)
    else Success(Ordered([], g, c))
  }

  method BuildOrders(reg: Registry, root: JoinGraph, joins: JoinCache, sorts: Option<seq<Sort>>, sort: Option<string>)
    returns (r: Result<seq<Order>, Error>)
    requires |root.nodes| >= 1 && InRange(root.nodes, joins.entries)
    modifies root, joins
    ensures var s := CompileOrders(reg, old(root.nodes), old(joins.entries), sorts, sort);
      && r.Success? == s.Success?
      && (s.Failure? ==> r.error == s.error)
      && (s.Success? ==> r.value == s.value.orders && root.nodes == s.value.graph && joins.entries == s.value.cache)
  {
    var orders: seq<Order> := [];
    if sorts.Some? && |sorts.value| > 0 {
      r := BuildSortOrders(reg, root, joins, sorts.value);
      return;
    } else if sort.Some? && |sort.value| > 0 {
      var sp := JavaSplit(sort.value, ',');
      if |sp| == 0 {
        return Failure(NoPathSegments);
      }
      var p := GetPath(reg, root, sp[0], joins);
      if p.Failure? {
        return Failure(p.error);
      }
      if |sp| > 1 && IsDesc(Some(sp[1])) {
        orders := orders + [Order(p.value, true)];
      } else {
        orders := orders + [Order(p.value, false)];
      }
    }
    return Success(orders);
  }

  /** The loop of buildOrders over a non-empty sort list. */
  method BuildSortOrders(reg: Registry, root: JoinGraph, joins: JoinCache, specs: seq<Sort>)
    returns (r: Result<seq<Order>, Error>)
    requires |root.nodes| >= 1 && InRange(root.nodes, joins.entries)
    modifies root, joins
    ensures var s := SortFrom(reg, old(root.nodes), old(joins.entries), specs, 0, []);
      && r.Success? == s.Success?
      && (s.Failure? ==> r.error == s.error)
      && (s.Success? ==> r.value == s.value.orders && root.nodes == s.value.graph && joins.entries == s.value.cache)
  {
    var orders: seq<Order> := [];
    var i := 0;
    while i < |specs|
      invariant 0 <= i <= |specs|
      invariant |root.nodes| >= 1 && InRange(root.nodes, joins.entries)
      invariant SortFrom(reg, old(root.nodes), old(joins.entries), specs, 0, [])
             == SortFrom(reg, root.nodes, joins.entries, specs, i, orders)
    {
      if specs[i].field.None? {
        return Failure(NullValue);
      }
      var p := GetPath(reg, root, specs[i].field.value, joins);
      if p.Failure? {
        return Failure(p.error);
      }
      if IsDesc(specs[i].direction) {
        orders := orders + [Order(p.value, true)];
      } else {
        orders := orders + [Order(p.value, false)];
      }
      i := i + 1;
    }
    return Success(orders);
  }

  // ---------------------------------------------------------------------------
  // The reference reading of the sort specs
  // ---------------------------------------------------------------------------

  /** An order read as the attribute chain it sorts on and its direction. */
  function Reading(g: Graph, o: Order): (seq<string>, bool)
  {
    (Chain(g, o.path), o.descending)
  }

  function Readings(g: Graph, os: seq<Order>): (r: seq<(seq<string>, bool)>)
    ensures |r| == |os|
  {
    seq(|os|, i requires 0 <= i < |os| => Reading(g, os[i]))
  }

  /** One sort spec read without any join cache on a query over `entity`: its field as
      Denote reads it and its direction. */
  function ExpectSort(reg: Registry, entity: string, s: Sort): Result<(seq<string>, bool), Error>
  {
    if s.field.None? then Failure(NullValue)
    else
      match Denote(reg, entity, s.field.value)
      case Failure(e) => Failure(e)
      case Success(chain) => Success((chain, IsDesc(s.direction)))
  }

  /** Each sort spec read on its own. */
  function ExpectEach(reg: Registry, entity: string, sorts: seq<Sort>): (r: seq<Result<(seq<string>, bool), Error>>)
    ensures |r| == |sorts| && forall k :: 0 <= k < |sorts| ==> r[k] == ExpectSort(reg, entity, sorts[k])
  {
    seq(|sorts|, k requires 0 <= k < |sorts| => ExpectSort(reg, entity, sorts[k]))
  }

  /** The sort specs from `i` on, read one by one, or the first spec's error. */
  function ExpectSorts(reg: Registry, entity: string, sorts: seq<Sort>, i: nat): Result<seq<(seq<string>, bool)>, Error>
    requires i <= |sorts|
  {
    Collect(ExpectEach(reg, entity, sorts), i)
  }

  /** buildOrders read without any join cache on a query over `entity`. */
  function ExpectOrders(reg: Registry, entity: string, sorts: Option<seq<Sort>>, sort: Option<string>): Result<seq<(seq<string>, bool)>, Error>
  {
    if sorts.Some? && |sorts.value| > 0 then ExpectSorts(reg, entity, sorts.value, 0)
    else if sort.Some? && |sort.value| > 0 then
      var sp := JavaSplit(sort.value, ',');
      if |sp| == 0 then Failure(NoPathSegments)
      else
        match Denote(reg, entity, sp[0])
        case Failure(e) => Failure(e)
        case Success(chain) => Success([(chain, |sp| > 1 && IsDesc(Some(sp[1])))])
    else Success([])
  }

  /** Every path of the orders is a node of `g`. */
  predicate OrdersIn(g: Graph, os: seq<Order>)
  {
    forall i :: 0 <= i < |os| ==> os[i].path.node < |g|
  }

  /** The sort loop from `i` on agrees with the reference reading, after the orders `acc`. */
  predicate SortsMatch(reg: Registry, g: Graph, acc: seq<Order>, r: Result<Ordered, Error>, x: Result<seq<(seq<string>, bool)>, Error>)
  {
    && (r.Success? <==> x.Success?)
    && (r.Failure? ==> r.error == x.error)
    && (r.Success? ==>
          && Sound(reg, r.value.graph, r.value.cache) && Extends(g, r.value.graph)
          && OrdersIn(r.value.graph, r.value.orders)
          && Readings(r.value.graph, r.value.orders) == Readings(g, acc) + x.value)
  }

  /** Orders built on a From tree read the same on any extension of it. */
  lemma ReadingsExtend(g: Graph, g2: Graph, os: seq<Order>)
    requires Extends(g, g2) && OrdersIn(g, os)
    ensures Readings(g2, os) == Readings(g, os)
  {
    assert g2 == g + g2[|g|..];
    forall i | 0 <= i < |os|
      ensures Reading(g2, os[i]) == Reading(g, os[i])
    {
      SpellExtend(g, g2[|g|..], os[i].path.node);
    }
  }

  lemma ReadingsSnoc(g: Graph, os: seq<Order>, o: Order)
    ensures Readings(g, os + [o]) == Readings(g, os) + [Reading(g, o)]
  {
  }

  lemma SortFromStep(reg: Registry, g: Graph, c: Cache, sorts: seq<Sort>, i: nat, acc: seq<Order>)
    requires i < |sorts| && |g| >= 1 && InRange(g, c) && sorts[i].field.Some?
    ensures var p := Resolve(reg, g, c, sorts[i].field.value);
      SortFrom(reg, g, c, sorts, i, acc)
      == if p.Failure? then Failure(p.error)
         else SortFrom(reg, p.value.graph, p.value.cache, sorts, i + 1, acc + [Order(p.value.path, IsDesc(sorts[i].direction))])
  {
  }

  /** Under a sound cache the sort loop compiles exactly what the reference reads. */
  lemma {:induction false} SortFromReads(reg: Registry, g: Graph, c: Cache, sorts: seq<Sort>, i: nat, acc: seq<Order>)
    requires i <= |sorts| && Sound(reg, g, c) && OrdersIn(g, acc)
    ensures SortsMatch(reg, g, acc, SortFrom(reg, g, c, sorts, i, acc), ExpectSorts(reg, g[0].entity, sorts, i))
    decreases |sorts| - i
  {
    if i < |sorts| && sorts[i].field.Some? {
      var f := sorts[i].field.value;
      var p := Resolve(reg, g, c, f);
      if p.Success? {
        var v := p.value;
        var acc' := acc + [Order(v.path, IsDesc(sorts[i].direction))];
        SortKeeps(reg, g, c, f, acc, IsDesc(sorts[i].direction));
        SortFromReads(reg, v.graph, v.cache, sorts, i + 1, acc');
        SortFromReadsStep(reg, g, c, sorts, i, acc);
      } else {
        SortFromFails(reg, g, c, sorts, i, acc);
      }
    } else if i == |sorts| {
      SortFromEnd(reg, g, c, sorts, acc);
    }
  }

  lemma SortFromEnd(reg: Registry, g: Graph, c: Cache, sorts: seq<Sort>, acc: seq<Order>)
    requires Sound(reg, g, c) && OrdersIn(g, acc)
    ensures SortsMatch(reg, g, acc, SortFrom(reg, g, c, sorts, |sorts|, acc), ExpectSorts(reg, g[0].entity, sorts, |sorts|))
  {
    assert g[..|g|] == g;
    assert Readings(g, acc) + [] == Readings(g, acc);
  }

  /** A spec whose field does not resolve stops the sort loop with the error the reference
      reading names. */
  lemma SortFromFails(reg: Registry, g: Graph, c: Cache, sorts: seq<Sort>, i: nat, acc: seq<Order>)
    requires i < |sorts| && Sound(reg, g, c) && sorts[i].field.Some?
    requires Resolve(reg, g, c, sorts[i].field.value).Failure?
    ensures SortsMatch(reg, g, acc, SortFrom(reg, g, c, sorts, i, acc), ExpectSorts(reg, g[0].entity, sorts, i))
  {
    assert SortFrom(reg, g, c, sorts, i, acc) == Failure(Resolve(reg, g, c, sorts[i].field.value).error) by {
      SortFromStep(reg, g, c, sorts, i, acc);
    }
    ResolveReads(reg, g, c, sorts[i].field.value);
  }

  /** Resolving one more sort field keeps the cache sound, the root, and the orders so far. */
  lemma SortKeeps(reg: Registry, g: Graph, c: Cache, f: string, acc: seq<Order>, desc: bool)
    requires Sound(reg, g, c) && OrdersIn(g, acc) && Resolve(reg, g, c, f).Success?
    ensures var v := Resolve(reg, g, c, f).value;
      Sound(reg, v.graph, v.cache) && OrdersIn(v.graph, acc + [Order(v.path, desc)]) && v.graph[0].entity == g[0].entity
  {
    var v := Resolve(reg, g, c, f).value;
    ResolveReads(reg, g, c, f);
    assert v.graph[..|g|][0] == v.graph[0];
  }

  /** One step of SortFromReads: a spec whose field resolves, given the rest of the loop. */
  lemma SortFromReadsStep(reg: Registry, g: Graph, c: Cache, sorts: seq<Sort>, i: nat, acc: seq<Order>)
    requires i < |sorts| && Sound(reg, g, c) && OrdersIn(g, acc)
    requires sorts[i].field.Some? && Resolve(reg, g, c, sorts[i].field.value).Success?
    requires var v := Resolve(reg, g, c, sorts[i].field.value).value;
      var acc' := acc + [Order(v.path, IsDesc(sorts[i].direction))];
      SortsMatch(reg, v.graph, acc', SortFrom(reg, v.graph, v.cache, sorts, i + 1, acc'), ExpectSorts(reg, g[0].entity, sorts, i + 1))
    ensures SortsMatch(reg, g, acc, SortFrom(reg, g, c, sorts, i, acc), ExpectSorts(reg, g[0].entity, sorts, i))
  {
    var f := sorts[i].field.value;
    var v := Resolve(reg, g, c, f).value;
    var d := Denote(reg, g[0].entity, f);
    assert Extends(g, v.graph) && d.Success? && Chain(v.graph, v.path) == d.value by {
      ResolveReads(reg, g, c, f);
    }
    var o := Order(v.path, IsDesc(sorts[i].direction));
    var r := SortFrom(reg, v.graph, v.cache, sorts, i + 1, acc + [o]);
    var xr := ExpectSorts(reg, g[0].entity, sorts, i + 1);
    var x := ExpectSorts(reg, g[0].entity, sorts, i);
    assert SortFrom(reg, g, c, sorts, i, acc) == r by {
      SortFromStep(reg, g, c, sorts, i, acc);
    }
    assert (xr.Success? ==> x == Success([(d.value, o.descending)] + xr.value)) && (xr.Failure? ==> x == Failure(xr.error)) by {
      ExpectSortsStep(reg, g[0].entity, sorts, i);
    }
    SortsMatchCons(reg, g, v.graph, acc, o, d.value, r, xr, x);
  }

  lemma ExpectSortsStep(reg: Registry, entity: string, sorts: seq<Sort>, i: nat)
    requires i < |sorts| && sorts[i].field.Some? && Denote(reg, entity, sorts[i].field.value).Success?
    ensures var x := ExpectSorts(reg, entity, sorts, i); var xr := ExpectSorts(reg, entity, sorts, i + 1);
      var head := (Denote(reg, entity, sorts[i].field.value).value, IsDesc(sorts[i].direction));
      && (xr.Success? ==> x == Success([head] + xr.value))
      && (xr.Failure? ==> x == Failure(xr.error))
  {
  }

  /** Adding one order read as `head` in front of the rest of the loop. */
  lemma SortsMatchCons(reg: Registry, g: Graph, g2: Graph, acc: seq<Order>, o: Order, head: seq<string>,
                       r: Result<Ordered, Error>, xr: Result<seq<(seq<string>, bool)>, Error>, x: Result<seq<(seq<string>, bool)>, Error>)
    requires Extends(g, g2) && OrdersIn(g, acc) && o.path.node < |g2| && Chain(g2, o.path) == head
    requires SortsMatch(reg, g2, acc + [o], r, xr)
    requires xr.Success? ==> x == Success([(head, o.descending)] + xr.value)
    requires xr.Failure? ==> x == Failure(xr.error)
    ensures SortsMatch(reg, g, acc, r, x)
  {
    if r.Success? {
      assert Readings(g2, acc + [o]) == Readings(g, acc) + [(head, o.descending)] by {
        ReadingsExtend(g, g2, acc);
        ReadingsSnoc(g2, acc, o);
      }
      assert Extends(g, r.value.graph) by {
        assert r.value.graph[..|g|] == r.value.graph[..|g2|][..|g|];
      }
    }
  }

  /** Under a sound cache buildOrders compiles exactly the orders the reference reads. */
  lemma OrdersRead(reg: Registry, g: Graph, c: Cache, sorts: Option<seq<Sort>>, sort: Option<string>)
    requires Sound(reg, g, c)
    ensures SortsMatch(reg, g, [], CompileOrders(reg, g, c, sorts, sort), ExpectOrders(reg, g[0].entity, sorts, sort))
  {
    if sorts.Some? && |sorts.value| > 0 {
      SortFromReads(reg, g, c, sorts.value, 0, []);
    } else if sort.Some? && |sort.value| > 0 {
      LegacyReads(reg, g, c, sort.value);
    }
  }

  /** The legacy sort string compiles to what the reference reads. */
  lemma LegacyReads(reg: Registry, g: Graph, c: Cache, sort: string)
    requires Sound(reg, g, c)
    ensures var sp := JavaSplit(sort, ',');
      SortsMatch(reg, g, [], LegacyOrder(reg, g, c, sort),
        if |sp| == 0 then Failure(NoPathSegments)
        else match Denote(reg, g[0].entity, sp[0])
          case Failure(e) => Failure(e)
          case Success(chain) => Success([(chain, |sp| > 1 && IsDesc(Some(sp[1])))]))
  {
    var sp := JavaSplit(sort, ',');
    if |sp| > 0 {
      ResolveReads(reg, g, c, sp[0]);
      var r := LegacyOrder(reg, g, c, sort);
      if r.Success? {
        assert Readings(r.value.graph, r.value.orders)[0] == Reading(r.value.graph, r.value.orders[0]);
      }
    }
  }

  /** The orders mean the same whichever sound tree and cache they are compiled on. */
  lemma OrdersIndependentOfCache(reg: Registry, g1: Graph, c1: Cache, g2: Graph, c2: Cache, sorts: Option<seq<Sort>>, sort: Option<string>)
    requires Sound(reg, g1, c1) && Sound(reg, g2, c2) && g1[0].entity == g2[0].entity
    ensures var r1 := CompileOrders(reg, g1, c1, sorts, sort); var r2 := CompileOrders(reg, g2, c2, sorts, sort);
      && (r1.Success? <==> r2.Success?)
      && (r1.Failure? ==> r1.error == r2.error)
      && (r1.Success? ==> Readings(r1.value.graph, r1.value.orders) == Readings(r2.value.graph, r2.value.orders))
  {
    OrdersRead(reg, g1, c1, sorts, sort);
    OrdersRead(reg, g2, c2, sorts, sort);
  }

  /** A non-empty sort list decides the orders alone, whatever the legacy string says:
      one order per spec, in list order, on the spec's field and with its direction. */
  lemma SortListOrders(reg: Registry, g: Graph, c: Cache, sorts: seq<Sort>, sort: Option<string>)
    requires Sound(reg, g, c) && |sorts| > 0
    ensures CompileOrders(reg, g, c, Some(sorts), sort) == CompileOrders(reg, g, c, Some(sorts), None)
    ensures var r := CompileOrders(reg, g, c, Some(sorts), sort);
      && (r.Success? <==> forall k :: 0 <= k < |sorts| ==> sorts[k].field.Some? && Denote(reg, g[0].entity, sorts[k].field.value).Success?)
      && (r.Success? ==>
            && Sound(reg, r.value.graph, r.value.cache)
            && |r.value.orders| == |sorts|
            && forall k :: 0 <= k < |sorts| ==>
                 && r.value.orders[k].descending == IsDesc(sorts[k].direction)
                 && Chain(r.value.graph, r.value.orders[k].path) == Denote(reg, g[0].entity, sorts[k].field.value).value)
  {
    var r := SortFrom(reg, g, c, sorts, 0, []);
    assert CompileOrders(reg, g, c, Some(sorts), sort) == r;
    SortFromReads(reg, g, c, sorts, 0, []);
    ExpectSortsShape(reg, g[0].entity, sorts);
    if r.Success? {
      forall k | 0 <= k < |sorts|
        ensures r.value.orders[k].descending == IsDesc(sorts[k].direction)
        ensures Chain(r.value.graph, r.value.orders[k].path) == Denote(reg, g[0].entity, sorts[k].field.value).value
      {
        assert Readings(r.value.graph, r.value.orders)[k] == Reading(r.value.graph, r.value.orders[k]);
      }
    }
  }

  /** The reference reading of a sort list succeeds exactly when every spec has a field
      that names a path, and then reads each spec, in order, as its field's chain and its
      direction. */
  lemma ExpectSortsShape(reg: Registry, entity: string, sorts: seq<Sort>)
    ensures var x := ExpectSorts(reg, entity, sorts, 0);
      && (x.Success? <==> forall k :: 0 <= k < |sorts| ==> sorts[k].field.Some? && Denote(reg, entity, sorts[k].field.value).Success?)
      && (x.Success? ==> |x.value| == |sorts| && forall k :: 0 <= k < |sorts| ==>
            x.value[k] == (Denote(reg, entity, sorts[k].field.value).value, IsDesc(sorts[k].direction)))
  {
    var each := ExpectEach(reg, entity, sorts);
    CollectShape(each, 0);
    forall k | 0 <= k < |sorts|
      ensures each[k].Success? <==> sorts[k].field.Some? && Denote(reg, entity, sorts[k].field.value).Success?
      ensures each[k].Success? ==> each[k].value == (Denote(reg, entity, sorts[k].field.value).value, IsDesc(sorts[k].direction))
    {
      ExpectSortShape(reg, entity, sorts[k]);
    }
  }

  /** One sort spec reads as its field's chain and its direction, or fails when it has no
      field or its field names no path. */
  lemma ExpectSortShape(reg: Registry, entity: string, s: Sort)
    ensures var x := ExpectSort(reg, entity, s);
      && (x.Success? <==> s.field.Some? && Denote(reg, entity, s.field.value).Success?)
      && (x.Success? ==> x.value == (Denote(reg, entity, s.field.value).value, IsDesc(s.direction)))
  {
  }

  /** Without a sort list, a non-empty legacy string gives exactly one order: on the part
      before its first ',', descending only if the part after that comma is "desc" in any
      case. */
  lemma LegacyStringOrder(reg: Registry, g: Graph, c: Cache, sorts: Option<seq<Sort>>, sort: string)
    requires Sound(reg, g, c) && (sorts.None? || |sorts.value| == 0) && |sort| > 0
    ensures var r := CompileOrders(reg, g, c, sorts, Some(sort)); var sp := JavaSplit(sort, ',');
      && (|sp| == 0 ==> r == Failure(NoPathSegments))
      && (|sp| > 0 ==>
            && |sp[0]| <= |sort| && sp[0] == sort[..|sp[0]|] && ',' !in sp[0] && (|sp[0]| < |sort| ==> sort[|sp[0]|] == ',')
            && (r.Success? <==> Denote(reg, g[0].entity, sp[0]).Success?)
            && (r.Success? ==>
                  && |r.value.orders| == 1
                  && Chain(r.value.graph, r.value.orders[0].path) == Denote(reg, g[0].entity, sp[0]).value
                  && r.value.orders[0].descending == (|sp| > 1 && EqualsIgnoreCase("desc", sp[1]))))
  {
    var sp := JavaSplit(sort, ',');
    if |sp| > 0 {
      JavaSplitIsPrefix(sort, ',');
      FirstPieceIsPrefix(sort, ',');
      ResolveReads(reg, g, c, sp[0]);
    }
  }

  /** With neither a sort list nor a legacy string there are no orders, and nothing is
      resolved. */
  lemma NoSortNoOrders(reg: Registry, g: Graph, c: Cache, sorts: Option<seq<Sort>>, sort: Option<string>)
    requires |g| >= 1 && InRange(g, c)
    requires (sorts.None? || |sorts.value| == 0) && (sort.None? || |sort.value| == 0)
    ensures CompileOrders(reg, g, c, sorts, sort) == Success(Ordered([], g, c))
  {
  }

  /** The direction test ignores case: it holds exactly for the strings whose lower-case
      form is "desc". */
  lemma DirectionIgnoresCase(d: string)
    ensures IsDesc(Some(d)) <==> Lower(d) == "desc"
  {
    EqualsIgnoreCaseIsLowerEquality("desc", d);
    assert Lower("desc") == "desc";
  }
}
