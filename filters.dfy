/** The filter compiler (GenericQueryService.buildPredicates and
    buildInSubqueryPredicate): each entry of the request's filter map becomes at most one
    predicate, chosen by an operator suffix on its key, and an `_inSubquery` entry compiles
    a nested spec into a subquery over its own From tree. */
module Filters {
  import opened Wrappers
  import opened Strings
  import opened Values
  import opened Schema
  import opened Joins

  datatype Op = LikeOp | BetweenOp | InSubqueryOp | EqualsOp

  /** The key suffix that selects an operator; equality has none. */
  function Suffix(op: Op): string
  {
    match op
    case LikeOp => "_like"
    case BetweenOp => "_between"
    case InSubqueryOp => "_inSubquery"
    case EqualsOp => ""
  }

  /** The operator of a filter key and the field it applies to: the suffixes are tried in
      the order `_like`, `_between`, `_inSubquery`, and a key with none of them is an
      equality on the whole key. */
  function Classify(key: string): (Op, string)
  {
    if EndsWith(key, Suffix(LikeOp)) then (LikeOp, key[..|key| - |Suffix(LikeOp)|])
    else if EndsWith(key, Suffix(BetweenOp)) then (BetweenOp, key[..|key| - |Suffix(BetweenOp)|])
    else if EndsWith(key, Suffix(InSubqueryOp)) then (InSubqueryOp, key[..|key| - |Suffix(InSubqueryOp)|])
    else (EqualsOp, key)
  }

  /** A compiled criteria predicate; paths are nodes of the From tree it was built on. */
  datatype Pred =
    | Equal(path: PathRef, value: Value)
    | Like(path: PathRef, pattern: string)
    | Between(path: PathRef, low: Value, high: Value)
    | In(path: PathRef, sub: Subquery)

  /** A subquery over its own From tree, selecting one path of it. */
  datatype Subquery = Subquery(entity: string, joins: Graph, where: seq<Pred>, select: PathRef)

  function OpOf(p: Pred): Op
  {
    match p
    case Equal(_, _) => EqualsOp
    case Like(_, _) => LikeOp
    case Between(_, _, _) => BetweenOp
    case In(_, _) => InSubqueryOp
  }

  /** Predicates compiled so far, with the From tree and join cache after them. */
  datatype Compiled = Compiled(preds: seq<Pred>, graph: Graph, cache: Cache)

  /** The state a compilation hands on satisfies what the next resolution needs. */
  predicate Grows(g: Graph, r: Compiled)
  {
    |g| <= |r.graph| && InRange(r.graph, r.cache)
  }

  /** The `_like` pattern: the value's string form, lower-cased, between two wildcards. */
  function LikePattern(val: Value): string
  {
    "%" + Lower(Show(val)) + "%"
  }

  /** buildPredicates' loop from entry `i` on, with `acc` the predicates added so far. */
  function CompileFrom(reg: Registry, g: Graph, c: Cache, es: Entries, i: nat, acc: seq<Pred>): (r: Result<Compiled, Error>)
    requires i <= |es| && |g| >= 1 && InRange(g, c)
    ensures r.Success? ==> Grows(g, r.value)
    decreases Object(es), 0, |es| - i
  {
    if i == |es| then Success(Compiled(acc, g, c))
    else
      assert es[i] in es;
      match CompileEntry(reg, g, c, es[i].0, es[i].1)
      case Failure(e) => Failure(e)
      case Success(step) => CompileFrom(reg, step.graph, step.cache, es, i + 1, acc + step.preds)
  }

  /** One iteration of buildPredicates' loop: the predicates the entry adds (none or one),
      and the From tree and cache after it. */
  function CompileEntry(reg: Registry, g: Graph, c: Cache, key: string, val: Value): (r: Result<Compiled, Error>)
    requires |g| >= 1 && InRange(g, c)
    ensures r.Success? ==> Grows(g, r.value)
    decreases val, 3
  {
    var (op, field) := Classify(key);
    match op
    case LikeOp => CompileLike(reg, g, c, field, val)
    case BetweenOp => CompileBetween(reg, g, c, field, val)
    case InSubqueryOp => CompileIn(reg, g, c, field, val)
    case EqualsOp => CompileEqual(reg, g, c, key, val)
  }

  /** `field_like`: the path is resolved first, and only then is the value's toString taken. */
  function CompileLike(reg: Registry, g: Graph, c: Cache, field: string, val: Value): (r: Result<Compiled, Error>)
    requires |g| >= 1 && InRange(g, c)
    ensures r.Success? ==> Grows(g, r.value)
  {
    match Resolve(reg, g, c, field)
    case Failure(e) => Failure(e)
    case Success(p) =>
      if val.Null? then Failure(NullValue)
      else Success(Compiled([Like(p.path, LikePattern(val))], p.graph, p.cache))
  }

  /** `field_between`: the value is cast to a list; a null list or one of fewer than two
      elements adds nothing and resolves nothing. */
  function CompileBetween(reg: Registry, g: Graph, c: Cache, field: string, val: Value): (r: Result<Compiled, Error>)
    requires |g| >= 1 && InRange(g, c)
    ensures r.Success? ==> Grows(g, r.value)
  {
    if val.Null? then Success(Compiled([], g, c))
    else if !val.List? then Failure(WrongValueType)
    else if |val.items| < 2 then Success(Compiled([], g, c))
    else
      var low := NormalizeComparable(val.items[0]);
      var high := NormalizeComparable(val.items[1]);
      match Resolve(reg, g, c, field)
      case Failure(e) => Failure(e)
      case Success(p) => Success(Compiled([Between(p.path, low, high)], p.graph, p.cache))
  }

  /** `field_inSubquery`: the value is cast to a map and compiled as a subquery spec; the
      caller's cache is not handed on. */
  function CompileIn(reg: Registry, g: Graph, c: Cache, field: string, val: Value): (r: Result<Compiled, Error>)
    requires |g| >= 1 && InRange(g, c)
    ensures r.Success? ==> Grows(g, r.value)
    decreases val, 2
  {
    if val.Null? then Failure(NullValue)
    else if !val.Object? then Failure(WrongValueType)
    else
      match CompileSubquery(reg, g, field, val.entries)
      case Failure(e) => Failure(e)
      case Success(s) => Success(Compiled([s.0], s.1, c))
  }

  /** A key without operator suffix: equality on the whole key. */
  function CompileEqual(reg: Registry, g: Graph, c: Cache, key: string, val: Value): (r: Result<Compiled, Error>)
    requires |g| >= 1 && InRange(g, c)
    ensures r.Success? ==> Grows(g, r.value)
  {
    match Resolve(reg, g, c, key)
    case Failure(e) => Failure(e)
    case Success(p) => Success(Compiled([Equal(p.path, val)], p.graph, p.cache))
  }

  /** A spec entry that is present but is not of the type the cast expects. */
  predicate CastFails(v: Option<Value>, wantString: bool)
  {
    v.Some? && !v.value.Null? && (if wantString then !v.value.Str? else !v.value.Object?)
  }

  /** A spec entry that is missing or null. */
  predicate Absent(v: Option<Value>)
  {
    v.None? || v.value.Null?
  }

  /** buildInSubqueryPredicate(root, mainField, spec): the `in` predicate and the main From
      tree after it. The subquery's filters and its selected field are compiled on a fresh
      From tree of the sub-entity with a fresh cache; the main-side path is resolved with a
      fresh cache too, so only the main From tree can change. */
  function CompileSubquery(reg: Registry, g: Graph, mainField: string, spec: Entries): (r: Result<(Pred, Graph), Error>)
    requires |g| >= 1
    ensures r.Success? ==> |g| <= |r.value.1| && r.value.0.In?
    decreases Object(spec), 1, 0
  {
    var entity := Get(spec, "entity");
    var field := Get(spec, "field");
    var j := Find(spec, "filters");
    var filters := if j < |spec| then Some(spec[j].1) else None;
    if CastFails(entity, true) || CastFails(field, true) || CastFails(filters, false) then Failure(WrongValueType)
    else if Absent(entity) || Absent(field) then Failure(IncompleteSubquery)
    else if entity.value.s !in reg then Failure(UnknownEntity(entity.value.s))
    else
      var e := entity.value.s;
      var where :=
        if Absent(filters) then Success(Compiled([], RootGraph(e), map[]))
        else
          assert spec[j] in spec;
          CompileFrom(reg, RootGraph(e), map[], filters.value.entries, 0, []);
      SelectSubquery(reg, g, mainField, e, field.value.s, where)
  }

  /** The rest of buildInSubqueryPredicate once the subquery's where clause is built: the
      selected field is resolved on the subquery's root, then the main field on a fresh cache. */
  function SelectSubquery(reg: Registry, g: Graph, mainField: string, e: string, field: string, where: Result<Compiled, Error>)
    : (r: Result<(Pred, Graph), Error>)
    requires |g| >= 1
    requires where.Success? ==> |where.value.graph| >= 1 && InRange(where.value.graph, where.value.cache)
    ensures r.Success? ==> |g| <= |r.value.1| && r.value.0.In?
  {
    match where
    case Failure(err) => Failure(err)
    case Success(w) =>
      match Resolve(reg, w.graph, w.cache, field)
      case Failure(err) => Failure(err)
      case Success(sel) =>
        match Resolve(reg, g, map[], mainField)
        case Failure(err) => Failure(err)
        case Success(m) => Success((In(m.path, Subquery(e, sel.graph, w.preds, sel.path)), m.graph))
  }

  /** buildPredicates(root, joins, filters) on the request's filter map, null included. */
  function CompileFilters(reg: Registry, g: Graph, c: Cache, filters: Option<Entries>): (r: Result<Compiled, Error>)
    requires |g| >= 1 && InRange(g, c)
    ensures r.Success? ==> Grows(g, r.value)
  {
    match filters
    case None => Success(Compiled([], g, c))
    case Some(es) => CompileFrom(reg, g, c, es, 0, [])
  }

  // ---------------------------------------------------------------------------
  // The in-place compiler
  // ---------------------------------------------------------------------------

  function Nest(filters: Option<Entries>): Value
  {
    match filters
    case None => Null
    case Some(es) => Object(es)
  }

  method BuildPredicates(reg: Registry, root: JoinGraph, joins: JoinCache, filters: Option<Entries>)
    returns (r: Result<seq<Pred>, Error>)
    requires |root.nodes| >= 1 && InRange(root.nodes, joins.entries)
    modifies root, joins
    ensures var s := CompileFilters(reg, old(root.nodes), old(joins.entries), filters);
      && r.Success? == s.Success?
      && (s.Failure? ==> r.error == s.error)
      && (s.Success? ==> r.value == s.value.preds && root.nodes == s.value.graph && joins.entries == s.value.cache)
    decreases Nest(filters), 1
  {
    if filters.None? {
      return Success([]);
    }
    r := BuildFrom(reg, root, joins, filters.value);
  }

  /** The loop of buildPredicates over the entries of a filter map. */
  method BuildFrom(reg: Registry, root: JoinGraph, joins: JoinCache, es: Entries)
    returns (r: Result<seq<Pred>, Error>)
    requires |root.nodes| >= 1 && InRange(root.nodes, joins.entries)
    modifies root, joins
    ensures var s := CompileFrom(reg, old(root.nodes), old(joins.entries), es, 0, []);
      && r.Success? == s.Success?
      && (s.Failure? ==> r.error == s.error)
      && (s.Success? ==> r.value == s.value.preds && root.nodes == s.value.graph && joins.entries == s.value.cache)
    decreases Object(es), 0
  {
    var predicates: seq<Pred> := [];
    var i := 0;
    while i < |es|
      invariant 0 <= i <= |es|
      invariant |root.nodes| >= 1 && InRange(root.nodes, joins.entries)
      invariant CompileFrom(reg, old(root.nodes), old(joins.entries), es, 0, [])
             == CompileFrom(reg, root.nodes, joins.entries, es, i, predicates)
    {
      var (key, val) := es[i];
      assert es[i] in es;
      CompileFromStep(reg, root.nodes, joins.entries, es, i, predicates);
      var step := BuildEntry(reg, root, joins, key, val);
      if step.Failure? {
        return Failure(step.error);
      }
      predicates := predicates + step.value;
      i := i + 1;
    }
    return Success(predicates);
  }

  /** The body of buildPredicates' loop for the entry `key`: the predicates it adds to the list. */
  method BuildEntry(reg: Registry, root: JoinGraph, joins: JoinCache, key: string, val: Value)
    returns (r: Result<seq<Pred>, Error>)
    requires |root.nodes| >= 1 && InRange(root.nodes, joins.entries)
    modifies root, joins
    ensures var s := CompileEntry(reg, old(root.nodes), old(joins.entries), key, val);
      && r.Success? == s.Success?
      && (s.Failure? ==> r.error == s.error)
      && (s.Success? ==> r.value == s.value.preds && root.nodes == s.value.graph && joins.entries == s.value.cache)
    decreases val, 3
  {
    var (op, field) := Classify(key);
    if op == LikeOp {
      var p := GetPath(reg, root, field, joins);
      if p.Failure? {
        return Failure(p.error);
      }
      if val.Null? {
        return Failure(NullValue);
      }
      return Success([Like(p.value, LikePattern(val))]);
    } else if op == BetweenOp {
      if !val.Null? && !val.List? {
        return Failure(WrongValueType);
      }
      if !val.Null? && |val.items| >= 2 {
        var low := NormalizeComparable(val.items[0]);
        var high := NormalizeComparable(val.items[1]);
        var p := GetPath(reg, root, field, joins);
        if p.Failure? {
          return Failure(p.error);
        }
        return Success([Between(p.value, low, high)]);
      }
      return Success([]);
    } else if op == InSubqueryOp {
      if val.Null? {
        return Failure(NullValue);
      }
      if !val.Object? {
        return Failure(WrongValueType);
      }
      var p := BuildInSubqueryPredicate(reg, root, field, val.entries);
      if p.Failure? {
        return Failure(p.error);
      }
      return Success([p.value]);
    } else {
      var p := GetPath(reg, root, key, joins);
      if p.Failure? {
        return Failure(p.error);
      }
      return Success([Equal(p.value, val)]);
    }
  }

  /** One step of buildPredicates' loop. */
  lemma CompileFromStep(reg: Registry, g: Graph, c: Cache, es: Entries, i: nat, acc: seq<Pred>)
    requires i < |es| && |g| >= 1 && InRange(g, c)
    ensures var step := CompileEntry(reg, g, c, es[i].0, es[i].1);
      CompileFrom(reg, g, c, es, i, acc)
      == if step.Failure? then Failure(step.error)
         else CompileFrom(reg, step.value.graph, step.value.cache, es, i + 1, acc + step.value.preds)
  {
  }

  method BuildInSubqueryPredicate(reg: Registry, root: JoinGraph, mainField: string, spec: Entries)
    returns (r: Result<Pred, Error>)
    requires |root.nodes| >= 1
    modifies root
    ensures var s := CompileSubquery(reg, old(root.nodes), mainField, spec);
      && r.Success? == s.Success?
      && (s.Failure? ==> r.error == s.error)
      && (s.Success? ==> r.value == s.value.0 && root.nodes == s.value.1)
    decreases Object(spec), 1
  {
    var entity := Get(spec, "entity");
    var field := Get(spec, "field");
    var j := Find(spec, "filters");
    var filters := if j < |spec| then Some(spec[j].1) else None;
    if CastFails(entity, true) || CastFails(field, true) || CastFails(filters, false) {
      return Failure(WrongValueType);
    }
    if Absent(entity) || Absent(field) {
      return Failure(IncompleteSubquery);
    }
    var e := entity.value.s;
    if e !in reg {
      return Failure(UnknownEntity(e));
    }
    var subRoot := new JoinGraph(e);
    var subJoins := new JoinCache();
    var subPreds: seq<Pred> := [];
    if !Absent(filters) {
      assert spec[j] in spec;
      var w := BuildPredicates(reg, subRoot, subJoins, Some(filters.value.entries));
      if w.Failure? {
        return Failure(w.error);
      }
      subPreds := w.value;
    }
    var subPath := GetPath(reg, subRoot, field.value.s, subJoins);
    if subPath.Failure? {
      return Failure(subPath.error);
    }
    var mainJoins := new JoinCache();
    var mainPath := GetPath(reg, root, mainField, mainJoins);
    if mainPath.Failure? {
      return Failure(mainPath.error);
    }
    return Success(In(mainPath.value, Subquery(e, subRoot.nodes, subPreds, subPath.value)));
  }

  // ---------------------------------------------------------------------------
  // Classification
  // ---------------------------------------------------------------------------

  /** No operator suffix ends with another one, so a suffixed key is read back as the
      operator and field it was built from. */
  lemma ClassifySuffixed(field: string, op: Op)
    requires op != EqualsOp
    ensures Classify(field + Suffix(op)) == (op, field)
  {
    var key := field + Suffix(op);
    assert key[|key| - |Suffix(op)|..] == Suffix(op);
    assert key[..|key| - |Suffix(op)|] == field;
    assert key[|key| - 1] == Suffix(op)[|Suffix(op)| - 1];
    EndsWithLast(key, Suffix(LikeOp));
    EndsWithLast(key, Suffix(BetweenOp));
  }

  /** Classification splits the key into field and suffix, tries the suffixes in the order
      `_like`, `_between`, `_inSubquery`, and reads a key with none of them as equality. */
  lemma ClassifySplits(key: string)
    ensures var (op, field) := Classify(key);
      && key == field + Suffix(op)
      && (op != LikeOp ==> !EndsWith(key, Suffix(LikeOp)))
      && (op != LikeOp && op != BetweenOp ==> !EndsWith(key, Suffix(BetweenOp)))
      && (op == EqualsOp <==> forall o :: o != EqualsOp ==> !EndsWith(key, Suffix(o)))
  {
    var (op, field) := Classify(key);
    if op != EqualsOp {
      assert key == key[..|key| - |Suffix(op)|] + key[|key| - |Suffix(op)|..];
    } else {
      forall o | o != EqualsOp
        ensures !EndsWith(key, Suffix(o))
      {
        assert o == LikeOp || o == BetweenOp || o == InSubqueryOp;
      }
    }
  }

  // ---------------------------------------------------------------------------
  // What each entry adds
  // ---------------------------------------------------------------------------

  /** An entry adds a predicate unless it is a `_between` whose value is null or a list
      of fewer than two elements. */
  predicate Emits(key: string, val: Value)
  {
    !(Classify(key).0 == BetweenOp && (val.Null? || (val.List? && |val.items| < 2)))
  }

  /** The operators of the predicates, in order. */
  function Ops(ps: seq<Pred>): seq<Op>
  {
    seq(|ps|, i requires 0 <= i < |ps| => OpOf(ps[i]))
  }

  /** The operators of the entries from `i` on that add a predicate, in enumeration order. */
  function EmittedOps(es: Entries, i: nat): seq<Op>
    requires i <= |es|
    decreases |es| - i
  {
    if i == |es| then []
    else (if Emits(es[i].0, es[i].1) then [Classify(es[i].0).0] else []) + EmittedOps(es, i + 1)
  }

  /** The loop adds, in order, one predicate for each emitting entry, of that entry's operator. */
  lemma {:induction false} CompileFromOps(reg: Registry, g: Graph, c: Cache, es: Entries, i: nat, acc: seq<Pred>)
    requires i <= |es| && |g| >= 1 && InRange(g, c)
    ensures var r := CompileFrom(reg, g, c, es, i, acc);
      r.Success? ==> Ops(r.value.preds) == Ops(acc) + EmittedOps(es, i)
    decreases |es| - i
  {
    if i < |es| {
      var step := CompileEntry(reg, g, c, es[i].0, es[i].1);
      CompileFromStep(reg, g, c, es, i, acc);
      if step.Success? {
        CompileEntryStep(reg, g, c, es[i].0, es[i].1);
        CompileFromOps(reg, step.value.graph, step.value.cache, es, i + 1, acc + step.value.preds);
        assert Ops(acc + step.value.preds) == Ops(acc) + Ops(step.value.preds);
      }
    }
  }

  /** buildPredicates on a null map gives no predicates; on a map, one predicate per
      emitting entry, in enumeration order. */
  lemma CompileFiltersOps(reg: Registry, g: Graph, c: Cache, filters: Option<Entries>)
    requires |g| >= 1 && InRange(g, c)
    ensures var r := CompileFilters(reg, g, c, filters);
      && (filters.None? ==> r == Success(Compiled([], g, c)))
      && (r.Success? ==> Ops(r.value.preds) == if filters.None? then [] else EmittedOps(filters.value, 0))
  {
    if filters.Some? {
      CompileFromOps(reg, g, c, filters.value, 0, []);
    }
  }

  // ---------------------------------------------------------------------------
  // The join cache
  // ---------------------------------------------------------------------------

  /** Every entry of `c` is in `c2`, unchanged. */
  predicate Keeps(c: Cache, c2: Cache)
  {
    forall k :: k in c ==> k in c2 && c2[k] == c[k]
  }

  /** The cache keys an entry's resolution uses: those of its field for `_like`, an emitting
      `_between` and equality; none for `_inSubquery`, whose paths use caches of their own. */
  function EntryJoinKeys(key: string, val: Value): set<string>
  {
    var (op, field) := Classify(key);
    if op == InSubqueryOp || !Emits(key, val) then {} else JoinKeys(field)
  }

  /** The cache keys the entries from `i` on use. */
  function FilterJoinKeys(es: Entries, i: nat): set<string>
    requires i <= |es|
    decreases |es| - i
  {
    if i == |es| then {} else EntryJoinKeys(es[i].0, es[i].1) + FilterJoinKeys(es, i + 1)
  }

  /** An entry that compiles adds one predicate of its key's operator, or none exactly when
      it does not emit; it keeps every cache entry and adds exactly the join keys of its
      field, so an `_inSubquery` entry leaves the caller's cache as it was. */
  lemma CompileEntryStep(reg: Registry, g: Graph, c: Cache, key: string, val: Value)
    requires |g| >= 1 && InRange(g, c)
    ensures var r := CompileEntry(reg, g, c, key, val);
      r.Success? ==>
        && Ops(r.value.preds) == (if Emits(key, val) then [Classify(key).0] else [])
        && Keeps(c, r.value.cache)
        && r.value.cache.Keys == c.Keys + EntryJoinKeys(key, val)
        && (Classify(key).0 == InSubqueryOp ==> r.value.cache == c)
  {
    if Classify(key).0 == InSubqueryOp {
      InEntryStep(reg, g, c, key, val);
    } else {
      ResolvedEntryStep(reg, g, c, key, val);
    }
  }

  /** CompileEntryStep for an `_inSubquery` entry: one predicate, and the caller's cache. */
  lemma InEntryStep(reg: Registry, g: Graph, c: Cache, key: string, val: Value)
    requires |g| >= 1 && InRange(g, c) && Classify(key).0 == InSubqueryOp
    ensures var r := CompileEntry(reg, g, c, key, val);
      r.Success? ==> Ops(r.value.preds) == [InSubqueryOp] && r.value.cache == c
  {
  }

  /** CompileEntryStep for the entries that resolve their field. */
  lemma ResolvedEntryStep(reg: Registry, g: Graph, c: Cache, key: string, val: Value)
    requires |g| >= 1 && InRange(g, c) && Classify(key).0 != InSubqueryOp
    ensures var r := CompileEntry(reg, g, c, key, val);
      r.Success? ==>
        && Ops(r.value.preds) == (if Emits(key, val) then [Classify(key).0] else [])
        && Keeps(c, r.value.cache)
        && r.value.cache.Keys == c.Keys + EntryJoinKeys(key, val)
  {
    var (op, field) := Classify(key);
    assert CompileEntry(reg, g, c, key, val) == ResolvedEntry(reg, g, c, field, val, op);
    ResolvedStep(reg, g, c, field, val, op);
  }

  /** The compilation of a `_like`, `_between` or equality entry on `field`. */
  function ResolvedEntry(reg: Registry, g: Graph, c: Cache, field: string, val: Value, op: Op): Result<Compiled, Error>
    requires |g| >= 1 && InRange(g, c) && op != InSubqueryOp
  {
    match op
    case LikeOp => CompileLike(reg, g, c, field, val)
    case BetweenOp => CompileBetween(reg, g, c, field, val)
    case EqualsOp => CompileEqual(reg, g, c, field, val)
  }

  /** A `_like`, emitting `_between` or equality entry adds one predicate of its operator
      and leaves the state its field's resolution leaves; a non-emitting `_between` changes
      nothing. */
  lemma ResolvedShape(reg: Registry, g: Graph, c: Cache, field: string, val: Value, op: Op)
    requires |g| >= 1 && InRange(g, c) && op != InSubqueryOp
    ensures var r := ResolvedEntry(reg, g, c, field, val, op); var rr := Resolve(reg, g, c, field);
      r.Success? ==>
        if op == BetweenOp && (val.Null? || (val.List? && |val.items| < 2)) then r.value == Compiled([], g, c)
        else (rr.Success? && r.value.graph == rr.value.graph && r.value.cache == rr.value.cache
              && |r.value.preds| == 1 && OpOf(r.value.preds[0]) == op)
  {
  }

  /** CompileEntryStep for the operators that resolve their field on the caller's cache. */
  lemma ResolvedStep(reg: Registry, g: Graph, c: Cache, field: string, val: Value, op: Op)
    requires |g| >= 1 && InRange(g, c) && op != InSubqueryOp
    ensures var r := ResolvedEntry(reg, g, c, field, val, op);
      var emits := !(op == BetweenOp && (val.Null? || (val.List? && |val.items| < 2)));
      r.Success? ==>
        && Ops(r.value.preds) == (if emits then [op] else [])
        && Keeps(c, r.value.cache)
        && r.value.cache.Keys == c.Keys + (if emits then JoinKeys(field) else {})
  {
    var rr := Resolve(reg, g, c, field);
    var r := ResolvedEntry(reg, g, c, field, val, op);
    ResolvedShape(reg, g, c, field, val, op);
    if r.Success? && !(op == BetweenOp && (val.Null? || (val.List? && |val.items| < 2))) {
      assert Keeps(c, rr.value.cache) && rr.value.cache.Keys == c.Keys + JoinKeys(field) by {
        ResolveCache(reg, g, c, field);
      }
    }
  }

  /** The loop keeps every cache entry and adds exactly the join keys of the entries' fields. */
  lemma {:induction false} CompileFromCache(reg: Registry, g: Graph, c: Cache, es: Entries, i: nat, acc: seq<Pred>)
    requires i <= |es| && |g| >= 1 && InRange(g, c)
    ensures var r := CompileFrom(reg, g, c, es, i, acc);
      r.Success? ==>
        && Keeps(c, r.value.cache)
        && r.value.cache.Keys == c.Keys + FilterJoinKeys(es, i)
    decreases |es| - i
  {
    if i < |es| {
      var step := CompileEntry(reg, g, c, es[i].0, es[i].1);
      CompileFromStep(reg, g, c, es, i, acc);
      if step.Success? {
        CompileEntryStep(reg, g, c, es[i].0, es[i].1);
        CompileFromCache(reg, step.value.graph, step.value.cache, es, i + 1, acc + step.value.preds);
      }
    }
  }

  // ---------------------------------------------------------------------------
  // Subquery specs
  // ---------------------------------------------------------------------------

  /** A subquery spec without `entity` or `field`, whose present entries have the right
      types, is refused with IllegalArgumentException. */
  lemma SubqueryNeedsEntityAndField(reg: Registry, g: Graph, mainField: string, spec: Entries)
    requires |g| >= 1
    requires !CastFails(Get(spec, "entity"), true) && !CastFails(Get(spec, "field"), true)
    requires !CastFails(Get(spec, "filters"), false)
    requires Absent(Get(spec, "entity")) || Absent(Get(spec, "field"))
    ensures CompileSubquery(reg, g, mainField, spec) == Failure(IncompleteSubquery)
  {
  }

  /** A spec with no `filters` entry compiles as if it had an empty one. */
  lemma SubqueryMissingFiltersIsEmpty(reg: Registry, g: Graph, mainField: string, spec: Entries)
    requires |g| >= 1
    requires Find(spec, "filters") == |spec|
    ensures CompileSubquery(reg, g, mainField, spec)
         == CompileSubquery(reg, g, mainField, spec + [("filters", Object([]))])
  {
    var spec' := spec + [("filters", Object([]))];
    FindAppend(spec, ("filters", Object([])), "entity");
    FindAppend(spec, ("filters", Object([])), "field");
    FindAppend(spec, ("filters", Object([])), "filters");
  }
}
