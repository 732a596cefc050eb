/** What the compiled filter predicates mean, independently of the From tree and the join
    cache they were built with: every path is read as the chain of attribute names it
    follows from its query root. A reference reading of the filter map, written with the
    cache-free Denote, is proved to be exactly what buildPredicates and
    buildInSubqueryPredicate compile, whatever sound cache they start from. */
module Conditions {
  import opened Wrappers
  import opened Strings
  import opened Values
  import opened Schema
  import opened Joins
  import opened Filters

  /** A criteria predicate with its paths read as attribute chains. */
  datatype Cond =
    | EqualTo(chain: seq<string>, value: Value)
    /** lower(path) LIKE pattern */
    | LowerLike(chain: seq<string>, pattern: string)
    /** low <= path <= high, both bounds included */
    | Within(chain: seq<string>, low: Value, high: Value)
    /** path IN (select `select` from `entity` where `where`) */
    | MemberOf(chain: seq<string>, entity: string, where: seq<Cond>, select: seq<string>)

  /** The condition a predicate built on From tree `g` states. */
  function Meaning(g: Graph, p: Pred): Cond
    decreases p, 1
  {
    match p
    case Equal(path, v) => EqualTo(Chain(g, path), v)
    case Like(path, pattern) => LowerLike(Chain(g, path), pattern)
    case Between(path, low, high) => Within(Chain(g, path), low, high)
    case In(path, sub) =>
      MemberOf(Chain(g, path), sub.entity, Meanings(sub.joins, sub.where), Chain(sub.joins, sub.select))
  }

  function Meanings(g: Graph, ps: seq<Pred>): seq<Cond>
    decreases ps, 0
  {
    seq(|ps|, i requires 0 <= i < |ps| => Meaning(g, ps[i]))
  }

  /** Every path of the predicates is a node of `g`. */
  predicate PathsIn(g: Graph, ps: seq<Pred>)
  {
    forall i :: 0 <= i < |ps| ==> ps[i].path.node < |g|
  }

  // ---------------------------------------------------------------------------
  // The reference reading of a filter map
  // ---------------------------------------------------------------------------

  /** The conditions of the entries from `i` on, on a query over `entity`, or the error
      the first entry that cannot be compiled raises. */
  function ExpectFrom(reg: Registry, entity: string, es: Entries, i: nat): Result<seq<Cond>, Error>
    requires i <= |es|
    decreases Object(es), 0, |es| - i
  {
    if i == |es| then Success([])
    else
      assert es[i] in es;
      match ExpectEntry(reg, entity, es[i].0, es[i].1)
      case Failure(e) => Failure(e)
      case Success(cs) =>
        match ExpectFrom(reg, entity, es, i + 1)
        case Failure(e) => Failure(e)
        case Success(rest) => Success(cs + rest)
  }

  /** The conditions one entry stands for: none or one. */
  function ExpectEntry(reg: Registry, entity: string, key: string, val: Value): Result<seq<Cond>, Error>
    decreases val, 3
  {
    var (op, field) := Classify(key);
    match op
    case LikeOp => ExpectResolved(reg, entity, field, val, LikeOp)
    case BetweenOp => ExpectResolved(reg, entity, field, val, BetweenOp)
    case InSubqueryOp => ExpectIn(reg, entity, field, val)
    case EqualsOp => ExpectResolved(reg, entity, key, val, EqualsOp)
  }

  /** `_like`, `_between` and equality entries on `field`. */
  function ExpectResolved(reg: Registry, entity: string, field: string, val: Value, op: Op): Result<seq<Cond>, Error>
    requires op != InSubqueryOp
  {
    match op
    case LikeOp =>
      (match Denote(reg, entity, field)
       case Failure(e) => Failure(e)
       case Success(chain) =>
         if val.Null? then Failure(NullValue) else Success([LowerLike(chain, LikePattern(val))]))
    case BetweenOp =>
      if val.Null? then Success([])
      else if !val.List? then Failure(WrongValueType)
      else if |val.items| < 2 then Success([])
      else
        (match Denote(reg, entity, field)
         case Failure(e) => Failure(e)
         case Success(chain) =>
           Success([Within(chain, NormalizeComparable(val.items[0]), NormalizeComparable(val.items[1]))]))
    case EqualsOp =>
      match Denote(reg, entity, field)
      case Failure(e) => Failure(e)
      case Success(chain) => Success([EqualTo(chain, val)])
  }

  /** An `_inSubquery` entry on `field`. */
  function ExpectIn(reg: Registry, entity: string, field: string, val: Value): Result<seq<Cond>, Error>
    decreases val, 2
  {
    if val.Null? then Failure(NullValue)
    else if !val.Object? then Failure(WrongValueType)
    else
      match ExpectSubquery(reg, entity, field, val.entries)
      case Failure(e) => Failure(e)
      case Success(m) => Success([m])
  }

  /** A subquery spec on a query over `entity`: its filters read on the sub-entity, with
      a missing or null `filters` entry standing for none. */
  function ExpectSubquery(reg: Registry, entity: string, mainField: string, spec: Entries): Result<Cond, Error>
    decreases Object(spec), 1
  {
    var subEntity := Get(spec, "entity");
    var field := Get(spec, "field");
    var j := Find(spec, "filters");
    var filters := if j < |spec| then Some(spec[j].1) else None;
    if CastFails(subEntity, true) || CastFails(field, true) || CastFails(filters, false) then Failure(WrongValueType)
    else if Absent(subEntity) || Absent(field) then Failure(IncompleteSubquery)
    else if subEntity.value.s !in reg then Failure(UnknownEntity(subEntity.value.s))
    else
      var e := subEntity.value.s;
      var where :=
        if Absent(filters) then Success([])
        else
          assert spec[j] in spec;
          ExpectFrom(reg, e, filters.value.entries, 0);
      ExpectSelect(reg, entity, mainField, e, field.value.s, where)
  }

  /** The reading of a subquery once its where clause is read. */
  function ExpectSelect(reg: Registry, entity: string, mainField: string, e: string, field: string, where: Result<seq<Cond>, Error>)
    : Result<Cond, Error>
  {
    match where
    case Failure(err) => Failure(err)
    case Success(w) =>
      match Denote(reg, e, field)
      case Failure(err) => Failure(err)
      case Success(sel) =>
        match Denote(reg, entity, mainField)
        case Failure(err) => Failure(err)
        case Success(m) => Success(MemberOf(m, e, w, sel))
  }

  /** The reading of the request's filter map, null included. */
  function ExpectFilters(reg: Registry, entity: string, filters: Option<Entries>): Result<seq<Cond>, Error>
  {
    match filters
    case None => Success([])
    case Some(es) => ExpectFrom(reg, entity, es, 0)
  }

  // ---------------------------------------------------------------------------
  // Reading paths on a larger From tree
  // ---------------------------------------------------------------------------

  lemma MeaningExtend(g: Graph, g2: Graph, p: Pred)
    requires Extends(g, g2) && p.path.node < |g|
    ensures Meaning(g2, p) == Meaning(g, p)
  {
    assert g2 == g + g2[|g|..];
    SpellExtend(g, g2[|g|..], p.path.node);
  }

  /** Predicates built on a From tree mean the same on any extension of it. */
  lemma MeaningsExtend(g: Graph, g2: Graph, ps: seq<Pred>)
    requires Extends(g, g2) && PathsIn(g, ps)
    ensures Meanings(g2, ps) == Meanings(g, ps)
  {
    forall i | 0 <= i < |ps|
      ensures Meaning(g2, ps[i]) == Meaning(g, ps[i])
    {
      MeaningExtend(g, g2, ps[i]);
    }
  }

  /** A sound cache stays sound when the From tree grows by joins. */
  lemma SoundWiden(reg: Registry, g: Graph, g2: Graph, c: Cache)
    requires Sound(reg, g, c) && WellFormed(reg, g2) && Extends(g, g2)
    ensures Sound(reg, g2, c)
  {
    assert g2 == g + g2[|g|..];
    forall k | k in c
      ensures c[k] < |g2| && Spell(g2, c[k]) == SplitAll(k, '.')
    {
      SpellExtend(g, g2[|g|..], c[k]);
    }
  }

  // ---------------------------------------------------------------------------
  // The compiler agrees with the reference reading
  // ---------------------------------------------------------------------------

  /** A compiled entry agrees with its reference reading: both fail with the same error,
      or the predicates mean the conditions read, built on a sound extension of `g`. */
  predicate Matches(reg: Registry, g: Graph, r: Result<Compiled, Error>, x: Result<seq<Cond>, Error>)
  {
    && (r.Success? <==> x.Success?)
    && (r.Failure? ==> r.error == x.error)
    && (r.Success? ==>
          && Sound(reg, r.value.graph, r.value.cache) && Extends(g, r.value.graph)
          && PathsIn(r.value.graph, r.value.preds) && Meanings(r.value.graph, r.value.preds) == x.value)
  }

  /** A `_like`, `_between` or equality entry compiles to the predicate the reference reads. */
  lemma ResolvedMeans(reg: Registry, g: Graph, c: Cache, field: string, val: Value, op: Op)
    requires Sound(reg, g, c) && op != InSubqueryOp
    ensures Matches(reg, g, ResolvedEntry(reg, g, c, field, val, op), ExpectResolved(reg, g[0].entity, field, val, op))
  {
    match op
    case LikeOp => LikeMeans(reg, g, c, field, val);
    case BetweenOp => BetweenMeans(reg, g, c, field, val);
    case EqualsOp => EqualMeans(reg, g, c, field, val);
  }

  lemma LikeMeans(reg: Registry, g: Graph, c: Cache, field: string, val: Value)
    requires Sound(reg, g, c)
    ensures Matches(reg, g, CompileLike(reg, g, c, field, val), ExpectResolved(reg, g[0].entity, field, val, LikeOp))
  {
    ResolveReads(reg, g, c, field);
    var rr := Resolve(reg, g, c, field);
    if rr.Success? && !val.Null? {
      var d := Denote(reg, g[0].entity, field);
      MatchesOne(reg, g, c, field, Like(rr.value.path, LikePattern(val)), LowerLike(d.value, LikePattern(val)));
    }
  }

  lemma BetweenMeans(reg: Registry, g: Graph, c: Cache, field: string, val: Value)
    requires Sound(reg, g, c)
    ensures Matches(reg, g, CompileBetween(reg, g, c, field, val), ExpectResolved(reg, g[0].entity, field, val, BetweenOp))
  {
    if val.Null? || (val.List? && |val.items| < 2) {
      MatchesNothing(reg, g, c);
    } else if val.List? {
      ResolveReads(reg, g, c, field);
      var rr := Resolve(reg, g, c, field);
      if rr.Success? {
        var d := Denote(reg, g[0].entity, field);
        var low := NormalizeComparable(val.items[0]);
        var high := NormalizeComparable(val.items[1]);
        MatchesOne(reg, g, c, field, Between(rr.value.path, low, high), Within(d.value, low, high));
      }
    }
  }

  lemma EqualMeans(reg: Registry, g: Graph, c: Cache, field: string, val: Value)
    requires Sound(reg, g, c)
    ensures Matches(reg, g, CompileEqual(reg, g, c, field, val), ExpectResolved(reg, g[0].entity, field, val, EqualsOp))
  {
    ResolveReads(reg, g, c, field);
    var rr := Resolve(reg, g, c, field);
    if rr.Success? {
      var d := Denote(reg, g[0].entity, field);
      MatchesOne(reg, g, c, field, Equal(rr.value.path, val), EqualTo(d.value, val));
    }
  }

  /** An entry that adds no predicate and resolves nothing. */
  lemma MatchesNothing(reg: Registry, g: Graph, c: Cache)
    requires Sound(reg, g, c)
    ensures Matches(reg, g, Success(Compiled([], g, c)), Success([]))
  {
    assert g[..|g|] == g;
  }

  /** An entry that adds one predicate on the path its field resolves to, read as `cond`. */
  lemma {:induction false} MatchesOne(reg: Registry, g: Graph, c: Cache, field: string, p: Pred, cond: Cond)
    requires Sound(reg, g, c) && Resolve(reg, g, c, field).Success?
    requires var rr := Resolve(reg, g, c, field).value; p.path == rr.path && Meaning(rr.graph, p) == cond
    ensures var rr := Resolve(reg, g, c, field).value;
      && Sound(reg, rr.graph, rr.cache) && Extends(g, rr.graph)
      && PathsIn(rr.graph, [p]) && Meanings(rr.graph, [p]) == [cond]
  {
    var rr := Resolve(reg, g, c, field).value;
    ResolveReads(reg, g, c, field);
    assert Meanings(rr.graph, [p]) == [Meaning(rr.graph, p)];
  }

  /** An `_inSubquery` entry compiles to the subquery condition the reference reads, and
      keeps the caller's cache sound on the grown From tree. */
  lemma {:induction false} InMeans(reg: Registry, g: Graph, c: Cache, field: string, val: Value)
    requires Sound(reg, g, c)
    ensures Matches(reg, g, CompileIn(reg, g, c, field, val), ExpectIn(reg, g[0].entity, field, val))
    decreases val, 2
  {
    if val.Object? {
      SubqueryMeans(reg, g, field, val.entries);
      var s := CompileSubquery(reg, g, field, val.entries);
      if s.Success? {
        SoundWiden(reg, g, s.value.1, c);
      }
    }
  }

  /** One entry compiles to the conditions the reference reads. */
  lemma {:induction false} EntryMeans(reg: Registry, g: Graph, c: Cache, key: string, val: Value)
    requires Sound(reg, g, c)
    ensures Matches(reg, g, CompileEntry(reg, g, c, key, val), ExpectEntry(reg, g[0].entity, key, val))
    decreases val, 3
  {
    var (op, field) := Classify(key);
    match op
    case LikeOp => ResolvedMeans(reg, g, c, field, val, LikeOp);
    case BetweenOp => ResolvedMeans(reg, g, c, field, val, BetweenOp);
    case InSubqueryOp => InMeans(reg, g, c, field, val);
    case EqualsOp => ResolvedMeans(reg, g, c, key, val, EqualsOp);
  }

  /** The loop from entry `i` on agrees with the reference reading, after the predicates
      `acc` collected so far. */
  predicate FromMatches(reg: Registry, g: Graph, acc: seq<Pred>, r: Result<Compiled, Error>, x: Result<seq<Cond>, Error>)
  {
    && (r.Success? <==> x.Success?)
    && (r.Failure? ==> r.error == x.error)
    && (r.Success? ==>
          && Sound(reg, r.value.graph, r.value.cache) && Extends(g, r.value.graph)
          && PathsIn(r.value.graph, r.value.preds)
          && Meanings(r.value.graph, r.value.preds) == Meanings(g, acc) + x.value)
  }

  lemma MeaningsAppend(g: Graph, a: seq<Pred>, b: seq<Pred>)
    ensures Meanings(g, a + b) == Meanings(g, a) + Meanings(g, b)
  {
  }

  /** buildPredicates' loop from entry `i` on adds the conditions the reference reads,
      after those already collected. */
  lemma {:induction false} FromMeans(reg: Registry, g: Graph, c: Cache, es: Entries, i: nat, acc: seq<Pred>)
    requires i <= |es| && Sound(reg, g, c) && PathsIn(g, acc)
    ensures FromMatches(reg, g, acc, CompileFrom(reg, g, c, es, i, acc), ExpectFrom(reg, g[0].entity, es, i))
    decreases Object(es), 0, |es| - i, 1
  {
    if i < |es| {
      assert es[i] in es;
      var step := CompileEntry(reg, g, c, es[i].0, es[i].1);
      assert Matches(reg, g, step, ExpectEntry(reg, g[0].entity, es[i].0, es[i].1)) by {
        EntryMeans(reg, g, c, es[i].0, es[i].1);
      }
      if step.Success? {
        FromMeansNext(reg, g, c, es, i, acc);
      } else {
        FromMeansFails(reg, g, c, es, i, acc);
      }
    } else {
      FromMeansEnd(reg, g, c, es, acc);
    }
  }

  /** FromMeans for an entry that compiles: the rest of the loop, then this step. */
  lemma {:induction false} FromMeansNext(reg: Registry, g: Graph, c: Cache, es: Entries, i: nat, acc: seq<Pred>)
    requires i < |es| && Sound(reg, g, c) && PathsIn(g, acc)
    requires Matches(reg, g, CompileEntry(reg, g, c, es[i].0, es[i].1), ExpectEntry(reg, g[0].entity, es[i].0, es[i].1))
    requires CompileEntry(reg, g, c, es[i].0, es[i].1).Success?
    ensures FromMatches(reg, g, acc, CompileFrom(reg, g, c, es, i, acc), ExpectFrom(reg, g[0].entity, es, i))
    decreases Object(es), 0, |es| - i, 0
  {
    var s := CompileEntry(reg, g, c, es[i].0, es[i].1).value;
    FromMeansKeeps(reg, g, c, es, i, acc);
    FromMeans(reg, s.graph, s.cache, es, i + 1, acc + s.preds);
    FromMeansStep(reg, g, c, es, i, acc);
  }

  lemma FromMeansEnd(reg: Registry, g: Graph, c: Cache, es: Entries, acc: seq<Pred>)
    requires Sound(reg, g, c) && PathsIn(g, acc)
    ensures FromMatches(reg, g, acc, CompileFrom(reg, g, c, es, |es|, acc), ExpectFrom(reg, g[0].entity, es, |es|))
  {
    assert g[..|g|] == g;
    assert Meanings(g, acc) + [] == Meanings(g, acc);
  }

  /** An entry that does not compile stops the loop with the error the reference names. */
  lemma FromMeansFails(reg: Registry, g: Graph, c: Cache, es: Entries, i: nat, acc: seq<Pred>)
    requires i < |es| && Sound(reg, g, c)
    requires Matches(reg, g, CompileEntry(reg, g, c, es[i].0, es[i].1), ExpectEntry(reg, g[0].entity, es[i].0, es[i].1))
    requires CompileEntry(reg, g, c, es[i].0, es[i].1).Failure?
    ensures FromMatches(reg, g, acc, CompileFrom(reg, g, c, es, i, acc), ExpectFrom(reg, g[0].entity, es, i))
  {
    CompileFromStep(reg, g, c, es, i, acc);
  }

  /** An entry that compiles keeps the cache sound, the root, and the paths collected so far. */
  lemma FromMeansKeeps(reg: Registry, g: Graph, c: Cache, es: Entries, i: nat, acc: seq<Pred>)
    requires i < |es| && Sound(reg, g, c) && PathsIn(g, acc)
    requires Matches(reg, g, CompileEntry(reg, g, c, es[i].0, es[i].1), ExpectEntry(reg, g[0].entity, es[i].0, es[i].1))
    requires CompileEntry(reg, g, c, es[i].0, es[i].1).Success?
    ensures var s := CompileEntry(reg, g, c, es[i].0, es[i].1).value;
      Sound(reg, s.graph, s.cache) && PathsIn(s.graph, acc + s.preds) && s.graph[0].entity == g[0].entity
  {
    var s := CompileEntry(reg, g, c, es[i].0, es[i].1).value;
    assert s.graph[..|g|][0] == s.graph[0];
  }

  /** FromMeans for an entry that compiles, given the rest of the loop. */
  lemma FromMeansStep(reg: Registry, g: Graph, c: Cache, es: Entries, i: nat, acc: seq<Pred>)
    requires i < |es| && Sound(reg, g, c) && PathsIn(g, acc)
    requires Matches(reg, g, CompileEntry(reg, g, c, es[i].0, es[i].1), ExpectEntry(reg, g[0].entity, es[i].0, es[i].1))
    requires CompileEntry(reg, g, c, es[i].0, es[i].1).Success?
    requires var s := CompileEntry(reg, g, c, es[i].0, es[i].1).value;
      FromMatches(reg, s.graph, acc + s.preds, CompileFrom(reg, s.graph, s.cache, es, i + 1, acc + s.preds), ExpectFrom(reg, g[0].entity, es, i + 1))
    ensures FromMatches(reg, g, acc, CompileFrom(reg, g, c, es, i, acc), ExpectFrom(reg, g[0].entity, es, i))
  {
    var s := CompileEntry(reg, g, c, es[i].0, es[i].1).value;
    var xs := ExpectEntry(reg, g[0].entity, es[i].0, es[i].1).value;
    var r := CompileFrom(reg, s.graph, s.cache, es, i + 1, acc + s.preds);
    var xr := ExpectFrom(reg, g[0].entity, es, i + 1);
    var x := ExpectFrom(reg, g[0].entity, es, i);
    assert CompileFrom(reg, g, c, es, i, acc) == r by {
      CompileFromStep(reg, g, c, es, i, acc);
    }
    assert (xr.Success? ==> x == Success(xs + xr.value)) && (xr.Failure? ==> x == Failure(xr.error)) by {
      ExpectFromStep(reg, g[0].entity, es, i);
    }
    FromMatchesCons(reg, g, s.graph, acc, s.preds, xs, r, xr, x);
  }

  lemma ExpectFromStep(reg: Registry, entity: string, es: Entries, i: nat)
    requires i < |es| && ExpectEntry(reg, entity, es[i].0, es[i].1).Success?
    ensures var x := ExpectFrom(reg, entity, es, i); var xr := ExpectFrom(reg, entity, es, i + 1);
      var xs := ExpectEntry(reg, entity, es[i].0, es[i].1).value;
      && (xr.Success? ==> x == Success(xs + xr.value))
      && (xr.Failure? ==> x == Failure(xr.error))
  {
  }

  /** Adding the predicates of one entry, read as `conds`, in front of the rest of the loop. */
  lemma FromMatchesCons(reg: Registry, g: Graph, g2: Graph, acc: seq<Pred>, preds: seq<Pred>, conds: seq<Cond>,
                        r: Result<Compiled, Error>, xr: Result<seq<Cond>, Error>, x: Result<seq<Cond>, Error>)
    requires Extends(g, g2) && PathsIn(g, acc) && Meanings(g2, preds) == conds
    requires FromMatches(reg, g2, acc + preds, r, xr)
    requires xr.Success? ==> x == Success(conds + xr.value)
    requires xr.Failure? ==> x == Failure(xr.error)
    ensures FromMatches(reg, g, acc, r, x)
  {
    if r.Success? {
      assert Meanings(g2, acc + preds) == Meanings(g, acc) + conds by {
        MeaningsExtend(g, g2, acc);
        MeaningsAppend(g2, acc, preds);
      }
      assert Extends(g, r.value.graph) by {
        assert r.value.graph[..|g|] == r.value.graph[..|g2|][..|g|];
      }
    }
  }

  /** The compiled where-part of a subquery agrees with its reference reading. */
  predicate WhereAgrees(reg: Registry, e: string, w: Result<Compiled, Error>, xw: Result<seq<Cond>, Error>)
  {
    && (w.Success? <==> xw.Success?)
    && (w.Failure? ==> w.error == xw.error)
    && (w.Success? ==>
          && Sound(reg, w.value.graph, w.value.cache) && w.value.graph[0].entity == e
          && PathsIn(w.value.graph, w.value.preds) && Meanings(w.value.graph, w.value.preds) == xw.value)
  }

  /** buildInSubqueryPredicate gives the `in` condition the reference reads: the subquery's
      filters and selected field read on the sub-entity, the main field on the outer entity. */
  lemma {:induction false} SubqueryMeans(reg: Registry, g: Graph, mainField: string, spec: Entries)
    requires WellFormed(reg, g)
    ensures var r := CompileSubquery(reg, g, mainField, spec); var x := ExpectSubquery(reg, g[0].entity, mainField, spec);
      && (r.Success? <==> x.Success?)
      && (r.Failure? ==> r.error == x.error)
      && (r.Success? ==>
            && WellFormed(reg, r.value.1) && Extends(g, r.value.1)
            && r.value.0.path.node < |r.value.1| && Meaning(r.value.1, r.value.0) == x.value)
    decreases Object(spec), 1
  {
    var subEntity := Get(spec, "entity");
    var field := Get(spec, "field");
    var j := Find(spec, "filters");
    var filters := if j < |spec| then Some(spec[j].1) else None;
    if !(CastFails(subEntity, true) || CastFails(field, true) || CastFails(filters, false))
      && !(Absent(subEntity) || Absent(field)) && subEntity.value.s in reg
    {
      var e := subEntity.value.s;
      var root := RootGraph(e);
      var w: Result<Compiled, Error> :=
        if Absent(filters) then Success(Compiled([], root, map[]))
        else (assert spec[j] in spec; CompileFrom(reg, root, map[], filters.value.entries, 0, []));
      var xw: Result<seq<Cond>, Error> :=
        if Absent(filters) then Success([])
        else (assert spec[j] in spec; ExpectFrom(reg, e, filters.value.entries, 0));
      assert WhereAgrees(reg, e, w, xw) by {
        FreshIsSound(reg, e);
        if !Absent(filters) {
          assert spec[j] in spec;
          FromMeans(reg, root, map[], filters.value.entries, 0, []);
        }
      }
      SelectMeans(reg, g, mainField, e, field.value.s, w, xw);
    }
  }

  /** Once the where clauses agree, so do the subquery conditions. */
  lemma {:induction false} SelectMeans(reg: Registry, g: Graph, mainField: string, e: string, field: string,
                    w: Result<Compiled, Error>, xw: Result<seq<Cond>, Error>)
    requires WellFormed(reg, g) && WhereAgrees(reg, e, w, xw)
    ensures var r := SelectSubquery(reg, g, mainField, e, field, w); var x := ExpectSelect(reg, g[0].entity, mainField, e, field, xw);
      && (r.Success? <==> x.Success?)
      && (r.Failure? ==> r.error == x.error)
      && (r.Success? ==>
            && WellFormed(reg, r.value.1) && Extends(g, r.value.1)
            && r.value.0.path.node < |r.value.1| && Meaning(r.value.1, r.value.0) == x.value)
  {
    if w.Success? {
      var v := w.value;
      var sel := Resolve(reg, v.graph, v.cache, field);
      ResolveReads(reg, v.graph, v.cache, field);
      if sel.Success? {
        var m := Resolve(reg, g, map[], mainField);
        ResolveReads(reg, g, map[], mainField);
        if m.Success? {
          MeaningsExtend(v.graph, sel.value.graph, v.preds);
        }
      }
    }
  }

  // ---------------------------------------------------------------------------
  // Consequences
  // ---------------------------------------------------------------------------

  /** buildPredicates under any sound cache compiles the filter map to exactly the
      conditions the reference reads, or fails with the error it names. */
  lemma FiltersMean(reg: Registry, g: Graph, c: Cache, filters: Option<Entries>)
    requires Sound(reg, g, c)
    ensures var r := CompileFilters(reg, g, c, filters); var x := ExpectFilters(reg, g[0].entity, filters);
      && (r.Success? <==> x.Success?)
      && (r.Failure? ==> r.error == x.error)
      && (r.Success? ==>
            && Sound(reg, r.value.graph, r.value.cache) && Extends(g, r.value.graph)
            && PathsIn(r.value.graph, r.value.preds) && Meanings(r.value.graph, r.value.preds) == x.value)
  {
    if filters.Some? {
      FromMeans(reg, g, c, filters.value, 0, []);
    }
  }

  /** The count query compiles the filters on a fresh root and cache, the data query on the
      tree and cache its projections left: both fail alike or compile the same
      conditions. */
  lemma FiltersIndependentOfCache(reg: Registry, g1: Graph, c1: Cache, g2: Graph, c2: Cache, filters: Option<Entries>)
    requires Sound(reg, g1, c1) && Sound(reg, g2, c2) && g1[0].entity == g2[0].entity
    ensures var r1 := CompileFilters(reg, g1, c1, filters); var r2 := CompileFilters(reg, g2, c2, filters);
      && (r1.Success? <==> r2.Success?)
      && (r1.Failure? ==> r1.error == r2.error)
      && (r1.Success? ==> Meanings(r1.value.graph, r1.value.preds) == Meanings(r2.value.graph, r2.value.preds))
  {
    FiltersMean(reg, g1, c1, filters);
    FiltersMean(reg, g2, c2, filters);
  }
}
