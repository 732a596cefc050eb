/** Path resolution with a join cache (GenericQueryService.getPath).

    A criteria query's From tree is a sequence of nodes: node 0 is the query root and
    every other node is a LEFT join made on an association of an earlier node. The join
    cache maps a dotted relationship prefix ("department", "department.manager") to the
    node made for it, so that one query compilation joins each prefix once. Resolving a
    field gives the node the field is read on and the attribute read there. */
module Joins {
  import opened Wrappers
  import opened Strings
  import opened Values
  import opened Schema

  /** A From node: a join on association `attr` of node `parent`, which reaches `entity`.
      For the root (node 0) only `entity` matters. */
  datatype Node = Node(parent: nat, attr: string, entity: string)

  type Graph = seq<Node>

  type Cache = map<string, nat>

  /** The Path that `from.get(attr)` gives, with `from` being node `node`. */
  datatype PathRef = PathRef(node: nat, attr: string)

  /** The From tree right after `cq.from(entityClass)`. */
  function RootGraph(entity: string): Graph
  {
    [Node(0, "", entity)]
  }

  predicate InRange(g: Graph, c: Cache)
  {
    forall k :: k in c ==> c[k] < |g|
  }

  /** The association names followed from the root to node `n`. */
  function Spell(g: Graph, n: nat): seq<string>
    decreases n
  {
    if n == 0 || n >= |g| || g[n].parent >= n then []
    else Spell(g, g[n].parent) + [g[n].attr]
  }

  /** The attribute chain a path stands for, from the root entity to the leaf. */
  function Chain(g: Graph, p: PathRef): seq<string>
  {
    Spell(g, p.node) + [p.attr]
  }

  /** Node `n` hangs off an earlier node and follows an association of that node's entity. */
  predicate JoinedBy(reg: Registry, g: Graph, n: nat)
  {
    n < |g| && g[n].parent < n && AttrOf(reg, g[g[n].parent].entity, g[n].attr) == Some(Association(g[n].entity))
  }

  /** The root is a registered entity and every other node is a join. */
  predicate WellFormed(reg: Registry, g: Graph)
  {
    && |g| >= 1
    && g[0].entity in reg
    && forall n: nat :: 1 <= n < |g| ==> JoinedBy(reg, g, n)
  }

  /** Every cached node was made for exactly the prefix it is stored under. */
  predicate Sound(reg: Registry, g: Graph, c: Cache)
  {
    WellFormed(reg, g) && forall k :: k in c ==> c[k] < |g| && Spell(g, c[k]) == SplitAll(k, '.')
  }

  /** `g2` is `g` with nodes appended. */
  predicate Extends(g: Graph, g2: Graph)
  {
    |g| <= |g2| && g2[..|g|] == g
  }

  /** `from.join(attr, JoinType.LEFT)` on a node of entity `entity`: the entity reached. */
  function JoinOn(reg: Registry, entity: string, attr: string): Result<string, Error>
  {
    match AttrOf(reg, entity, attr)
    case None => Failure(UnknownAttribute(entity, attr))
    case Some(Basic) => Failure(NotJoinable(entity, attr))
    case Some(Association(t)) => Success(t)
  }

  /** `from.get(attr)` on node `node`. */
  function GetOn(reg: Registry, g: Graph, node: nat, attr: string): Result<PathRef, Error>
    requires node < |g|
  {
    if AttrOf(reg, g[node].entity, attr).None? then Failure(UnknownAttribute(g[node].entity, attr))
    else Success(PathRef(node, attr))
  }

  /** The relationship prefix joined in iteration `j` of getPath's loop. */
  function PrefixKey(parts: seq<string>, j: nat): string
    requires j < |parts|
  {
    Join(parts[..j + 1], '.')
  }

  /** The prefixes the loop visits from iteration `i` on. */
  function PrefixKeys(parts: seq<string>, i: nat): set<string>
  {
    set j | i <= j < |parts| - 1 :: PrefixKey(parts, j)
  }

  /** The segments getPath reads a field as. */
  function Segments(field: string): seq<string>
  {
    if '.' in field then JavaSplit(field, '.') else [field]
  }

  /** The proper relationship prefixes of a field: the keys its resolution uses. */
  function JoinKeys(field: string): set<string>
  {
    if '.' in field then PrefixKeys(JavaSplit(field, '.'), 0) else {}
  }

  datatype Walked = Walked(node: nat, graph: Graph, cache: Cache)

  /** getPath's loop from iteration `i` on, standing at node `from`. */
  function Walk(reg: Registry, parts: seq<string>, i: nat, from: nat, g: Graph, c: Cache): (r: Result<Walked, Error>)
    requires i < |parts| && from < |g| && InRange(g, c)
    ensures r.Success? ==>
      && r.value.node < |r.value.graph| && InRange(r.value.graph, r.value.cache)
      && |g| <= |r.value.graph|
    decreases |parts| - i
  {
    if i == |parts| - 1 then Success(Walked(from, g, c))
    else
      var key := PrefixKey(parts, i);
      if key in c then Walk(reg, parts, i + 1, c[key], g, c)
      else
        match JoinOn(reg, g[from].entity, parts[i])
        case Failure(e) => Failure(e)
        case Success(t) => Walk(reg, parts, i + 1, |g|, g + [Node(from, parts[i], t)], c[key := |g|])
  }

  datatype Resolved = Resolved(path: PathRef, graph: Graph, cache: Cache)

  /** getPath(root, field, joins): the resolved path and the From tree and cache after it. */
  function Resolve(reg: Registry, g: Graph, c: Cache, field: string): (r: Result<Resolved, Error>)
    requires |g| >= 1 && InRange(g, c)
    ensures r.Success? ==>
      && r.value.path.node < |r.value.graph| && InRange(r.value.graph, r.value.cache)
      && |g| <= |r.value.graph|
  {
    if '.' !in field then
      match GetOn(reg, g, 0, field)
      case Failure(e) => Failure(e)
      case Success(p) => Success(Resolved(p, g, c))
    else
      var parts := JavaSplit(field, '.');
      if |parts| == 0 then Failure(NoPathSegments)
      else
        match Walk(reg, parts, 0, 0, g, c)
        case Failure(e) => Failure(e)
        case Success(w) =>
          match GetOn(reg, w.graph, w.node, parts[|parts| - 1])
          case Failure(e) => Failure(e)
          case Success(p) => Success(Resolved(p, w.graph, w.cache))
  }

  // ---------------------------------------------------------------------------
  // The cache-free reference: what a field denotes in the registry alone
  // ---------------------------------------------------------------------------

  /** The entity reached from `entity` over the associations parts[i..|parts|-1]. */
  function Follow(reg: Registry, entity: string, parts: seq<string>, i: nat): Result<string, Error>
    requires i < |parts|
    decreases |parts| - i
  {
    if i == |parts| - 1 then Success(entity)
    else
      match JoinOn(reg, entity, parts[i])
      case Failure(e) => Failure(e)
      case Success(t) => Follow(reg, t, parts, i + 1)
  }

  /** The entity reached from `entity` over a whole chain of associations. */
  function FollowChain(reg: Registry, entity: string, chain: seq<string>): Result<string, Error>
  {
    if |chain| == 0 then Success(entity)
    else
      match FollowChain(reg, entity, chain[..|chain| - 1])
      case Failure(e) => Failure(e)
      case Success(t) => JoinOn(reg, t, chain[|chain| - 1])
  }

  /** The attribute chain a field names on entity `entity`, or the error its resolution
      raises, without reference to any join cache. */
  function Denote(reg: Registry, entity: string, field: string): Result<seq<string>, Error>
  {
    var segs := Segments(field);
    if |segs| == 0 then Failure(NoPathSegments)
    else
      match Follow(reg, entity, segs, 0)
      case Failure(e) => Failure(e)
      case Success(t) =>
        if AttrOf(reg, t, segs[|segs| - 1]).None? then Failure(UnknownAttribute(t, segs[|segs| - 1]))
        else Success(segs)
  }

  // ---------------------------------------------------------------------------
  // The in-place resolver
  // ---------------------------------------------------------------------------

  /** The From tree of one criteria query, which `join` extends in place. */
  class JoinGraph {
    var nodes: Graph

    constructor(entity: string)
      ensures nodes == RootGraph(entity)
    {
      nodes := RootGraph(entity);
    }
  }

  /** The HashMap from relationship prefix to join that getPath fills in place. */
  class JoinCache {
    var entries: Cache

    constructor()
      ensures entries == map[]
    {
      entries := map[];
    }
  }

  method GetPath(reg: Registry, root: JoinGraph, field: string, joins: JoinCache) returns (r: Result<PathRef, Error>)
    requires |root.nodes| >= 1 && InRange(root.nodes, joins.entries)
    modifies root, joins
    ensures var s := Resolve(reg, old(root.nodes), old(joins.entries), field);
      && r.Success? == s.Success?
      && (s.Failure? ==> r.error == s.error)
      && (s.Success? ==> r.value == s.value.path && root.nodes == s.value.graph && joins.entries == s.value.cache)
  {
    if '.' !in field {
      r := GetOn(reg, root.nodes, 0, field);
      return;
    }
    var parts := JavaSplit(field, '.');
    if |parts| == 0 {
      return Failure(NoPathSegments);
    }
    var walked := JoinSegments(reg, root, joins, parts);
    if walked.Failure? {
      return Failure(walked.error);
    }
    r := GetOn(reg, root.nodes, walked.value, parts[|parts| - 1]);
  }

  /** The join loop of getPath: each prefix of the relationship segments is looked up in
      the cache and joined only when missing; the result is the node reached. */
  method JoinSegments(reg: Registry, root: JoinGraph, joins: JoinCache, parts: seq<string>) returns (r: Result<nat, Error>)
    requires |parts| >= 1 && |root.nodes| >= 1 && InRange(root.nodes, joins.entries)
    modifies root, joins
    ensures var w := Walk(reg, parts, 0, 0, old(root.nodes), old(joins.entries));
      && r.Success? == w.Success?
      && (w.Failure? ==> r.error == w.error)
      && (w.Success? ==> r.value == w.value.node && root.nodes == w.value.graph && joins.entries == w.value.cache)
  {
    var from: nat := 0;
    var joinKey := "";
    var i := 0;
    while i < |parts| - 1
      invariant 0 <= i <= |parts| - 1
      invariant from < |root.nodes| && InRange(root.nodes, joins.entries)
      invariant if i == 0 then joinKey == "" else joinKey == Join(parts[..i], '.')
      invariant Walk(reg, parts, 0, 0, old(root.nodes), old(joins.entries))
             == Walk(reg, parts, i, from, root.nodes, joins.entries)
    {
      NextJoinKey(parts, i, joinKey);
      if i > 0 {
        joinKey := joinKey + ".";
      }
      joinKey := joinKey + parts[i];
      var key := joinKey;
      if key in joins.entries {
        from := joins.entries[key];
      } else {
        var target := JoinOn(reg, root.nodes[from].entity, parts[i]);
        if target.Failure? {
          return Failure(target.error);
        }
        var existing := |root.nodes|;
        root.nodes := root.nodes + [Node(from, parts[i], target.value)];
        joins.entries := joins.entries[key := existing];
        from := existing;
      }
      i := i + 1;
    }
    r := Success(from);
  }

  // ---------------------------------------------------------------------------
  // Lemmas: cache contents
  // ---------------------------------------------------------------------------

  /** A field without a dot is read straight off the root, and nothing is joined. */
  lemma ResolveUndotted(reg: Registry, g: Graph, c: Cache, field: string)
    requires |g| >= 1 && InRange(g, c)
    requires '.' !in field
    ensures var r := Resolve(reg, g, c, field);
      (r.Success? <==> g[0].entity in reg && field in reg[g[0].entity])
      && (r.Success? ==> r.value == Resolved(PathRef(0, field), g, c))
  {
  }

  lemma {:induction false} WalkExtends(reg: Registry, parts: seq<string>, i: nat, from: nat, g: Graph, c: Cache)
    requires i < |parts| && from < |g| && InRange(g, c)
    ensures var w := Walk(reg, parts, i, from, g, c);
      w.Success? ==> w.value.graph[..|g|] == g
    decreases |parts| - i
  {
    if i < |parts| - 1 {
      var key := PrefixKey(parts, i);
      if key in c {
        WalkExtends(reg, parts, i + 1, c[key], g, c);
      } else {
        var t := JoinOn(reg, g[from].entity, parts[i]);
        if t.Success? {
          var g' := g + [Node(from, parts[i], t.value)];
          WalkExtends(reg, parts, i + 1, |g|, g', c[key := |g|]);
          var w := Walk(reg, parts, i + 1, |g|, g', c[key := |g|]);
          if w.Success? {
            assert w.value.graph[..|g|] == w.value.graph[..|g'|][..|g|];
          }
        }
      }
    }
  }

  /** Resolution only appends joins: the nodes of the From tree before it stay as they were. */
  lemma ResolveExtends(reg: Registry, g: Graph, c: Cache, field: string)
    requires |g| >= 1 && InRange(g, c)
    ensures var r := Resolve(reg, g, c, field);
      r.Success? ==> r.value.graph[..|g|] == g
  {
    if '.' in field {
      var parts := JavaSplit(field, '.');
      if |parts| > 0 {
        WalkExtends(reg, parts, 0, 0, g, c);
      }
    }
  }

  /** The StringBuilder in getPath's loop holds the prefix of the current iteration
      once the separator (after the first iteration) and the segment are appended. */
  lemma NextJoinKey(parts: seq<string>, i: nat, before: string)
    requires i < |parts|
    requires if i == 0 then before == "" else before == Join(parts[..i], '.')
    ensures (if i > 0 then before + "." else before) + parts[i] == PrefixKey(parts, i)
  {
    if i == 0 {
      assert parts[..1] == [parts[0]];
      assert "" + parts[0] == parts[0];
    } else {
      JoinSnoc(parts[..i + 1], '.');
      assert parts[..i + 1][..i] == parts[..i];
    }
  }

  /** One more iteration of the loop visits one more prefix. */
  lemma PrefixKeysStep(parts: seq<string>, i: nat)
    requires i < |parts| - 1
    ensures PrefixKeys(parts, i) == {PrefixKey(parts, i)} + PrefixKeys(parts, i + 1)
  {
    forall x | x in PrefixKeys(parts, i)
      ensures x in {PrefixKey(parts, i)} + PrefixKeys(parts, i + 1)
    {
      var j :| i <= j < |parts| - 1 && x == PrefixKey(parts, j);
      if j > i {
        assert x in PrefixKeys(parts, i + 1);
      }
    }
  }

  lemma {:induction false} WalkKeeps(reg: Registry, parts: seq<string>, i: nat, from: nat, g: Graph, c: Cache)
    requires i < |parts| && from < |g| && InRange(g, c)
    ensures var w := Walk(reg, parts, i, from, g, c);
      w.Success? ==>
        && (forall k :: k in c ==> k in w.value.cache && w.value.cache[k] == c[k])
        && w.value.cache.Keys == c.Keys + PrefixKeys(parts, i)
    decreases |parts| - i
  {
    if i < |parts| - 1 {
      var key := PrefixKey(parts, i);
      PrefixKeysStep(parts, i);
      if key in c {
        WalkKeeps(reg, parts, i + 1, c[key], g, c);
      } else {
        var t := JoinOn(reg, g[from].entity, parts[i]);
        if t.Success? {
          WalkKeeps(reg, parts, i + 1, |g|, g + [Node(from, parts[i], t.value)], c[key := |g|]);
        }
      }
    } else {
      assert PrefixKeys(parts, i) == {};
    }
  }

  /** The loop makes one new node per key it adds to the cache. */
  lemma {:induction false} WalkCount(reg: Registry, parts: seq<string>, i: nat, from: nat, g: Graph, c: Cache)
    requires i < |parts| && from < |g| && InRange(g, c)
    ensures var w := Walk(reg, parts, i, from, g, c);
      w.Success? ==> |w.value.graph| + |c| == |g| + |w.value.cache|
    decreases |parts| - i
  {
    if i < |parts| - 1 {
      var key := PrefixKey(parts, i);
      if key in c {
        WalkCount(reg, parts, i + 1, c[key], g, c);
      } else {
        var t := JoinOn(reg, g[from].entity, parts[i]);
        if t.Success? {
          var g' := g + [Node(from, parts[i], t.value)];
          var c' := c[key := |g|];
          assert |c'| == |c| + 1;
          WalkCount(reg, parts, i + 1, |g|, g', c');
        }
      }
    }
  }

  /** Adding `b` to `a` adds as many elements as `b` has outside `a`. */
  lemma UnionSize(a: set<string>, b: set<string>)
    ensures |a + b| == |a| + |b - a|
  {
    assert a + b == a + (b - a);
    assert a * (b - a) == {};
  }

  /** The whole loop keeps every old entry, adds exactly the visited prefixes and makes
      one node for each of those that was missing. */
  lemma WalkCache(reg: Registry, parts: seq<string>, g: Graph, c: Cache)
    requires 1 <= |parts| && 1 <= |g| && InRange(g, c)
    ensures var w := Walk(reg, parts, 0, 0, g, c);
      w.Success? ==>
        && (forall k :: k in c ==> k in w.value.cache && w.value.cache[k] == c[k])
        && w.value.cache.Keys == c.Keys + PrefixKeys(parts, 0)
        && |w.value.graph| == |g| + |PrefixKeys(parts, 0) - c.Keys|
  {
    var w := Walk(reg, parts, 0, 0, g, c);
    if w.Success? {
      var v := w.value;
      assert (forall k :: k in c ==> k in v.cache && v.cache[k] == c[k])
          && v.cache.Keys == c.Keys + PrefixKeys(parts, 0) by {
        WalkKeeps(reg, parts, 0, 0, g, c);
      }
      WalkCount(reg, parts, 0, 0, g, c);
      UnionSize(c.Keys, PrefixKeys(parts, 0));
      assert |v.cache.Keys| == |v.cache| && |c.Keys| == |c|;
    }
  }

  /** The cache after resolving a field: every old entry is kept as it was, the keys added
      are the field's proper relationship prefixes, one new join is made for each of those
      that was missing, and the field itself never becomes a key. */
  lemma ResolveCache(reg: Registry, g: Graph, c: Cache, field: string)
    requires |g| >= 1 && InRange(g, c)
    ensures var r := Resolve(reg, g, c, field);
      r.Success? ==>
        && (forall k :: k in c ==> k in r.value.cache && r.value.cache[k] == c[k])
        && r.value.cache.Keys == c.Keys + JoinKeys(field)
        && |r.value.graph| == |g| + |JoinKeys(field) - c.Keys|
        && (field in r.value.cache ==> field in c)
  {
    var r := Resolve(reg, g, c, field);
    if '.' in field && r.Success? {
      var parts := JavaSplit(field, '.');
      var w := Walk(reg, parts, 0, 0, g, c);
      assert |parts| > 0 && w.Success? && r.value.cache == w.value.cache && r.value.graph == w.value.graph;
      assert JoinKeys(field) == PrefixKeys(parts, 0);
      WalkCache(reg, parts, g, c);
      FieldIsNoJoinKey(field);
    }
  }

  /** The prefixes visited by the loop are pairwise different. */
  lemma PrefixKeysDistinct(parts: seq<string>, j1: nat, j2: nat)
    requires j1 < j2 < |parts|
    requires forall j :: 0 <= j < |parts| ==> '.' !in parts[j]
    ensures PrefixKey(parts, j1) != PrefixKey(parts, j2)
  {
    SplitJoin(parts[..j1 + 1], '.');
    SplitJoin(parts[..j2 + 1], '.');
  }

  /** No proper prefix of a dotted field spells the field itself. */
  lemma FieldIsNoJoinKey(field: string)
    requires '.' in field
    ensures field !in JoinKeys(field)
  {
    var parts := JavaSplit(field, '.');
    JavaSplitIsPrefix(field, '.');
    forall j | 0 <= j < |parts| - 1
      ensures PrefixKey(parts, j) != field
    {
      SplitJoin(parts[..j + 1], '.');
    }
  }

  // ---------------------------------------------------------------------------
  // Lemmas: structure of the new joins
  // ---------------------------------------------------------------------------

  /** The loop ends on the node cached for the last relationship prefix, or where it
      started when there is none. */
  lemma {:induction false} WalkEnd(reg: Registry, parts: seq<string>, i: nat, from: nat, g: Graph, c: Cache)
    requires i < |parts| && from < |g| && InRange(g, c)
    ensures var w := Walk(reg, parts, i, from, g, c);
      w.Success? ==>
        && (i < |parts| - 1 ==> PrefixKey(parts, |parts| - 2) in w.value.cache)
        && w.value.node == (if i == |parts| - 1 then from else w.value.cache[PrefixKey(parts, |parts| - 2)])
    decreases |parts| - i
  {
    if i < |parts| - 1 {
      var key := PrefixKey(parts, i);
      if key in c {
        WalkEnd(reg, parts, i + 1, c[key], g, c);
        WalkKeeps(reg, parts, i + 1, c[key], g, c);
      } else {
        var t := JoinOn(reg, g[from].entity, parts[i]);
        if t.Success? {
          var g' := g + [Node(from, parts[i], t.value)];
          var c' := c[key := |g|];
          WalkEnd(reg, parts, i + 1, |g|, g', c');
          WalkKeeps(reg, parts, i + 1, |g|, g', c');
        }
      }
    }
  }

  /** Every prefix visited from iteration `i` on is cached once the loop is done. */
  lemma WalkCachesPrefixes(reg: Registry, parts: seq<string>, i: nat, from: nat, g: Graph, c: Cache)
    requires i < |parts| && from < |g| && InRange(g, c)
    ensures var w := Walk(reg, parts, i, from, g, c);
      w.Success? ==> forall j :: i <= j < |parts| - 1 ==> PrefixKey(parts, j) in w.value.cache
  {
    WalkKeeps(reg, parts, i, from, g, c);
    var w := Walk(reg, parts, i, from, g, c);
    if w.Success? {
      forall j | i <= j < |parts| - 1
        ensures PrefixKey(parts, j) in w.value.cache
      {
        assert PrefixKey(parts, j) in PrefixKeys(parts, i);
      }
    }
  }

  /** What the loop from iteration `i` on, started at node `from` of `g` with cache `c`,
      leaves in `v`: every visited prefix is cached, and each one that was missing is a
      new node hanging off the node of the previous prefix (or off `from`) and following
      that segment. */
  predicate JoinsMade(parts: seq<string>, i: nat, from: nat, g: Graph, c: Cache, v: Walked)
  {
    && (forall j :: i <= j < |parts| - 1 ==> PrefixKey(parts, j) in v.cache)
    && (forall j {:trigger PrefixKey(parts, j)} :: i <= j < |parts| - 1 && PrefixKey(parts, j) !in c ==>
          var n := v.cache[PrefixKey(parts, j)];
          && |g| <= n < |v.graph|
          && v.graph[n].parent == (if j == i then from else v.cache[PrefixKey(parts, j - 1)])
          && v.graph[n].attr == parts[j])
  }

  lemma {:induction false} WalkJoins(reg: Registry, parts: seq<string>, i: nat, from: nat, g: Graph, c: Cache)
    requires i < |parts| && from < |g| && InRange(g, c)
    requires forall j :: 0 <= j < |parts| ==> '.' !in parts[j]
    ensures var w := Walk(reg, parts, i, from, g, c);
      w.Success? ==> JoinsMade(parts, i, from, g, c, w.value)
    decreases |parts| - i, 1
  {
    WalkCachesPrefixes(reg, parts, i, from, g, c);
    if i < |parts| - 1 {
      var key := PrefixKey(parts, i);
      if key in c {
        WalkJoinsCached(reg, parts, i, from, g, c);
      } else if JoinOn(reg, g[from].entity, parts[i]).Success? {
        WalkJoinsFresh(reg, parts, i, from, g, c);
      }
    }
  }

  lemma {:induction false} WalkJoinsCached(reg: Registry, parts: seq<string>, i: nat, from: nat, g: Graph, c: Cache)
    requires i < |parts| - 1 && from < |g| && InRange(g, c)
    requires forall j :: 0 <= j < |parts| ==> '.' !in parts[j]
    requires PrefixKey(parts, i) in c
    ensures var w := Walk(reg, parts, i, from, g, c);
      w.Success? ==> JoinsMade(parts, i, from, g, c, w.value)
    decreases |parts| - i, 0
  {
    var key := PrefixKey(parts, i);
    var w := Walk(reg, parts, i, from, g, c);
    assert w == Walk(reg, parts, i + 1, c[key], g, c);
    WalkCachesPrefixes(reg, parts, i, from, g, c);
    WalkJoins(reg, parts, i + 1, c[key], g, c);
    WalkKeeps(reg, parts, i + 1, c[key], g, c);
    if w.Success? {
      var v := w.value;
      assert JoinsMade(parts, i + 1, c[key], g, c, v);
      assert v.cache[key] == c[key];
      forall j | i <= j < |parts| - 1 && PrefixKey(parts, j) !in c
        ensures var n := v.cache[PrefixKey(parts, j)];
          && |g| <= n < |v.graph|
          && v.graph[n].parent == (if j == i then from else v.cache[PrefixKey(parts, j - 1)])
          && v.graph[n].attr == parts[j]
      {
        assert j > i;
      }
    }
  }

  lemma {:induction false} WalkJoinsFresh(reg: Registry, parts: seq<string>, i: nat, from: nat, g: Graph, c: Cache)
    requires i < |parts| - 1 && from < |g| && InRange(g, c)
    requires forall j :: 0 <= j < |parts| ==> '.' !in parts[j]
    requires PrefixKey(parts, i) !in c && JoinOn(reg, g[from].entity, parts[i]).Success?
    ensures var w := Walk(reg, parts, i, from, g, c);
      w.Success? ==> JoinsMade(parts, i, from, g, c, w.value)
    decreases |parts| - i, 0
  {
    var key := PrefixKey(parts, i);
    var w := Walk(reg, parts, i, from, g, c);
    var t := JoinOn(reg, g[from].entity, parts[i]);
    var g' := g + [Node(from, parts[i], t.value)];
    var c' := c[key := |g|];
    assert w == Walk(reg, parts, i + 1, |g|, g', c');
    WalkCachesPrefixes(reg, parts, i, from, g, c);
    WalkJoins(reg, parts, i + 1, |g|, g', c');
    WalkKeeps(reg, parts, i + 1, |g|, g', c');
    WalkExtends(reg, parts, i + 1, |g|, g', c');
    if w.Success? {
      WalkJoinsFreshStep(parts, i, from, g, c, Node(from, parts[i], t.value), w.value);
    }
  }

  /** The step of WalkJoinsFresh: the node made for prefix `i` is the one the rest of
      the walk hangs its first join off. */
  lemma {:induction false} WalkJoinsFreshStep(parts: seq<string>, i: nat, from: nat, g: Graph, c: Cache, node: Node, v: Walked)
    requires i < |parts| - 1 && node.parent == from && node.attr == parts[i]
    requires forall j :: 0 <= j < |parts| ==> '.' !in parts[j]
    requires PrefixKey(parts, i) !in c
    requires JoinsMade(parts, i + 1, |g|, g + [node], c[PrefixKey(parts, i) := |g|], v)
    requires PrefixKey(parts, i) in v.cache && v.cache[PrefixKey(parts, i)] == |g|
    requires Extends(g + [node], v.graph)
    ensures JoinsMade(parts, i, from, g, c, v)
  {
    var g' := g + [node];
    var c' := c[PrefixKey(parts, i) := |g|];
    assert v.graph[|g|] == node by {
      assert v.graph[..|g'|][|g|] == g'[|g|];
    }
    forall j | i <= j < |parts| - 1 && PrefixKey(parts, j) !in c
      ensures var n := v.cache[PrefixKey(parts, j)];
        && |g| <= n < |v.graph|
        && v.graph[n].parent == (if j == i then from else v.cache[PrefixKey(parts, j - 1)])
        && v.graph[n].attr == parts[j]
    {
      if j > i {
        PrefixKeysDistinct(parts, i, j);
        assert PrefixKey(parts, j) !in c';
      }
    }
  }

  /** Each join made while resolving a dotted field hangs off the join cached for the
      previous prefix, or off the root for the first segment, and follows that segment;
      the path returned is the last segment read on the last node reached. */
  lemma ResolveStructure(reg: Registry, g: Graph, c: Cache, field: string)
    requires |g| >= 1 && InRange(g, c)
    requires '.' in field
    ensures var r := Resolve(reg, g, c, field); var parts := JavaSplit(field, '.');
      r.Success? ==>
        && |parts| >= 1
        && (forall j :: 0 <= j < |parts| - 1 ==> PrefixKey(parts, j) in r.value.cache)
        && (forall j {:trigger PrefixKey(parts, j)} :: 0 <= j < |parts| - 1 && PrefixKey(parts, j) !in c ==>
              var n := r.value.cache[PrefixKey(parts, j)];
              && |g| <= n < |r.value.graph|
              && r.value.graph[n].parent == (if j == 0 then 0 else r.value.cache[PrefixKey(parts, j - 1)])
              && r.value.graph[n].attr == parts[j])
        && r.value.path == PathRef(
             if |parts| == 1 then 0 else r.value.cache[PrefixKey(parts, |parts| - 2)],
             parts[|parts| - 1])
  {
    var parts := JavaSplit(field, '.');
    var r := Resolve(reg, g, c, field);
    if |parts| > 0 && r.Success? {
      JavaSplitIsPrefix(field, '.');
      var w := Walk(reg, parts, 0, 0, g, c);
      assert w.Success?;
      assert r.value == Resolved(PathRef(w.value.node, parts[|parts| - 1]), w.value.graph, w.value.cache);
      WalkJoins(reg, parts, 0, 0, g, c);
      WalkEnd(reg, parts, 0, 0, g, c);
      assert JoinsMade(parts, 0, 0, g, c, w.value);
      var v := r.value;
      forall j | 0 <= j < |parts| - 1 && PrefixKey(parts, j) !in c
        ensures var n := v.cache[PrefixKey(parts, j)];
          && |g| <= n < |v.graph|
          && v.graph[n].parent == (if j == 0 then 0 else v.cache[PrefixKey(parts, j - 1)])
          && v.graph[n].attr == parts[j]
      {
        var n := w.value.cache[PrefixKey(parts, j)];
        assert w.value.graph[n].parent == (if j == 0 then 0 else w.value.cache[PrefixKey(parts, j - 1)]);
      }
    }
  }

  // ---------------------------------------------------------------------------
  // Lemmas: join reuse
  // ---------------------------------------------------------------------------

  lemma {:induction false} WalkReuses(reg: Registry, parts: seq<string>, i: nat, from: nat, g: Graph, c: Cache)
    requires i < |parts| && from < |g| && InRange(g, c)
    requires PrefixKeys(parts, i) <= c.Keys
    ensures Walk(reg, parts, i, from, g, c)
         == Success(Walked(if i == |parts| - 1 then from else c[PrefixKey(parts, |parts| - 2)], g, c))
    decreases |parts| - i
  {
    if i < |parts| - 1 {
      var key := PrefixKey(parts, i);
      assert key in PrefixKeys(parts, i);
      assert PrefixKeys(parts, i + 1) <= PrefixKeys(parts, i);
      WalkReuses(reg, parts, i + 1, c[key], g, c);
    }
  }

  /** When every relationship prefix of a field is cached already, resolving it makes no
      join and leaves the cache as it is. */
  lemma ResolveReuses(reg: Registry, g: Graph, c: Cache, field: string)
    requires |g| >= 1 && InRange(g, c)
    requires JoinKeys(field) <= c.Keys
    ensures var r := Resolve(reg, g, c, field);
      r.Success? ==> r.value.graph == g && r.value.cache == c
  {
    if '.' in field {
      var parts := JavaSplit(field, '.');
      if |parts| > 0 {
        WalkReuses(reg, parts, 0, 0, g, c);
      }
    }
  }

  /** Resolving the same field twice: the second call makes no join, leaves the cache as
      the first call left it and returns the same path. */
  lemma ResolveIdempotent(reg: Registry, g: Graph, c: Cache, field: string)
    requires |g| >= 1 && InRange(g, c)
    requires Resolve(reg, g, c, field).Success?
    ensures var r := Resolve(reg, g, c, field).value;
      Resolve(reg, r.graph, r.cache, field) == Success(r)
  {
    if '.' in field {
      ResolveIdempotentDotted(reg, g, c, field);
    }
  }

  lemma ResolveIdempotentDotted(reg: Registry, g: Graph, c: Cache, field: string)
    requires |g| >= 1 && InRange(g, c) && '.' in field
    requires Resolve(reg, g, c, field).Success?
    ensures var r := Resolve(reg, g, c, field).value;
      Resolve(reg, r.graph, r.cache, field) == Success(r)
  {
    var r := Resolve(reg, g, c, field).value;
    var parts := JavaSplit(field, '.');
    var w := Walk(reg, parts, 0, 0, g, c);
    assert |parts| > 0 && w.Success?
      && r == Resolved(PathRef(w.value.node, parts[|parts| - 1]), w.value.graph, w.value.cache);
    assert r.path == PathRef(
        if |parts| == 1 then 0 else r.cache[PrefixKey(parts, |parts| - 2)], parts[|parts| - 1]) by {
      ResolveStructure(reg, g, c, field);
    }
    assert GetOn(reg, r.graph, r.path.node, parts[|parts| - 1]) == Success(r.path) by {
      ResolveNamesAttribute(reg, g, c, field);
    }
    assert Walk(reg, parts, 0, 0, r.graph, r.cache) == Success(Walked(r.path.node, r.graph, r.cache)) by {
      assert PrefixKeys(parts, 0) <= r.cache.Keys by {
        ResolveCache(reg, g, c, field);
      }
      WalkReuses(reg, parts, 0, 0, r.graph, r.cache);
    }
    ResolveOfWalk(reg, r.graph, r.cache, field, r.path.node, r.path);
  }

  /** Resolve on a dotted field is its walk followed by the last attribute. */
  lemma ResolveOfWalk(reg: Registry, g: Graph, c: Cache, field: string, node: nat, p: PathRef)
    requires |g| >= 1 && InRange(g, c) && '.' in field
    requires var parts := JavaSplit(field, '.');
      && |parts| > 0
      && Walk(reg, parts, 0, 0, g, c) == Success(Walked(node, g, c))
      && GetOn(reg, g, node, parts[|parts| - 1]) == Success(p)
    ensures Resolve(reg, g, c, field) == Success(Resolved(p, g, c))
  {
  }

  /** A resolved path reads an attribute its node's entity has. */
  lemma ResolveNamesAttribute(reg: Registry, g: Graph, c: Cache, field: string)
    requires |g| >= 1 && InRange(g, c)
    ensures var r := Resolve(reg, g, c, field);
      r.Success? ==> AttrOf(reg, r.value.graph[r.value.path.node].entity, r.value.path.attr).Some?
  {
  }

  /** Two dotted fields with the same relationship prefix, such as "department.name" and
      "department.id": once the first is resolved, the second makes no join, leaves the
      cache unchanged and is read on the same node. */
  lemma ResolveSibling(reg: Registry, g: Graph, c: Cache, f1: string, f2: string)
    requires |g| >= 1 && InRange(g, c)
    requires '.' in f1 && '.' in f2
    requires var p1 := JavaSplit(f1, '.'); var p2 := JavaSplit(f2, '.');
      |p1| >= 1 && |p2| >= 1 && p1[..|p1| - 1] == p2[..|p2| - 1]
    requires Resolve(reg, g, c, f1).Success?
    ensures var r1 := Resolve(reg, g, c, f1).value;
      var r2 := Resolve(reg, r1.graph, r1.cache, f2);
      r2.Success? ==>
        r2.value.graph == r1.graph && r2.value.cache == r1.cache && r2.value.path.node == r1.path.node
  {
    var r1 := Resolve(reg, g, c, f1).value;
    var p1 := JavaSplit(f1, '.');
    var p2 := JavaSplit(f2, '.');
    var w1 := Walk(reg, p1, 0, 0, g, c);
    assert w1.Success?
      && r1 == Resolved(PathRef(w1.value.node, p1[|p1| - 1]), w1.value.graph, w1.value.cache);
    SiblingPrefixKeys(p1, p2);
    assert PrefixKeys(p2, 0) <= r1.cache.Keys by {
      assert JoinKeys(f1) == JoinKeys(f2);
      ResolveCache(reg, g, c, f1);
    }
    assert r1.path.node == (if |p1| == 1 then 0 else r1.cache[PrefixKey(p1, |p1| - 2)]) by {
      ResolveStructure(reg, g, c, f1);
    }
    WalkReuses(reg, p2, 0, 0, r1.graph, r1.cache);
  }

  /** Segment lists that differ only in their last segment have the same prefix keys. */
  lemma SiblingPrefixKeys(p1: seq<string>, p2: seq<string>)
    requires |p1| >= 1 && |p2| >= 1 && p1[..|p1| - 1] == p2[..|p2| - 1]
    ensures |p1| == |p2| && forall j :: 0 <= j < |p1| - 1 ==> PrefixKey(p1, j) == PrefixKey(p2, j)
  {
    assert |p1| - 1 == |p1[..|p1| - 1]|;
    forall j | 0 <= j < |p1| - 1
      ensures PrefixKey(p1, j) == PrefixKey(p2, j)
    {
      assert p1[..j + 1] == p1[..|p1| - 1][..j + 1];
      assert p2[..j + 1] == p2[..|p2| - 1][..j + 1];
    }
  }

  // ---------------------------------------------------------------------------
  // Lemmas: the cache never changes what a path means
  // ---------------------------------------------------------------------------

  /** Appending nodes does not change how earlier nodes are reached. */
  lemma {:induction false} SpellExtend(g: Graph, extra: Graph, n: nat)
    requires n < |g|
    ensures Spell(g + extra, n) == Spell(g, n)
    decreases n
  {
    if n != 0 && g[n].parent < n {
      SpellExtend(g, extra, g[n].parent);
    }
  }

  /** In a well-formed tree a node's entity is the one its association chain reaches. */
  lemma {:induction false} NodeEntity(reg: Registry, g: Graph, n: nat)
    requires WellFormed(reg, g) && n < |g|
    ensures FollowChain(reg, g[0].entity, Spell(g, n)) == Success(g[n].entity)
    decreases n
  {
    if n != 0 {
      assert JoinedBy(reg, g, n);
      var p := g[n].parent;
      NodeEntity(reg, g, p);
      var s := Spell(g, n);
      assert s[..|s| - 1] == Spell(g, p);
    }
  }

  /** A join on an association of an existing node keeps the tree well-formed. */
  lemma WellFormedExtend(reg: Registry, g: Graph, from: nat, attr: string, t: string)
    requires WellFormed(reg, g) && from < |g|
    requires JoinOn(reg, g[from].entity, attr) == Success(t)
    ensures WellFormed(reg, g + [Node(from, attr, t)])
  {
    var g' := g + [Node(from, attr, t)];
    forall n: nat | 1 <= n < |g'|
      ensures JoinedBy(reg, g', n)
    {
      assert n < |g| ==> JoinedBy(reg, g, n);
      if n < |g| {
        assert g'[n] == g[n];
        assert g'[g[n].parent] == g[g[n].parent];
      }
    }
  }

  /** Making the join for the next prefix keeps the cache sound, and the new node is
      reached over one more association than the node it hangs off. */
  lemma SoundExtend(reg: Registry, g: Graph, c: Cache, from: nat, attr: string, t: string, key: string)
    requires Sound(reg, g, c) && from < |g|
    requires JoinOn(reg, g[from].entity, attr) == Success(t)
    requires SplitAll(key, '.') == Spell(g, from) + [attr]
    ensures var g' := g + [Node(from, attr, t)];
      Sound(reg, g', c[key := |g|]) && Spell(g', |g|) == Spell(g, from) + [attr]
  {
    var extra := [Node(from, attr, t)];
    var g' := g + extra;
    var c' := c[key := |g|];
    SpellExtend(g, extra, from);
    assert Spell(g', |g|) == Spell(g', from) + [attr];
    WellFormedExtend(reg, g, from, attr, t);
    forall k | k in c'
      ensures c'[k] < |g'| && Spell(g', c'[k]) == SplitAll(k, '.')
    {
      if k != key {
        SpellExtend(g, extra, c[k]);
      }
    }
  }

  /** A cached join for the next prefix sits where joining the next segment would lead. */
  lemma CachedStep(reg: Registry, g: Graph, c: Cache, from: nat, key: string, attr: string)
    requires Sound(reg, g, c) && from < |g| && key in c
    requires SplitAll(key, '.') == Spell(g, from) + [attr]
    ensures JoinOn(reg, g[from].entity, attr) == Success(g[c[key]].entity)
  {
    NodeEntity(reg, g, from);
    NodeEntity(reg, g, c[key]);
    var s := Spell(g, c[key]);
    assert s[..|s| - 1] == Spell(g, from);
  }

  predicate Agrees(reg: Registry, parts: seq<string>, w: Result<Walked, Error>, f: Result<string, Error>)
    requires |parts| >= 1
  {
    && (w.Success? <==> f.Success?)
    && (w.Failure? ==> w.error == f.error)
    && (w.Success? ==>
          && w.value.node < |w.value.graph|
          && Sound(reg, w.value.graph, w.value.cache)
          && Spell(w.value.graph, w.value.node) == parts[..|parts| - 1]
          && w.value.graph[w.value.node].entity == f.value)
  }

  /** The loop at iteration `i` stands on a node reached over parts[..i] of a sound
      cache, and no segment holds a dot. */
  predicate OnPath(reg: Registry, parts: seq<string>, i: nat, from: nat, g: Graph, c: Cache)
  {
    && i < |parts| && (forall j :: 0 <= j < |parts| ==> '.' !in parts[j])
    && Sound(reg, g, c) && from < |g| && Spell(g, from) == parts[..i]
  }

  /** The loop from iteration `i` on agrees with the cache-free Follow from node `from`:
      both fail with the same error, or both succeed, the loop leaving a sound cache and
      ending on a node reached over parts[..|parts| - 1] whose entity Follow names. */
  lemma {:induction false} WalkFollows(reg: Registry, parts: seq<string>, i: nat, from: nat, g: Graph, c: Cache)
    requires OnPath(reg, parts, i, from, g, c)
    ensures Agrees(reg, parts, Walk(reg, parts, i, from, g, c), Follow(reg, g[from].entity, parts, i))
    decreases |parts| - i, 1
  {
    if i < |parts| - 1 {
      if PrefixKey(parts, i) in c {
        WalkFollowsCached(reg, parts, i, from, g, c);
      } else {
        WalkFollowsFresh(reg, parts, i, from, g, c);
      }
    }
  }

  lemma {:induction false} WalkFollowsCached(reg: Registry, parts: seq<string>, i: nat, from: nat, g: Graph, c: Cache)
    requires OnPath(reg, parts, i, from, g, c)
    requires i < |parts| - 1
    requires PrefixKey(parts, i) in c
    ensures Agrees(reg, parts, Walk(reg, parts, i, from, g, c), Follow(reg, g[from].entity, parts, i))
    decreases |parts| - i, 0
  {
    var key := PrefixKey(parts, i);
    var next := c[key];
    assert parts[..i + 1] == parts[..i] + [parts[i]];
    assert SplitAll(key, '.') == parts[..i + 1] by {
      SplitJoin(parts[..i + 1], '.');
    }
    assert JoinOn(reg, g[from].entity, parts[i]) == Success(g[next].entity) by {
      CachedStep(reg, g, c, from, key, parts[i]);
    }
    assert Agrees(reg, parts, Walk(reg, parts, i + 1, next, g, c), Follow(reg, g[next].entity, parts, i + 1)) by {
      assert Spell(g, next) == parts[..i + 1];
      WalkFollows(reg, parts, i + 1, next, g, c);
    }
    WalkCachedStep(reg, parts, i, from, g, c);
    FollowStep(reg, g[from].entity, g[next].entity, parts, i);
  }

  /** A cached prefix moves the loop to its node and changes nothing. */
  lemma WalkCachedStep(reg: Registry, parts: seq<string>, i: nat, from: nat, g: Graph, c: Cache)
    requires i < |parts| - 1 && from < |g| && InRange(g, c)
    requires PrefixKey(parts, i) in c
    ensures Walk(reg, parts, i, from, g, c) == Walk(reg, parts, i + 1, c[PrefixKey(parts, i)], g, c)
  {
  }

  /** Follow over a successful association continues from the entity it reaches. */
  lemma FollowStep(reg: Registry, entity: string, t: string, parts: seq<string>, i: nat)
    requires i < |parts| - 1
    requires JoinOn(reg, entity, parts[i]) == Success(t)
    ensures Follow(reg, entity, parts, i) == Follow(reg, t, parts, i + 1)
  {
  }

  lemma {:induction false} WalkFollowsFresh(reg: Registry, parts: seq<string>, i: nat, from: nat, g: Graph, c: Cache)
    requires OnPath(reg, parts, i, from, g, c)
    requires i < |parts| - 1
    requires PrefixKey(parts, i) !in c
    ensures Agrees(reg, parts, Walk(reg, parts, i, from, g, c), Follow(reg, g[from].entity, parts, i))
    decreases |parts| - i, 0
  {
    var key := PrefixKey(parts, i);
    var t := JoinOn(reg, g[from].entity, parts[i]);
    if t.Success? {
      var g' := g + [Node(from, parts[i], t.value)];
      var c' := c[key := |g|];
      assert parts[..i + 1] == parts[..i] + [parts[i]];
      assert SplitAll(key, '.') == parts[..i + 1] by {
        SplitJoin(parts[..i + 1], '.');
      }
      assert Sound(reg, g', c') && Spell(g', |g|) == parts[..i + 1] by {
        SoundExtend(reg, g, c, from, parts[i], t.value, key);
      }
      assert Agrees(reg, parts, Walk(reg, parts, i + 1, |g|, g', c'), Follow(reg, g'[|g|].entity, parts, i + 1)) by {
        WalkFollows(reg, parts, i + 1, |g|, g', c');
      }
      assert Walk(reg, parts, i, from, g, c) == Walk(reg, parts, i + 1, |g|, g', c');
      assert Follow(reg, g[from].entity, parts, i) == Follow(reg, g'[|g|].entity, parts, i + 1);
    }
  }

  /** Under a sound cache, resolution is exactly the cache-free meaning of the field:
      it fails when the meaning is an error, with that error, and otherwise returns a path
      whose attribute chain is the field's segments, leaving the cache sound. */
  lemma ResolveDenotes(reg: Registry, g: Graph, c: Cache, field: string)
    requires Sound(reg, g, c)
    ensures var r := Resolve(reg, g, c, field); var d := Denote(reg, g[0].entity, field);
      && (r.Success? <==> d.Success?)
      && (r.Failure? ==> r.error == d.error)
      && (r.Success? ==> Sound(reg, r.value.graph, r.value.cache) && Chain(r.value.graph, r.value.path) == d.value)
  {
    if '.' in field {
      ResolveDenotesDotted(reg, g, c, field);
    }
  }

  /** ResolveDenotes for a dotted field, read through the loop. */
  lemma ResolveDenotesDotted(reg: Registry, g: Graph, c: Cache, field: string)
    requires Sound(reg, g, c) && '.' in field
    ensures var r := Resolve(reg, g, c, field); var d := Denote(reg, g[0].entity, field);
      && (r.Success? <==> d.Success?)
      && (r.Failure? ==> r.error == d.error)
      && (r.Success? ==> Sound(reg, r.value.graph, r.value.cache) && Chain(r.value.graph, r.value.path) == d.value)
  {
    var parts := JavaSplit(field, '.');
    assert Segments(field) == parts;
    if |parts| > 0 {
      var w := Walk(reg, parts, 0, 0, g, c);
      var f := Follow(reg, g[0].entity, parts, 0);
      assert Agrees(reg, parts, w, f) by {
        JavaSplitIsPrefix(field, '.');
        assert OnPath(reg, parts, 0, 0, g, c);
        WalkFollows(reg, parts, 0, 0, g, c);
      }
      if w.Success? {
        var v := w.value;
        var last := parts[|parts| - 1];
        assert parts[..|parts| - 1] + [last] == parts;
        ChainOfWalk(reg, parts, v, f.value);
      }
    }
  }

  /** The path read on the last node of an agreeing loop spells all the segments. */
  lemma ChainOfWalk(reg: Registry, parts: seq<string>, v: Walked, t: string)
    requires |parts| >= 1 && Agrees(reg, parts, Success(v), Success(t))
    ensures v.node < |v.graph| && v.graph[v.node].entity == t
    ensures Chain(v.graph, PathRef(v.node, parts[|parts| - 1])) == parts
  {
    assert parts[..|parts| - 1] + [parts[|parts| - 1]] == parts;
  }

  /** Two sound caches over query roots of the same entity resolve a field alike: both
      fail with the same error, or both give paths with the same attribute chain. */
  lemma ResolveCacheIndependent(reg: Registry, g1: Graph, c1: Cache, g2: Graph, c2: Cache, field: string)
    requires Sound(reg, g1, c1) && Sound(reg, g2, c2) && g1[0].entity == g2[0].entity
    ensures var r1 := Resolve(reg, g1, c1, field); var r2 := Resolve(reg, g2, c2, field);
      && (r1.Success? <==> r2.Success?)
      && (r1.Failure? ==> r1.error == r2.error)
      && (r1.Success? ==> Chain(r1.value.graph, r1.value.path) == Chain(r2.value.graph, r2.value.path))
  {
    ResolveDenotes(reg, g1, c1, field);
    ResolveDenotes(reg, g2, c2, field);
  }

  /** A fresh query root with a fresh cache is sound. */
  lemma FreshIsSound(reg: Registry, entity: string)
    requires entity in reg
    ensures Sound(reg, RootGraph(entity), map[])
  {
  }

  /** Resolution under a sound cache extends the From tree and reads the field as Denote does. */
  lemma ResolveReads(reg: Registry, g: Graph, c: Cache, field: string)
    requires Sound(reg, g, c)
    ensures var r := Resolve(reg, g, c, field); var d := Denote(reg, g[0].entity, field);
      && (r.Success? <==> d.Success?)
      && (r.Failure? ==> r.error == d.error)
      && (r.Success? ==>
            && Sound(reg, r.value.graph, r.value.cache) && Extends(g, r.value.graph)
            && Chain(r.value.graph, r.value.path) == d.value)
  {
    ResolveDenotes(reg, g, c, field);
    ResolveExtends(reg, g, c, field);
  }
}
