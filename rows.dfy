/** The result mapping of fetchData: each result tuple becomes one record, a LinkedHashMap
    from column name to value. Without requested fields the record holds the whole
    entity under "entity"; otherwise it holds each requested field's value under the
    field's name. */
module Rows {
  import opened Wrappers
  import opened Values
  import opened Request

  /** A JPA result tuple: its elements in selection order, each under its alias. A
      whole-entity tuple has the entity as its one element. */
  type Tuple = Entries

  /** Tuple.get(i); an element the tuple lacks reads as null. */
  function TupleAt(t: Tuple, i: nat): Value
  {
    if i < |t| then t[i].1 else Null
  }

  /** Tuple.get(alias); an alias the tuple lacks reads as null. */
  function TupleGet(t: Tuple, alias: string): Value
  {
    var v := Get(t, alias);
    if v.Some? then v.value else Null
  }

  /** `hasFields` in fetchData. */
  predicate HasFields(req: RequestView)
  {
    req.fields.Some? && |req.fields.value| > 0
  }

  /** `singleFieldDistinct` in fetchData. */
  predicate SingleFieldDistinct(req: RequestView)
  {
    req.distinct && HasFields(req) && |req.fields.value| == 1
  }

  predicate NoDuplicates(xs: seq<string>)
  {
    forall i, j :: 0 <= i < j < |xs| ==> xs[i] != xs[j]
  }

  /** LinkedHashMap.put: a new key goes last; a key already present keeps its place and
      takes the new value. */
  function Put(row: Entries, key: string, v: Value): Entries
  {
    var j := Find(row, key);
    if j < |row| then row[j := (key, v)] else row + [(key, v)]
  }

  /** The inner loop of the general mapping from field `i` on: `row.put(f, t.get(f))`. */
  function RowOf(fields: seq<string>, t: Tuple, i: nat, row: Entries): Entries
    requires i <= |fields|
    decreases |fields| - i
  {
    if i == |fields| then row else RowOf(fields, t, i + 1, Put(row, fields[i], TupleGet(t, fields[i])))
  }

  /** The record fetchData makes of one tuple. */
  function Record(req: RequestView, t: Tuple): Entries
  {
    if !HasFields(req) then [("entity", TupleAt(t, 0))]
    else if SingleFieldDistinct(req) then [(req.fields.value[0], TupleGet(t, req.fields.value[0]))]
    else RowOf(req.fields.value, t, 0, [])
  }

  /** The records of all tuples, in result order. */
  function Records(req: RequestView, tuples: seq<Tuple>): (r: seq<Entries>)
    ensures |r| == |tuples| && forall i :: 0 <= i < |tuples| ==> r[i] == Record(req, tuples[i])
  {
    seq(|tuples|, i requires 0 <= i < |tuples| => Record(req, tuples[i]))
  }

  // ---------------------------------------------------------------------------
  // The mapping loops
  // ---------------------------------------------------------------------------

  method MapRows(req: RequestView, tuples: seq<Tuple>) returns (data: seq<Entries>)
    ensures data == Records(req, tuples)
  {
    data := [];
    var hasFields := req.fields.Some? && |req.fields.value| > 0;
    var singleFieldDistinct := req.distinct && hasFields && |req.fields.value| == 1;
    var n := 0;
    while n < |tuples|
      invariant 0 <= n <= |tuples| && |data| == n
      invariant forall k :: 0 <= k < n ==> data[k] == Record(req, tuples[k])
    {
      var t := tuples[n];
      var row: Entries;
      if !hasFields {
        row := Put([], "entity", TupleAt(t, 0));
      } else if singleFieldDistinct {
        var f := req.fields.value[0];
        row := Put([], f, TupleGet(t, f));
      } else {
        row := FillRecord(req.fields.value, t);
      }
      data := data + [row];
      n := n + 1;
    }
  }

  /** The loop over the requested fields for one tuple. */
  method FillRecord(fields: seq<string>, t: Tuple) returns (row: Entries)
    ensures row == RowOf(fields, t, 0, [])
  {
    row := [];
    var i := 0;
    while i < |fields|
      invariant 0 <= i <= |fields|
      invariant RowOf(fields, t, 0, []) == RowOf(fields, t, i, row)
    {
      row := Put(row, fields[i], TupleGet(t, fields[i]));
      i := i + 1;
    }
  }

  // ---------------------------------------------------------------------------
  // Lemmas: LinkedHashMap.put
  // ---------------------------------------------------------------------------

  lemma FindKeys(es: Entries, key: string)
    ensures Find(es, key) < |es| <==> key in Keys(es)
  {
    var j := Find(es, key);
    if j < |es| {
      assert Keys(es)[j] == key;
    }
    if key in Keys(es) {
      var i :| 0 <= i < |es| && Keys(es)[i] == key;
      assert es[i].0 == key;
    }
  }

  /** Overwriting an entry with one of the same key moves no lookup. */
  lemma {:induction false} FindUpdate(es: Entries, j: nat, x: (string, Value), key: string)
    requires j < |es| && es[j].0 == x.0
    ensures Find(es[j := x], key) == Find(es, key)
  {
    if j > 0 && es[0].0 != key {
      assert es[j := x][1..] == es[1..][j - 1 := x];
      FindUpdate(es[1..], j - 1, x, key);
    }
  }

  /** After `put(key, v)` the key maps to v and every other key to what it did. */
  lemma PutGet(row: Entries, key: string, v: Value, other: string)
    ensures Get(Put(row, key, v), key) == Some(v)
    ensures other != key ==> Get(Put(row, key, v), other) == Get(row, other)
  {
    var j := Find(row, key);
    if j < |row| {
      FindUpdate(row, j, (key, v), key);
      FindUpdate(row, j, (key, v), other);
    } else {
      FindAppend(row, (key, v), key);
      FindAppend(row, (key, v), other);
    }
  }

  /** `put` appends a key the map lacks and leaves the key order alone otherwise. */
  lemma PutKeys(row: Entries, key: string, v: Value)
    ensures Keys(Put(row, key, v)) == if key in Keys(row) then Keys(row) else Keys(row) + [key]
  {
    FindKeys(row, key);
    var j := Find(row, key);
    if j < |row| {
      assert Keys(row[j := (key, v)]) == Keys(row);
    } else {
      assert Keys(row + [(key, v)]) == Keys(row) + [key];
    }
  }

  // ---------------------------------------------------------------------------
  // Lemmas: records
  // ---------------------------------------------------------------------------

  /** `r` holds each field from `i` on under its tuple value, every other key as `row`
      did, and exactly the keys of `row` and those fields. */
  ghost predicate ReadsFields(fields: seq<string>, t: Tuple, i: nat, row: Entries, r: Entries)
    requires i <= |fields|
  {
    && (forall k :: i <= k < |fields| ==> Get(r, fields[k]) == Some(TupleGet(t, fields[k])))
    && (forall f :: f !in fields[i..] ==> Get(r, f) == Get(row, f))
    && (forall f :: f in Keys(r) <==> f in Keys(row) || f in fields[i..])
  }

  /** The general mapping loop puts each field's tuple value under the field's name, leaves
      other keys as they were, and adds exactly the fields' names to the keys. */
  lemma {:induction false} RowOfReads(fields: seq<string>, t: Tuple, i: nat, row: Entries)
    requires i <= |fields|
    ensures ReadsFields(fields, t, i, row, RowOf(fields, t, i, row))
    decreases |fields| - i
  {
    if i < |fields| {
      RowOfReads(fields, t, i + 1, Put(row, fields[i], TupleGet(t, fields[i])));
      RowOfReadsStep(fields, t, i, row);
    } else {
      assert fields[i..] == [];
    }
  }

  /** One step of RowOfReads: `put` of field `i`, given the rest of the loop. */
  lemma RowOfReadsStep(fields: seq<string>, t: Tuple, i: nat, row: Entries)
    requires i < |fields|
    requires var row' := Put(row, fields[i], TupleGet(t, fields[i]));
      ReadsFields(fields, t, i + 1, row', RowOf(fields, t, i + 1, row'))
    ensures ReadsFields(fields, t, i, row, RowOf(fields, t, i, row))
  {
    var f := fields[i];
    var v := TupleGet(t, f);
    var row' := Put(row, f, v);
    var r := RowOf(fields, t, i, row);
    assert r == RowOf(fields, t, i + 1, row');
    assert fields[i..] == [f] + fields[i + 1..];
    PutKeys(row, f, v);
    forall g | g !in fields[i..]
      ensures Get(r, g) == Get(row, g)
    {
      PutGet(row, f, v, g);
    }
    forall k | i <= k < |fields|
      ensures Get(r, fields[k]) == Some(TupleGet(t, fields[k]))
    {
      if k == i {
        if f in fields[i + 1..] {
          var p :| 0 <= p < |fields[i + 1..]| && fields[i + 1..][p] == f;
          assert fields[i + 1 + p] == f;
        } else {
          PutGet(row, f, v, f);
        }
      }
    }
  }

  lemma NoDuplicatesSnoc(xs: seq<string>, x: string)
    requires NoDuplicates(xs) && x !in xs
    ensures NoDuplicates(xs + [x])
  {
  }

  /** Splitting a duplicate-free list after its head's predecessor keeps it duplicate-free. */
  lemma NoDuplicatesShift(xs: seq<string>, ys: seq<string>)
    requires |ys| > 0 && NoDuplicates(xs + ys)
    ensures ys[0] !in xs && NoDuplicates(xs + [ys[0]]) && NoDuplicates((xs + [ys[0]]) + ys[1..])
  {
    assert (xs + [ys[0]]) + ys[1..] == xs + ys;
    forall p | 0 <= p < |xs|
      ensures xs[p] != ys[0]
    {
      assert (xs + ys)[p] == xs[p] && (xs + ys)[|xs|] == ys[0];
    }
    assert NoDuplicates(xs + [ys[0]]) by {
      forall a, b | 0 <= a < b < |xs| + 1
        ensures (xs + [ys[0]])[a] != (xs + [ys[0]])[b]
      {
        assert (xs + [ys[0]])[a] == (xs + ys)[a];
        assert (xs + [ys[0]])[b] == (xs + ys)[b];
      }
    }
  }

  /** The general mapping loop never repeats a key, and on distinct fields its keys are
      the fields in request order. */
  lemma {:induction false} RowOfKeys(fields: seq<string>, t: Tuple, i: nat, row: Entries)
    requires i <= |fields| && NoDuplicates(Keys(row))
    ensures var r := RowOf(fields, t, i, row);
      && NoDuplicates(Keys(r))
      && (NoDuplicates(Keys(row) + fields[i..]) ==> Keys(r) == Keys(row) + fields[i..])
    decreases |fields| - i
  {
    if i < |fields| {
      var f := fields[i];
      var row' := Put(row, f, TupleGet(t, f));
      assert NoDuplicates(Keys(row')) by {
        PutKeys(row, f, TupleGet(t, f));
        if f !in Keys(row) {
          NoDuplicatesSnoc(Keys(row), f);
        }
      }
      RowOfKeys(fields, t, i + 1, row');
      if NoDuplicates(Keys(row) + fields[i..]) {
        assert fields[i..][0] == f && fields[i..][1..] == fields[i + 1..];
        NoDuplicatesShift(Keys(row), fields[i..]);
        PutKeys(row, f, TupleGet(t, f));
        assert Keys(row) + fields[i..] == (Keys(row) + [f]) + fields[i + 1..];
      }
    }
  }

  /** A record of requested fields holds every requested field's value under its name and
      no other key, never repeats a key, and lists the fields in request order when they
      are distinct. The single-field distinct branch builds the record the general loop
      would. */
  lemma RecordOfFields(req: RequestView, t: Tuple)
    requires HasFields(req)
    ensures var row := Record(req, t); var fields := req.fields.value;
      && (forall k :: 0 <= k < |fields| ==> Get(row, fields[k]) == Some(TupleGet(t, fields[k])))
      && (forall f :: f in Keys(row) <==> f in fields)
      && NoDuplicates(Keys(row))
      && (NoDuplicates(fields) ==> Keys(row) == fields)
      && row == RowOf(fields, t, 0, [])
  {
    var fields := req.fields.value;
    assert Keys([]) == [];
    assert fields[0..] == fields;
    RowOfReads(fields, t, 0, []);
    RowOfKeys(fields, t, 0, []);
    if SingleFieldDistinct(req) {
      assert RowOf(fields, t, 1, Put([], fields[0], TupleGet(t, fields[0]))) == [(fields[0], TupleGet(t, fields[0]))];
    }
  }

  /** Without requested fields each record holds the tuple's entity under "entity" alone. */
  lemma RecordOfEntity(req: RequestView, t: Tuple)
    requires !HasFields(req)
    ensures Keys(Record(req, t)) == ["entity"] && Get(Record(req, t), "entity") == Some(TupleAt(t, 0))
  {
    assert Keys(Record(req, t)) == ["entity"];
  }
}
