/** The dynamically typed values that flow through the query service: what Jackson
    makes of the request's JSON (strings, integral numbers, booleans, null, lists,
    objects), what the store hands back (dates, whole entities), and the exceptions
    that can escape the service. */
module Values {
  import opened Wrappers
  import opened Strings

  datatype Value =
    | Null
    | Str(s: string)
    | Num(n: int)
    /** A java.time.LocalDate, carried as its ISO-8601 text (what its toString gives). */
    | Date(iso: string)
    | Bool(b: bool)
    | List(items: seq<Value>)
    /** A JSON object; Jackson builds a LinkedHashMap, so the entries keep their order. */
    | Object(entries: seq<(string, Value)>)
    /** A whole entity row of the store, carried as the text its toString gives. */
    | Entity(shown: string)

  /** One enumeration of a Map<String, Object>: a Java map holds each key once. */
  type Entries = seq<(string, Value)>

  /** What the service can throw. */
  datatype Error =
    /** Class.forName found no class of that name (ClassNotFoundException). */
    | UnknownEntity(name: string)
    /** Path.get or From.join on a name the entity does not have (IllegalArgumentException). */
    | UnknownAttribute(entity: string, attr: string)
    /** From.join on a basic attribute, which cannot be joined. */
    | NotJoinable(entity: string, attr: string)
    /** NullPointerException. */
    | NullValue
    /** ClassCastException: a filter value of the wrong JSON type for its operator. */
    | WrongValueType
    /** IllegalArgumentException: a subquery spec without 'entity' or 'field'. */
    | IncompleteSubquery
    /** IllegalArgumentException from setFirstResult or setMaxResults on a negative value. */
    | NegativeWindow
    /** ArrayIndexOutOfBoundsException: a split that left no piece to index. */
    | NoPathSegments
    /** RuntimeException("Excel export failed: ..."): the workbook could not be written. */
    | ExportFailed

  /** The position of the first entry whose key is `key`, or |es| when there is none. */
  function Find(es: Entries, key: string): (j: nat)
    ensures j <= |es|
    ensures j < |es| ==> es[j].0 == key
    ensures forall i :: 0 <= i < j ==> es[i].0 != key
  {
    if |es| == 0 then 0 else if es[0].0 == key then 0 else 1 + Find(es[1..], key)
  }

  /** Appending an entry leaves the lookup of every key already present as it was. */
  lemma {:induction false} FindAppend(es: Entries, x: (string, Value), key: string)
    ensures Find(es + [x], key) == if Find(es, key) < |es| || x.0 == key then Find(es, key) else |es| + 1
  {
    if |es| > 0 && es[0].0 != key {
      assert (es + [x])[1..] == es[1..] + [x];
      FindAppend(es[1..], x, key);
    }
  }

  /** Map.get: the value stored under `key`, None for a missing key. */
  function Get(es: Entries, key: string): Option<Value>
  {
    var j := Find(es, key);
    if j < |es| then Some(es[j].1) else None
  }

  /** Map.keySet in iteration order. */
  function Keys(es: Entries): seq<string>
  {
    seq(|es|, i requires 0 <= i < |es| => es[i].0)
  }

  function JoinComma(xs: seq<string>): string
  {
    if |xs| == 0 then "" else if |xs| == 1 then xs[0] else xs[0] + ", " + JoinComma(xs[1..])
  }

  /** Object.toString: a string is itself, numbers and booleans their literal,
      collections "[a, b]" and maps "{k=v, l=w}" as java.util's abstract classes print them. */
  function Show(v: Value): string
  {
    match v
    case Null => "null"
    case Str(s) => s
    case Num(n) => IntToString(n)
    case Date(iso) => iso
    case Bool(b) => if b then "true" else "false"
    case List(items) =>
      "[" + JoinComma(seq(|items|, i requires 0 <= i < |items| => Show(items[i]))) + "]"
    case Object(es) =>
      "{" + JoinComma(seq(|es|, i requires 0 <= i < |es| => es[i].0 + "=" + Show(es[i].1))) + "}"
    case Entity(shown) => shown
  }

  /** The Java classes behind these values that implement Comparable:
      String, the Number wrappers, Boolean and LocalDate. */
  predicate IsComparable(v: Value)
  {
    v.Str? || v.Num? || v.Bool? || v.Date?
  }

  /** normalizeComparable: a bound handed to `between` is null, Comparable, or the string
      form of a value that is not Comparable. */
  function NormalizeComparable(v: Value): (r: Value)
    ensures r.Null? || IsComparable(r)
    ensures v.Null? || IsComparable(v) ==> r == v
    ensures !v.Null? && !IsComparable(v) ==> r == Str(Show(v))
  {
    if v.Null? then Null
    else if IsComparable(v) then v
    else Str(Show(v))
  }
}
