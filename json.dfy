/**
 * Items as the handler sees them once a request body has been parsed: a
 * schema-less bag of attributes whose values are JSON values.
 */
module Json {
  import opened Wrappers

  /** A JSON value. Numbers are integers (floating point is not modelled). */
  datatype Value =
    | Null
    | Bool(b: bool)
    | Num(n: int)
    | Str(s: string)
    | Array(elems: seq<Value>)
    | Object(fields: map<string, Value>)

  /** An item: attribute name to value. An absent attribute is `undefined`. */
  type Item = map<string, Value>

  /** The attributes the system owns; every other attribute passes through untouched. */
  const Id: string := "id"
  const CreatedAt: string := "createdAt"
  const UpdatedAt: string := "updatedAt"

  /** JavaScript truthiness of a JSON value (`null`, `false`, `0` and `""` are falsy). */
  predicate Truthy(v: Value)
  {
    match v
    case Null => false
    case Bool(b) => b
    case Num(n) => n != 0
    case Str(s) => s != ""
    case Array(_) => true
    case Object(_) => true
  }

  /** The test `item.id` of lambda/index.js:102: the attribute is present and truthy. */
  predicate HasId(item: Item)
  {
    Id in item && Truthy(item[Id])
  }

  /**
   * The table key an item is written under. The table's partition key `id` is
   * declared as a string, and the store refuses a key attribute that is missing,
   * of another type, or the empty string.
   */
  function KeyOf(item: Item): (k: Option<string>)
    ensures k.Some? ==> k.value != "" && Id in item && item[Id] == Str(k.value)
    ensures k.None? ==> Id !in item || !item[Id].Str? || item[Id].s == ""
  {
    if Id in item && item[Id].Str? && item[Id].s != "" then Some(item[Id].s) else None
  }

  /** The decimal digit `d` as a character. */
  function Digit(d: nat): (c: char)
    requires d < 10
    ensures '0' <= c <= '9' && c as int - '0' as int == d
  {
    ('0' as int + d) as char
  }

  /** The decimal name of an array index, as a property name (`"0"`, `"1"`, ... ). */
  function IndexName(n: nat): (s: string)
    ensures |s| >= 1 && forall i | 0 <= i < |s| :: '0' <= s[i] <= '9'
  {
    if n < 10 then [Digit(n)] else IndexName(n / 10) + [Digit(n % 10)]
  }

  /** The number a string of decimal digits denotes, read most significant digit first. */
  function IndexValue(s: string): int
    decreases |s|
  {
    if |s| == 0 then 0
    else IndexValue(s[..|s| - 1]) * 10 + (s[|s| - 1] as int - '0' as int)
  }

  /** Reading an index's name gives the index back. */
  lemma {:induction false} IndexValueOfName(n: nat)
    ensures IndexValue(IndexName(n)) == n
  {
    var s := IndexName(n);
    if n < 10 {
      assert s[..0] == [];
    } else {
      IndexValueOfName(n / 10);
      assert s[..|s| - 1] == IndexName(n / 10);
    }
  }

  /** Different indices have different names. */
  lemma IndexNameInjective(m: nat, n: nat)
    ensures IndexName(m) == IndexName(n) ==> m == n
  {
    IndexValueOfName(m);
    IndexValueOfName(n);
  }

  /** The names of the indices below `n`. */
  function IndexNames(n: nat): set<string>
  {
    set i: nat | i < n :: IndexName(i)
  }

  /**
   * The enumerable attributes of an array: each index, by its decimal name,
   * holds that element, and every attribute is the name of an index.
   */
  function ArrayItem(elems: seq<Value>): (item: Item)
    ensures forall i | 0 <= i < |elems| :: IndexName(i) in item && item[IndexName(i)] == elems[i]
    ensures forall a | a in item :: 0 <= IndexValue(a) < |elems| && IndexName(IndexValue(a)) == a
    decreases |elems|
  {
    if elems == [] then map[]
    else
      var n := |elems| - 1;
      IndexValueOfName(n);
      ArrayItem(elems[..n])[IndexName(n) := elems[n]]
  }

  /** No attribute of an array is `id`, `createdAt` or `updatedAt`: each begins with a digit. */
  lemma ArrayItemReserved(elems: seq<Value>)
    ensures Id !in ArrayItem(elems) && CreatedAt !in ArrayItem(elems) && UpdatedAt !in ArrayItem(elems)
  {
    assert Id[0] == 'i' && CreatedAt[0] == 'c' && UpdatedAt[0] == 'u';
  }

  /** The attributes of an array are exactly the names of its indices. */
  lemma ArrayItemKeys(elems: seq<Value>)
    ensures ArrayItem(elems).Keys == IndexNames(|elems|)
  {
    var item := ArrayItem(elems);
    forall a | a in item ensures a in IndexNames(|elems|) {
      var i: nat := IndexValue(a);
      assert IndexName(i) == a;
    }
  }

  /**
   * The item a parsed body becomes when the handler sets attributes on it and
   * hands it to the store. An object is its own attributes; an array (also an
   * object in JavaScript) contributes its index properties. `null` throws as
   * soon as `item.id` is read or set, and a string, number or boolean is refused by the
   * store as an item: both are None.
   */
  function BodyItem(v: Value): (item: Option<Item>)
    ensures item.Some? <==> v.Object? || v.Array?
    ensures v.Object? ==> item == Some(v.fields)
    ensures v.Array? ==> item == Some(ArrayItem(v.elems)) && !HasId(item.value)
  {
    match v
    case Object(fields) => Some(fields)
    case Array(elems) => ArrayItemReserved(elems); Some(ArrayItem(elems))
    case _ => None
  }
}
