/** json.dumps(args, sort_keys=True) on dictionaries that keep their insertion order, as Python's do
    (src/praxis_sdk/dsl/types.py:199-208): it prints what they hold and not how they came to hold it. */
module JsonOrder {
  import opened DslTypes
  import opened CacheKeys
  import opened Json

  /** One item of a dictionary. */
  datatype Item<T> = Item(key: string, value: T)

  /** A value with nothing inside. */
  type Atom = v: Value | !v.List? && !v.Dict? witness Null

  /** A value whose dictionaries are lists of items in insertion order. */
  datatype Ordered =
    | Leaf(value: Atom)
    | Elements(elements: seq<Ordered>)
    | Pairs(pairs: seq<Item<Ordered>>)

  /** A dictionary has each key once, at every level. */
  predicate Proper(o: Ordered)
    decreases o, 1
  {
    match o
    case Leaf(_) => true
    case Elements(elements) => AllProper(elements)
    case Pairs(pairs) => PairsProper(pairs)
  }

  predicate AllProper(elements: seq<Ordered>)
    decreases elements, 0
  {
    elements == [] || (Proper(elements[0]) && AllProper(elements[1..]))
  }

  predicate PairsProper(pairs: seq<Item<Ordered>>)
    decreases pairs, 0
  {
    pairs == [] || (Proper(pairs[0].value) && pairs[0].key !in KeysOf(pairs[1..]) && PairsProper(pairs[1..]))
  }

  function KeysOf<T>(pairs: seq<Item<T>>): set<string> {
    if pairs == [] then {} else {pairs[0].key} + KeysOf(pairs[1..])
  }

  /** The value without the order of its dictionaries. */
  function Forget(o: Ordered): Value
    decreases o, 1
  {
    match o
    case Leaf(v) => v
    case Elements(elements) => List(ForgetAll(elements))
    case Pairs(pairs) => Dict(ForgetPairs(pairs))
  }

  function ForgetAll(elements: seq<Ordered>): (vs: seq<Value>)
    ensures |vs| == |elements|
    decreases elements, 0
  {
    if elements == [] then [] else [Forget(elements[0])] + ForgetAll(elements[1..])
  }

  function ForgetPairs(pairs: seq<Item<Ordered>>): (fields: map<string, Value>)
    ensures fields.Keys == KeysOf(pairs)
    decreases pairs, 0
  {
    if pairs == [] then map[] else ForgetPairs(pairs[1..])[pairs[0].key := Forget(pairs[0].value)]
  }

  // ---- The printer: sort the items, then join them -------------------------------------------------

  type Field = Item<string>

  function Insert(f: Field, sorted: seq<Field>): seq<Field> {
    if sorted == [] || Before(f.key, sorted[0].key) then [f] + sorted
    else [sorted[0]] + Insert(f, sorted[1..])
  }

  function Sort(fields: seq<Field>): seq<Field> {
    if fields == [] then [] else Insert(fields[0], Sort(fields[1..]))
  }

  function JoinFields(fields: seq<Field>): string {
    if fields == [] then ""
    else Quoted(fields[0].key) + ": " + fields[0].value + if |fields| == 1 then "" else ", " + JoinFields(fields[1..])
  }

  function JoinItems(texts: seq<string>): string {
    if texts == [] then "" else texts[0] + if |texts| == 1 then "" else ", " + JoinItems(texts[1..])
  }

  function LeafText(v: Atom): string {
    match v
    case Null => "null"
    case Bool(b) => if b then "true" else "false"
    case Int(n) => PrintInt(n)
    case Float(text) => text
    case Text(s) => Quoted(s)
  }

  function PrintOrdered(o: Ordered): string
    decreases o, 1
  {
    match o
    case Leaf(v) => LeafText(v)
    case Elements(elements) => "[" + JoinItems(Texts(elements)) + "]"
    case Pairs(pairs) => "{" + JoinFields(Sort(FieldTexts(pairs))) + "}"
  }

  function Texts(elements: seq<Ordered>): (ts: seq<string>)
    ensures |ts| == |elements|
    decreases elements, 0
  {
    if elements == [] then [] else [PrintOrdered(elements[0])] + Texts(elements[1..])
  }

  function FieldTexts(pairs: seq<Item<Ordered>>): (fs: seq<Field>)
    ensures KeysOf(fs) == KeysOf(pairs)
    decreases pairs, 0
  {
    if pairs == [] then []
    else
      var rest := FieldTexts(pairs[1..]);
      var fs := [Item(pairs[0].key, PrintOrdered(pairs[0].value))] + rest;
      assert fs[1..] == rest;
      fs
  }

  // ---- Sorting -------------------------------------------------------------------------------------

  lemma {:induction false} BeforeIsAntisymmetric(a: string, b: string)
    requires Before(a, b) && Before(b, a)
    ensures a == b
  {
    if a != "" {
      BeforeIsAntisymmetric(a[1..], b[1..]);
      assert a == [a[0]] + a[1..] && b == [b[0]] + b[1..];
    }
  }

  /** Each key comes before all later ones, and no key twice. */
  ghost predicate Ascending(fields: seq<Field>) {
    fields == []
    || ((forall k :: k in KeysOf(fields[1..]) ==> Before(fields[0].key, k))
        && fields[0].key !in KeysOf(fields[1..])
        && Ascending(fields[1..]))
  }

  /** The fields hold the texts of these values. */
  ghost predicate TextsOf(fields: seq<Field>, values: map<string, Value>) {
    fields == []
    || (fields[0].key in values && fields[0].value == PrintValue(values[fields[0].key]) && TextsOf(fields[1..], values))
  }

  lemma {:induction false} InsertKeeps(f: Field, sorted: seq<Field>, values: map<string, Value>)
    requires Ascending(sorted) && f.key !in KeysOf(sorted)
    requires TextsOf(sorted, values) && f.key in values && f.value == PrintValue(values[f.key])
    ensures Ascending(Insert(f, sorted)) && TextsOf(Insert(f, sorted), values)
    ensures KeysOf(Insert(f, sorted)) == KeysOf(sorted) + {f.key}
  {
    if sorted == [] || Before(f.key, sorted[0].key) {
      assert ([f] + sorted)[1..] == sorted;
      forall k | k in KeysOf(sorted) ensures Before(f.key, k) {
        if k != sorted[0].key {
          BeforeIsTransitive(f.key, sorted[0].key, k);
        }
      }
    } else {
      InsertKeeps(f, sorted[1..], values);
      BeforeIsTotal(f.key, sorted[0].key);
      assert ([sorted[0]] + Insert(f, sorted[1..]))[1..] == Insert(f, sorted[1..]);
    }
  }

  lemma {:induction false} SortKeeps(fields: seq<Field>, values: map<string, Value>)
    requires KeysOnce(fields) && TextsOf(fields, values)
    ensures Ascending(Sort(fields)) && TextsOf(Sort(fields), values) && KeysOf(Sort(fields)) == KeysOf(fields)
  {
    if fields != [] {
      SortKeeps(fields[1..], values);
      InsertKeeps(fields[0], Sort(fields[1..]), values);
    }
  }

  predicate KeysOnce(fields: seq<Field>) {
    fields == [] || (fields[0].key !in KeysOf(fields[1..]) && KeysOnce(fields[1..]))
  }

  /** Joining ascending fields is printing the fields of a dictionary in the order of its keys. */
  lemma {:induction false} JoinIsPrint(fields: seq<Field>, v: Value)
    requires v.Dict? && Ascending(fields) && TextsOf(fields, v.fields) && KeysOf(fields) <= v.fields.Keys
    ensures JoinFields(fields) == PrintFields(v, KeysOf(fields))
    decreases |fields|
  {
    if fields != [] {
      var k, keys := fields[0].key, KeysOf(fields);
      var first := FirstKey(keys);
      BeforeIsTotal(k, k);
      BeforeIsAntisymmetric(first, k);
      assert keys - {k} == KeysOf(fields[1..]);
      JoinIsPrint(fields[1..], v);
    }
  }

  // ---- The order does not matter -------------------------------------------------------------------

  /** What is printed is the sorted-key text of the value, whatever the insertion order. */
  lemma {:induction false} PrintsTheValue(o: Ordered)
    requires Proper(o)
    ensures PrintOrdered(o) == PrintValue(Forget(o))
    decreases o, 1
  {
    match o {
      case Leaf(v) =>
      case Elements(elements) =>
        PrintsItems(elements, Forget(o), 0);
      case Pairs(pairs) =>
        PrintsPairs(pairs);
        SortKeeps(FieldTexts(pairs), ForgetPairs(pairs));
        JoinIsPrint(Sort(FieldTexts(pairs)), Forget(o));
    }
  }

  lemma {:induction false} PrintsItems(elements: seq<Ordered>, v: Value, i: nat)
    requires AllProper(elements) && v.List? && i <= |v.items| && v.items[i..] == ForgetAll(elements)
    ensures JoinItems(Texts(elements)) == PrintItems(v, i)
    decreases elements, 0
  {
    if elements != [] {
      assert v.items[i] == Forget(elements[0]) && v.items[i + 1..] == v.items[i..][1..] == ForgetAll(elements[1..]);
      PrintsTheValue(elements[0]);
      PrintsItems(elements[1..], v, i + 1);
      assert Texts(elements)[1..] == Texts(elements[1..]);
    }
  }

  lemma {:induction false} PrintsPairs(pairs: seq<Item<Ordered>>)
    requires PairsProper(pairs)
    ensures KeysOnce(FieldTexts(pairs)) && TextsOf(FieldTexts(pairs), ForgetPairs(pairs))
    decreases pairs, 0
  {
    if pairs != [] {
      PrintsTheValue(pairs[0].value);
      PrintsPairs(pairs[1..]);
      assert FieldTexts(pairs)[1..] == FieldTexts(pairs[1..]);
      MoreValues(FieldTexts(pairs[1..]), ForgetPairs(pairs[1..]), pairs[0].key, Forget(pairs[0].value));
    }
  }

  lemma {:induction false} MoreValues(fields: seq<Field>, values: map<string, Value>, k: string, v: Value)
    requires TextsOf(fields, values) && k !in KeysOf(fields)
    ensures TextsOf(fields, values[k := v])
  {
    if fields != [] {
      MoreValues(fields[1..], values, k, v);
    }
  }

  /** Two dictionaries have one text exactly when they hold the same, at every level. */
  lemma SameTextExactly(o: Ordered, p: Ordered)
    requires Proper(o) && Proper(p)
    ensures PrintOrdered(o) == PrintOrdered(p) <==> Forget(o) == Forget(p)
  {
    PrintsTheValue(o);
    PrintsTheValue(p);
    if PrintOrdered(o) == PrintOrdered(p) {
      assert PrintValue(Forget(o)) + "" == PrintValue(Forget(p)) + "";
      ValuesUnique(Forget(o), Forget(p), "", "");
    }
  }

  lemma {:induction false} PairIsField(pairs: seq<Item<Ordered>>, p: Item<Ordered>)
    requires PairsProper(pairs) && p in pairs
    ensures p.key in KeysOf(pairs) && ForgetPairs(pairs)[p.key] == Forget(p.value)
  {
    if p != pairs[0] {
      PairIsField(pairs[1..], p);
    }
  }

  lemma {:induction false} FieldIsPair(pairs: seq<Item<Ordered>>, k: string) returns (p: Item<Ordered>)
    requires k in KeysOf(pairs)
    ensures p in pairs && p.key == k
  {
    if pairs[0].key == k {
      p := pairs[0];
    } else {
      p := FieldIsPair(pairs[1..], k);
    }
  }

  /** Inserting the same items in another order makes the same text. */
  lemma AnyInsertionOrder(pairs: seq<Item<Ordered>>, others: seq<Item<Ordered>>)
    requires PairsProper(pairs) && PairsProper(others) && multiset(pairs) == multiset(others)
    ensures PrintOrdered(Pairs(pairs)) == PrintOrdered(Pairs(others))
  {
    var a, b := ForgetPairs(pairs), ForgetPairs(others);
    assert forall p :: p in pairs <==> p in multiset(pairs);
    assert forall p :: p in others <==> p in multiset(others);
    forall k | k in a ensures k in b && b[k] == a[k] {
      var p := FieldIsPair(pairs, k);
      PairIsField(pairs, p);
      PairIsField(others, p);
    }
    forall k | k in b ensures k in a {
      var p := FieldIsPair(others, k);
      PairIsField(pairs, p);
    }
    assert a == b;
    SameTextExactly(Pairs(pairs), Pairs(others));
  }

  /** So the key of a call is the tool, a colon and this text, of its arguments in any order. */
  lemma KeyOfItems(tool: string, pairs: seq<Item<Ordered>>)
    requires PairsProper(pairs)
    ensures Key(JsonDump(), tool, ForgetPairs(pairs)) == tool + ":" + PrintOrdered(Pairs(pairs))
  {
    PrintsTheValue(Pairs(pairs));
  }
}
