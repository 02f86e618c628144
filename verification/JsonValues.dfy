/** JSON values as serde_json holds them: objects are kept sorted by key. */
module JsonValues {
  import opened Wrappers
  import opened IndexMap

  type I64 = n: int | -0x8000_0000_0000_0000 <= n < 0x8000_0000_0000_0000
  /** Integers serde_json keeps as such: the union of i64 and u64. */
  type JsonInt = n: int | -0x8000_0000_0000_0000 <= n < 0x1_0000_0000_0000_0000

  /** A finite binary64 is represented by its exact mathematical value. */
  datatype Number = Int(n: JsonInt) | Float(value: real)

  datatype Json =
    | Null
    | Bool(b: bool)
    | Num(num: Number)
    | Str(s: string)
    | Arr(items: seq<Json>)
    | Obj(fields: Entries<Json>)
  {
    predicate IsContainer() {
      Arr? || Obj?
    }
  }

  /** How many containers are nested in each other at most; zero for a scalar. */
  function Height(j: Json): nat {
    match j
    case Arr(items) => 1 + ItemsHeight(items)
    case Obj(fields) => 1 + FieldsHeight(fields)
    case _ => 0
  }

  function ItemsHeight(items: seq<Json>): nat {
    if items == [] then 0 else Max(Height(items[0]), ItemsHeight(items[1..]))
  }

  function FieldsHeight(fields: Entries<Json>): nat {
    if fields == [] then 0 else Max(FieldHeight(fields[0]), FieldsHeight(fields[1..]))
  }

  function FieldHeight(field: (string, Json)): nat {
    Height(field.1)
  }

  function Max(a: nat, b: nat): nat {
    if a < b then b else a
  }

  /** The depth of the deepest node, scalars included, counted from the root at zero. */
  function NodeDepth(j: Json): nat {
    match j
    case Arr(items) => if items == [] then 0 else 1 + ItemsNodeDepth(items)
    case Obj(fields) => if fields == [] then 0 else 1 + FieldsNodeDepth(fields)
    case _ => 0
  }

  function ItemsNodeDepth(items: seq<Json>): nat {
    if items == [] then 0 else Max(NodeDepth(items[0]), ItemsNodeDepth(items[1..]))
  }

  function FieldsNodeDepth(fields: Entries<Json>): nat {
    if fields == [] then 0 else Max(FieldNodeDepth(fields[0]), FieldsNodeDepth(fields[1..]))
  }

  function FieldNodeDepth(field: (string, Json)): nat {
    NodeDepth(field.1)
  }

  /** Rust's order on strings: by code point, a proper prefix first. */
  predicate Less(a: string, b: string) {
    b != [] && (a == [] || a[0] < b[0] || (a[0] == b[0] && Less(a[1..], b[1..])))
  }

  lemma {:induction false} LessTrichotomy(a: string, b: string)
    ensures a == b || Less(a, b) || Less(b, a)
    ensures !(Less(a, b) && Less(b, a)) && !Less(a, a)
  {
    if a != [] && b != [] && a[0] == b[0] {
      LessTrichotomy(a[1..], b[1..]);
      assert a == [a[0]] + a[1..] && b == [b[0]] + b[1..];
    }
    if a != [] {
      LessTrichotomy(a[1..], a[1..]);
    }
  }

  lemma {:induction false} LessTransitive(a: string, b: string, c: string)
    requires Less(a, b) && Less(b, c)
    ensures Less(a, c)
  {
    if a != [] && a[0] == b[0] == c[0] {
      LessTransitive(a[1..], b[1..], c[1..]);
    }
  }

  ghost predicate Sorted(fields: Entries<Json>) {
    forall i, j | 0 <= i < j < |fields| :: Less(fields[i].0, fields[j].0)
  }

  lemma SortedIsDistinct(fields: Entries<Json>)
    requires Sorted(fields)
    ensures Distinct(fields)
  {
    forall i, j | 0 <= i < j < |fields| ensures fields[i].0 != fields[j].0 {
      LessTrichotomy(fields[i].0, fields[j].0);
    }
  }

  /** `serde_json::Map::insert`. */
  function SortedInsert(fields: Entries<Json>, key: string, value: Json): (r: Entries<Json>)
    ensures forall e | e in r :: e == (key, value) || e in fields
    ensures forall e | e in fields && e.0 != key :: e in r
    ensures (key, value) in r
  {
    if fields == [] then [(key, value)]
    else if key == fields[0].0 then
      assert fields == [fields[0]] + fields[1..];
      [(key, value)] + fields[1..]
    else if Less(key, fields[0].0) then [(key, value)] + fields
    else
      assert fields == [fields[0]] + fields[1..];
      [fields[0]] + SortedInsert(fields[1..], key, value)
  }

  lemma {:induction false} SortedInsertSorts(fields: Entries<Json>, key: string, value: Json)
    requires Sorted(fields)
    ensures Sorted(SortedInsert(fields, key, value))
  {
    if fields == [] || key == fields[0].0 {
    } else if Less(key, fields[0].0) {
      forall j | 0 <= j < |fields| ensures Less(key, fields[j].0) {
        if j > 0 {
          LessTransitive(key, fields[0].0, fields[j].0);
        }
      }
    } else {
      LessTrichotomy(key, fields[0].0);
      var rest := SortedInsert(fields[1..], key, value);
      SortedInsertSorts(fields[1..], key, value);
      forall j | 0 <= j < |rest| ensures Less(fields[0].0, rest[j].0) {
        assert rest[j] in rest;
      }
    }
  }

  /** `collect::<serde_json::Map<_, _>>`. */
  function Collect(fields: Entries<Json>, entries: Entries<Json>): (r: Entries<Json>)
    ensures forall e | e in r :: e in fields || e in entries
    decreases |entries|
  {
    if entries == [] then fields
    else Collect(SortedInsert(fields, entries[0].0, entries[0].1), entries[1..])
  }

  lemma {:induction false} CollectSorts(fields: Entries<Json>, entries: Entries<Json>)
    requires Sorted(fields)
    ensures Sorted(Collect(fields, entries))
    decreases |entries|
  {
    if entries != [] {
      SortedInsertSorts(fields, entries[0].0, entries[0].1);
      CollectSorts(SortedInsert(fields, entries[0].0, entries[0].1), entries[1..]);
    }
  }

  /** Every object inside is sorted by key, as any value held by serde_json is. */
  ghost predicate Canonical(j: Json) {
    match j
    case Arr(items) => forall i | 0 <= i < |items| :: Canonical(items[i])
    case Obj(fields) => Sorted(fields) && forall i | 0 <= i < |fields| :: Canonical(fields[i].1)
    case _ => true
  }

  lemma {:induction false} HeightOfItem(items: seq<Json>, i: nat)
    requires i < |items|
    ensures Height(items[i]) <= ItemsHeight(items) && NodeDepth(items[i]) <= ItemsNodeDepth(items)
  {
    if i > 0 {
      HeightOfItem(items[1..], i - 1);
    }
  }

  lemma {:induction false} HeightOfField(fields: Entries<Json>, i: nat)
    requires i < |fields|
    ensures Height(fields[i].1) <= FieldsHeight(fields) && NodeDepth(fields[i].1) <= FieldsNodeDepth(fields)
  {
    if i > 0 {
      HeightOfField(fields[1..], i - 1);
    }
  }

  /** A bound on every field bounds the whole object, whatever the order. */
  lemma {:induction false} HeightBound(fields: Entries<Json>, bound: nat)
    requires forall e | e in fields :: Height(e.1) <= bound
    ensures FieldsHeight(fields) <= bound
  {
    if fields != [] {
      HeightBound(fields[1..], bound);
    }
  }
}
