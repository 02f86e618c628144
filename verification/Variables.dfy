/** Runtime variable values and the scope that stores them, crates/rettp-runtime/src/variable.rs. */
module Variables {
  import opened Wrappers
  import opened IndexMap
  import opened JsonValues
  import opened RuntimeErrors

  /** What a value's accessors reveal; the source's equality on values compares exactly this. */
  datatype Content = TextContent(text: string) | JsonContent(json: Json) {
    predicate IsStructured() {
      JsonContent? && json.IsContainer()
    }

    /** The text a scalar contributes to an interpolated string; containers have none. */
    function ScalarText(): Option<string> {
      match this
      case TextContent(text) => Some(text)
      case JsonContent(json) => ScalarJsonText(json)
    }

    function TypeName(): string {
      if TextContent? then "string" else JsonTypeName(json)
    }
  }

  type Contents = Entries<Content>

  /** Decimal text of a finite binary64; its formatting belongs to the standard library and is left open. */
  const FLOAT_TEXT: map<real, string>

  function NatText(n: nat): string {
    var digit := [(n % 10 + '0' as int) as char];
    if n < 10 then digit else NatText(n / 10) + digit
  }

  function IntText(n: int): string {
    if n < 0 then "-" + NatText(-n) else NatText(n)
  }

  function ScalarJsonText(value: Json): Option<string> {
    match value
    case Str(text) => Some(text)
    case Null => Some("null")
    case Bool(b) => Some(if b then "true" else "false")
    case Num(Int(n)) => Some(IntText(n))
    case Num(Float(r)) => Some(if r in FLOAT_TEXT then FLOAT_TEXT[r] else "")
    case _ => None
  }

  function JsonTypeName(value: Json): string {
    match value
    case Null => "null"
    case Bool(_) => "boolean"
    case Num(number) => if number.Int? then "integer" else "number"
    case Str(_) => "string"
    case Arr(_) => "array"
    case Obj(_) => "object"
  }

  /** The value at a path of object members, if every member is there. */
  function Walk(root: Json, path: seq<string>): Option<Json>
    decreases |path|
  {
    if path == [] then Some(root)
    else if !root.Obj? then None
    else
      var member := Find(root.fields, path[0]);
      if member.None? then None else Walk(member.value, path[1..])
  }

  lemma {:induction false} WalkAppend(root: Json, path: seq<string>, key: string)
    requires Walk(root, path).Some? && Walk(root, path).value.Obj?
    ensures Walk(root, path + [key]) == Find(Walk(root, path).value.fields, key)
    decreases |path|
  {
    if path == [] {
      assert path + [key] == [key] && [key][1..] == [];
    } else {
      assert (path + [key])[1..] == path[1..] + [key];
      WalkAppend(Find(root.fields, path[0]).value, path[1..], key);
    }
  }

  /** Host text, host JSON, or a selection inside a response shared with other captures. */
  datatype Representation =
    | HostText(text: string)
    | HostJson(json: Json)
    | SharedJson(root: Json, path: seq<string>)

  /** The private representation never holds a path that leads nowhere. */
  type VariableValue = v: Representation | v.SharedJson? ==> Walk(v.root, v.path).Some? witness HostText("")

  function Meaning(value: VariableValue): Content {
    match value
    case HostText(text) => TextContent(text)
    case HostJson(json) => JsonContent(json)
    case SharedJson(root, path) => JsonContent(Walk(root, path).value)
  }

  function Meanings(values: Entries<VariableValue>): (r: Contents)
    ensures |r| == |values| && forall i | 0 <= i < |values| :: r[i] == (values[i].0, Meaning(values[i].1))
    ensures Keys(r) == Keys(values)
  {
    var r := seq(|values|, i requires 0 <= i < |values| => (values[i].0, Meaning(values[i].1)));
    assert forall i | 0 <= i < |values| :: r[i].0 == values[i].0;
    r
  }

  /** `SharedJsonValue::as_json`: the walk always arrives, because the path was valid when it was stored. */
  method AsJson(root: Json, path: seq<string>) returns (value: Json)
    requires Walk(root, path).Some?
    ensures Some(value) == Walk(root, path)
  {
    value := root;
    var i := 0;
    while i < |path|
      invariant i <= |path| && Walk(value, path[i..]) == Walk(root, path)
    {
      assert path[i..][1..] == path[i + 1..];
      value := Find(value.fields, path[i]).value;
      i := i + 1;
    }
  }

  /** Captures staged by one successful test, crates/rettp-runtime/src/capture.rs:113-160. */
  class PendingCaptures {
    var values: Entries<VariableValue>

    constructor ()
      ensures Valid() && values == []
    {
      values := [];
    }

    ghost predicate Valid()
      reads this
    {
      Distinct(values)
    }

    ghost function Staged(): Contents
      reads this
    {
      Meanings(values)
    }

    method Insert(name: string, value: VariableValue) returns (r: Result<(), RuntimeError>)
      requires Valid()
      modifies this
      ensures Valid()
      ensures r == if name in Keys(old(Staged())) then Err(DuplicateVariable(name)) else Ok(())
      ensures Staged() == if r.Ok? then old(Staged()) + [(name, Meaning(value))] else old(Staged())
    {
      if name in Keys(values) {
        return Err(DuplicateVariable(name));
      }
      values := IndexMap.Insert(values, name, value);
      return Ok(());
    }
  }

  /** The first staged name that is already visible, if any. */
  function FirstConflict(visible: set<string>, staged: Contents): Option<string> {
    if staged == [] then None
    else if staged[0].0 in visible then Some(staged[0].0)
    else FirstConflict(visible, staged[1..])
  }

  lemma {:induction false} FirstConflictMeaning(visible: set<string>, staged: Contents)
    ensures FirstConflict(visible, staged).None? <==> Keys(staged) !! visible
    ensures FirstConflict(visible, staged).Some? ==> FirstConflict(visible, staged).value in Keys(staged) * visible
  {
    if staged != [] {
      FirstConflictMeaning(visible, staged[1..]);
      assert staged == [staged[0]] + staged[1..];
      KeysCons(staged[0], staged[1..]);
    }
  }

  class VariableStore {
    var values: Entries<VariableValue>

    constructor (values: Entries<VariableValue>)
      ensures this.values == values
    {
      this.values := values;
    }

    function Scope(): Contents
      reads this
    {
      Meanings(values)
    }

    /** Adds or replaces a value supplied by the host; never used by captures. */
    method InsertPredefined(name: string, value: VariableValue)
      modifies this
      ensures Keys(Scope()) == Keys(old(Scope())) + {name}
      ensures Scope() == IndexMap.Insert(old(Scope()), name, Meaning(value))
    {
      MeaningsInsert(values, name, value);
      values := IndexMap.Insert(values, name, value);
    }

    /** Commits a whole transaction or nothing: a single visible name among the staged ones rejects all of them. */
    method Commit(pending: PendingCaptures) returns (r: Result<(), RuntimeError>)
      requires pending.Valid()
      modifies this
      ensures r.Ok? <==> Keys(pending.Staged()) !! Keys(old(Scope()))
      ensures r.Ok? ==> Scope() == old(Scope()) + pending.Staged()
      ensures r.Err? ==> Scope() == old(Scope())
      ensures r == match FirstConflict(Keys(old(Scope())), pending.Staged())
                   case Some(name) => Err(DuplicateVariable(name))
                   case None => Ok(())
    {
      FirstConflictMeaning(Keys(Scope()), pending.Staged());
      var conflict := FirstConflict(Keys(values), Meanings(pending.values));
      if conflict.Some? {
        return Err(DuplicateVariable(conflict.value));
      }
      ghost var staged := pending.Staged();
      assert forall i, j | 0 <= i < |values| && 0 <= j < |pending.values| :: values[i].0 != pending.values[j].0 by {
        assert forall i | 0 <= i < |values| :: values[i].0 in Keys(values);
        assert forall j | 0 <= j < |pending.values| :: pending.values[j].0 in Keys(pending.values);
      }
      InsertAllOfNew(values, pending.values);
      values := InsertAll(values, pending.values);
      return Ok(());
    }
  }

  lemma {:induction false} MeaningsInsert(values: Entries<VariableValue>, name: string, value: VariableValue)
    ensures Meanings(IndexMap.Insert(values, name, value)) == IndexMap.Insert(Meanings(values), name, Meaning(value))
  {
    if values != [] && values[0].0 != name {
      MeaningsInsert(values[1..], name, value);
      assert Meanings(values)[1..] == Meanings(values[1..]);
    }
  }
}
