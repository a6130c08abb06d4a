/** `JSOMap.parse`: the map tree is walked key by key; string leaves are
    queried against the input, nested objects and arrays recurse, and a map
    that is an array fans its template out into an array of objects. */
module TreeMap {
  import opened JsValue
  import opened PathQuery
  import opened MacroQuery

  /** The `map` argument of `parse`. Object entries are listed in the order
      `Object.keys` yields them; an array keeps all its items although only
      the first is read. */
  datatype MapTree =
    | Leaf(query: string)
    | Record(entries: seq<(string, MapTree)>)
    | List(items: seq<MapTree>)

  /** A fan-out template: an object whose values are all query strings. */
  predicate IsTemplate(t: MapTree)
  {
    t.Record? && forall i :: 0 <= i < |t.entries| ==> t.entries[i].1.Leaf?
  }

  /** Map trees that keep clear of the JavaScript behaviour this model leaves
      out: an array's first item must be a template. */
  predicate ValidTree(t: MapTree)
  {
    match t
    case Leaf(_) => true
    case Record(es) => forall i :: 0 <= i < |es| ==> ValidTree(es[i].1)
    case List(items) => items == [] || IsTemplate(items[0])
  }

  predicate DistinctKeys(es: seq<(string, MapTree)>)
  {
    forall i, j :: 0 <= i < j < |es| ==> es[i].0 != es[j].0
  }

  /** One object of a fan-out result, under construction. */
  type Row = map<string, Value>

  function Max(a: nat, b: nat): nat { if a < b then b else a }

  /** Lines 129-137: row i becomes `Object.assign({[key]: vals[i]}, rows[i])`
      for every i below `|vals|`, so the array grows to the longer length and
      keys already in a row win. */
  function ZipColumn(rows: seq<Row>, key: string, vals: seq<Value>): (r: seq<Row>)
    ensures |r| == Max(|rows|, |vals|)
    ensures forall i :: 0 <= i < |vals| ==>
      r[i].Keys == (if i < |rows| then rows[i].Keys else {}) + {key}
    ensures forall i :: 0 <= i < |vals| && (i >= |rows| || key !in rows[i]) ==> r[i][key] == vals[i]
    ensures forall i, k :: 0 <= i < |rows| && i < |vals| && k in rows[i] ==> r[i][k] == rows[i][k]
    ensures forall i :: |vals| <= i < |rows| ==> r[i] == rows[i]
  {
    seq(Max(|rows|, |vals|), i requires 0 <= i < Max(|rows|, |vals|) =>
      if i < |vals| then map[key := vals[i]] + (if i < |rows| then rows[i] else map[])
      else rows[i])
  }

  /** Lines 138-152: a value that is not an array is added under `key` to
      every existing row, keys already there winning; with no rows yet, it
      seeds the first one. */
  function SpreadColumn(rows: seq<Row>, key: string, v: Value): (r: seq<Row>)
    ensures rows == [] ==> r == [map[key := v]]
    ensures rows != [] ==> |r| == |rows|
    ensures rows != [] ==> forall i :: 0 <= i < |rows| ==> r[i].Keys == rows[i].Keys + {key}
    ensures rows != [] ==> forall i :: 0 <= i < |rows| && key !in rows[i] ==> r[i][key] == v
    ensures rows != [] ==> forall i, k :: 0 <= i < |rows| && k in rows[i] ==> r[i][k] == rows[i][k]
  {
    if rows == [] then [map[key := v]]
    else seq(|rows|, i requires 0 <= i < |rows| => map[key := v] + rows[i])
  }

  /** The fan-out merge of one query result into the rows. */
  function Merged(rows: seq<Row>, key: string, value: Value): seq<Row>
  {
    if value.Arr? then ZipColumn(rows, key, value.elems) else SpreadColumn(rows, key, value)
  }

  /** Lines 129-152 with their `for` loops writing `result[i]`; writing one
      past the end appends, as a JavaScript array does. */
  method MergeColumn(rows: seq<Row>, key: string, value: Value) returns (result: seq<Row>)
    ensures result == Merged(rows, key, value)
  {
    result := rows;
    if value.Arr? {
      var vals := value.elems;
      var i := 0;
      while i < |vals|
        invariant 0 <= i <= |vals|
        invariant |result| == Max(|rows|, i)
        invariant forall j :: 0 <= j < i ==>
          result[j] == map[key := vals[j]] + (if j < |rows| then rows[j] else map[])
        invariant forall j :: i <= j < |result| ==> result[j] == rows[j]
      {
        var cell := map[key := vals[i]];
        if i < |result| {
          result := result[i := cell + result[i]];
        } else {
          result := result + [cell];
          assert cell + map[] == cell;
        }
        i := i + 1;
      }
      assert result == ZipColumn(rows, key, vals);
    } else if |result| > 0 {
      for i := 0 to |result|
        invariant |result| == |rows|
        invariant forall j :: 0 <= j < i ==> result[j] == map[key := value] + rows[j]
        invariant forall j :: i <= j < |result| ==> result[j] == rows[j]
      {
        result := result[i := map[key := value] + result[i]];
      }
      assert result == SpreadColumn(rows, key, value);
    } else {
      result := [map[key := value]];
    }
  }

  function RowValues(rows: seq<Row>): (vs: seq<Value>)
    ensures |vs| == |rows|
    ensures forall i :: 0 <= i < |rows| ==> vs[i] == Obj(rows[i])
  {
    seq(|rows|, i requires 0 <= i < |rows| => Obj(rows[i]))
  }

  /** What `parse(input, t)` returns or throws. An empty array map throws
      because `Object.keys(undefined)` does. */
  function ParseTree(env: Env, input: Value, t: MapTree): Result<Value>
    requires ValidTree(t) && !t.Leaf?
    decreases t, 2
  {
    match t
    case Record(es) =>
      var fields :- FillRecord(env, input, t, 0, map[]);
      Ok(Obj(fields))
    case List(items) =>
      if items == [] then Err(TypeError)
      else
        var rows :- FillRows(env, input, items[0].entries, 0, []);
        Ok(Arr(RowValues(rows)))
  }

  /** Object mode: entries from `i` on assigned into `acc` in order. */
  function FillRecord(env: Env, input: Value, t: MapTree, i: nat, acc: Row): Result<Row>
    requires t.Record? && ValidTree(t) && i <= |t.entries|
    decreases t, 1, |t.entries| - i
  {
    if i == |t.entries| then Ok(acc)
    else
      var key, sub := t.entries[i].0, t.entries[i].1;
      assert sub < t;
      var v :- EntryResult(env, input, sub);
      FillRecord(env, input, t, i + 1, acc[key := v])
  }

  /** The result of one object-mode entry: the query for a string leaf, the
      recursive parse otherwise. */
  function EntryResult(env: Env, input: Value, sub: MapTree): Result<Value>
    requires ValidTree(sub)
    decreases sub, 3
  {
    if sub.Leaf? then Eval(env, input, sub.query) else ParseTree(env, input, sub)
  }


  /** Fan-out mode: template entries from `i` on merged into `rows` in order. */
  function FillRows(env: Env, input: Value, template: seq<(string, MapTree)>, i: nat, rows: seq<Row>): Result<seq<Row>>
    requires forall j :: 0 <= j < |template| ==> template[j].1.Leaf?
    requires i <= |template|
    decreases |template| - i
  {
    if i == |template| then Ok(rows)
    else
      var value :- Eval(env, input, template[i].1.query);
      FillRows(env, input, template, i + 1, Merged(rows, template[i].0, value))
  }

  /** `JSOMap.parse` (lines 119-160): `result` starts as an array when the
      map is one, and as an object otherwise. */
  method Parse(env: Env, input: Value, t: MapTree) returns (r: Result<Value>)
    requires ValidTree(t) && !t.Leaf?
    ensures r == ParseTree(env, input, t)
    decreases t, 2
  {
    if t.Record? {
      r := ParseObject(env, input, t);
    } else {
      r := ParseFanOut(env, input, t);
    }
  }

  /** The `forEach` over the keys of an object map, assigning `result[key]`
      (lines 123-128 and 153-154). */
  method ParseObject(env: Env, input: Value, t: MapTree) returns (r: Result<Value>)
    requires ValidTree(t) && t.Record?
    ensures r == ParseTree(env, input, t)
    decreases t, 1
  {
    var es := t.entries;
    ghost var spec := FillRecord(env, input, t, 0, map[]);
    var result: Row := map[];
    var i := 0;
    while i < |es|
      invariant 0 <= i <= |es|
      invariant spec == FillRecord(env, input, t, i, result)
    {
      var key := es[i].0;
      var value := ParseEntry(env, input, t, i);
      FillRecordStep(env, input, t, i, result);
      if value.Err? {
        return Err(value.error);
      }
      result := result[key := value.value];
      i := i + 1;
    }
    r := Ok(Obj(result));
  }

  /** Line 124 for entry `i`: a nested object or array recurses, a string
      leaf is queried. */
  method ParseEntry(env: Env, input: Value, t: MapTree, i: nat) returns (value: Result<Value>)
    requires ValidTree(t) && t.Record? && i < |t.entries|
    ensures value == EntryResult(env, input, t.entries[i].1)
    decreases t, 0
  {
    var sub := t.entries[i].1;
    assert ValidTree(sub) && sub < t;
    if !sub.Leaf? {
      value := Parse(env, input, sub);
    } else {
      value := Query(env, input, sub.query);
    }
  }

  /** The `forEach` over the template's keys when the map is an array,
      merging each query result into the array `result` (lines 120-152). */
  method ParseFanOut(env: Env, input: Value, t: MapTree) returns (r: Result<Value>)
    requires ValidTree(t) && t.List?
    ensures r == ParseTree(env, input, t)
  {
    if t.items == [] {
      return Err(TypeError);
    }
    var template := t.items[0].entries;
    ghost var spec := FillRows(env, input, template, 0, []);
    var result: seq<Row> := [];
    var i := 0;
    while i < |template|
      invariant 0 <= i <= |template|
      invariant spec == FillRows(env, input, template, i, result)
    {
      var key := template[i].0;
      var value := Query(env, input, template[i].1.query);
      FillRowsStep(env, input, template, i, result);
      if value.Err? {
        return Err(value.error);
      }
      result := MergeColumn(result, key, value.value);
      i := i + 1;
    }
    r := Ok(Arr(RowValues(result)));
  }

  /** One entry of an object map, unfolded. */
  lemma FillRecordStep(env: Env, input: Value, t: MapTree, i: nat, acc: Row)
    requires t.Record? && ValidTree(t) && i < |t.entries|
    ensures FillRecord(env, input, t, i, acc) ==
      (var v :- EntryResult(env, input, t.entries[i].1);
       FillRecord(env, input, t, i + 1, acc[t.entries[i].0 := v]))
  {
  }

  /** One template entry of an array map, unfolded. */
  lemma FillRowsStep(env: Env, input: Value, template: seq<(string, MapTree)>, i: nat, rows: seq<Row>)
    requires forall j :: 0 <= j < |template| ==> template[j].1.Leaf?
    requires i < |template|
    ensures FillRows(env, input, template, i, rows) ==
      (var value :- Eval(env, input, template[i].1.query);
       FillRows(env, input, template, i + 1, Merged(rows, template[i].0, value)))
  {
  }

  // ---------------------------------------------------------------------
  // Properties of parse.

  /** `parse` returns an array exactly when the map is an array, and then an
      array of objects. */
  lemma ArrayExactlyForList(env: Env, input: Value, t: MapTree)
    requires ValidTree(t) && !t.Leaf?
    requires ParseTree(env, input, t).Ok?
    ensures ParseTree(env, input, t).value.Arr? <==> t.List?
    ensures t.Record? ==> ParseTree(env, input, t).value.Obj?
    ensures t.List? ==> forall i :: 0 <= i < |ParseTree(env, input, t).value.elems| ==>
      ParseTree(env, input, t).value.elems[i].Obj?
  {
  }

  /** Only the first item of an array map is read. */
  lemma OnlyFirstItemRead(env: Env, input: Value, items: seq<MapTree>)
    requires items != [] && IsTemplate(items[0])
    ensures ParseTree(env, input, List(items)) == ParseTree(env, input, List([items[0]]))
  {
  }

  /** An empty array map throws, as `Object.keys(undefined)` does. */
  lemma EmptyListThrows(env: Env, input: Value)
    ensures ParseTree(env, input, List([])) == Err(TypeError)
  {
  }

  /** The fan-out rows for one array column: row i holds `key: vals[i]`. */
  function Column(key: string, vals: seq<Value>): (rows: seq<Row>)
    ensures |rows| == |vals|
  {
    seq(|vals|, i requires 0 <= i < |vals| => map[key := vals[i]])
  }

  /** Fan-out rows with one array column and one scalar column. */
  function Tagged(k1: string, vals: seq<Value>, k2: string, v: Value): (rows: seq<Row>)
    ensures |rows| == |vals|
  {
    seq(|vals|, i requires 0 <= i < |vals| => map[k1 := vals[i], k2 := v])
  }

  /** An array merged into no rows yet gives one row per element. */
  lemma MergeArrayIntoNone(key: string, vals: seq<Value>)
    ensures Merged([], key, Arr(vals)) == Column(key, vals)
  {
    var r := Merged([], key, Arr(vals));
    forall i | 0 <= i < |vals|
      ensures r[i] == map[key := vals[i]]
    {
      assert r[i].Keys == {key};
    }
  }

  /** A scalar merged into array rows lands in every row. */
  lemma MergeScalarIntoColumn(k1: string, vals: seq<Value>, k2: string, v: Value)
    requires !v.Arr? && vals != [] && k1 != k2
    ensures Merged(Column(k1, vals), k2, v) == Tagged(k1, vals, k2, v)
  {
    var r := Merged(Column(k1, vals), k2, v);
    forall i | 0 <= i < |vals|
      ensures r[i] == map[k1 := vals[i], k2 := v]
    {
      assert r[i].Keys == {k1, k2};
    }
  }

  /** An array merged into a single seeded row fills that row and adds the rest. */
  lemma MergeArrayIntoSeed(k1: string, v: Value, k2: string, vals: seq<Value>)
    requires vals != [] && k1 != k2
    ensures Merged([map[k1 := v]], k2, Arr(vals)) == [map[k1 := v, k2 := vals[0]]] + Column(k2, vals[1..])
  {
    var r := Merged([map[k1 := v]], k2, Arr(vals));
    var e := [map[k1 := v, k2 := vals[0]]] + Column(k2, vals[1..]);
    assert |r| == |e|;
    forall i | 0 <= i < |vals|
      ensures r[i] == e[i]
    {
      if i == 0 {
        assert r[0].Keys == {k1, k2};
      } else {
        assert r[i].Keys == {k2};
      }
    }
  }

  /** A two-key template is filled by merging its first column, then its second. */
  lemma TwoColumnRows(env: Env, input: Value, k1: string, q1: string, v1: Value, k2: string, q2: string, v2: Value)
    requires Eval(env, input, q1) == Ok(v1) && Eval(env, input, q2) == Ok(v2)
    ensures ParseTree(env, input, List([Record([(k1, Leaf(q1)), (k2, Leaf(q2))])])) ==
      Ok(Arr(RowValues(Merged(Merged([], k1, v1), k2, v2))))
  {
    var template := [(k1, Leaf(q1)), (k2, Leaf(q2))];
    FillRowsStep(env, input, template, 0, []);
    FillRowsStep(env, input, template, 1, Merged([], k1, v1));
  }

  /** A one-key template whose query yields an array becomes one object per
      element, in order. */
  lemma ColumnFanOut(env: Env, input: Value, key: string, q: string, vals: seq<Value>)
    requires Eval(env, input, q) == Ok(Arr(vals))
    ensures ParseTree(env, input, List([Record([(key, Leaf(q))])])) == Ok(Arr(RowValues(Column(key, vals))))
  {
    FillRowsStep(env, input, [(key, Leaf(q))], 0, []);
    MergeArrayIntoNone(key, vals);
  }

  /** An array column followed by a scalar column: every row gets the scalar,
      as in `[{ val: "[items][n]", t: "[tag]" }]`. */
  lemma ArrayThenScalar(env: Env, input: Value, k1: string, q1: string, vals: seq<Value>,
                        k2: string, q2: string, v: Value)
    requires Eval(env, input, q1) == Ok(Arr(vals)) && vals != []
    requires Eval(env, input, q2) == Ok(v) && !v.Arr?
    requires k1 != k2
    ensures ParseTree(env, input, List([Record([(k1, Leaf(q1)), (k2, Leaf(q2))])])) ==
      Ok(Arr(RowValues(Tagged(k1, vals, k2, v))))
  {
    TwoColumnRows(env, input, k1, q1, Arr(vals), k2, q2, v);
    MergeArrayIntoNone(k1, vals);
    MergeScalarIntoColumn(k1, vals, k2, v);
  }

  /** The same two columns in the other order: the scalar seeds the first row
      only, and the rows the array adds after it lack the scalar. */
  lemma ScalarThenArray(env: Env, input: Value, k1: string, q1: string, v: Value,
                        k2: string, q2: string, vals: seq<Value>)
    requires Eval(env, input, q1) == Ok(v) && !v.Arr?
    requires Eval(env, input, q2) == Ok(Arr(vals)) && vals != []
    requires k1 != k2
    ensures ParseTree(env, input, List([Record([(k1, Leaf(q1)), (k2, Leaf(q2))])])) ==
      Ok(Arr(RowValues([map[k1 := v, k2 := vals[0]]] + Column(k2, vals[1..]))))
  {
    TwoColumnRows(env, input, k1, q1, v, k2, q2, Arr(vals));
    MergeArrayIntoSeed(k1, v, k2, vals);
  }

  /** Walking `items`, then broadcasting `n` over them, collects the `n`s. */
  lemma ItemsWalk(m: map<string, Value>, a: Value, b: Value)
    requires "items" in m && m["items"] == Arr([Obj(map["n" := a]), Obj(map["n" := b])])
    ensures Walk(Obj(m), [Key("items"), Key("n")]) == Ok(Arr([a, b]))
  {
    var x, y := Obj(map["n" := a]), Obj(map["n" := b]);
    var items := [x, y];
    assert Get(Obj(m), Key("items")) == Ok(Arr(items));
    assert Get(x, Key("n")) == Ok(a) && Get(y, Key("n")) == Ok(b);
    var r := Broadcast(items, "n");
    assert r.Ok? && r.value[0] == a && r.value[1] == b;
    assert r.value == [a, b];
    assert [Key("items"), Key("n")][1..] == [Key("n")] && [Key("n")][1..] == [];
  }

  /** The path text `[items][n]` reads the segments `items`, then `n`. */
  lemma ItemsQuery(env: Env, input: Value)
    requires !env.isMacro("[items][n]")
    ensures Eval(env, input, "[items][n]") == Walk(input, [Key("items"), Key("n")])
  {
    assert "[" + "items" + "][" + "n" + "]" == "[items][n]";
    TwoKeyQuery(env, input, "items", "n");
  }

  /** `parse({ items: [{n: a}, {n: b}] }, [{ val: "[items][n]" }])` is
      `[{val: a}, {val: b}]`: the path broadcasts `n` over the items and the
      array map fans the result out. */
  lemma ItemsFanOut(env: Env, a: Value, b: Value)
    requires !env.isMacro("[items][n]")
    ensures ParseTree(env, Obj(map["items" := Arr([Obj(map["n" := a]), Obj(map["n" := b])])]),
                      List([Record([("val", Leaf("[items][n]"))])])) ==
      Ok(Arr([Obj(map["val" := a]), Obj(map["val" := b])]))
  {
    var input := Obj(map["items" := Arr([Obj(map["n" := a]), Obj(map["n" := b])])]);
    ItemsQuery(env, input);
    ItemsWalk(input.fields, a, b);
    ColumnFanOut(env, input, "val", "[items][n]", [a, b]);
    PairRows("val", a, b);
  }

  /** `parse({ items: [{n: a}, {n: b}], tag: c }, [{ val: "[items][n]", t: "[tag]" }])`
      is `[{val: a, t: c}, {val: b, t: c}]`: the scalar reaches every row. */
  lemma TagBroadcast(env: Env, a: Value, b: Value, c: Value)
    requires !env.isMacro("[items][n]") && !env.isMacro("[tag]")
    requires !c.Arr?
    ensures ParseTree(env, Obj(map["items" := Arr([Obj(map["n" := a]), Obj(map["n" := b])]), "tag" := c]),
                      List([Record([("val", Leaf("[items][n]")), ("t", Leaf("[tag]"))])])) ==
      Ok(Arr([Obj(map["val" := a, "t" := c]), Obj(map["val" := b, "t" := c])]))
  {
    var fields := map["items" := Arr([Obj(map["n" := a]), Obj(map["n" := b])]), "tag" := c];
    var input := Obj(fields);
    ItemsQuery(env, input);
    ItemsWalk(fields, a, b);
    TagQuery(env, fields);
    ArrayThenScalar(env, input, "val", "[items][n]", [a, b], "t", "[tag]", c);
    PairRowsWith("val", a, b, "t", c);
  }

  /** The path text `[tag]` reads the input's `tag`. */
  lemma TagQuery(env: Env, fields: map<string, Value>)
    requires "tag" in fields && !env.isMacro("[tag]")
    ensures Eval(env, Obj(fields), "[tag]") == Ok(fields["tag"])
  {
    assert "[" + "tag" + "]" == "[tag]";
    ObjectKeyQuery(env, fields, "tag");
  }

  /** The two tagged rows as objects. */
  lemma PairRowsWith(k1: string, a: Value, b: Value, k2: string, c: Value)
    ensures RowValues(Tagged(k1, [a, b], k2, c)) ==
      [Obj(map[k1 := a, k2 := c]), Obj(map[k1 := b, k2 := c])]
  {
  }

  /** The two one-key rows as objects. */
  lemma PairRows(key: string, a: Value, b: Value)
    ensures RowValues(Column(key, [a, b])) == [Obj(map[key := a]), Obj(map[key := b])]
  {
  }

  /** In object mode the result has exactly the map's keys, and each key holds
      its own entry's result: the query's value for a string leaf, even when
      that value is an array, and the nested parse for an object or array. */
  lemma RecordResult(env: Env, input: Value, es: seq<(string, MapTree)>)
    requires ValidTree(Record(es)) && DistinctKeys(es)
    requires ParseTree(env, input, Record(es)).Ok?
    ensures ParseTree(env, input, Record(es)).value.Obj?
    ensures ParseTree(env, input, Record(es)).value.fields.Keys == set j | 0 <= j < |es| :: es[j].0
    ensures forall j :: 0 <= j < |es| ==>
      EntryResult(env, input, es[j].1) == Ok(ParseTree(env, input, Record(es)).value.fields[es[j].0])
  {
    FillRecordResult(env, input, Record(es), 0, map[]);
  }

  lemma FillRecordResult(env: Env, input: Value, t: MapTree, i: nat, acc: Row)
    requires t.Record? && ValidTree(t) && i <= |t.entries| && DistinctKeys(t.entries)
    requires FillRecord(env, input, t, i, acc).Ok?
    ensures FillRecord(env, input, t, i, acc).value.Keys == acc.Keys + set j | i <= j < |t.entries| :: t.entries[j].0
    ensures forall j :: i <= j < |t.entries| ==>
      EntryResult(env, input, t.entries[j].1) == Ok(FillRecord(env, input, t, i, acc).value[t.entries[j].0])
  {
    FillRecordKeySet(env, input, t, i, acc);
    FillRecordValues(env, input, t, i, acc);
  }

  /** The filled record has the accumulated keys plus every remaining entry's key. */
  lemma {:induction false} FillRecordKeySet(env: Env, input: Value, t: MapTree, i: nat, acc: Row)
    requires t.Record? && ValidTree(t) && i <= |t.entries|
    requires FillRecord(env, input, t, i, acc).Ok?
    ensures FillRecord(env, input, t, i, acc).value.Keys == acc.Keys + set j | i <= j < |t.entries| :: t.entries[j].0
    decreases |t.entries| - i
  {
    var es := t.entries;
    if i < |es| {
      FillRecordStep(env, input, t, i, acc);
      var v := EntryResult(env, input, es[i].1);
      var acc' := acc[es[i].0 := v.value];
      FillRecordKeySet(env, input, t, i + 1, acc');
      assert {es[i].0} + (set j | i + 1 <= j < |es| :: es[j].0) == set j | i <= j < |es| :: es[j].0;
    }
  }

  /** Each remaining entry's key holds that entry's result, when keys are distinct. */
  lemma FillRecordValues(env: Env, input: Value, t: MapTree, i: nat, acc: Row)
    requires t.Record? && ValidTree(t) && i <= |t.entries| && DistinctKeys(t.entries)
    requires FillRecord(env, input, t, i, acc).Ok?
    ensures forall j :: i <= j < |t.entries| ==>
      (t.entries[j].0 in FillRecord(env, input, t, i, acc).value &&
       EntryResult(env, input, t.entries[j].1) == Ok(FillRecord(env, input, t, i, acc).value[t.entries[j].0]))
  {
    forall j | i <= j < |t.entries|
      ensures t.entries[j].0 in FillRecord(env, input, t, i, acc).value
      ensures EntryResult(env, input, t.entries[j].1) == Ok(FillRecord(env, input, t, i, acc).value[t.entries[j].0])
    {
      FillRecordAt(env, input, t, i, acc, j);
    }
  }

  /** Entry `j`, at or after `i`, ends up under its own key. */
  lemma {:induction false} FillRecordAt(env: Env, input: Value, t: MapTree, i: nat, acc: Row, j: nat)
    requires t.Record? && ValidTree(t) && i <= j < |t.entries| && DistinctKeys(t.entries)
    requires FillRecord(env, input, t, i, acc).Ok?
    ensures t.entries[j].0 in FillRecord(env, input, t, i, acc).value
    ensures EntryResult(env, input, t.entries[j].1) == Ok(FillRecord(env, input, t, i, acc).value[t.entries[j].0])
    decreases j - i
  {
    var acc' := FillRecordOkStep(env, input, t, i, acc);
    if i == j {
      FillRecordKeeps(env, input, t, i + 1, acc', t.entries[i].0);
    } else {
      FillRecordAt(env, input, t, i + 1, acc', j);
    }
  }

  /** A record that fills without error got entry `i` right and went on
      from `acc'`. */
  lemma FillRecordOkStep(env: Env, input: Value, t: MapTree, i: nat, acc: Row) returns (acc': Row)
    requires t.Record? && ValidTree(t) && i < |t.entries|
    requires FillRecord(env, input, t, i, acc).Ok?
    ensures EntryResult(env, input, t.entries[i].1).Ok?
    ensures acc' == acc[t.entries[i].0 := EntryResult(env, input, t.entries[i].1).value]
    ensures FillRecord(env, input, t, i, acc) == FillRecord(env, input, t, i + 1, acc')
  {
    FillRecordStep(env, input, t, i, acc);
    acc' := acc[t.entries[i].0 := EntryResult(env, input, t.entries[i].1).value];
  }

  /** A key that no later entry names keeps the value it had. */
  lemma {:induction false} FillRecordKeeps(env: Env, input: Value, t: MapTree, i: nat, acc: Row, k: string)
    requires t.Record? && ValidTree(t) && i <= |t.entries|
    requires k in acc && forall j :: i <= j < |t.entries| ==> t.entries[j].0 != k
    requires FillRecord(env, input, t, i, acc).Ok?
    ensures k in FillRecord(env, input, t, i, acc).value
    ensures FillRecord(env, input, t, i, acc).value[k] == acc[k]
    decreases |t.entries| - i
  {
    if i < |t.entries| {
      var v := EntryResult(env, input, t.entries[i].1);
      FillRecordKeeps(env, input, t, i + 1, acc[t.entries[i].0 := v.value], k);
    }
  }
}
