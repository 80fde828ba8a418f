/**
 The read of core/src/plugins/EphemeralDataPlugin.ts: leading filters over a collection, and the
 short cut that fetches one record by key when a filter pins the key to a value.
 */
module KeyLookup {
  import opened Options
  import opened Expressions

  /** A record and the string it is filed under, in insertion order. */
  datatype Record = Record(id: string, row: Row)

  /** One key property, and the string form of its values. */
  datatype KeySchema = KeySchema(path: Path, text: Value -> string)

  /** A leading filter: the predicate that runs, and the expression parsed from its source. */
  datatype Filter = Filter(keep: Row -> bool, expression: Expr)

  // ----- the collection -----

  function Find(records: seq<Record>, id: string): (r: Option<nat>)
    ensures r.Some? ==> r.value < |records| && records[r.value].id == id
    ensures r.None? ==> forall i | 0 <= i < |records| :: records[i].id != id
  {
    if records == [] then None
    else if records[|records| - 1].id == id then Some(|records| - 1)
    else Find(records[..|records| - 1], id)
  }

  datatype Change = Put(row: Row) | Remove(row: Row)

  function IdOf(schema: KeySchema, row: Row): Option<string> {
    var key := Lookup(row, schema.path);
    if Nullish(key) then None else Some(schema.text(key))
  }

  /** A record without a key is refused; any other is filed, or removed, under its own key. */
  function Changed(schema: KeySchema, records: seq<Record>, c: Change): seq<Record> {
    var id := IdOf(schema, c.row);
    if id.None? then records
    else
      var at := Find(records, id.value);
      match c
      case Put(row) => if at.Some? then records[at.value := Record(id.value, row)] else records + [Record(id.value, row)]
      case Remove(_) => if at.Some? then records[..at.value] + records[at.value + 1..] else records
  }

  function ChangedAll(schema: KeySchema, records: seq<Record>, cs: seq<Change>): seq<Record> {
    if cs == [] then records
    else Changed(schema, ChangedAll(schema, records, cs[..|cs| - 1]), cs[|cs| - 1])
  }

  predicate Filed(schema: KeySchema, records: seq<Record>) {
    && (forall i | 0 <= i < |records| :: IdOf(schema, records[i].row) == Some(records[i].id))
    && (forall i, j | 0 <= i < j < |records| :: records[i].id != records[j].id)
  }

  // ----- the query -----

  predicate Kept(filters: seq<Filter>, row: Row) {
    forall i | 0 <= i < |filters| :: filters[i].keep(row)
  }

  function Scan(filters: seq<Filter>, records: seq<Record>): (r: seq<Row>)
  {
    if records == [] then []
    else
      var before := Scan(filters, records[..|records| - 1]);
      var row := records[|records| - 1].row;
      if Kept(filters, row) then before + [row] else before
  }

  /** The value a single non-negated equality pins the key to; the right side's own transformer is not looked at. */
  function KeyEqualityValue(e: Expr): Option<Value> {
    if !e.Comparator? || e.comparison != Equals || e.negated then None
    else if !e.left.Property? || !e.left.property.isKey || e.left.transformer.Some? then None
    else
      match e.right
      case Literal(v, _) => if Nullish(v) then None else Some(v)
      case _ => None
  }

  function Pin(filters: seq<Filter>): (r: Option<nat>)
    ensures r.Some? ==> r.value < |filters| && KeyEqualityValue(filters[r.value].expression).Some?
    ensures r.Some? ==> forall i | 0 <= i < r.value :: KeyEqualityValue(filters[i].expression).None?
    ensures r.None? ==> forall i | 0 <= i < |filters| :: KeyEqualityValue(filters[i].expression).None?
  {
    if filters == [] then None
    else if Pin(filters[..|filters| - 1]).Some? then Pin(filters[..|filters| - 1])
    else if KeyEqualityValue(filters[|filters| - 1].expression).Some? then Some(|filters| - 1)
    else None
  }

  function Source(schema: KeySchema, filters: seq<Filter>, records: seq<Record>): seq<Record> {
    var pin := Pin(filters);
    if pin.None? then records
    else
      var at := Find(records, schema.text(KeyEqualityValue(filters[pin.value].expression).value));
      if at.Some? then [records[at.value]] else []
  }

  function Answer(schema: KeySchema, filters: seq<Filter>, records: seq<Record>): seq<Row> {
    Scan(filters, Source(schema, filters, records))
  }

  // ----- the short cut is exact -----

  /** The predicate answers what its expression answers, wherever the expression answers. */
  ghost predicate Agrees(js: Js, f: Filter) {
    forall row: Row | Evaluate(js, f.expression, row).Some? :: f.keep(row) == Evaluate(js, f.expression, row).value
  }

  /** The comparison holds only of the very value: strict, or with the key's own kind, on an untransformed literal. */
  predicate PinsOneValue(e: Expr, records: seq<Record>, path: Path)
    requires KeyEqualityValue(e).Some?
  {
    && e.right.transformer.None? && e.left.property.path == path
    && (e.strict || forall i | 0 <= i < |records| :: SameKind(Lookup(records[i].row, path), e.right.value))
  }

  lemma {:induction false} PinnedRowIsFiledUnderItsValue(js: Js, schema: KeySchema, f: Filter, records: seq<Record>, i: nat)
    requires i < |records| && Filed(schema, records) && Agrees(js, f) && f.keep(records[i].row)
    requires KeyEqualityValue(f.expression).Some? && PinsOneValue(f.expression, records, schema.path)
    ensures records[i].id == schema.text(KeyEqualityValue(f.expression).value)
  {
    var e, row := f.expression, records[i].row;
    var key := Lookup(row, schema.path);
    assert OperandOf(js, e.left, row) == Some(key);
    assert OperandOf(js, e.right, row) == Some(e.right.value);
    assert Evaluate(js, e, row) == Some(EqualsAs(js, key, e.right.value, e.strict));
    assert EqualsAs(js, key, e.right.value, e.strict);
    assert !Nullish(key);
  }

  lemma {:induction false} ScanOfTheRest(filters: seq<Filter>, records: seq<Record>, at: int)
    requires forall i | 0 <= i < |records| && i != at :: !Kept(filters, records[i].row)
    ensures Scan(filters, records) == if 0 <= at < |records| then Scan(filters, [records[at]]) else []
  {
    if records != [] {
      var n := |records| - 1;
      ScanOfTheRest(filters, records[..n], at);
      if at == n {
        assert [records[n]][..0] == [];
      }
    }
  }

  lemma {:induction false} ScanHoldsEveryKeptRow(filters: seq<Filter>, records: seq<Record>, i: nat, j: nat)
    requires i <= j < |records| && Kept(filters, records[i].row) && Kept(filters, records[j].row)
    ensures |Scan(filters, records)| >= if i < j then 2 else 1
  {
    var n := |records| - 1;
    if j < n {
      ScanHoldsEveryKeptRow(filters, records[..n], i, j);
    } else if i < j {
      ScanHoldsEveryKeptRow(filters, records[..n], i, i);
    }
  }

  /** Every record all filters keep is filed under the pinned value's string form. */
  predicate KeptUnderThePin(schema: KeySchema, filters: seq<Filter>, records: seq<Record>)
    requires Pin(filters).Some?
  {
    forall i | 0 <= i < |records| && Kept(filters, records[i].row) ::
      records[i].id == schema.text(KeyEqualityValue(filters[Pin(filters).value].expression).value)
  }

  /**
   When the short cut answers as the scan does, for all predicates whatever: exactly when no
   record that every filter keeps is filed under another string than the pinned value's.
   */
  lemma {:induction false} ShortCutIsExactIff(schema: KeySchema, filters: seq<Filter>, records: seq<Record>)
    requires Filed(schema, records) && Pin(filters).Some?
    ensures Answer(schema, filters, records) == Scan(filters, records) <==> KeptUnderThePin(schema, filters, records)
  {
    var id := schema.text(KeyEqualityValue(filters[Pin(filters).value].expression).value);
    var at := Find(records, id);
    if KeptUnderThePin(schema, filters, records) {
      ScanOfTheRest(filters, records, if at.Some? then at.value else -1);
    } else {
      var i :| 0 <= i < |records| && Kept(filters, records[i].row) && records[i].id != id;
      ScanHoldsEveryKeptRow(filters, records, i, i);
      if at.Some? {
        var found := records[at.value];
        assert [found][..0] == [];
        assert Scan(filters, [found]) == if Kept(filters, found.row) then [found.row] else [];
        if Kept(filters, found.row) {
          ScanHoldsEveryKeptRow(filters, records, if i < at.value then i else at.value, if i < at.value then at.value else i);
        }
      }
    }
  }

  /** With the key pinned to one value by the filter's own meaning, the record fetched answers as the whole scan does. */
  lemma {:induction false} ShortCutIsExact(js: Js, schema: KeySchema, filters: seq<Filter>, records: seq<Record>)
    requires Filed(schema, records) && forall i | 0 <= i < |filters| :: Agrees(js, filters[i])
    requires Pin(filters).Some? ==> PinsOneValue(filters[Pin(filters).value].expression, records, schema.path)
    ensures Answer(schema, filters, records) == Scan(filters, records)
  {
    var pin := Pin(filters);
    if pin.Some? {
      var f := filters[pin.value];
      forall i | 0 <= i < |records| && Kept(filters, records[i].row)
        ensures records[i].id == schema.text(KeyEqualityValue(f.expression).value)
      {
        PinnedRowIsFiledUnderItsValue(js, schema, f, records, i);
      }
      ShortCutIsExactIff(schema, filters, records);
    }
  }

  /** The invariant the short cut rests on, along every run of adds, updates and removes. */
  lemma {:induction false} ChangesKeepRecordsFiled(schema: KeySchema, cs: seq<Change>)
    ensures Filed(schema, ChangedAll(schema, [], cs))
  {
    if cs != [] {
      var n := |cs| - 1;
      ChangesKeepRecordsFiled(schema, cs[..n]);
      var records := ChangedAll(schema, [], cs[..n]);
      var id := IdOf(schema, cs[n].row);
      if id.Some? && cs[n].Remove? {
        var at := Find(records, id.value);
        if at.Some? {
          RemovingKeepsFiled(schema, records, at.value);
        }
      }
    }
  }

  lemma {:induction false} RemovingKeepsFiled(schema: KeySchema, records: seq<Record>, at: nat)
    requires Filed(schema, records) && at < |records|
    ensures Filed(schema, records[..at] + records[at + 1..])
  {
    var r := records[..at] + records[at + 1..];
    forall i | 0 <= i < |r|
      ensures r[i] == records[if i < at then i else i + 1]
    {
    }
    forall i, j | 0 <= i < j < |r|
      ensures r[i].id != r[j].id
    {
      assert r[i] == records[if i < at then i else i + 1] && r[j] == records[if j < at then j else j + 1];
    }
    forall i | 0 <= i < |r|
      ensures IdOf(schema, r[i].row) == Some(r[i].id)
    {
      assert r[i] == records[if i < at then i else i + 1];
    }
  }

  /** Over a run and a query, nothing separates the short cut from the scan. */
  lemma {:induction false} QueriesAfterAnyRunAreExact(js: Js, schema: KeySchema, cs: seq<Change>, filters: seq<Filter>)
    requires forall i | 0 <= i < |filters| :: Agrees(js, filters[i])
    requires Pin(filters).Some? ==>
      PinsOneValue(filters[Pin(filters).value].expression, ChangedAll(schema, [], cs), schema.path)
    ensures Answer(schema, filters, ChangedAll(schema, [], cs)) == Scan(filters, ChangedAll(schema, [], cs))
  {
    ChangesKeepRecordsFiled(schema, cs);
    ShortCutIsExact(js, schema, filters, ChangedAll(schema, [], cs));
  }

  // ----- what the conditions exclude -----

  /** The same after every run of adds, updates and removes. */
  lemma {:induction false} QueriesAfterAnyRunAreExactIff(schema: KeySchema, cs: seq<Change>, filters: seq<Filter>)
    requires Pin(filters).Some?
    ensures var records := ChangedAll(schema, [], cs);
      Answer(schema, filters, records) == Scan(filters, records) <==> KeptUnderThePin(schema, filters, records)
  {
    ChangesKeepRecordsFiled(schema, cs);
    ShortCutIsExactIff(schema, filters, ChangedAll(schema, [], cs));
  }

  /**
   A case method on the literal is not looked at: `x.id === "ABC".toLowerCase()` is looked up
   as "ABC", and the record "abc" it keeps is missed.
   */
  lemma {:induction false} TransformedLiteralIsMissed(js: Js, schema: KeySchema, f: Filter, s: string)
    requires schema.text(Text(js.lower(s))) != schema.text(Text(s)) && Agrees(js, f)
    requires f.expression == Comparator(Equals, false, true, Property(PropertyInfo(schema.path, StringKind, true), None),
                                        Literal(Text(s), Some(ToLower(None))))
    ensures var row := map[schema.path := Text(js.lower(s))];
      var records := ChangedAll(schema, [], [Put(row)]);
      Scan([f], records) == [row] && Answer(schema, [f], records) == []
  {
    var lowered := Text(js.lower(s));
    var row := map[schema.path := lowered];
    PutAlone(schema, row, lowered);
    LoweredMatches(js, schema.path, f.expression, s);
    assert f.keep(row);
    LookedUpAlone(schema, f, Record(schema.text(lowered), row), Text(s));
    hide Evaluate, ChangedAll, Changed, Scan, Answer;
  }

  lemma {:induction false} PutAlone(schema: KeySchema, row: Row, key: Value)
    requires Lookup(row, schema.path) == key && !Nullish(key)
    ensures ChangedAll(schema, [], [Put(row)]) == [Record(schema.text(key), row)]
  {
    assert [Put(row)][..0] == [] && ChangedAll(schema, [], []) == [];
    assert Changed(schema, [], Put(row)) == [] + [Record(schema.text(key), row)];
    hide Changed;
  }

  /** One kept record, looked up under what its filter pins. */
  lemma {:induction false} LookedUpAlone(schema: KeySchema, f: Filter, record: Record, pinned: Value)
    requires f.keep(record.row) && KeyEqualityValue(f.expression) == Some(pinned) && schema.text(pinned) != record.id
    ensures Scan([f], [record]) == [record.row] && Answer(schema, [f], [record]) == []
  {
    hide KeyEqualityValue;
    assert [record][..0] == [] && Scan([f], []) == [];
    assert Kept([f], record.row);
    assert [f][..0] == [] && Pin([f]) == Some(0);
    assert Source(schema, [f], [record]) == [];
  }

  lemma {:induction false} LoweredMatches(js: Js, path: Path, e: Expr, s: string)
    requires e == Comparator(Equals, false, true, Property(PropertyInfo(path, StringKind, true), None), Literal(Text(s), Some(ToLower(None))))
    ensures Evaluate(js, e, map[path := Text(js.lower(s))]) == Some(true)
  {
    var row: Row := map[path := Text(js.lower(s))];
    assert OperandOf(js, e.left, row) == Some(Text(js.lower(s)));
  }

  // ----- the loops -----

  method Query(schema: KeySchema, filters: seq<Filter>, records: seq<Record>) returns (rows: seq<Row>)
    ensures rows == Answer(schema, filters, records)
  {
    var source := records;
    var i := 0;
    while i < |filters| && KeyEqualityValue(filters[i].expression).None?
      invariant 0 <= i <= |filters|
      invariant forall k | 0 <= k < i :: KeyEqualityValue(filters[k].expression).None?
    {
      i := i + 1;
    }
    if i < |filters| {
      assert Pin(filters) == Some(i);
      var found := Find(records, schema.text(KeyEqualityValue(filters[i].expression).value));
      source := if found.Some? then [records[found.value]] else [];
    }
    rows := [];
    for r := 0 to |source|
      invariant rows == Scan(filters, source[..r])
    {
      assert source[..r + 1][..r] == source[..r];
      var kept := true;
      var j := 0;
      while j < |filters| && kept
        invariant 0 <= j <= |filters|
        invariant kept <==> forall k | 0 <= k < j :: filters[k].keep(source[r].row)
      {
        kept := filters[j].keep(source[r].row);
        j := j + 1;
      }
      if kept {
        rows := rows + [source[r].row];
      }
    }
    assert source[..|source|] == source;
  }
}
