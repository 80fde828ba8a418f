/** The index equals a rebuild after every run of saves, and why its keys tell documents apart. */
module FullTextProofs {
  import opened Options
  import opened FullText

  // ----- keys -----

  lemma {:induction false} CutAtBar(a: string, x: string, b: string, y: string)
    requires Clean(a) && Clean(b) && a + BAR + x == b + BAR + y
    ensures a == b && x == y
  {
    var s := a + BAR + x;
    assert s[|a|] == '|' && s[|b|] == '|';
    assert forall i | 0 <= i < |a| :: s[i] == a[i];
    assert forall i | 0 <= i < |b| :: s[i] == b[i];
    assert |a| == |b|;
    assert s[..|a|] == a && s[..|b|] == b;
    assert s[|a| + 1..] == x && s[|b| + 1..] == y;
  }

  lemma {:induction false} KeyIsCodeAndId(t: string, f: string, id: string)
    ensures Key(t, f, id) == Code(t, f) + id
  {
  }

  lemma {:induction false} SameStart(a: string, x: string, b: string, y: string)
    requires a + x == b + y && |a| <= |b|
    ensures a <= b && x == b[|a|..] + y
  {
    assert (a + x)[..|a|] == a && (b + y)[..|a|] == b[..|a|];
    assert (a + x)[|a|..] == x && (b + y)[|a|..] == b[|a|..] + y;
  }

  predicate SameKey(t: string, f: string, id: string, t': string, f': string, id': string) {
    Key(t, f, id) == Key(t', f', id') && (t, f, id) != (t', f', id')
  }

  /**
   Some ids give two terms and fields one key, exactly when these differ and the code of one
   begins with the code of the other. An id may hold the separator, and no term of one field is
   mistaken for another.
   */
  lemma {:induction false} KeysCollideIff(t: string, f: string, t': string, f': string)
    ensures (exists id, id' :: SameKey(t, f, id, t', f', id')) <==> Collide(t, f, t', f')
  {
    var c, c' := Code(t, f), Code(t', f');
    if id, id' :| SameKey(t, f, id, t', f', id') {
      CollidingKeys(t, f, id, t', f', id');
    }
    if Collide(t, f, t', f') {
      var id, id' := if c <= c' then c'[|c|..] else "", if c <= c' then "" else c[|c'|..];
      KeyIsCodeAndId(t, f, id);
      KeyIsCodeAndId(t', f', id');
      hide Key, Code;
      assert c + id == c' + id';
      assert SameKey(t, f, id, t', f', id');
    }
  }

  lemma {:induction false} CollidingKeys(t: string, f: string, id: string, t': string, f': string, id': string)
    requires Key(t, f, id) == Key(t', f', id')
    ensures (t, f, id) == (t', f', id') || Collide(t, f, t', f')
  {
    var c, c' := Code(t, f), Code(t', f');
    KeyIsCodeAndId(t, f, id);
    KeyIsCodeAndId(t', f', id');
    hide Key, Code;
    if |c| <= |c'| {
      SameStart(c, id, c', id');
      assert c == c' ==> c'[|c|..] + id' == id';
    } else {
      SameStart(c', id', c, id);
    }
  }

  /** Terms and fields without the separator never collide. */
  lemma {:induction false} CleanNeverCollides(t: string, f: string, t': string, f': string)
    requires Clean(t) && Clean(f) && Clean(t') && Clean(f')
    ensures !Collide(t, f, t', f')
  {
    var c, c' := Code(t, f), Code(t', f');
    if c <= c' {
      CutTwice(t, f, t', f', c'[|c|..]);
    } else if c' <= c {
      CutTwice(t', f', t, f, c[|c'|..]);
    }
  }

  lemma {:induction false} CutTwice(t: string, f: string, t': string, f': string, tail: string)
    requires Clean(t) && Clean(f) && Clean(t') && Clean(f') && Code(t', f') == Code(t, f) + tail
    ensures t == t' && f == f'
  {
    assert Code(t, f) + tail == t + BAR + (f + BAR + tail);
    assert Code(t', f') == t' + BAR + (f' + BAR);
    CutAtBar(t, f + BAR + tail, t', f' + BAR);
    assert f' + BAR == f' + BAR + "";
    CutAtBar(f, tail, f', "");
  }

  /** The standard tokenizer's terms and ordinary field names hold no separator, and that is enough. */
  lemma {:induction false} CleanIsProper(reg: Registration)
    requires DistinctNames(reg.fields) && CountsOnce(reg.count) && forall f | f in reg.fields :: Clean(f.name)
    requires forall cell, term | HasTerm(reg.count(cell), term) :: Clean(term)
    ensures Proper(reg)
  {
    forall t, f, t', f' | Coded(reg, t, f) && Coded(reg, t', f')
      ensures !Collide(t, f, t', f')
    {
      CleanNeverCollides(t, f, t', f');
    }
  }

  /** With the separator in a term, as a custom tokenizer may put it there, two documents share a row. */
  lemma {:induction false} BarredTermsCollide(t: string, f: string, id: string)
    ensures Collide(t + BAR + f, f, t, f) && SameKey(t + BAR + f, f, id, t, f, f + BAR + id)
  {
    assert Code(t + BAR + f, f) == Code(t, f) + (f + BAR);
    assert |t + BAR + f| > |t|;
    assert Key(t + BAR + f, f, id) == Key(t, f, f + BAR + id);
  }

  ghost predicate Shaped(reg: Registration, row: Row) {
    Coded(reg, row.term, row.field) && row.key == Key(row.term, row.field, row.sourceId)
  }

  lemma {:induction false} SameKeySameOwner(reg: Registration, a: Row, b: Row)
    requires CodesTell(reg) && Shaped(reg, a) && Shaped(reg, b) && a.key == b.key
    ensures a.sourceId == b.sourceId && a.field == b.field && a.term == b.term
  {
    CollidingKeys(a.term, a.field, a.sourceId, b.term, b.field, b.sourceId);
    hide Coded, Key, Collide;
  }

  // ----- the rows of one document -----

  predicate UniqueKeys(rows: seq<Row>) {
    forall a, b | a in rows && b in rows && a.key == b.key :: a == b
  }

  /** What `row` must be to come from one field of a document. */
  predicate FieldProduces(f: Field, count: Tokenizer, e: Entity, id: string, row: Row) {
    && row.field == f.name && row.sourceId == id && row.key == Key(row.term, f.name, id)
    && Count(row.term, row.frequency) in count(Read(e, f.column))
  }

  predicate Produces(fields: seq<Field>, count: Tokenizer, e: Entity, id: string, row: Row) {
    exists f | f in fields :: FieldProduces(f, count, e, id, row)
  }

  /** The row of one of the counted terms. */
  predicate RowOfCount(counts: seq<Count>, field: string, id: string, r: Row) {
    Count(r.term, r.frequency) in counts && r == RowOf(Count(r.term, r.frequency), field, id)
  }

  lemma {:induction false} AddTermsAre(reg: Registration, rows: seq<Row>, counts: seq<Count>, field: string, id: string)
    requires CodesTell(reg) && UniqueKeys(rows) && DistinctTerms(counts) && forall c | c in counts :: Coded(reg, c.term, field)
    requires forall r | r in rows :: Shaped(reg, r) && r.field != field
    ensures var all := AddTerms(rows, counts, field, id);
      UniqueKeys(all) && forall r :: r in all <==> r in rows || RowOfCount(counts, field, id, r)
  {
    if counts != [] {
      var n := |counts| - 1;
      var row := RowOf(counts[n], field, id);
      AddTermsAre(reg, rows, counts[..n], field, id);
      var before := AddTerms(rows, counts[..n], field, id);
      NewKey(reg, rows, counts, field, id, before);
      assert AddTerms(rows, counts, field, id) == before + [row];
      hide AddTerms, CodesTell, Coded, Shaped, DistinctTerms, RowOf, RowOfCount;
      UniqueWithOneMore(before, row);
      forall r
        ensures RowOfCount(counts, field, id, r) <==> RowOfCount(counts[..n], field, id, r) || r == row
      {
        CountsOfOneMore(counts, field, id, r);
      }
    }
  }

  lemma {:induction false} UniqueWithOneMore(rows: seq<Row>, row: Row)
    requires UniqueKeys(rows) && row.key !in KeysOf(rows)
    ensures UniqueKeys(rows + [row])
  {
  }

  lemma {:induction false} CountsOfOneMore(counts: seq<Count>, field: string, id: string, r: Row)
    requires counts != []
    ensures var n := |counts| - 1;
      RowOfCount(counts, field, id, r) <==> RowOfCount(counts[..n], field, id, r) || r == RowOf(counts[n], field, id)
  {
    assert counts == counts[..|counts| - 1] + [counts[|counts| - 1]];
  }

  lemma {:induction false} NewKey(reg: Registration, rows: seq<Row>, counts: seq<Count>, field: string, id: string, before: seq<Row>)
    requires CodesTell(reg) && counts != [] && DistinctTerms(counts) && forall c | c in counts :: Coded(reg, c.term, field)
    requires forall r | r in rows :: Shaped(reg, r) && r.field != field
    requires forall r :: r in before <==> r in rows || RowOfCount(counts[..|counts| - 1], field, id, r)
    ensures RowOf(counts[|counts| - 1], field, id).key !in KeysOf(before)
  {
    var n := |counts| - 1;
    var row := RowOf(counts[n], field, id);
    assert Shaped(reg, row);
    forall r | r in before
      ensures r.key != row.key
    {
      if r !in rows {
        var i :| 0 <= i < n && counts[i] == Count(r.term, r.frequency);
        assert Shaped(reg, r);
      }
      hide CodesTell, Coded;
      if r.key == row.key {
        SameKeySameOwner(reg, r, row);
      }
    }
  }

  lemma {:induction false} ProducesOneMore(fields: seq<Field>, count: Tokenizer, e: Entity, id: string, r: Row)
    requires fields != []
    ensures var n := |fields| - 1;
      Produces(fields, count, e, id, r) <==> Produces(fields[..n], count, e, id, r) || FieldProduces(fields[n], count, e, id, r)
  {
    assert fields == fields[..|fields| - 1] + [fields[|fields| - 1]];
  }

  lemma {:induction false} BuildRowsAre(reg: Registration, fields: seq<Field>, e: Entity, id: string)
    requires Proper(reg) && DistinctNames(fields) && forall f | f in fields :: f in reg.fields
    ensures UniqueKeys(BuildRows(fields, reg.count, e, id))
    ensures forall r :: r in BuildRows(fields, reg.count, e, id) <==> Produces(fields, reg.count, e, id, r)
    ensures forall r | r in BuildRows(fields, reg.count, e, id) :: Shaped(reg, r) && r.sourceId == id
  {
    hide AddTerms, CodesTell;
    if fields != [] {
      var n := |fields| - 1;
      var f := fields[n];
      var rest := fields[..n];
      BuildRowsAre(reg, rest, e, id);
      var before := BuildRows(rest, reg.count, e, id);
      var cell := Read(e, f.column);
      forall c | c in reg.count(cell)
        ensures Coded(reg, c.term, f.name)
      {
        assert HasTerm(reg.count(cell), c.term);
      }
      forall r | r in before
        ensures r.field != f.name
      {
        var g :| g in rest && FieldProduces(g, reg.count, e, id, r);
      }
      AddTermsAre(reg, before, reg.count(cell), f.name, id);
      hide Coded;
      forall r
        ensures Produces(fields, reg.count, e, id, r) <==> Produces(rest, reg.count, e, id, r) || FieldProduces(f, reg.count, e, id, r)
      {
        ProducesOneMore(fields, reg.count, e, id, r);
      }
    }
  }

  // ----- the index against the documents -----

  predicate In(index: Index, row: Row) { row.key in index && index[row.key] == row }

  predicate Produced(reg: Registration, docs: Library, row: Row) {
    row.sourceId in docs && Produces(reg.fields, reg.count, docs[row.sourceId], row.sourceId, row)
  }

  /** The index holds exactly the rows the stored documents produce. */
  ghost predicate Mirrors(reg: Registration, docs: Library, index: Index) {
    && (forall k | k in index :: index[k].key == k)
    && forall row: Row :: In(index, row) <==> Produced(reg, docs, row)
  }

  lemma {:induction false} MirrorIsUnique(reg: Registration, docs: Library, a: Index, b: Index)
    requires Mirrors(reg, docs, a) && Mirrors(reg, docs, b)
    ensures a == b
  {
    forall k | k in a
      ensures k in b && a[k] == b[k]
    {
      assert In(a, a[k]);
      assert In(b, a[k]);
    }
    forall k | k in b
      ensures k in a
    {
      assert In(b, b[k]);
      assert In(a, b[k]);
    }
  }

  /** No index can hold what the documents produce. */
  ghost predicate Unindexable(reg: Registration, docs: Library) { forall index :: !Mirrors(reg, docs, index) }

  lemma {:induction false} SharedKeyIsUnindexable(reg: Registration, docs: Library, a: Row, b: Row)
    requires Produced(reg, docs, a) && Produced(reg, docs, b) && a.key == b.key && a != b
    ensures Unindexable(reg, docs)
  {
    forall index
      ensures !Mirrors(reg, docs, index)
    {
      if Mirrors(reg, docs, index) {
        OneRowPerKey(reg, docs, index, a, b);
      }
    }
  }

  lemma {:induction false} OneRowPerKey(reg: Registration, docs: Library, index: Index, a: Row, b: Row)
    requires Mirrors(reg, docs, index) && Produced(reg, docs, a) && Produced(reg, docs, b) && a.key == b.key
    ensures a == b
  {
    assert In(index, a) && In(index, b);
  }

  /** Where one field's code for a term begins another's, two documents of one text field each already have no index. */
  lemma {:induction false} CollidingCodesHaveNoIndex(reg: Registration, f: Field, cell: Cell, c: Count, f': Field, cell': Cell, c': Count)
    requires f in reg.fields && f' in reg.fields && c in reg.count(cell) && c' in reg.count(cell')
    requires Code(c.term, f.name) < Code(c'.term, f'.name)
    ensures var id := Code(c'.term, f'.name)[|Code(c.term, f.name)|..];
      Unindexable(reg, map[id := map[f.column := cell], "" := map[f'.column := cell']])
  {
    var id := Code(c'.term, f'.name)[|Code(c.term, f.name)|..];
    var docs: Library := map[id := map[f.column := cell], "" := map[f'.column := cell']];
    var a, b := RowOf(c, f.name, id), RowOf(c', f'.name, "");
    assert FieldProduces(f, reg.count, docs[id], id, a) && FieldProduces(f', reg.count, docs[""], "", b);
    KeyIsCodeAndId(c.term, f.name, id);
    KeyIsCodeAndId(c'.term, f'.name, "");
    SharedKeyIsUnindexable(reg, docs, a, b);
  }

  lemma {:induction false} SameTextSameRows(reg: Registration, a: Entity, b: Entity, id: string, row: Row)
    requires SameText(reg, a, b)
    ensures Produces(reg.fields, reg.count, a, id, row) <==> Produces(reg.fields, reg.count, b, id, row)
  {
    forall f | f in reg.fields
      ensures FieldProduces(f, reg.count, a, id, row) <==> FieldProduces(f, reg.count, b, id, row)
    {
      var i :| 0 <= i < |reg.fields| && reg.fields[i] == f;
    }
  }

  predicate Alike(reg: Registration, a: Library, b: Library) {
    a.Keys == b.Keys && forall id | id in a :: SameText(reg, a[id], b[id])
  }

  lemma {:induction false} AlikeMirrors(reg: Registration, a: Library, b: Library, index: Index)
    requires Alike(reg, a, b) && Mirrors(reg, a, index)
    ensures Mirrors(reg, b, index)
  {
    forall row: Row
      ensures In(index, row) <==> Produced(reg, b, row)
    {
      if row.sourceId in a {
        SameTextSameRows(reg, a[row.sourceId], b[row.sourceId], row.sourceId, row);
      }
    }
  }

  // ----- one document at a time -----

  ghost predicate Owned(reg: Registration, rows: seq<Row>, ids: set<string>) {
    forall r | r in rows :: Shaped(reg, r) && r.sourceId in ids
  }

  ghost predicate AllOwned(reg: Registration, rows: Rows, ids: set<string>) {
    Owned(reg, rows.adds, ids) && Owned(reg, rows.updates, ids) && Owned(reg, rows.removes, ids)
  }

  /** A patch of some documents' rows leaves the rows of others where they were. */
  lemma {:induction false} PatchElsewhere(reg: Registration, index: Index, rows: Rows, ids: set<string>, row: Row)
    requires CodesTell(reg) && AllOwned(reg, rows, ids) && row.sourceId !in ids
    ensures In(Patch(index, rows), row) ==> In(index, row)
    ensures Shaped(reg, row) && In(index, row) ==> In(Patch(index, rows), row)
  {
    if Shaped(reg, row) {
      KeyElsewhere(reg, rows.adds, ids, row);
      KeyElsewhere(reg, rows.updates, ids, row);
      KeyElsewhere(reg, rows.removes, ids, row);
    }
  }

  lemma {:induction false} KeyElsewhere(reg: Registration, rows: seq<Row>, ids: set<string>, row: Row)
    requires CodesTell(reg) && Owned(reg, rows, ids) && row.sourceId !in ids && Shaped(reg, row)
    ensures row.key !in KeysOf(rows)
  {
    forall r | r in rows
      ensures r.key != row.key
    {
      if r.key == row.key {
        SameKeySameOwner(reg, r, row);
      }
    }
  }

  /** Only rows of the document that changed need looking at. */
  lemma {:induction false} OthersKeepTheirRows(reg: Registration, docs: Library, docs': Library, index: Index, id: string, rows: Rows)
    requires Proper(reg) && Mirrors(reg, docs, index) && AllOwned(reg, rows, {id})
    requires forall other | other != id :: (other in docs <==> other in docs') && (other in docs ==> docs[other] == docs'[other])
    requires forall row: Row | row.sourceId == id :: In(Patch(index, rows), row) <==> Produced(reg, docs', row)
    ensures Mirrors(reg, docs', Patch(index, rows))
  {
    forall row: Row
      ensures In(Patch(index, rows), row) <==> Produced(reg, docs', row)
    {
      if row.sourceId != id {
        PatchElsewhere(reg, index, rows, {id}, row);
        ProducedRowsAreShaped(reg, docs, row);
        assert Produced(reg, docs, row) <==> Produced(reg, docs', row);
      }
    }
    PatchKeepsKeys(index, rows);
  }

  lemma {:induction false} ProducedRowsAreShaped(reg: Registration, docs: Library, row: Row)
    requires Proper(reg)
    ensures Produced(reg, docs, row) ==> Shaped(reg, row)
  {
    if Produced(reg, docs, row) {
      BuildRowsAre(reg, reg.fields, docs[row.sourceId], row.sourceId);
    }
  }

  lemma {:induction false} PatchKeepsKeys(index: Index, rows: Rows)
    requires forall k | k in index :: index[k].key == k
    ensures forall k | k in Patch(index, rows) :: Patch(index, rows)[k].key == k
  {
  }

  lemma {:induction false} AddingKeepsTheMirror(reg: Registration, docs: Library, index: Index, e: Entity, id: string)
    requires Proper(reg) && Mirrors(reg, docs, index) && id !in docs
    ensures Mirrors(reg, docs[id := e], Patch(index, Rows(BuildRows(reg.fields, reg.count, e, id), [], [])))
  {
    hide BuildRows, Produces, Coded, CodesTell, CountsOnce, DistinctNames;
    BuildRowsAre(reg, reg.fields, e, id);
    var mine := BuildRows(reg.fields, reg.count, e, id);
    var index' := Patch(index, Rows(mine, [], []));
    var docs' := docs[id := e];
    forall row: Row | row.sourceId == id
      ensures In(index', row) <==> Produced(reg, docs', row)
    {
      assert !Produced(reg, docs, row);
      assert !In(index, row);
      assert Produced(reg, docs', row) <==> row in mine;
      if row in mine {
        assert row.key in Table(mine);
      }
    }
    OthersKeepTheirRows(reg, docs, docs', index, id, Rows(mine, [], []));
  }

  lemma {:induction false} RemovingKeepsTheMirror(reg: Registration, docs: Library, index: Index, e: Entity, id: string)
    requires Proper(reg) && Mirrors(reg, docs, index) && id in docs && SameText(reg, e, docs[id])
    ensures Mirrors(reg, docs - {id}, Patch(index, Rows([], [], BuildRows(reg.fields, reg.count, e, id))))
  {
    hide BuildRows;
    BuildRowsAre(reg, reg.fields, e, id);
    var gone := BuildRows(reg.fields, reg.count, e, id);
    var index' := Patch(index, Rows([], [], gone));
    var docs' := docs - {id};
    forall row: Row | row.sourceId == id
      ensures In(index', row) <==> Produced(reg, docs', row)
    {
      SameTextSameRows(reg, e, docs[id], id, row);
      if In(index, row) {
        assert Produced(reg, docs, row);
        assert row in gone;
        assert row.key in KeysOf(gone);
      }
    }
    OthersKeepTheirRows(reg, docs, docs', index, id, Rows([], [], gone));
  }

  // ----- a diff -----

  lemma {:induction false} ArrivalsAre(before: seq<Row>, after: seq<Row>)
    requires UniqueKeys(before)
    ensures var r := Arrivals(before, after);
      && r.removes == []
      && (forall row :: row in r.adds <==> row in after && row.key !in KeysOf(before))
      && (forall row :: row in r.updates <==> row in after && Moved(before, row))
  {
    if after != [] {
      var n := |after| - 1;
      ArrivalsAre(before, after[..n]);
      assert after == after[..n] + [after[n]];
      var known := Find(before, after[n].key);
      if known.Some? {
        assert Moved(before, after[n]) <==> known.value.frequency != after[n].frequency;
      }
    }
  }

  predicate Moved(before: seq<Row>, row: Row) {
    exists b | b in before :: b.key == row.key && b.frequency != row.frequency
  }

  lemma {:induction false} ChangedNamesAreDistinct(fields: seq<Field>, previous: Entity)
    requires DistinctNames(fields)
    ensures DistinctNames(Changed(fields, previous))
  {
    if fields != [] {
      var n := |fields| - 1;
      ChangedNamesAreDistinct(fields[..n], previous);
      OneMoreField(Changed(fields[..n], previous), fields[n], fields[..n]);
    }
  }

  lemma {:induction false} OneMoreField(some: seq<Field>, f: Field, all: seq<Field>)
    requires DistinctNames(some) && DistinctNames(all + [f]) && forall g | g in some :: g in all
    ensures DistinctNames(some + [f])
  {
    assert (all + [f])[|all|] == f;
    forall i | 0 <= i < |some|
      ensures some[i].name != f.name
    {
      assert some[i] in all;
      var j :| 0 <= j < |all| && all[j] == some[i];
      assert (all + [f])[j] == all[j];
    }
  }

  /** Two rows of one key and one frequency, which is all a diff compares, are one row. */
  predicate KeysTell(before: seq<Row>, after: seq<Row>) {
    forall a, b | a in after && b in before && a.key == b.key && a.frequency == b.frequency :: a == b
  }

  lemma {:induction false} ShapedKeysTell(reg: Registration, before: seq<Row>, after: seq<Row>)
    requires CodesTell(reg) && (forall b | b in before :: Shaped(reg, b)) && forall a | a in after :: Shaped(reg, a)
    ensures KeysTell(before, after)
  {
    forall a, b | a in after && b in before && a.key == b.key && a.frequency == b.frequency
      ensures a == b
    {
      SameKeySameOwner(reg, a, b);
    }
  }

  /**
   A diff carries an index from the rows of one version of a document to those of the next,
   whenever both versions' untouched rows agree.
   */
  lemma {:induction false} DiffMovesTheRows(index: Index, before: seq<Row>, after: seq<Row>, row: Row)
    requires UniqueKeys(before) && UniqueKeys(after) && KeysTell(before, after)
    requires forall b | b in before :: In(index, b)
    ensures In(Patch(index, Diff(before, after)), row) <==> (row in after || (In(index, row) && row.key !in KeysOf(before) && row.key !in KeysOf(after)))
  {
    ArrivalsAre(before, after);
    var rows := Diff(before, after);
    var index' := Patch(index, rows);
    var k := row.key;
    if k in KeysOf(rows.removes) {
      var gone :| gone in rows.removes && gone.key == k;
      assert Find(after, k).None?;
    } else if k in KeysOf(rows.updates) {
      assert index'[k] == Table(rows.updates)[k];
      assert index'[k] in after;
    } else if k in KeysOf(rows.adds) {
      assert index'[k] == Table(rows.adds)[k];
      assert index'[k] in after;
    } else {
      assert In(index', row) <==> In(index, row);
      Untouched(index, before, after, row);
    }
  }

  lemma {:induction false} Untouched(index: Index, before: seq<Row>, after: seq<Row>, row: Row)
    requires UniqueKeys(before) && UniqueKeys(after) && KeysTell(before, after)
    requires forall b | b in before :: In(index, b)
    requires row.key !in KeysOf(Departures(before, after))
    requires forall a | a in after && a.key == row.key :: a.key in KeysOf(before) && !Moved(before, a)
    ensures In(index, row) <==> (row in after || (In(index, row) && row.key !in KeysOf(before) && row.key !in KeysOf(after)))
  {
    if row.key in KeysOf(after) {
      var a :| a in after && a.key == row.key;
      var b :| b in before && b.key == a.key;
      assert b.frequency == a.frequency;
      assert a == b;
    } else if row.key in KeysOf(before) {
      EveryKeyLeaves(before, after, row.key);
    }
  }

  lemma {:induction false} EveryKeyLeaves(before: seq<Row>, after: seq<Row>, key: string)
    requires key in KeysOf(before) && key !in KeysOf(after)
    ensures key in KeysOf(Departures(before, after))
  {
    var b :| b in before && b.key == key;
    assert b in Departures(before, after);
  }

  lemma {:induction false} DiffIsOwned(reg: Registration, before: seq<Row>, after: seq<Row>, ids: set<string>)
    requires UniqueKeys(before) && Owned(reg, before, ids) && Owned(reg, after, ids)
    ensures AllOwned(reg, Diff(before, after), ids)
  {
    ArrivalsAre(before, after);
  }

  /** Only the fields a `previous` names are looked at, and that is enough when it is right. */
  lemma {:induction false} UpdatingKeepsTheMirror(reg: Registration, docs: Library, index: Index, previous: Entity, e: Entity, id: string)
    requires Proper(reg) && Mirrors(reg, docs, index) && id in docs && PreviousIsRight(reg, docs[id], previous, e)
    ensures Mirrors(reg, docs[id := e], Patch(index, DiffRows(reg, previous, e, id)))
    ensures AllOwned(reg, DiffRows(reg, previous, e, id), {id})
  {
    var changed := Changed(reg.fields, previous);
    ChangedNamesAreDistinct(reg.fields, previous);
    BuildRowsAre(reg, changed, previous, id);
    BuildRowsAre(reg, changed, e, id);
    DiffIsOwned(reg, BuildRows(changed, reg.count, previous, id), BuildRows(changed, reg.count, e, id), {id});
    hide Diff, BuildRows, Produces;
    forall row: Row | row.sourceId == id
      ensures In(Patch(index, DiffRows(reg, previous, e, id)), row) <==> Produced(reg, docs[id := e], row)
    {
      UpdatedRow(reg, docs, index, previous, e, id, row);
    }
    OthersKeepTheirRows(reg, docs, docs[id := e], index, id, DiffRows(reg, previous, e, id));
  }

  lemma {:induction false} UpdatedRow(reg: Registration, docs: Library, index: Index, previous: Entity, e: Entity, id: string, row: Row)
    requires Proper(reg) && Mirrors(reg, docs, index) && id in docs && PreviousIsRight(reg, docs[id], previous, e) && row.sourceId == id
    ensures In(Patch(index, DiffRows(reg, previous, e, id)), row) <==> Produced(reg, docs[id := e], row)
  {
    hide Diff;
    var changed := Changed(reg.fields, previous);
    ChangedNamesAreDistinct(reg.fields, previous);
    BuildRowsAre(reg, changed, previous, id);
    BuildRowsAre(reg, changed, e, id);
    var before := BuildRows(changed, reg.count, previous, id);
    var after := BuildRows(changed, reg.count, e, id);
    ShapedKeysTell(reg, before, after);
    hide KeysTell, BuildRows, Changed, DistinctNames;
    forall b | b in before
      ensures In(index, b)
    {
      ChangedRows(reg, docs[id], previous, e, id, b);
      assert Produced(reg, docs, b);
    }
    if changed == [] {
      assert Patch(index, NO_ROWS) == index;
    } else {
      DiffMovesTheRows(index, before, after, row);
    }
    assert In(index, row) <==> Produced(reg, docs, row);
    OtherFieldsRows(reg, docs[id], previous, e, id, row, before, after);
  }

  /** A document's rows, old and new, split into those of named fields and the rest. */
  lemma {:induction false} ChangedRows(reg: Registration, stored: Entity, previous: Entity, e: Entity, id: string, row: Row)
    requires Proper(reg) && PreviousIsRight(reg, stored, previous, e)
    ensures var changed := Changed(reg.fields, previous);
      && (Produces(changed, reg.count, previous, id, row) ==> Produces(reg.fields, reg.count, stored, id, row))
      && (Produces(changed, reg.count, e, id, row) ==> Produces(reg.fields, reg.count, e, id, row))
      && (Produces(reg.fields, reg.count, stored, id, row) ==>
        Produces(changed, reg.count, previous, id, row) || (NotNamed(reg, previous, row.field) && Produces(reg.fields, reg.count, e, id, row)))
      && (Produces(reg.fields, reg.count, e, id, row) ==>
        Produces(changed, reg.count, e, id, row) || (NotNamed(reg, previous, row.field) && Produces(reg.fields, reg.count, stored, id, row)))
  {
    forall f | f in reg.fields
      ensures if f.column in previous then Read(previous, f.column) == Read(stored, f.column)
        else Read(e, f.column) == Read(stored, f.column) && NotNamed(reg, previous, f.name)
    {
      var i :| 0 <= i < |reg.fields| && reg.fields[i] == f;
    }
  }

  predicate NotNamed(reg: Registration, previous: Entity, field: string) {
    forall f | f in reg.fields && f.name == field :: f.column !in previous
  }

  lemma {:induction false} OtherFieldsRows(reg: Registration, stored: Entity, previous: Entity, e: Entity, id: string, row: Row,
                                           before: seq<Row>, after: seq<Row>)
    requires Proper(reg) && PreviousIsRight(reg, stored, previous, e) && row.sourceId == id
    requires forall r :: r in before <==> Produces(Changed(reg.fields, previous), reg.count, previous, id, r)
    requires forall r :: r in after <==> Produces(Changed(reg.fields, previous), reg.count, e, id, r)
    requires forall r | r in before || r in after :: Shaped(reg, r)
    ensures Produces(reg.fields, reg.count, e, id, row) <==>
      row in after || (Produces(reg.fields, reg.count, stored, id, row) && row.key !in KeysOf(before) && row.key !in KeysOf(after))
  {
    ChangedRows(reg, stored, previous, e, id, row);
    if NotNamed(reg, previous, row.field) && Produces(reg.fields, reg.count, e, id, row) {
      BuildRowsAre(reg, reg.fields, e, id);
      forall r | r in before || r in after
        ensures r.key != row.key
      {
        if r.key == row.key {
          SameKeySameOwner(reg, r, row);
        }
      }
    }
  }

  // ----- a whole save -----

  lemma {:induction false} TableJoins(a: seq<Row>, b: seq<Row>)
    ensures Table(a + b) == Table(a) + Table(b)
  {
    if b == [] {
      assert a + b == a;
    } else {
      var n := |b| - 1;
      assert a + b == (a + b[..n]) + [b[n]] && b == b[..n] + [b[n]];
      TableJoins(a, b[..n]);
      TableSnoc(a + b[..n], b[n]);
      TableSnoc(b[..n], b[n]);
      OneMoreKey(Table(a), Table(b[..n]), b[n]);
    }
  }

  lemma {:induction false} OneMoreKey(a: Index, b: Index, row: Row)
    ensures (a + b)[row.key := row] == a + b[row.key := row]
  {
  }

  lemma {:induction false} TableSnoc(rows: seq<Row>, row: Row)
    ensures Table(rows + [row]) == Table(rows)[row.key := row]
  {
    assert (rows + [row])[..|rows + [row]| - 1] == rows;
  }

  lemma {:induction false} OwnedApart(reg: Registration, a: seq<Row>, b: seq<Row>, ours: set<string>, theirs: set<string>)
    requires CodesTell(reg) && Owned(reg, a, ours) && Owned(reg, b, theirs) && ours !! theirs
    ensures KeysOf(a) !! KeysOf(b)
  {
    forall r | r in b
      ensures r.key !in KeysOf(a)
    {
      KeyElsewhere(reg, a, ours, r);
    }
  }

  /** Rows of different documents can be applied together or one after the other. */
  lemma {:induction false} PatchJoins(reg: Registration, index: Index, a: Rows, b: Rows, ours: set<string>, theirs: set<string>)
    requires CodesTell(reg) && AllOwned(reg, a, ours) && AllOwned(reg, b, theirs) && ours !! theirs
    ensures Patch(index, Join(a, b)) == Patch(Patch(index, a), b)
  {
    TableJoins(a.adds, b.adds);
    TableJoins(a.updates, b.updates);
    assert KeysOf(a.removes + b.removes) == KeysOf(a.removes) + KeysOf(b.removes);
    OwnedApart(reg, a.updates, b.adds, ours, theirs);
    OwnedApart(reg, a.removes, b.adds, ours, theirs);
    OwnedApart(reg, a.removes, b.updates, ours, theirs);
    LayersCommute(index, Table(a.adds), Table(a.updates), KeysOf(a.removes), Table(b.adds), Table(b.updates), KeysOf(b.removes));
  }

  lemma {:induction false} LayersCommute(index: Index, a1: Index, u1: Index, r1: set<string>, a2: Index, u2: Index, r2: set<string>)
    requires u1.Keys !! a2.Keys && r1 !! a2.Keys && r1 !! u2.Keys
    ensures index + (a1 + a2) + (u1 + u2) - (r1 + r2) == index + a1 + u1 - r1 + a2 + u2 - r2
  {
    RemoveLater(index + a1 + u1, r1, a2);
    RemoveLater(index + a1 + u1 + a2, r1, u2);
    SwapLayers(index + a1, u1, a2);
    JoinLayers(index, a1, a2);
    JoinLayers(index + a1 + a2, u1, u2);
    assert forall m: Index :: m - r1 - r2 == m - (r1 + r2);
  }

  lemma {:induction false} RemoveLater(m: Index, r: set<string>, layer: Index)
    requires r !! layer.Keys
    ensures m - r + layer == m + layer - r
  {
  }

  lemma {:induction false} SwapLayers(m: Index, a: Index, b: Index)
    requires a.Keys !! b.Keys
    ensures m + a + b == m + b + a
  {
  }

  lemma {:induction false} JoinLayers(m: Index, a: Index, b: Index)
    ensures m + (a + b) == m + a + b
  {
  }

  lemma {:induction false} PatchNothing(reg: Registration, index: Index)
    ensures Patch(index, NO_ROWS) == index && AllOwned(reg, NO_ROWS, {})
  {
  }

  predicate DistinctIds(reg: Registration, es: seq<Entity>) {
    forall i, j | 0 <= i < j < |es| && SourceId(reg, es[i]).Some? :: SourceId(reg, es[i]) != SourceId(reg, es[j])
  }

  /** The documents that an add files, leaving out those without an id and those of `skip`. */
  function AddSome(reg: Registration, docs: Library, adds: seq<Entity>, skip: set<string>): Library {
    if adds == [] then docs
    else
      var e := adds[|adds| - 1];
      var id := SourceId(reg, e);
      var before := AddSome(reg, docs, adds[..|adds| - 1], skip);
      if id.None? || id.value in skip then before else before[id.value := e]
  }

  /** What adding does to each document. */
  lemma {:induction false} AddSomeAt(reg: Registration, docs: Library, adds: seq<Entity>, skip: set<string>)
    requires DistinctIds(reg, adds)
    ensures var r := AddSome(reg, docs, adds, skip);
      && (forall i | 0 <= i < |adds| && SourceId(reg, adds[i]).Some? && SourceId(reg, adds[i]).value !in skip ::
        SourceId(reg, adds[i]).value in r && r[SourceId(reg, adds[i]).value] == adds[i])
      && (forall id | id !in IdsOf(reg, adds) || id in skip :: (id in r <==> id in docs) && (id in docs ==> r[id] == docs[id]))
  {
    if adds != [] {
      var n := |adds| - 1;
      var id := SourceId(reg, adds[n]);
      assert adds == adds[..n] + [adds[n]];
      assert forall i | 0 <= i < n :: adds[..n][i] == adds[i];
      AddSomeAt(reg, docs, adds[..n], skip);
      var before, r := AddSome(reg, docs, adds[..n], skip), AddSome(reg, docs, adds, skip);
      forall i | 0 <= i < |adds| && SourceId(reg, adds[i]).Some? && SourceId(reg, adds[i]).value !in skip
        ensures SourceId(reg, adds[i]).value in r && r[SourceId(reg, adds[i]).value] == adds[i]
      {
        if i < n {
          assert SourceId(reg, adds[..n][i]).value in before;
        }
      }
      forall other | other !in IdsOf(reg, adds) || other in skip
        ensures (other in r <==> other in docs) && (other in docs ==> r[other] == docs[other])
      {
        assert other !in IdsOf(reg, adds[..n]) || other in skip;
        assert id.Some? ==> id.value in IdsOf(reg, adds);
      }
    }
  }

  lemma {:induction false} AddRowsAreOwned(reg: Registration, adds: seq<Entity>, skip: set<string>)
    requires Proper(reg)
    ensures Owned(reg, AddRows(reg, adds, skip), IdsOf(reg, adds) - skip)
  {
    if adds != [] {
      var n := |adds| - 1;
      AddRowsAreOwned(reg, adds[..n], skip);
      assert adds == adds[..n] + [adds[n]];
      if SourceId(reg, adds[n]).Some? {
        BuildRowsAre(reg, reg.fields, adds[n], SourceId(reg, adds[n]).value);
      }
    }
  }

  lemma {:induction false} AddsKeepTheMirror(reg: Registration, docs: Library, index: Index, adds: seq<Entity>, skip: set<string>)
    requires Proper(reg) && Mirrors(reg, docs, index) && DistinctIds(reg, adds)
    requires IdsOf(reg, adds) - skip !! docs.Keys
    ensures Mirrors(reg, AddSome(reg, docs, adds, skip), Patch(index, Rows(AddRows(reg, adds, skip), [], [])))
  {
    hide BuildRows, Mirrors, Patch, Owned;
    PatchNothing(reg, index);
    if adds == [] {
    } else {
      var n := |adds| - 1;
      var e := adds[n];
      assert adds == adds[..n] + [e];
      assert IdsOf(reg, adds[..n]) <= IdsOf(reg, adds);
      AddsKeepTheMirror(reg, docs, index, adds[..n], skip);
      var id := SourceId(reg, e);
      if id.Some? && id.value !in skip {
        var before := AddRows(reg, adds[..n], skip);
        var mine := BuildRows(reg.fields, reg.count, e, id.value);
        AddSomeAt(reg, docs, adds[..n], skip);
        assert id.value in IdsOf(reg, adds) - skip;
        assert id.value !in IdsOf(reg, adds[..n]);
        AddingKeepsTheMirror(reg, AddSome(reg, docs, adds[..n], skip), Patch(index, Rows(before, [], [])), e, id.value);
        AddRowsAreOwned(reg, adds[..n], skip);
        BuildRowsAre(reg, reg.fields, e, id.value);
        PatchJoins(reg, index, Rows(before, [], []), Rows(mine, [], []), IdsOf(reg, adds[..n]) - skip, {id.value});
        assert Join(Rows(before, [], []), Rows(mine, [], [])) == Rows(AddRows(reg, adds, skip), [], []);
      }
    }
  }

  function UpdateIds(reg: Registration, updates: seq<Update>): set<string> {
    set u | u in updates && SourceId(reg, u.entity).Some? :: SourceId(reg, u.entity).value
  }

  lemma {:induction false} UpdatesKeepTheMirror(reg: Registration, docs: Library, index: Index, updates: seq<Update>)
    requires Proper(reg) && Mirrors(reg, docs, index) && UpdatesAreRight(reg, docs, updates)
    ensures Mirrors(reg, UpdateAll(reg, docs, updates), Patch(index, UpdateRows(reg, updates)))
    ensures AllOwned(reg, UpdateRows(reg, updates), UpdateIds(reg, updates))
  {
    hide Mirrors, Patch, AllOwned, DiffRows;
    PatchNothing(reg, index);
    if updates == [] {
      assert UpdateIds(reg, updates) == {};
    } else {
      var n := |updates| - 1;
      var u := updates[n];
      var id := SourceId(reg, u.entity).value;
      var ids := UpdateIds(reg, updates[..n]);
      UpdatesSoFar(reg, docs, updates);
      UpdatesKeepTheMirror(reg, docs, index, updates[..n]);
      var before := UpdateRows(reg, updates[..n]);
      var mine := DiffRows(reg, u.previous.value, u.entity, id);
      UpdatingKeepsTheMirror(reg, UpdateAll(reg, docs, updates[..n]), Patch(index, before), u.previous.value, u.entity, id);
      PatchJoins(reg, index, before, mine, ids, {id});
      OwnedJoin(reg, before, mine, ids, {id});
    }
  }

  lemma {:induction false} OwnedJoin(reg: Registration, a: Rows, b: Rows, ours: set<string>, theirs: set<string>)
    requires AllOwned(reg, a, ours) && AllOwned(reg, b, theirs)
    ensures AllOwned(reg, Join(a, b), ours + theirs)
  {
  }

  /** The last of some updates, after the others: its document is as it was stored. */
  lemma {:induction false} UpdatesSoFar(reg: Registration, docs: Library, updates: seq<Update>)
    requires UpdatesAreRight(reg, docs, updates) && updates != []
    ensures var n := |updates| - 1;
      var id := SourceId(reg, updates[n].entity).value;
      && UpdatesAreRight(reg, docs, updates[..n])
      && id !in UpdateIds(reg, updates[..n]) && UpdateIds(reg, updates) == UpdateIds(reg, updates[..n]) + {id}
      && id in UpdateAll(reg, docs, updates[..n]) && UpdateAll(reg, docs, updates[..n])[id] == docs[id]
  {
    var n := |updates| - 1;
    assert updates == updates[..n] + [updates[n]];
    assert forall i | 0 <= i < n :: updates[..n][i] == updates[i];
    UpdateAllAt(reg, docs, updates[..n]);
  }

  lemma {:induction false} UpdateAllAt(reg: Registration, docs: Library, updates: seq<Update>)
    requires DistinctUpdates(reg, updates)
    ensures var r := UpdateAll(reg, docs, updates);
      && (forall i | 0 <= i < |updates| && SourceId(reg, updates[i].entity).Some? ::
        SourceId(reg, updates[i].entity).value in r && r[SourceId(reg, updates[i].entity).value] == updates[i].entity)
      && (forall id | id !in UpdateIds(reg, updates) :: (id in r <==> id in docs) && (id in docs ==> r[id] == docs[id]))
  {
    if updates != [] {
      var n := |updates| - 1;
      var u := updates[n];
      assert updates == updates[..n] + [u];
      assert forall i | 0 <= i < n :: updates[..n][i] == updates[i];
      UpdateAllAt(reg, docs, updates[..n]);
      assert UpdateIds(reg, updates) == UpdateIds(reg, updates[..n]) + UpdateIds(reg, [u]);
    }
  }

  predicate DistinctUpdates(reg: Registration, updates: seq<Update>) {
    forall i, j | 0 <= i < j < |updates| :: SourceId(reg, updates[i].entity) != SourceId(reg, updates[j].entity)
  }

  lemma {:induction false} RemovesKeepTheMirror(reg: Registration, docs: Library, index: Index, removes: seq<Entity>)
    requires Proper(reg) && Mirrors(reg, docs, index) && RemovesAreRight(reg, docs, removes)
    ensures Mirrors(reg, docs - IdsOf(reg, removes), Patch(index, Rows([], [], AddRows(reg, removes, {}))))
  {
    hide Mirrors, Patch, BuildRows, Owned;
    PatchNothing(reg, index);
    if removes == [] {
      assert IdsOf(reg, removes) == {} && docs - {} == docs;
    } else {
      var n := |removes| - 1;
      var e := removes[n];
      var id := SourceId(reg, e).value;
      assert removes == removes[..n] + [e];
      RemovesKeepTheMirror(reg, docs, index, removes[..n]);
      var before := AddRows(reg, removes[..n], {});
      var mine := BuildRows(reg.fields, reg.count, e, id);
      assert id !in IdsOf(reg, removes[..n]);
      RemovingKeepsTheMirror(reg, docs - IdsOf(reg, removes[..n]), Patch(index, Rows([], [], before)), e, id);
      AddRowsAreOwned(reg, removes[..n], {});
      BuildRowsAre(reg, reg.fields, e, id);
      PatchJoins(reg, index, Rows([], [], before), Rows([], [], mine), IdsOf(reg, removes[..n]) - {}, {id});
      assert Join(Rows([], [], before), Rows([], [], mine)) == Rows([], [], AddRows(reg, removes, {}));
      assert docs - IdsOf(reg, removes[..n]) - {id} == docs - IdsOf(reg, removes);
    }
  }

  /** The three groups of one save, applied together, are the three applied in turn. */
  lemma {:induction false} EmittedInTurn(reg: Registration, index: Index, d: Documents)
    requires Proper(reg) && AllOwned(reg, UpdateRows(reg, d.updates), UpdateIds(reg, d.updates))
    requires IdsOf(reg, d.adds) !! UpdateIds(reg, d.updates) !! IdsOf(reg, d.removes)
    ensures Patch(index, Emitted(reg, d)) ==
      Patch(Patch(Patch(index, Rows(AddRows(reg, d.adds, {}), [], [])), UpdateRows(reg, d.updates)), Rows([], [], AddRows(reg, d.removes, {})))
  {
    var a := Rows(AddRows(reg, d.adds, {}), [], []);
    var u := UpdateRows(reg, d.updates);
    var r := Rows([], [], AddRows(reg, d.removes, {}));
    AddRowsAreOwned(reg, d.adds, {});
    AddRowsAreOwned(reg, d.removes, {});
    EmittedIsJoined(reg, d);
    assert AllOwned(reg, a, IdsOf(reg, d.adds) - {}) && AllOwned(reg, r, IdsOf(reg, d.removes) - {});
    hide Patch, AllOwned, Owned, CodesTell, Emitted, Join, AddRows, UpdateRows, IdsOf, UpdateIds;
    ThreeInTurn(reg, index, a, u, r, IdsOf(reg, d.adds) - {}, UpdateIds(reg, d.updates), IdsOf(reg, d.removes) - {});
  }

  lemma {:induction false} EmittedIsJoined(reg: Registration, d: Documents)
    ensures Join(Join(Rows(AddRows(reg, d.adds, {}), [], []), UpdateRows(reg, d.updates)), Rows([], [], AddRows(reg, d.removes, {}))) == Emitted(reg, d)
  {
    hide AddRows, UpdateRows;
  }

  lemma {:induction false} ThreeInTurn(reg: Registration, index: Index, a: Rows, u: Rows, r: Rows, ours: set<string>, us: set<string>, rs: set<string>)
    requires CodesTell(reg) && AllOwned(reg, a, ours) && AllOwned(reg, u, us) && AllOwned(reg, r, rs) && ours !! us !! rs
    ensures Patch(index, Join(Join(a, u), r)) == Patch(Patch(Patch(index, a), u), r)
  {
    PatchJoins(reg, index, a, u, ours, us);
    OwnedJoin(reg, a, u, ours, us);
    PatchJoins(reg, index, Join(a, u), r, ours + us, rs);
  }

  lemma {:induction false} IdsApart(reg: Registration, docs: Library, save: Save)
    requires save.landed && SaveIsRight(reg, docs, save)
    ensures var d := save.documents;
      && IdsOf(reg, d.adds) !! UpdateIds(reg, d.updates) !! IdsOf(reg, d.removes)
      && IdsOf(reg, d.adds) !! docs.Keys && IdsOf(reg, save.echo) !! docs.Keys
      && IdsOf(reg, d.adds) <= IdsOf(reg, save.echo)
      && UpdateIds(reg, d.updates) <= docs.Keys && IdsOf(reg, d.removes) <= docs.Keys
      && DistinctIds(reg, d.adds) && DistinctIds(reg, save.echo)
  {
    var d := save.documents;
    forall id | id in IdsOf(reg, d.adds)
      ensures id in IdsOf(reg, save.echo) && id !in docs
    {
      var i :| 0 <= i < |d.adds| && SourceId(reg, d.adds[i]) == Some(id);
      assert SourceId(reg, save.echo[i]) == Some(id);
      assert save.echo[i] in save.echo;
    }
  }

  /** The save's own documents, and those the row-by-row account arrives at, read the same. */
  lemma {:induction false} SameLibrary(reg: Registration, docs: Library, save: Save)
    requires save.landed && SaveIsRight(reg, docs, save)
    ensures var d := save.documents;
      Alike(reg,
            AddSome(reg, UpdateAll(reg, AddSome(reg, docs, d.adds, {}), d.updates) - IdsOf(reg, d.removes), save.echo, IdsOf(reg, d.adds)),
            DocsAfter(reg, docs, save))
  {
    var d := save.documents;
    var last := AddSome(reg, UpdateAll(reg, AddSome(reg, docs, d.adds, {}), d.updates) - IdsOf(reg, d.removes), save.echo, IdsOf(reg, d.adds));
    forall id
      ensures id in last <==> id in DocsAfter(reg, docs, save)
      ensures id in last ==> SameText(reg, last[id], DocsAfter(reg, docs, save)[id])
    {
      if id in IdsOf(reg, save.echo) {
        EchoedDocument(reg, docs, save, id);
      } else {
        OlderDocument(reg, docs, save, id);
      }
    }
  }

  lemma {:induction false} OlderDocument(reg: Registration, docs: Library, save: Save, id: string)
    requires save.landed && SaveIsRight(reg, docs, save) && id !in IdsOf(reg, save.echo)
    ensures var d := save.documents;
      var last := AddSome(reg, UpdateAll(reg, AddSome(reg, docs, d.adds, {}), d.updates) - IdsOf(reg, d.removes), save.echo, IdsOf(reg, d.adds));
      && (id in last <==> id in DocsAfter(reg, docs, save))
      && (id in last ==> last[id] == DocsAfter(reg, docs, save)[id])
  {
    var d := save.documents;
    IdsApart(reg, docs, save);
    var first := AddSome(reg, docs, d.adds, {});
    var all := AddAll(reg, docs, save.echo);
    AddSomeAt(reg, docs, d.adds, {});
    AddSomeAt(reg, UpdateAll(reg, first, d.updates) - IdsOf(reg, d.removes), save.echo, IdsOf(reg, d.adds));
    AddAllIsAddSome(reg, docs, save.echo);
    AddSomeAt(reg, docs, save.echo, {});
    SameUpdates(reg, first, all, d.updates, id);
  }

  /** Updates do the same to two libraries that agree on a document. */
  lemma {:induction false} SameUpdates(reg: Registration, a: Library, b: Library, updates: seq<Update>, id: string)
    requires (id in a <==> id in b) && (id in a ==> a[id] == b[id])
    ensures var x, y := UpdateAll(reg, a, updates), UpdateAll(reg, b, updates);
      (id in x <==> id in y) && (id in x ==> x[id] == y[id])
  {
    if updates != [] {
      SameUpdates(reg, a, b, updates[..|updates| - 1], id);
    }
  }

  lemma {:induction false} EchoedDocument(reg: Registration, docs: Library, save: Save, id: string)
    requires save.landed && SaveIsRight(reg, docs, save) && id in IdsOf(reg, save.echo)
    ensures var d := save.documents;
      var last := AddSome(reg, UpdateAll(reg, AddSome(reg, docs, d.adds, {}), d.updates) - IdsOf(reg, d.removes), save.echo, IdsOf(reg, d.adds));
      && id in last && id in DocsAfter(reg, docs, save) && SameText(reg, last[id], DocsAfter(reg, docs, save)[id])
  {
    var d := save.documents;
    IdsApart(reg, docs, save);
    var first := AddSome(reg, docs, d.adds, {});
    var third := UpdateAll(reg, first, d.updates) - IdsOf(reg, d.removes);
    var i :| 0 <= i < |save.echo| && SourceId(reg, save.echo[i]) == Some(id);
    AddSomeAt(reg, docs, d.adds, {});
    UpdateAllAt(reg, first, d.updates);
    AddSomeAt(reg, third, save.echo, IdsOf(reg, d.adds));
    AddAllIsAddSome(reg, docs, save.echo);
    AddSomeAt(reg, docs, save.echo, {});
    UpdateAllAt(reg, AddAll(reg, docs, save.echo), d.updates);
    if id in IdsOf(reg, d.adds) {
      var j :| 0 <= j < |d.adds| && SourceId(reg, d.adds[j]) == Some(id);
      assert SourceId(reg, save.echo[j]) == Some(id);
      assert i == j;
    }
  }

  lemma {:induction false} AddAllIsAddSome(reg: Registration, docs: Library, adds: seq<Entity>)
    ensures AddAll(reg, docs, adds) == AddSome(reg, docs, adds, {})
  {
    if adds != [] {
      AddAllIsAddSome(reg, docs, adds[..|adds| - 1]);
    }
  }

  /** One save, deferred rows included, takes a true index to a true index. */
  lemma {:induction false} SaveKeepsTheMirror(reg: Registration, s: Store, save: Save)
    requires Proper(reg) && Mirrors(reg, s.docs, s.index) && SaveIsRight(reg, s.docs, save)
    ensures var after := AfterSave(reg, s, save); Mirrors(reg, after.docs, after.index)
  {
    if save.landed {
      var d := save.documents;
      var skip := IdsOf(reg, d.adds);
      IdsApart(reg, s.docs, save);
      var docs1 := AddSome(reg, s.docs, d.adds, {});
      var index1 := Patch(s.index, Rows(AddRows(reg, d.adds, {}), [], []));
      AddsKeepTheMirror(reg, s.docs, s.index, d.adds, {});
      AddSomeAt(reg, s.docs, d.adds, {});
      var docs2 := UpdateAll(reg, docs1, d.updates);
      var index2 := Patch(index1, UpdateRows(reg, d.updates));
      UpdatesKeepTheMirror(reg, docs1, index1, d.updates);
      UpdateAllAt(reg, docs1, d.updates);
      RemovesStillRight(reg, docs1, docs2, d);
      var docs3 := docs2 - IdsOf(reg, d.removes);
      var index3 := Patch(index2, Rows([], [], AddRows(reg, d.removes, {})));
      RemovesKeepTheMirror(reg, docs2, index2, d.removes);
      EmittedInTurn(reg, s.index, d);
      AddsKeepTheMirror(reg, docs3, index3, save.echo, skip);
      SameLibrary(reg, s.docs, save);
      AlikeMirrors(reg, AddSome(reg, docs3, save.echo, skip), DocsAfter(reg, s.docs, save), Patch(index3, Rows(DeferredRows(reg, save), [], [])));
    }
  }

  lemma {:induction false} RemovesStillRight(reg: Registration, docs: Library, docs': Library, d: Documents)
    requires RemovesAreRight(reg, docs, d.removes) && UpdateIds(reg, d.updates) !! IdsOf(reg, d.removes)
    requires forall id | id in docs && id !in UpdateIds(reg, d.updates) :: id in docs' && docs'[id] == docs[id]
    ensures RemovesAreRight(reg, docs', d.removes)
  {
    forall i | 0 <= i < |d.removes|
      ensures SourceId(reg, d.removes[i]).value in docs' && SameText(reg, d.removes[i], docs'[SourceId(reg, d.removes[i]).value])
    {
      assert SourceId(reg, d.removes[i]).value in IdsOf(reg, d.removes);
    }
  }

  /** The main result: from an empty store, every run of saves leaves the index mirroring the documents. */
  lemma {:induction false} RunKeepsTheMirror(reg: Registration, saves: seq<Save>)
    requires Proper(reg) && SavesAreRight(reg, Store(map[], map[]), saves)
    ensures var after := AfterSaves(reg, Store(map[], map[]), saves); Mirrors(reg, after.docs, after.index)
  {
    if saves == [] {
    } else {
      RunKeepsTheMirror(reg, saves[..|saves| - 1]);
      SaveKeepsTheMirror(reg, AfterSaves(reg, Store(map[], map[]), saves[..|saves| - 1]), saves[|saves| - 1]);
    }
  }

  /** Without a `previous` an update emits nothing, which is right exactly when no row moves. */
  lemma {:induction false} UpdateWithoutPreviousIsRightIff(reg: Registration, docs: Library, index: Index, e: Entity, id: string)
    requires Proper(reg) && Mirrors(reg, docs, index) && id in docs
    ensures UpdateRows(reg, [Update(e, None)]) == NO_ROWS && Patch(index, NO_ROWS) == index
    ensures Mirrors(reg, docs[id := e], index) <==>
      (forall row :: row in BuildRows(reg.fields, reg.count, e, id) <==> row in BuildRows(reg.fields, reg.count, docs[id], id))
  {
    hide Coded, CodesTell, CountsOnce, DistinctNames, BuildRows, Produces, Table;
    BuildRowsAre(reg, reg.fields, e, id);
    BuildRowsAre(reg, reg.fields, docs[id], id);
    assert [Update(e, None)][..0] == [];
    PatchNothing(reg, index);
    var docs' := docs[id := e];
    if Mirrors(reg, docs', index) {
      forall row: Row
        ensures Produces(reg.fields, reg.count, e, id, row) <==> Produces(reg.fields, reg.count, docs[id], id, row)
      {
        if row.sourceId == id {
          assert In(index, row) <==> Produced(reg, docs', row);
          assert In(index, row) <==> Produced(reg, docs, row);
        }
      }
    }
    if forall row :: row in BuildRows(reg.fields, reg.count, e, id) <==> row in BuildRows(reg.fields, reg.count, docs[id], id) {
      forall row: Row
        ensures In(index, row) <==> Produced(reg, docs', row)
      {
        assert Produced(reg, docs', row) <==> Produced(reg, docs, row);
      }
    }
  }

  // ----- the index from scratch -----

  predicate Filed(reg: Registration, docs: Library) {
    forall id | id in docs :: SourceId(reg, docs[id]) == Some(id)
  }

  lemma {:induction false} SavesKeepDocumentsFiled(reg: Registration, s: Store, saves: seq<Save>)
    requires Filed(reg, s.docs)
    ensures Filed(reg, AfterSaves(reg, s, saves).docs)
  {
    if saves != [] {
      SavesKeepDocumentsFiled(reg, s, saves[..|saves| - 1]);
      var before := AfterSaves(reg, s, saves[..|saves| - 1]).docs;
      var save := saves[|saves| - 1];
      AddsAreFiled(reg, before, save.echo);
      UpdatesAreFiled(reg, AddAll(reg, before, save.echo), save.documents.updates);
    }
  }

  lemma {:induction false} AddsAreFiled(reg: Registration, docs: Library, adds: seq<Entity>)
    requires Filed(reg, docs)
    ensures Filed(reg, AddAll(reg, docs, adds))
  {
    if adds != [] {
      AddsAreFiled(reg, docs, adds[..|adds| - 1]);
    }
  }

  lemma {:induction false} UpdatesAreFiled(reg: Registration, docs: Library, updates: seq<Update>)
    requires Filed(reg, docs)
    ensures Filed(reg, UpdateAll(reg, docs, updates))
  {
    if updates != [] {
      UpdatesAreFiled(reg, docs, updates[..|updates| - 1]);
    }
  }

  /** A listing of the stored documents, in whatever order a query returns them. */
  predicate Lists(reg: Registration, listing: seq<Entity>, docs: Library) {
    && DistinctIds(reg, listing)
    && (forall e | e in listing :: SourceId(reg, e).Some? && SourceId(reg, e).value in docs && docs[SourceId(reg, e).value] == e)
    && forall id | id in docs :: docs[id] in listing
  }

  lemma {:induction false} RebuildIs(reg: Registration, listing: seq<Entity>)
    requires Proper(reg) && DistinctIds(reg, listing)
    ensures UniqueKeys(Rebuild(reg, listing)) && Owned(reg, Rebuild(reg, listing), IdsOf(reg, listing))
    ensures forall row :: row in Rebuild(reg, listing) <==> RowOfSome(reg, listing, row)
  {
    if listing != [] {
      var n := |listing| - 1;
      var e := listing[n];
      var id := SourceId(reg, e);
      assert listing == listing[..n] + [e];
      assert forall i | 0 <= i < n :: listing[..n][i] == listing[i];
      RebuildIs(reg, listing[..n]);
      var before := Rebuild(reg, listing[..n]);
      if id.Some? {
        assert id.value !in IdsOf(reg, listing[..n]);
        var mine := BuildRows(reg.fields, reg.count, e, id.value);
        BuildRowsAre(reg, reg.fields, e, id.value);
        OwnedApart(reg, before, mine, IdsOf(reg, listing[..n]), {id.value});
        RowsOfOneMore(reg, listing[..n], e, before, mine);
        PutAllIs(before, mine);
      }
      assert forall row :: RowOfSome(reg, listing, row) <==> RowOfSome(reg, listing[..n], row) || RowOfOne(reg, e, row);
    }
  }

  predicate RowOfOne(reg: Registration, e: Entity, row: Row) {
    SourceId(reg, e) == Some(row.sourceId) && Produces(reg.fields, reg.count, e, row.sourceId, row)
  }

  predicate RowOfSome(reg: Registration, listing: seq<Entity>, row: Row) {
    exists e | e in listing :: RowOfOne(reg, e, row)
  }

  lemma {:induction false} RowsOfOneMore(reg: Registration, listing: seq<Entity>, e: Entity, before: seq<Row>, mine: seq<Row>)
    requires Proper(reg) && SourceId(reg, e).Some? && mine == BuildRows(reg.fields, reg.count, e, SourceId(reg, e).value)
    requires UniqueKeys(before) && KeysOf(before) !! KeysOf(mine) && Owned(reg, before, IdsOf(reg, listing))
    ensures UniqueKeys(before + mine) && Owned(reg, before + mine, IdsOf(reg, listing + [e]))
    ensures forall row :: row in mine <==> RowOfOne(reg, e, row)
  {
    BuildRowsAre(reg, reg.fields, e, SourceId(reg, e).value);
    assert e in listing + [e];
    assert IdsOf(reg, listing) <= IdsOf(reg, listing + [e]);
    assert SourceId(reg, e).value in IdsOf(reg, listing + [e]);
    forall row
      ensures row in mine <==> RowOfOne(reg, e, row)
    {
      if RowOfOne(reg, e, row) {
        assert Produces(reg.fields, reg.count, e, SourceId(reg, e).value, row);
      }
    }
    forall a, b | a in before + mine && b in before + mine && a.key == b.key
      ensures a == b
    {
      assert a.key in KeysOf(before) <==> a in before;
    }
  }

  lemma {:induction false} PutAllIs(rows: seq<Row>, more: seq<Row>)
    requires UniqueKeys(rows + more)
    ensures UniqueKeys(PutAll(rows, more)) && forall r :: r in PutAll(rows, more) <==> r in rows + more
  {
    if more == [] {
      assert rows + more == rows;
    } else {
      var n := |more| - 1;
      var before := PutAll(rows, more[..n]);
      assert rows + more == rows + more[..n] + [more[n]];
      PutAllIs(rows, more[..n]);
      var at := Position(before, more[n].key);
      if at.Some? {
        assert before[at.value] in rows + more;
        assert before[at.value] == more[n];
        assert before[at.value := more[n]] == before;
      }
    }
  }

  /** The main result, against the reference: the index is the one a rebuild of the documents gives. */
  lemma {:induction false} IndexEqualsRebuild(reg: Registration, saves: seq<Save>, listing: seq<Entity>)
    requires Proper(reg) && SavesAreRight(reg, Store(map[], map[]), saves)
    requires Lists(reg, listing, AfterSaves(reg, Store(map[], map[]), saves).docs)
    ensures AfterSaves(reg, Store(map[], map[]), saves).index == Table(Rebuild(reg, listing))
  {
    var after := AfterSaves(reg, Store(map[], map[]), saves);
    SavesKeepDocumentsFiled(reg, Store(map[], map[]), saves);
    RunKeepsTheMirror(reg, saves);
    RebuildMirrors(reg, listing, after.docs);
    MirrorIsUnique(reg, after.docs, after.index, Table(Rebuild(reg, listing)));
  }

  lemma {:induction false} RebuildMirrors(reg: Registration, listing: seq<Entity>, docs: Library)
    requires Proper(reg) && Lists(reg, listing, docs) && Filed(reg, docs)
    ensures Mirrors(reg, docs, Table(Rebuild(reg, listing)))
  {
    RebuildIs(reg, listing);
    var rows := Rebuild(reg, listing);
    forall row: Row
      ensures In(Table(rows), row) <==> Produced(reg, docs, row)
    {
      assert In(Table(rows), row) <==> row in rows;
      if Produced(reg, docs, row) {
        assert RowOfOne(reg, docs[row.sourceId], row);
      }
    }
  }

  /**
   A repair writes the difference between what the index holds, whatever that is, and what it
   should. It restores the index exactly when every stored row that has an expected key and
   frequency is the expected row, for those two are all it compares.
   */
  lemma {:induction false} RepairRestoresIff(reg: Registration, docs: Library, index: Index, stored: seq<Row>, listing: seq<Entity>)
    requires Proper(reg) && Lists(reg, listing, docs) && Filed(reg, docs)
    requires UniqueKeys(stored) && forall row: Row :: row in stored <==> In(index, row)
    requires forall k | k in index :: index[k].key == k
    ensures Mirrors(reg, docs, Patch(index, Diff(stored, Rebuild(reg, listing)))) <==> KeysTell(stored, Rebuild(reg, listing))
  {
    RebuildIs(reg, listing);
    RebuildMirrors(reg, listing, docs);
    var expected := Rebuild(reg, listing);
    PatchKeepsKeys(index, Diff(stored, expected));
    hide Rebuild, Diff, Patch, Lists, Filed, Proper, Owned, RowOfSome;
    if KeysTell(stored, expected) {
      forall row: Row
        ensures In(Patch(index, Diff(stored, expected)), row) <==> Produced(reg, docs, row)
      {
        DiffMovesTheRows(index, stored, expected, row);
        assert row in expected <==> In(Table(expected), row);
        assert In(index, row) ==> row.key in KeysOf(stored);
      }
    } else {
      var a, b :| a in expected && b in stored && a.key == b.key && a.frequency == b.frequency && a != b;
      UnseenRowStays(index, stored, expected, a, b);
      assert In(Table(expected), a) && Produced(reg, docs, a);
    }
  }

  lemma {:induction false} UnseenRowStays(index: Index, before: seq<Row>, after: seq<Row>, a: Row, b: Row)
    requires UniqueKeys(before) && UniqueKeys(after) && In(index, b)
    requires a in after && b in before && a.key == b.key && a.frequency == b.frequency && a != b
    ensures !In(Patch(index, Diff(before, after)), a)
  {
    ArrivalsAre(before, after);
    var rows := Diff(before, after);
    assert Find(after, a.key).Some?;
    forall x | x in before && x.key == a.key
      ensures x == b
    {
    }
    forall x | x in after && x.key == a.key
      ensures x == a
    {
    }
    assert a.key !in KeysOf(rows.adds) && a.key !in KeysOf(rows.updates) && a.key !in KeysOf(rows.removes);
  }

  /** Rows that the index itself ever wrote tell by their keys, so a repair always restores those. */
  lemma {:induction false} RepairRestores(reg: Registration, docs: Library, index: Index, stored: seq<Row>, listing: seq<Entity>)
    requires Proper(reg) && Lists(reg, listing, docs) && Filed(reg, docs)
    requires UniqueKeys(stored) && (forall r | r in stored :: Shaped(reg, r)) && forall row: Row :: row in stored <==> In(index, row)
    requires forall k | k in index :: index[k].key == k
    ensures Mirrors(reg, docs, Patch(index, Diff(stored, Rebuild(reg, listing))))
  {
    RebuildIs(reg, listing);
    RebuildMirrors(reg, listing, docs);
    forall row | row in Rebuild(reg, listing)
      ensures Shaped(reg, row)
    {
      assert In(Table(Rebuild(reg, listing)), row);
      ProducedRowsAreShaped(reg, docs, row);
    }
    ShapedKeysTell(reg, stored, Rebuild(reg, listing));
    RepairRestoresIff(reg, docs, index, stored, listing);
  }
}
