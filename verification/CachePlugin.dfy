/** The plugin of core/src/plugins/CacheDbPlugin.ts over its ordered entries. */
module CachePlugin {
  import opened Options
  import opened CacheModel
  import opened CacheProofs

  class CacheDbPlugin {
    const max: nat
    var entries: seq<Entry>

    /** At least one result is kept, whatever was asked for. */
    constructor (wanted: int)
      ensures Valid() && entries == [] && max == if wanted < 1 then 1 else wanted
    {
      max := if wanted < 1 then 1 else wanted;
      entries := [];
    }

    predicate Valid()
      reads this
    {
      max > 0 && |entries| <= max && DistinctKeys(entries)
    }

    /** A read with no write under way: `answer` is the inner plugin's, asked for only on a miss. */
    method Query(schema: SchemaId, text: string, answer: Option<Value>) returns (reply: Option<Value>, asked: bool)
      requires Valid()
      modifies this
      ensures Valid()
      ensures asked == Get(old(entries), Key(schema, text)).None?
      ensures reply == if asked then answer else Get(old(entries), Key(schema, text))
      ensures entries ==
        if !asked then Hit(old(entries), Key(schema, text))
        else if answer.Some? then CacheModel.Store(old(entries), max, Key(schema, text), answer.value)
        else old(entries)
    {
      var key := Key(schema, text);
      var cached := Get(entries, key);
      if cached.Some? {
        DeleteLeavesNoKey(entries, key);
        entries := Delete(entries, key);
        assert Position(entries, key).None?;
        entries := Set(entries, key, cached.value);
        return cached, false;
      }
      asked := true;
      if answer.None? {
        return None, true;
      }
      StoreResult(key, answer.value);
      reply := answer;
    }

    method StoreResult(key: string, value: Value)
      requires Valid()
      modifies this
      ensures Valid() && entries == CacheModel.Store(old(entries), max, key, value)
    {
      if !value.cloneable {
        return;
      }
      entries := Set(entries, key, value);
      if |entries| > max {
        entries := entries[1..];
      }
    }

    /** Drops every cached read of some schemas, before a write and again after it. */
    method Invalidate(schemas: seq<SchemaId>)
      requires Valid()
      modifies this
      ensures Valid() && entries == Invalidated(old(entries), schemas)
    {
      for i := 0 to |schemas|
        invariant Valid() && entries == Invalidated(old(entries), schemas[..i])
      {
        assert schemas[..i + 1][..i] == schemas[..i];
        InvalidateOne(schemas[i]);
      }
      assert schemas[..|schemas|] == schemas;
    }

    /** Visits a copy of the keys, so that deleting does not disturb the visit. */
    method InvalidateOne(schema: SchemaId)
      requires Valid()
      modifies this
      ensures Valid() && entries == Dropped(old(entries), schema)
    {
      var copy := entries;
      assert Dropped(copy[..0], schema) + copy[0..] == copy;
      for i := 0 to |copy|
        invariant entries == Dropped(copy[..i], schema) + copy[i..]
      {
        var key := copy[i].key;
        VisitOne(copy, i, schema);
        if Prefix(schema) <= key {
          entries := Delete(entries, key);
        }
      }
      assert copy[..|copy|] == copy && copy[|copy|..] == [];
      assert entries == Dropped(copy, schema);
      DropIsExact(copy, schema);
      NoLonger(Dropped(copy, schema), copy);
      DistinctSubsequence(Dropped(copy, schema), copy);
    }

    method Destroy()
      modifies this
      ensures entries == []
    {
      entries := [];
    }
  }

  lemma {:induction false} DeleteOne(a: seq<Entry>, e: Entry, b: seq<Entry>)
    requires (forall x | x in a :: x.key != e.key) && forall x | x in b :: x.key != e.key
    ensures Delete(a + ([e] + b), e.key) == a + b
  {
    var all := a + ([e] + b);
    var at := Position(all, e.key);
    assert all[|a|] == e;
    assert forall i | 0 <= i < |all| && i != |a| :: all[i] in a || all[i] in b;
    assert at == Some(|a|);
    assert all[..|a|] == a && all[|a| + 1..] == b;
  }

  /** The entries before and after one key of the copy is visited. */
  lemma {:induction false} VisitOne(all: seq<Entry>, i: nat, schema: SchemaId)
    requires i < |all| && DistinctKeys(all)
    ensures var before := Dropped(all[..i], schema) + all[i..];
      Dropped(all[..i + 1], schema) + all[i + 1..] ==
        if Prefix(schema) <= all[i].key then Delete(before, all[i].key) else before
  {
    var rest := Dropped(all[..i], schema);
    assert all[..i + 1][..i] == all[..i] && all[i..] == [all[i]] + all[i + 1..];
    if Prefix(schema) <= all[i].key {
      DropIsExact(all[..i], schema);
      assert forall x | x in all[..i] :: x.key != all[i].key;
      assert forall x | x in all[i + 1..] :: x.key != all[i].key;
      DeleteOne(rest, all[i], all[i + 1..]);
    } else {
      assert rest + all[i..] == rest + [all[i]] + all[i + 1..];
    }
  }

  lemma {:induction false} DeleteLeavesNoKey(entries: seq<Entry>, key: string)
    requires DistinctKeys(entries)
    ensures DistinctKeys(Delete(entries, key)) && Position(Delete(entries, key), key).None?
    ensures Get(entries, key).Some? ==> |Delete(entries, key)| == |entries| - 1
    ensures Get(entries, key).Some? ==> forall v :: DistinctKeys(Delete(entries, key) + [Entry(key, v)])
  {
    var at := Position(entries, key);
    if at.Some? {
      DeletedAt(entries, at.value);
      DistinctSubsequence(Delete(entries, key), entries);
    }
  }

  lemma {:induction false} DistinctSubsequence(a: seq<Entry>, b: seq<Entry>)
    requires Subsequence(a, b) && DistinctKeys(b)
    ensures DistinctKeys(a) && forall e | e in a :: e in b
  {
    if a != [] {
      var n, m := |a| - 1, |b| - 1;
      assert forall e | e in b[..m] :: e in b;
      if a[n] == b[m] && Subsequence(a[..n], b[..m]) {
        DistinctSubsequence(a[..n], b[..m]);
        forall i | 0 <= i < n
          ensures a[i].key != a[n].key
        {
          assert a[..n][i] in b[..m];
        }
      } else {
        DistinctSubsequence(a, b[..m]);
      }
    }
  }
}
