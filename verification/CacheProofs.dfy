/** Every answer through the cache is the inner plugin's own, and the entries stay few and in order. */
module CacheProofs {
  import opened Options
  import opened CacheModel

  // ----- keys -----

  /** Ids hold no NUL, so a prefix belongs to one schema. */
  lemma {:induction false} PrefixNamesTheSchema(a: SchemaId, b: SchemaId, text: string)
    requires NoNul(a) && NoNul(b)
    ensures Prefix(a) <= Key(b, text) <==> a == b
  {
    var k := Key(b, text);
    if Prefix(a) <= k {
      assert k[|a|] == Prefix(a)[|a|] == '\0';
      assert k[|b|] == '\0';
      assert forall i | 0 <= i < |a| :: k[i] == Prefix(a)[i] == a[i];
      assert forall i | 0 <= i < |b| :: k[i] == b[i];
      assert |a| == |b|;
      assert a == k[..|a|] == b;
    }
  }

  lemma {:induction false} KeyIsInjective(a: SchemaId, s: string, b: SchemaId, t: string)
    requires NoNul(a) && NoNul(b) && Key(a, s) == Key(b, t)
    ensures a == b && s == t
  {
    assert Prefix(a) <= Key(a, s);
    PrefixNamesTheSchema(a, b, t);
    assert Key(a, s)[|a| + 1..] == s && Key(b, t)[|b| + 1..] == t;
  }

  // ----- invalidation is exact -----

  /** Exactly the touched schemas' entries go, and the others keep their order. */
  lemma {:induction false} InvalidationIsExact(entries: seq<Entry>, schemas: seq<SchemaId>)
    ensures forall e :: e in Invalidated(entries, schemas) <==> e in entries && Untouched(e, schemas)
    ensures Subsequence(Invalidated(entries, schemas), entries)
  {
    if schemas == [] {
      SubsequenceOfItself(entries);
    } else {
      var n := |schemas| - 1;
      var before := Invalidated(entries, schemas[..n]);
      InvalidationIsExact(entries, schemas[..n]);
      DropIsExact(before, schemas[n]);
      SubsequenceChains(Dropped(before, schemas[n]), before, entries);
      forall e
        ensures Untouched(e, schemas) <==> Untouched(e, schemas[..n]) && !(Prefix(schemas[n]) <= e.key)
      {
        UntouchedByOneMore(e, schemas);
      }
    }
  }

  predicate Untouched(e: Entry, schemas: seq<SchemaId>) { forall s | s in schemas :: !(Prefix(s) <= e.key) }

  lemma {:induction false} UntouchedByOneMore(e: Entry, schemas: seq<SchemaId>)
    requires schemas != []
    ensures var n := |schemas| - 1;
      Untouched(e, schemas) <==> Untouched(e, schemas[..n]) && !(Prefix(schemas[n]) <= e.key)
  {
    assert schemas == schemas[..|schemas| - 1] + [schemas[|schemas| - 1]];
  }

  lemma {:induction false} DropIsExact(entries: seq<Entry>, schema: SchemaId)
    ensures forall e :: e in Dropped(entries, schema) <==> e in entries && !(Prefix(schema) <= e.key)
    ensures Subsequence(Dropped(entries, schema), entries)
  {
    if entries != [] {
      var n := |entries| - 1;
      DropIsExact(entries[..n], schema);
      assert entries == entries[..n] + [entries[n]];
      var rest := Dropped(entries[..n], schema);
      if !(Prefix(schema) <= entries[n].key) {
        assert (rest + [entries[n]])[..|rest|] == rest;
      }
    }
  }

  /** One list is another with some elements left out. */
  predicate Subsequence(a: seq<Entry>, b: seq<Entry>) {
    if a == [] then true
    else if b == [] then false
    else if a[|a| - 1] == b[|b| - 1] && Subsequence(a[..|a| - 1], b[..|b| - 1]) then true
    else Subsequence(a, b[..|b| - 1])
  }

  lemma {:induction false} SubsequenceOfItself(a: seq<Entry>)
    ensures Subsequence(a, a)
  {
    if a != [] {
      SubsequenceOfItself(a[..|a| - 1]);
    }
  }

  lemma {:induction false} SubsequenceChains(a: seq<Entry>, b: seq<Entry>, c: seq<Entry>)
    requires Subsequence(a, b) && Subsequence(b, c)
    ensures Subsequence(a, c)
    decreases |b| + |c|
  {
    if a != [] {
      if b[|b| - 1] == c[|c| - 1] && Subsequence(b[..|b| - 1], c[..|c| - 1]) {
        if a[|a| - 1] == b[|b| - 1] && Subsequence(a[..|a| - 1], b[..|b| - 1]) {
          SubsequenceChains(a[..|a| - 1], b[..|b| - 1], c[..|c| - 1]);
        } else {
          SubsequenceChains(a, b[..|b| - 1], c[..|c| - 1]);
        }
      } else {
        SubsequenceChains(a, b, c[..|c| - 1]);
      }
    }
  }

  // ----- what a key finds -----

  lemma {:induction false} GetAfterSet(entries: seq<Entry>, key: string, value: Value, other: string)
    ensures Get(Set(entries, key, value), other) == if other == key then Some(value) else Get(entries, other)
  {
    var stored := Set(entries, key, value);
    var was, now := Position(entries, other), Position(stored, other);
    if other != key {
      assert forall i | 0 <= i < |entries| && entries[i].key == other :: stored[i] == entries[i];
      assert forall i | 0 <= i < |stored| && stored[i].key == other :: i < |entries| && stored[i] == entries[i];
    } else if Position(entries, key).None? {
      assert stored[|entries|] == Entry(key, value);
    } else {
      assert stored[was.value] == Entry(key, value);
    }
  }

  /** Storing finds the new value under its key, and may only lose others. */
  lemma {:induction false} GetAfterStore(entries: seq<Entry>, max: nat, key: string, value: Value, other: string)
    requires max > 0 && value.cloneable && |entries| <= max
    ensures var found := Get(Store(entries, max, key, value), other);
      if other == key then found == Some(value) else found.Some? ==> found == Get(entries, other)
  {
    var stored := Set(entries, key, value);
    GetAfterSet(entries, key, value, other);
    if |stored| > max {
      var at, at' := Position(stored, other), Position(stored[1..], other);
      if at'.Some? {
        assert stored[1..][at'.value] == stored[at'.value + 1];
        assert at == Some(at'.value + 1);
      }
    }
  }

  /** The last entry of a key is what is found. */
  lemma {:induction false} FoundAt(entries: seq<Entry>, key: string, at: nat)
    requires at < |entries| && entries[at].key == key && forall i | at < i < |entries| :: entries[i].key != key
    ensures Get(entries, key) == Some(entries[at].value)
  {
  }

  lemma {:induction false} GetAfterDelete(entries: seq<Entry>, key: string, other: string)
    requires other != key
    ensures Get(Delete(entries, key), other) == Get(entries, other)
  {
    var at := Position(entries, key);
    if at.Some? {
      var left, right := entries[..at.value], entries[at.value + 1..];
      assert entries == left + ([entries[at.value]] + right);
      GetInTwo(left, right, other);
      GetInTwo(left, [entries[at.value]] + right, other);
      GetInTwo([entries[at.value]], right, other);
    }
  }

  /** The right half answers first. */
  lemma {:induction false} GetInTwo(left: seq<Entry>, right: seq<Entry>, key: string)
    ensures Get(left + right, key) == if Get(right, key).Some? then Get(right, key) else Get(left, key)
  {
    var all := left + right;
    var l, r := Position(left, key), Position(right, key);
    if r.Some? {
      FoundAt(all, key, |left| + r.value);
    } else if l.Some? {
      FoundAt(all, key, l.value);
    }
  }

  lemma {:induction false} GetAfterHit(entries: seq<Entry>, key: string, other: string)
    ensures Get(Hit(entries, key), other) == Get(entries, other)
  {
    var found := Get(entries, key);
    if found.Some? {
      GetAfterSet(Delete(entries, key), key, found.value, other);
      if other != key {
        GetAfterDelete(entries, key, other);
      }
    }
  }

  lemma {:induction false} GetAfterDrop(entries: seq<Entry>, schema: SchemaId, key: string)
    ensures Get(Dropped(entries, schema), key) == if Prefix(schema) <= key then None else Get(entries, key)
  {
    if entries != [] {
      var n := |entries| - 1;
      GetAfterDrop(entries[..n], schema, key);
      var rest := Dropped(entries[..n], schema);
      GetOfOneMore(rest, entries[n], key);
      hide Prefix;
    }
  }

  lemma {:induction false} GetOfOneMore(entries: seq<Entry>, last: Entry, key: string)
    ensures Get(entries + [last], key) == if last.key == key then Some(last.value) else Get(entries, key)
  {
    assert (entries + [last])[..|entries|] == entries;
  }

  predicate Touches(schemas: seq<SchemaId>, key: string) { exists s | s in schemas :: Prefix(s) <= key }

  lemma {:induction false} GetAfterInvalidation(entries: seq<Entry>, schemas: seq<SchemaId>, key: string)
    ensures Get(Invalidated(entries, schemas), key) == if Touches(schemas, key) then None else Get(entries, key)
  {
    if schemas != [] {
      var n := |schemas| - 1;
      GetAfterInvalidation(entries, schemas[..n], key);
      GetAfterDrop(Invalidated(entries, schemas[..n]), schemas[n], key);
      assert schemas == schemas[..n] + [schemas[n]];
    }
  }

  // ----- when the cache tells the truth -----

  /** Every query of this description would now be told this answer. */
  ghost predicate SpeaksForAll(inner: Inner, tables: Tables, r: Reading)
    requires r.answer.Some?
  {
    forall query | inner.describe(query) == inner.describe(r.query) ::
      Truth(inner, tables, r.schema, query) == r.answer.value
  }

  /** A commit changes no answer that is cached. */
  ghost predicate ChangesNothingCached(inner: Inner, s: State, tables: Tables) {
    forall schema, query | NoNul(schema) && Get(s.entries, KeyFor(inner, schema, query)).Some? ::
      Truth(inner, tables, schema, query) == Truth(inner, s.tables, schema, query)
  }

  /**
   Only two steps can make the cache tell an untruth, and exactly when: a delivery whose answer
   is kept and would not now be given to every query of its description, and a commit that
   changes an answer still cached.
   */
  lemma {:induction false} StepKeepsTruthfulIff(inner: Inner, max: nat, s: State, step: Step)
    requires max > 0 && |s.entries| <= max && StepOk(s, step) && Truthful(inner, s.tables, s.entries)
    requires step.Deliver? ==> NoNul(s.readers[step.id].schema)
    ensures var s' := Next(inner, max, s, step);
      Truthful(inner, s'.tables, s'.entries) <==>
        match step
        case Deliver(id) => Keepable(s.readers[id].answer.value) ==> SpeaksForAll(inner, s.tables, s.readers[id])
        case Commit(_, tables) => ChangesNothingCached(inner, s, tables)
        case _ => true
  {
    var s' := Next(inner, max, s, step);
    match step {
      case Ask(_, schema, query) =>
        forall key
          ensures Get(s'.entries, key) == Get(s.entries, key)
        {
          GetAfterHit(s.entries, KeyFor(inner, schema, query), key);
        }
      case Look(_) =>
      case Deliver(id) =>
        if Keepable(s.readers[id].answer.value) {
          DeliveryKeepsTruthfulIff(inner, max, s, id);
        }
      case Begin(_, touched) => InvalidationKeepsTruthful(inner, s, touched);
      case Commit(_, tables) => CommitKeepsTruthfulIff(inner, s, tables);
      case End(id) => InvalidationKeepsTruthful(inner, s, s.writes[id].touched);
    }
  }

  lemma {:induction false} CommitKeepsTruthfulIff(inner: Inner, s: State, tables: Tables)
    requires Truthful(inner, s.tables, s.entries)
    ensures Truthful(inner, tables, s.entries) <==> ChangesNothingCached(inner, s, tables)
  {
    forall schema, query | NoNul(schema) && Get(s.entries, KeyFor(inner, schema, query)).Some?
      ensures Get(s.entries, KeyFor(inner, schema, query)) == Truth(inner, s.tables, schema, query)
    {
    }
  }

  lemma {:induction false} DeliveryKeepsTruthfulIff(inner: Inner, max: nat, s: State, id: nat)
    requires max > 0 && |s.entries| <= max && Enabled(s, Deliver(id)) && Truthful(inner, s.tables, s.entries)
    requires Keepable(s.readers[id].answer.value) && NoNul(s.readers[id].schema)
    ensures Truthful(inner, s.tables, Next(inner, max, s, Deliver(id)).entries) <==> SpeaksForAll(inner, s.tables, s.readers[id])
  {
    var r := s.readers[id];
    var key, value := KeyFor(inner, r.schema, r.query), r.answer.value.value;
    var entries := Store(s.entries, max, key, value);
    forall other
      ensures if other == key then Get(entries, other) == Some(value)
              else Get(entries, other).Some? ==> Get(entries, other) == Get(s.entries, other)
    {
      GetAfterStore(s.entries, max, key, value, other);
    }
    if Truthful(inner, s.tables, entries) {
      forall query | inner.describe(query) == inner.describe(r.query)
        ensures Truth(inner, s.tables, r.schema, query) == r.answer.value
      {
        assert KeyFor(inner, r.schema, query) == key;
      }
    }
    if SpeaksForAll(inner, s.tables, r) {
      forall schema, query | NoNul(schema) && Get(entries, KeyFor(inner, schema, query)).Some?
        ensures Get(entries, KeyFor(inner, schema, query)) == Truth(inner, s.tables, schema, query)
      {
        if KeyFor(inner, schema, query) == key {
          KeyIsInjective(schema, inner.describe(query), r.schema, inner.describe(r.query));
        }
      }
    }
  }

  lemma {:induction false} InvalidationKeepsTruthful(inner: Inner, s: State, touched: seq<SchemaId>)
    requires Truthful(inner, s.tables, s.entries)
    ensures Truthful(inner, s.tables, Invalidated(s.entries, touched))
  {
    forall key
      ensures Get(Invalidated(s.entries, touched), key).Some? ==> Get(Invalidated(s.entries, touched), key) == Get(s.entries, key)
    {
      GetAfterInvalidation(s.entries, touched, key);
    }
  }

  // ----- over whole runs -----

  ghost predicate Sound(inner: Inner, max: nat, s: State) {
    && Truthful(inner, s.tables, s.entries) && ReadsCurrent(inner, s.tables, s.readers)
    && |s.entries| <= max
  }

  lemma {:induction false} StepKeepsSound(inner: Inner, max: nat, s: State, step: Step)
    requires max > 0 && SharingIsHarmless(inner) && Sound(inner, max, s) && StepOk(s, step) && Quiet(s, step)
    ensures Sound(inner, max, Next(inner, max, s, step))
  {
    if step.Commit? {
      assert s.entries == Next(inner, max, s, step).entries;
      QuietCommitChangesNothingCached(inner, s, step.id, step.tables);
    }
    StepKeepsTruthfulIff(inner, max, s, step);
    StepKeepsSize(inner, max, s, step);
  }

  lemma {:induction false} QuietCommitChangesNothingCached(inner: Inner, s: State, id: nat, tables: Tables)
    requires id in s.writes && NothingCached(s.entries, s.writes[id].touched) && WritesOnly(s, id, tables)
    ensures ChangesNothingCached(inner, s, tables)
  {
    forall schema, query | NoNul(schema) && Get(s.entries, KeyFor(inner, schema, query)).Some?
      ensures Truth(inner, tables, schema, query) == Truth(inner, s.tables, schema, query)
    {
      var at := Position(s.entries, KeyFor(inner, schema, query));
      assert s.entries[at.value] in s.entries && Prefix(schema) <= s.entries[at.value].key;
      assert schema !in s.writes[id].touched;
    }
  }

  lemma {:induction false} StepKeepsSize(inner: Inner, max: nat, s: State, step: Step)
    requires max > 0 && |s.entries| <= max && Enabled(s, step)
    ensures |Next(inner, max, s, step).entries| <= max
  {
    match step {
      case Begin(id, touched) =>
        InvalidationIsExact(s.entries, touched);
        NoLonger(Invalidated(s.entries, touched), s.entries);
      case End(id) =>
        InvalidationIsExact(s.entries, s.writes[id].touched);
        NoLonger(Invalidated(s.entries, s.writes[id].touched), s.entries);
      case _ =>
    }
  }

  lemma {:induction false} RunKeepsSound(inner: Inner, max: nat, steps: seq<Step>)
    requires max > 0 && SharingIsHarmless(inner) && RunOk(inner, max, EMPTY, steps)
    ensures Run(inner, max, EMPTY, steps).Some? && Sound(inner, max, Run(inner, max, EMPTY, steps).value)
  {
    if steps != [] {
      var n := |steps| - 1;
      RunKeepsSound(inner, max, steps[..n]);
      StepKeepsSound(inner, max, Run(inner, max, EMPTY, steps[..n]).value, steps[n]);
    }
  }

  /**
   The main result: after every run in which no answer is kept that a commit overtook, or that
   came between a write's begin and its commit, a hit is told what the inner plugin would say at
   that moment, and so is a miss, unless a commit overtook it: then it is told what it was answered.
   */
  lemma {:induction false} CacheIsInvisible(inner: Inner, max: nat, run: seq<Step>, step: Step)
    requires max > 0 && SharingIsHarmless(inner) && RunOk(inner, max, EMPTY, run)
    requires Run(inner, max, EMPTY, run).Some? && StepOk(Run(inner, max, EMPTY, run).value, step)
    ensures var s := Run(inner, max, EMPTY, run).value;
      match step
      case Ask(_, schema, query) => Told(inner, max, s, step) in {None, Some(Truth(inner, s.tables, schema, query))}
      case Deliver(id) =>
        var r := s.readers[id];
        Quiet(s, step) ==>
          || Told(inner, max, s, step) == Some(Truth(inner, s.tables, r.schema, r.query))
          || (r.overtaken && Told(inner, max, s, step) == r.answer)
      case _ => Told(inner, max, s, step) == None
  {
    RunKeepsSound(inner, max, run);
    var s := Run(inner, max, EMPTY, run).value;
    if step.Deliver? && Keepable(s.readers[step.id].answer.value) {
      var r := s.readers[step.id];
      GetAfterStore(s.entries, max, KeyFor(inner, r.schema, r.query), r.answer.value.value, KeyFor(inner, r.schema, r.query));
    }
  }

  // ----- size and order -----

  predicate DistinctKeys(entries: seq<Entry>) {
    forall i, j | 0 <= i < j < |entries| :: entries[i].key != entries[j].key
  }

  /** The keys used so far, oldest first: a hit and a store are uses. */
  function LastUse(uses: seq<string>, key: string): int {
    if uses == [] then -1
    else if uses[|uses| - 1] == key then |uses| - 1
    else LastUse(uses[..|uses| - 1], key)
  }

  predicate InOrder(entries: seq<Entry>, uses: seq<string>) {
    && (forall i | 0 <= i < |entries| :: LastUse(uses, entries[i].key) >= 0)
    && (forall i, j | 0 <= i < j < |entries| :: LastUse(uses, entries[i].key) < LastUse(uses, entries[j].key))
  }

  predicate Tidy(entries: seq<Entry>, max: nat, uses: seq<string>) {
    |entries| <= max && InOrder(entries, uses)
  }

  lemma {:induction false} UseOne(uses: seq<string>, key: string, other: string)
    ensures LastUse(uses + [key], key) == |uses|
    ensures other != key ==> LastUse(uses + [key], other) == LastUse(uses, other)
    ensures LastUse(uses, other) < |uses|
  {
    assert (uses + [key])[..|uses|] == uses;
    Bounded(uses, other);
  }

  lemma {:induction false} Bounded(uses: seq<string>, key: string)
    ensures LastUse(uses, key) < |uses|
  {
    if uses != [] {
      Bounded(uses[..|uses| - 1], key);
    }
  }

  lemma {:induction false} AppendIsTidy(entries: seq<Entry>, uses: seq<string>, key: string, value: Value)
    requires DistinctKeys(entries) && InOrder(entries, uses) && forall i | 0 <= i < |entries| :: entries[i].key != key
    ensures DistinctKeys(entries + [Entry(key, value)]) && InOrder(entries + [Entry(key, value)], uses + [key])
  {
    forall i | 0 <= i < |entries|
      ensures LastUse(uses + [key], entries[i].key) == LastUse(uses, entries[i].key) < |uses|
    {
      UseOne(uses, key, entries[i].key);
    }
    UseOne(uses, key, key);
  }

  lemma {:induction false} DeleteIsTidy(entries: seq<Entry>, max: nat, uses: seq<string>, key: string)
    requires Tidy(entries, max, uses)
    ensures Tidy(Delete(entries, key), max, uses) && forall i | 0 <= i < |Delete(entries, key)| :: Delete(entries, key)[i].key != key
  {
    var at := Position(entries, key);
    if at.Some? {
      DeletedAt(entries, at.value);
      SubsequenceIsTidy(Delete(entries, key), entries, max, uses);
    }
  }

  lemma {:induction false} DeletedAt(entries: seq<Entry>, at: nat)
    requires at < |entries|
    ensures var r := entries[..at] + entries[at + 1..];
      && Subsequence(r, entries)
      && (DistinctKeys(entries) ==> forall i | 0 <= i < |r| :: r[i].key != entries[at].key)
  {
    var n := |entries| - 1;
    var r := entries[..at] + entries[at + 1..];
    if at == n {
      assert r == entries[..n];
      SubsequenceOfItself(r);
    } else {
      DeletedAt(entries[..n], at);
      assert r[..|r| - 1] == entries[..n][..at] + entries[..n][at + 1..];
    }
    forall i | 0 <= i < |r|
      ensures r[i] == entries[Shifted(i, at)]
    {
    }
  }

  function Shifted(i: int, at: int): int { if i < at then i else i + 1 }

  /** A hit moves its entry behind all others and changes nothing else. */
  lemma {:induction false} HitIsTidy(entries: seq<Entry>, max: nat, uses: seq<string>, key: string)
    requires Tidy(entries, max, uses) && Get(entries, key).Some?
    ensures Tidy(Hit(entries, key), max, uses + [key]) && |Hit(entries, key)| == |entries|
    ensures Get(Hit(entries, key), key) == Get(entries, key)
  {
    var value := Get(entries, key).value;
    DeleteIsTidy(entries, max, uses, key);
    assert Position(Delete(entries, key), key).None?;
    AppendIsTidy(Delete(entries, key), uses, key, value);
  }

  /** A store of a new key evicts, when the cache is full, the entry used longest ago. */
  lemma {:induction false} StoreIsTidy(entries: seq<Entry>, max: nat, uses: seq<string>, key: string, value: Value)
    requires Tidy(entries, max, uses) && max > 0 && value.cloneable && Get(entries, key).None?
    ensures Tidy(Store(entries, max, key, value), max, uses + [key])
    ensures Store(entries, max, key, value) == (if |entries| == max then entries[1..] else entries) + [Entry(key, value)]
    ensures |entries| == max ==> forall i | 0 < i < |entries| :: LastUse(uses, entries[0].key) < LastUse(uses, entries[i].key)
  {
    assert Position(entries, key).None?;
    AppendIsTidy(entries, uses, key, value);
    var stored := entries + [Entry(key, value)];
    if |stored| > max {
      assert stored[1..] == entries[1..] + [Entry(key, value)];
    }
  }

  lemma {:induction false} SubsequenceIsTidy(a: seq<Entry>, b: seq<Entry>, max: nat, uses: seq<string>)
    requires Subsequence(a, b) && Tidy(b, max, uses)
    ensures Tidy(a, max, uses) && forall e | e in a :: e in b
  {
    if a != [] {
      var n, m := |a| - 1, |b| - 1;
      assert forall e | e in b[..m] :: e in b;
      if a[n] == b[m] && Subsequence(a[..n], b[..m]) {
        SubsequenceIsTidy(a[..n], b[..m], max, uses);
        forall i | 0 <= i < n
          ensures a[i].key != a[n].key && LastUse(uses, a[i].key) < LastUse(uses, a[n].key)
        {
          assert a[..n][i] in b[..m];
        }
        assert |a[..n]| <= |b[..m]| by {
          NoLonger(a[..n], b[..m]);
        }
      } else {
        SubsequenceIsTidy(a, b[..m], max, uses);
      }
    }
  }

  lemma {:induction false} NoLonger(a: seq<Entry>, b: seq<Entry>)
    requires Subsequence(a, b)
    ensures |a| <= |b|
  {
    if a != [] {
      if a[|a| - 1] == b[|b| - 1] && Subsequence(a[..|a| - 1], b[..|b| - 1]) {
        NoLonger(a[..|a| - 1], b[..|b| - 1]);
      } else {
        NoLonger(a, b[..|b| - 1]);
      }
    }
  }

  /**
   Two misses of one query side by side: the second result takes the first one's place in the
   queue, which is the place of its last use exactly when nothing was used in between.
   */
  lemma {:induction false} TwinKeepsOrderIff(entries: seq<Entry>, max: nat, uses: seq<string>, key: string, value: Value)
    requires Tidy(entries, max, uses) && Get(entries, key).Some? && value.cloneable
    ensures Tidy(Store(entries, max, key, value), max, uses + [key]) <==> Position(entries, key) == Some(|entries| - 1)
  {
    var at := Position(entries, key).value;
    var stored := Store(entries, max, key, value);
    assert stored == entries[at := Entry(key, value)];
    forall other
      ensures LastUse(uses + [key], other) == if other == key then |uses| else LastUse(uses, other)
      ensures LastUse(uses, other) < |uses|
    {
      UseOne(uses, key, other);
    }
    if at < |entries| - 1 {
      assert stored[at + 1] == entries[at + 1];
      assert LastUse(uses + [key], stored[at].key) > LastUse(uses + [key], stored[at + 1].key);
    } else {
      forall i | 0 <= i < at
        ensures LastUse(uses + [key], stored[i].key) == LastUse(uses, entries[i].key)
      {
        assert LastUse(uses, entries[i].key) < LastUse(uses, entries[at].key);
      }
    }
  }

  /** What a step uses. */
  function Used(inner: Inner, s: State, step: Step): seq<string>
    requires Enabled(s, step)
  {
    match step
    case Ask(_, schema, query) => if Get(s.entries, KeyFor(inner, schema, query)).Some? then [KeyFor(inner, schema, query)] else []
    case Deliver(id) =>
      var r := s.readers[id];
      if Keepable(r.answer.value) then [KeyFor(inner, r.schema, r.query)] else []
    case _ => []
  }

  /** A second miss of one query is delivered after something else was used. */
  predicate LateTwin(inner: Inner, s: State, step: Step)
    requires Enabled(s, step)
  {
    && step.Deliver? && Keepable(s.readers[step.id].answer.value)
    && var at := Position(s.entries, KeyFor(inner, s.readers[step.id].schema, s.readers[step.id].query));
    at.Some? && at.value != |s.entries| - 1
  }

  /** Only a late twin disturbs the order of use, and every late twin does. */
  lemma {:induction false} StepKeepsTidyIff(inner: Inner, max: nat, s: State, step: Step, uses: seq<string>)
    requires Enabled(s, step) && max > 0 && Tidy(s.entries, max, uses)
    ensures Tidy(Next(inner, max, s, step).entries, max, uses + Used(inner, s, step)) <==> !LateTwin(inner, s, step)
  {
    assert uses + [] == uses;
    match step {
      case Ask(id, schema, query) =>
        if Get(s.entries, KeyFor(inner, schema, query)).Some? {
          HitIsTidy(s.entries, max, uses, KeyFor(inner, schema, query));
        }
      case Look(id) =>
      case Deliver(id) =>
        var r := s.readers[id];
        if Keepable(r.answer.value) {
          var key, value := KeyFor(inner, r.schema, r.query), r.answer.value.value;
          if Get(s.entries, key).Some? {
            TwinKeepsOrderIff(s.entries, max, uses, key, value);
          } else {
            StoreIsTidy(s.entries, max, uses, key, value);
          }
        }
      case Begin(id, touched) =>
        InvalidationIsExact(s.entries, touched);
        SubsequenceIsTidy(Invalidated(s.entries, touched), s.entries, max, uses);
      case Commit(id, tables) =>
      case End(id) =>
        InvalidationIsExact(s.entries, s.writes[id].touched);
        SubsequenceIsTidy(Invalidated(s.entries, s.writes[id].touched), s.entries, max, uses);
    }
  }

  /** The keys a run used, oldest first. */
  function UsesOf(inner: Inner, max: nat, steps: seq<Step>): seq<string>
    requires Run(inner, max, EMPTY, steps).Some?
  {
    if steps == [] then []
    else
      var n := |steps| - 1;
      UsesOf(inner, max, steps[..n]) + Used(inner, Run(inner, max, EMPTY, steps[..n]).value, steps[n])
  }

  predicate NoLateTwins(inner: Inner, max: nat, steps: seq<Step>)
    requires Run(inner, max, EMPTY, steps).Some?
  {
    steps != [] ==>
      var n := |steps| - 1;
      NoLateTwins(inner, max, steps[..n]) && !LateTwin(inner, Run(inner, max, EMPTY, steps[..n]).value, steps[n])
  }

  /** Over every run without late twins the entries stand in the order of their last use, each once. */
  lemma {:induction false} EntriesStandInOrderOfUse(inner: Inner, max: nat, steps: seq<Step>)
    requires max > 0 && Run(inner, max, EMPTY, steps).Some? && NoLateTwins(inner, max, steps)
    ensures Tidy(Run(inner, max, EMPTY, steps).value.entries, max, UsesOf(inner, max, steps))
  {
    if steps != [] {
      var n := |steps| - 1;
      EntriesStandInOrderOfUse(inner, max, steps[..n]);
      StepKeepsTidyIff(inner, max, Run(inner, max, EMPTY, steps[..n]).value, steps[n], UsesOf(inner, max, steps[..n]));
    }
  }

  /** Over every run the cache holds at most `max` results, even with twin misses. */
  lemma {:induction false} NeverTooMany(inner: Inner, max: nat, steps: seq<Step>)
    requires max > 0 && Run(inner, max, EMPTY, steps).Some?
    ensures |Run(inner, max, EMPTY, steps).value.entries| <= max
  {
    if steps != [] {
      var n := |steps| - 1;
      NeverTooMany(inner, max, steps[..n]);
      StepKeepsSize(inner, max, Run(inner, max, EMPTY, steps[..n]).value, steps[n]);
    }
  }

  // ----- the runs the conditions exclude -----

  /** The run ends with the query's next read a hit that tells what the inner plugin no longer says. */
  ghost predicate StaleAfter(inner: Inner, max: nat, start: State, steps: seq<Step>, schema: SchemaId, query: Query) {
    var s := Run(inner, max, start, steps);
    && s.Some? && Get(s.value.entries, KeyFor(inner, schema, query)).Some?
    && Get(s.value.entries, KeyFor(inner, schema, query)) != Truth(inner, s.value.tables, schema, query)
  }

  /** A read that looked before a write and is delivered after it leaves a stale entry, and the next read is told it. */
  lemma {:induction false} OverlapServesStale(inner: Inner, max: nat, schema: SchemaId, query: Query, before: string, after: string)
    requires max > 0 && Keepable(inner.answer(before, query)) && inner.answer(after, query) != inner.answer(before, query)
    ensures var start := State([], map[schema := before], map[], map[]);
      var steps := [Ask(0, schema, query), Look(0), Begin(1, [schema])] + [Commit(1, map[schema := after]), End(1), Deliver(0)];
      StaleAfter(inner, max, start, steps, schema, query)
  {
    var start := State([], map[schema := before], map[], map[]);
    var v := inner.answer(before, query);
    var begun := State([], map[schema := before], map[0 := Reading(schema, query, Some(v), false)], map[1 := Writing([schema])]);
    var looking := [Ask(0, schema, query), Look(0), Begin(1, [schema])];
    var writing := [Commit(1, map[schema := after]), End(1), Deliver(0)];
    LooksThenBegins(inner, max, schema, query, before);
    WritesThenDelivers(inner, max, schema, query, before, after, v);
    RunJoins(inner, max, start, looking, writing, begun);
  }

  lemma {:induction false} LooksThenBegins(inner: Inner, max: nat, schema: SchemaId, query: Query, before: string)
    ensures var start := State([], map[schema := before], map[], map[]);
      Run(inner, max, start, [Ask(0, schema, query), Look(0), Begin(1, [schema])]) ==
        Some(start.(readers := map[0 := Reading(schema, query, Some(inner.answer(before, query)), false)],
                    writes := map[1 := Writing([schema])]))
  {
    var start := State([], map[schema := before], map[], map[]);
    NothingToInvalidate(schema);
    var asked := start.(readers := map[0 := Reading(schema, query, None, false)]);
    var looked := start.(readers := map[0 := Reading(schema, query, Some(inner.answer(before, query)), false)]);
    RunThree(inner, max, start, Ask(0, schema, query), Look(0), Begin(1, [schema]), asked, looked);
  }

  lemma {:induction false} WritesThenDelivers(inner: Inner, max: nat, schema: SchemaId, query: Query, before: string, after: string,
                                              v: Option<Value>)
    requires max > 0 && Keepable(v)
    ensures var begun := State([], map[schema := before], map[0 := Reading(schema, query, Some(v), false)], map[1 := Writing([schema])]);
      Run(inner, max, begun, [Commit(1, map[schema := after]), End(1), Deliver(0)]) ==
        Some(State([Entry(KeyFor(inner, schema, query), v.value)], map[schema := after], map[], map[]))
  {
    var begun := State([], map[schema := before], map[0 := Reading(schema, query, Some(v), false)], map[1 := Writing([schema])]);
    NothingToInvalidate(schema);
    var written := begun.(tables := map[schema := after], readers := map[0 := Reading(schema, query, Some(v), true)]);
    var ended := written.(writes := map[]);
    RunThree(inner, max, begun, Commit(1, map[schema := after]), End(1), Deliver(0), written, ended);
    assert Next(inner, max, ended, Deliver(0)) ==
      State([Entry(KeyFor(inner, schema, query), v.value)], map[schema := after], map[], map[]);
  }

  /** So does a read answered between a write's begin and its commit, until the write ends. */
  lemma {:induction false} ReadBeforeTheCommitServesStale(inner: Inner, max: nat, schema: SchemaId, query: Query, before: string, after: string)
    requires max > 0 && Keepable(inner.answer(before, query)) && inner.answer(after, query) != inner.answer(before, query)
    ensures var start := State([], map[schema := before], map[], map[]);
      var steps := [Begin(1, [schema]), Ask(0, schema, query), Look(0)] + [Deliver(0), Commit(1, map[schema := after])];
      StaleAfter(inner, max, start, steps, schema, query)
  {
    var start := State([], map[schema := before], map[], map[]);
    NothingToInvalidate(schema);
    var v := inner.answer(before, query);
    var begun := start.(writes := map[1 := Writing([schema])]);
    var asked := begun.(readers := map[0 := Reading(schema, query, None, false)]);
    var looked := begun.(readers := map[0 := Reading(schema, query, Some(v), false)]);
    RunThree(inner, max, start, Begin(1, [schema]), Ask(0, schema, query), Look(0), begun, asked);
    assert Next(inner, max, asked, Look(0)) == looked;
    var cached := begun.(entries := [Entry(KeyFor(inner, schema, query), v.value)]);
    RunOne(inner, max, looked, [], Deliver(0), looked, cached);
    RunOne(inner, max, looked, [] + [Deliver(0)], Commit(1, map[schema := after]), cached, cached.(tables := map[schema := after]));
    assert [] + [Deliver(0)] + [Commit(1, map[schema := after])] == [Deliver(0), Commit(1, map[schema := after])];
    RunJoins(inner, max, start, [Begin(1, [schema]), Ask(0, schema, query), Look(0)],
             [Deliver(0), Commit(1, map[schema := after])], looked);
  }

  /** Two queries of one description with different answers: the second is told the first one's. */
  lemma {:induction false} SharedDescriptionServesAnother(inner: Inner, max: nat, schema: SchemaId, table: string, p: Query, q: Query)
    requires max > 0 && inner.describe(p) == inner.describe(q)
    requires Keepable(inner.answer(table, p)) && inner.answer(table, q) != inner.answer(table, p)
    ensures StaleAfter(inner, max, State([], map[schema := table], map[], map[]), [Ask(0, schema, p), Look(0), Deliver(0)], schema, q)
  {
    var start := State([], map[schema := table], map[], map[]);
    var v := inner.answer(table, p);
    var asked := start.(readers := map[0 := Reading(schema, p, None, false)]);
    var looked := start.(readers := map[0 := Reading(schema, p, Some(v), false)]);
    RunThree(inner, max, start, Ask(0, schema, p), Look(0), Deliver(0), asked, looked);
  }

  lemma {:induction false} NothingToInvalidate(schema: SchemaId)
    ensures Invalidated([], [schema]) == []
  {
    assert [schema][..0] == [];
  }

  lemma {:induction false} RunJoins(inner: Inner, max: nat, start: State, first: seq<Step>, rest: seq<Step>, mid: State)
    requires Run(inner, max, start, first) == Some(mid)
    ensures Run(inner, max, start, first + rest) == Run(inner, max, mid, rest)
  {
    hide Next, Enabled;
    if rest == [] {
      assert first + rest == first;
    } else {
      var n := |rest| - 1;
      RunJoins(inner, max, start, first, rest[..n], mid);
      assert (first + rest)[..|first| + n] == first + rest[..n];
    }
  }

  lemma {:induction false} RunThree(inner: Inner, max: nat, start: State, a: Step, b: Step, c: Step, s: State, s': State)
    requires Enabled(start, a) && Next(inner, max, start, a) == s
    requires Enabled(s, b) && Next(inner, max, s, b) == s' && Enabled(s', c)
    ensures Run(inner, max, start, [a, b, c]) == Some(Next(inner, max, s', c))
  {
    hide Next, Enabled;
    RunOne(inner, max, start, [], a, start, s);
    RunOne(inner, max, start, [] + [a], b, s, s');
    RunOne(inner, max, start, [] + [a] + [b], c, s', Next(inner, max, s', c));
    assert [] + [a] + [b] + [c] == [a, b, c];
  }

  lemma {:induction false} RunOne(inner: Inner, max: nat, start: State, steps: seq<Step>, step: Step, s: State, s': State)
    requires Run(inner, max, start, steps) == Some(s) && Enabled(s, step) && Next(inner, max, s, step) == s'
    ensures Run(inner, max, start, steps + [step]) == Some(s')
  {
    assert (steps + [step])[..|steps|] == steps;
  }
}
