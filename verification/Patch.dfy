/**
 Pending updates as patches: `applyPatch`, `diff` and the accumulation of patches in
 datastore/src/change-tracking/ImmutableUpdates.ts. Arrays are references replaced whole, dates
 compare by instant, and every other object is a map from property to value.
 */
module Patch {
  import opened Options

  datatype Value =
    | Undefined
    | Null
    | Scalar(text: string)
    | Date(time: int)
    | ArrayRef(ref: nat)
    | Object(fields: map<string, Value>)

  type Fields = map<string, Value>

  predicate IsOpaque(v: Value) { !v.Object? }

  function Read(o: Fields, k: string): Value { if k in o then o[k] else Undefined }

  // ----- the two operations -----

  function ApplyPatch(base: Fields, patch: Fields): (r: Fields)
    ensures r.Keys == base.Keys + patch.Keys
    decreases Object(patch), 0
  {
    map k | k in base.Keys + patch.Keys :: if k in patch then Merge(Read(base, k), patch[k]) else base[k]
  }

  function Merge(existing: Value, incoming: Value): (r: Value)
    ensures IsOpaque(r) <==> IsOpaque(incoming)
    decreases incoming, 1
  {
    if IsOpaque(incoming) || IsOpaque(existing) then incoming
    else Object(ApplyPatch(existing.fields, incoming.fields))
  }

  function Diff(base: Fields, next: Fields): Fields
    decreases Object(next), 0
  {
    map k | k in next && DiffAt(Read(base, k), next[k]).Some? :: DiffAt(Read(base, k), next[k]).value
  }

  /**
   Dates are equal at equal instants. Two references to one object are skipped without a look
   inside; that agrees with looking, by `DiffOfItselfIsEmpty`.
   */
  function DiffAt(before: Value, after: Value): Option<Value>
    decreases after, 1
  {
    if IsOpaque(before) || IsOpaque(after) then
      if before == after then None else Some(after)
    else
      var nested := Diff(before.fields, after.fields);
      if |nested| > 0 then Some(Object(nested)) else None
  }

  lemma {:induction false} PatchedAt(base: Fields, patch: Fields, k: string)
    ensures k in patch ==> ApplyPatch(base, patch)[k] == Merge(Read(base, k), patch[k])
    ensures k in base && k !in patch ==> ApplyPatch(base, patch)[k] == base[k]
  {
  }

  // ----- diff, then patch -----

  /** `n` keeps every key of `b`, and no new key of `n` is undefined, at every depth they share. */
  predicate Keeps(b: Fields, n: Fields)
    decreases Object(n), 0
  {
    && (forall k | k in b :: k in n)
    && (forall k | k in n && k !in b :: n[k] != Undefined)
    && (forall k | k in n && k in b :: KeepsAt(b[k], n[k]))
  }

  predicate KeepsAt(b: Value, n: Value)
    decreases n, 1
  {
    b.Object? && n.Object? ==> Keeps(b.fields, n.fields)
  }

  /** The delta of a change rebuilds it exactly when the change only adds to the shape it found. */
  lemma {:induction false} DiffRebuildsIff(b: Fields, n: Fields)
    ensures ApplyPatch(b, Diff(b, n)) == n <==> Keeps(b, n)
    decreases Object(n), 0
  {
    var r := ApplyPatch(b, Diff(b, n));
    forall k | k in n
      ensures k in b ==> k in r && (r[k] == n[k] <==> KeepsAt(b[k], n[k]))
      ensures k !in b ==> ((k in r && r[k] == n[k]) <==> n[k] != Undefined)
    {
      DiffRebuildsAt(Read(b, k), n[k]);
    }
    if Keeps(b, n) {
      assert r.Keys == n.Keys;
    } else if r == n {
      assert forall k | k in b :: k in r;
      assert false;
    }
  }

  lemma {:induction false} DiffRebuildsAt(b: Value, n: Value)
    ensures var d := DiffAt(b, n);
      (if d.Some? then Merge(b, d.value) else b) == n <==> KeepsAt(b, n)
    decreases n, 1
  {
    if b.Object? && n.Object? {
      DiffRebuildsIff(b.fields, n.fields);
      var nested := Diff(b.fields, n.fields);
      if |nested| == 0 {
        assert nested == map[];
        assert ApplyPatch(b.fields, nested) == b.fields;
      }
    }
  }

  /** Nothing is reported exactly when nothing changed, as long as the shape was kept. */
  lemma {:induction false} DiffIsEmptyIff(b: Fields, n: Fields)
    requires Keeps(b, n)
    ensures Diff(b, n) == map[] <==> b == n
  {
    DiffRebuildsIff(b, n);
    if Diff(b, n) == map[] {
      assert ApplyPatch(b, map[]) == b;
    }
    DiffOfItselfIsEmpty(b);
  }

  lemma {:induction false} DiffOfItselfIsEmpty(b: Fields)
    ensures Diff(b, b) == map[]
    decreases Object(b), 0
  {
    forall k | k in b
      ensures DiffAt(b[k], b[k]).None?
    {
      if b[k].Object? {
        DiffOfItselfIsEmpty(b[k].fields);
      }
    }
  }

  /** An updater that drops a key is not seen: the stored key survives. */
  lemma {:induction false} DroppedKeyIsNotSeen(b: Fields, n: Fields, k: string)
    requires k in b && k !in n
    ensures k !in Diff(b, n) && ApplyPatch(b, Diff(b, n)) != n
  {
    DiffRebuildsIff(b, n);
  }

  // ----- patch twice -----

  lemma {:induction false} SelfPatch(p: Fields)
    ensures ApplyPatch(p, p) == p
    decreases Object(p), 0
  {
    forall k | k in p
      ensures Merge(p[k], p[k]) == p[k]
    {
      if p[k].Object? {
        SelfPatch(p[k].fields);
      }
    }
  }

  lemma {:induction false} PatchIsIdempotent(b: Fields, p: Fields)
    ensures ApplyPatch(ApplyPatch(b, p), p) == ApplyPatch(b, p)
    decreases Object(p), 0
  {
    forall k | k in p
      ensures Merge(Merge(Read(b, k), p[k]), p[k]) == Merge(Read(b, k), p[k])
    {
      if p[k].Object? {
        if Read(b, k).Object? {
          PatchIsIdempotent(b[k].fields, p[k].fields);
        } else {
          SelfPatch(p[k].fields);
        }
      }
    }
    assert ApplyPatch(ApplyPatch(b, p), p).Keys == ApplyPatch(b, p).Keys;
  }

  /** `q` names every key of `b`, at every depth where both hold objects. */
  predicate Covers(b: Fields, q: Fields)
    decreases Object(q), 0
  {
    && (forall k | k in b :: k in q)
    && (forall k | k in b && k in q && b[k].Object? && q[k].Object? :: Covers(b[k].fields, q[k].fields))
  }

  lemma {:induction false} PatchReplacesIff(b: Fields, q: Fields)
    ensures ApplyPatch(b, q) == q <==> Covers(b, q)
    decreases Object(q), 0
  {
    var r := ApplyPatch(b, q);
    forall k | k in b && k in q && b[k].Object? && q[k].Object?
      ensures r[k] == q[k] <==> Covers(b[k].fields, q[k].fields)
    {
      PatchReplacesIff(b[k].fields, q[k].fields);
      PatchedAt(b, q, k);
      assert r[k] == Object(ApplyPatch(b[k].fields, q[k].fields)) && q[k] == Object(q[k].fields);
    }
    if Covers(b, q) {
      assert r.Keys == q.Keys;
      forall k | k in q
        ensures r[k] == q[k]
      {
        PatchedAt(b, q, k);
      }
    } else if r == q {
      assert forall k | k in b :: k in r;
      assert false;
    }
  }

  /** No property goes from an object through a plain value to an object that forgets some of its keys. */
  predicate Composes(b: Fields, p: Fields, q: Fields)
    decreases Object(q), 0
  {
    forall k | k in b && k in p && k in q && b[k].Object? && q[k].Object? ::
      if p[k].Object? then Composes(b[k].fields, p[k].fields, q[k].fields) else Covers(b[k].fields, q[k].fields)
  }

  /** Accumulated patches say what the patches one by one say, exactly under `Composes`. */
  lemma {:induction false} PatchesComposeIff(b: Fields, p: Fields, q: Fields)
    ensures ApplyPatch(ApplyPatch(b, p), q) == ApplyPatch(b, ApplyPatch(p, q)) <==> Composes(b, p, q)
    decreases Object(q), 0
  {
    var l := ApplyPatch(ApplyPatch(b, p), q);
    var r := ApplyPatch(b, ApplyPatch(p, q));
    assert l.Keys == r.Keys;
    forall k | k in l
      ensures l[k] == r[k] <==> (k in b && k in p && k in q && b[k].Object? && q[k].Object? ==>
        if p[k].Object? then Composes(b[k].fields, p[k].fields, q[k].fields) else Covers(b[k].fields, q[k].fields))
    {
      PatchedAt(b, p, k);
      PatchedAt(p, q, k);
      PatchedAt(ApplyPatch(b, p), q, k);
      PatchedAt(b, ApplyPatch(p, q), k);
      if k in b && k in p && k in q && b[k].Object? && q[k].Object? {
        var x, y, z := b[k].fields, p[k], q[k].fields;
        assert l[k] == Merge(Merge(b[k], y), q[k]) && r[k] == Merge(b[k], Merge(y, q[k]));
        if y.Object? {
          PatchesComposeIff(x, y.fields, z);
          assert l[k] == Object(ApplyPatch(ApplyPatch(x, y.fields), z));
          assert r[k] == Object(ApplyPatch(x, ApplyPatch(y.fields, z)));
        } else {
          PatchReplacesIff(x, z);
          assert l[k] == Object(z) && r[k] == Object(ApplyPatch(x, z));
        }
      } else {
        assert l[k] == r[k];
      }
    }
    if l == r {
      assert Composes(b, p, q);
    } else if Composes(b, p, q) {
      assert forall k | k in l :: l[k] == r[k];
      assert false;
    }
  }

  /** An object replaced by null and then by another object: the accumulated patch brings old keys back. */
  lemma {:induction false} ObjectThroughNullComesBack(old_: Fields, k: string, j: string)
    requires j in old_
    ensures var b: Fields := map[k := Object(old_)];
      var p: Fields := map[k := Null];
      var q: Fields := map[k := Object(map[])];
      && ApplyPatch(ApplyPatch(b, p), q)[k] == Object(map[])
      && j in ApplyPatch(b, ApplyPatch(p, q))[k].fields
  {
  }

  // ----- pending updates -----

  datatype Pending = Pending(original: Fields, current: Fields, patch: Fields)

  datatype Recipe = Partial(patch: Fields) | Updater(f: Fields -> Fields)

  function Next(base: Fields, recipe: Recipe): Fields {
    match recipe
    case Partial(p) => ApplyPatch(base, p)
    case Updater(f) => f(base)
  }

  function Delta(base: Fields, recipe: Recipe): Fields {
    match recipe
    case Partial(p) => p
    case Updater(f) => Diff(base, f(base))
  }

  function Base(pending: Option<Pending>, attached: Option<Fields>): Option<Fields> {
    if pending.Some? then Some(pending.value.current) else attached
  }

  /** None when the row is neither pending nor attached: the source raises an error. */
  function Updated(pending: Option<Pending>, recipe: Recipe, attached: Option<Fields>): Option<Pending> {
    var base := Base(pending, attached);
    if base.None? then None
    else if pending.None? then
      Some(Pending(base.value, Next(base.value, recipe), Delta(base.value, recipe)))
    else
      Some(Pending(pending.value.original, Next(base.value, recipe), ApplyPatch(pending.value.patch, Delta(base.value, recipe))))
  }

  /** Root keys the patch does not name are as they were. */
  ghost predicate RootsAgree(u: Pending) {
    forall k | k !in u.patch :: (k in u.original <==> k in u.current) && Read(u.original, k) == Read(u.current, k)
  }

  predicate ShapeKept(base: Fields, recipe: Recipe) {
    recipe.Updater? ==> Keeps(base, recipe.f(base))
  }

  lemma {:induction false} UpdateKeepsRoots(pending: Option<Pending>, recipe: Recipe, attached: Option<Fields>)
    requires pending.Some? ==> RootsAgree(pending.value)
    requires Base(pending, attached).Some? ==> ShapeKept(Base(pending, attached).value, recipe)
    ensures var r := Updated(pending, recipe, attached);
      r.Some? ==> RootsAgree(r.value) && OverlaySuffices(r.value)
  {
    var base := Base(pending, attached);
    if base.Some? {
      OneRecipe(base.value, recipe);
      var r := Updated(pending, recipe, attached).value;
      forall k | k !in r.patch
        ensures (k in r.original <==> k in r.current) && Read(r.original, k) == Read(r.current, k)
      {
        assert k !in Delta(base.value, recipe);
      }
      AgreeingRootsSuffice(r);
    }
  }

  lemma {:induction false} AgreeingRootsSuffice(u: Pending)
    requires RootsAgree(u)
    ensures OverlaySuffices(u)
  {
    var o := Overlay(u);
    forall k
      ensures (k in o <==> k in u.current) && (k in o ==> o[k] == u.current[k])
    {
      assert k !in u.patch ==> Read(u.original, k) == Read(u.current, k);
    }
  }

  lemma {:induction false} OneRecipe(base: Fields, recipe: Recipe)
    requires ShapeKept(base, recipe)
    ensures forall k | k !in Delta(base, recipe) ::
      (k in base <==> k in Next(base, recipe)) && Read(base, k) == Read(Next(base, recipe), k)
  {
    if recipe.Updater? {
      DiffRebuildsIff(base, recipe.f(base));
    }
  }

  /** What a column-wise writer does with an update: the patch's roots, each with its current value. */
  function Overlay(u: Pending): Fields {
    map k | k in u.original.Keys + u.patch.Keys && (k in u.patch ==> k in u.current) ::
      if k in u.patch then u.current[k] else u.original[k]
  }

  predicate OverlaySuffices(u: Pending) { Overlay(u) == u.current }

  // ----- any run of updates to many rows -----

  datatype Op =
    | Update(id: string, recipe: Recipe, attached: Option<Fields>)
    | Forget(id: string)
    | Clear

  type PendingMap = map<string, Pending>

  function Lookup(pending: PendingMap, id: string): Option<Pending> {
    if id in pending then Some(pending[id]) else None
  }

  function After(pending: PendingMap, op: Op): PendingMap {
    match op
    case Update(id, recipe, attached) =>
      var r := Updated(Lookup(pending, id), recipe, attached);
      if r.Some? then pending[id := r.value] else pending
    case Forget(id) => pending - {id}
    case Clear => map[]
  }

  function AfterAll(pending: PendingMap, ops: seq<Op>): PendingMap {
    if ops == [] then pending else After(AfterAll(pending, ops[..|ops| - 1]), ops[|ops| - 1])
  }

  predicate OpKeepsShape(pending: PendingMap, op: Op) {
    op.Update? && Base(Lookup(pending, op.id), op.attached).Some? ==>
      ShapeKept(Base(Lookup(pending, op.id), op.attached).value, op.recipe)
  }

  predicate RunKeepsShape(ops: seq<Op>) {
    if ops == [] then true
    else RunKeepsShape(ops[..|ops| - 1]) && OpKeepsShape(AfterAll(map[], ops[..|ops| - 1]), ops[|ops| - 1])
  }

  /** The main result: over every run, writing the patched roots of a pending row writes the row. */
  lemma {:induction false} PendingRootsSuffice(ops: seq<Op>)
    requires RunKeepsShape(ops)
    ensures forall id | id in AfterAll(map[], ops) ::
      RootsAgree(AfterAll(map[], ops)[id]) && OverlaySuffices(AfterAll(map[], ops)[id])
  {
    if ops != [] {
      var before := AfterAll(map[], ops[..|ops| - 1]);
      var op := ops[|ops| - 1];
      PendingRootsSuffice(ops[..|ops| - 1]);
      if op.Update? {
        UpdateKeepsRoots(Lookup(before, op.id), op.recipe, op.attached);
      }
    }
  }

  /** The accumulated patch alone rebuilds the row, exactly when each step composes with the ones before. */
  lemma {:induction false} PatchRebuildsIff(u: Pending, recipe: Recipe)
    requires ApplyPatch(u.original, u.patch) == u.current && ShapeKept(u.current, recipe)
    ensures var r := Updated(Some(u), recipe, None).value;
      ApplyPatch(r.original, r.patch) == r.current <==> Composes(u.original, u.patch, Delta(u.current, recipe))
  {
    PatchesComposeIff(u.original, u.patch, Delta(u.current, recipe));
    if recipe.Updater? {
      DiffRebuildsIff(u.current, recipe.f(u.current));
    }
  }
}
