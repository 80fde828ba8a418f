/**
 The class of datastore/src/change-tracking/ImmutableUpdates.ts over its map of pending rows, and
 the two recursive loops it calls, proved to compute what `Patch` says.
 */
module ImmutableUpdates {
  import opened Options
  import opened Patch

  /** Starts from a copy of the base and visits the patch's own keys. */
  method Patched(base: Fields, patch: Fields) returns (next: Fields)
    ensures next == ApplyPatch(base, patch)
    decreases Object(patch)
  {
    next := base;
    var keys := patch.Keys;
    while keys != {}
      invariant keys <= patch.Keys
      invariant next.Keys == base.Keys + (patch.Keys - keys)
      invariant forall k | k in next :: next[k] == if k in patch && k !in keys then Merge(Read(base, k), patch[k]) else base[k]
    {
      var key :| key in keys;
      keys := keys - {key};
      var incoming := patch[key];
      var existing := Read(next, key);
      if IsOpaque(incoming) || IsOpaque(existing) {
        next := next[key := incoming];
      } else {
        var nested := Patched(existing.fields, incoming.fields);
        next := next[key := Object(nested)];
      }
    }
    forall k | k in next
      ensures next[k] == ApplyPatch(base, patch)[k]
    {
      PatchedAt(base, patch, k);
    }
  }

  /** Visits the keys of the new value only. */
  method Compare(base: Fields, next: Fields) returns (changed: Fields)
    ensures changed == Diff(base, next)
    decreases Object(next)
  {
    changed := map[];
    var keys := next.Keys;
    while keys != {}
      invariant keys <= next.Keys
      invariant forall k :: k in changed <==> k in next && k !in keys && DiffAt(Read(base, k), next[k]).Some?
      invariant forall k | k in changed :: changed[k] == DiffAt(Read(base, k), next[k]).value
    {
      var key :| key in keys;
      keys := keys - {key};
      var before := Read(base, key);
      var after := next[key];
      if IsOpaque(before) || IsOpaque(after) {
        if before != after {
          changed := changed[key := after];
        }
      } else {
        var nested := Compare(before.fields, after.fields);
        if |nested| > 0 {
          changed := changed[key := Object(nested)];
        }
      }
    }
  }

  class ImmutableUpdates {
    var pending: PendingMap

    constructor ()
      ensures pending == map[]
    {
      pending := map[];
    }

    predicate HasChanges()
      reads this
    {
      |pending| > 0
    }

    /** `attached` is what the collection holds for the row; no value is the source's error. */
    method Update(id: string, recipe: Recipe, attached: Option<Fields>) returns (next: Option<Fields>)
      modifies this
      ensures pending == After(old(pending), Op.Update(id, recipe, attached))
      ensures next.Some? <==> id in old(pending) || attached.Some?
      ensures next.Some? ==> id in pending && next.value == pending[id].current
    {
      var base := if id in pending then Some(pending[id].current) else attached;
      if base.None? {
        return None;
      }
      var current, delta;
      match recipe {
        case Partial(p) =>
          current := Patched(base.value, p);
          delta := p;
        case Updater(f) =>
          current := f(base.value);
          delta := Compare(base.value, current);
      }
      var original := base.value;
      if id in pending {
        original := pending[id].original;
        delta := Patched(pending[id].patch, delta);
      }
      pending := pending[id := Pending(original, current, delta)];
      next := Some(current);
    }

    method Forget(id: string)
      modifies this
      ensures pending == After(old(pending), Op.Forget(id))
    {
      pending := pending - {id};
    }

    method Clear()
      modifies this
      ensures pending == map[] && !HasChanges()
    {
      pending := map[];
    }
  }
}
