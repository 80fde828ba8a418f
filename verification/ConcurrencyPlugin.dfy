/**
 The wrapper of core/src/plugins/ConcurrencyDbPlugin.ts as an object: its observed versions,
 and a backend of mutable collections that other wrappers may share. Its methods are proved to
 take the steps of `Concurrency`.
 */
module ConcurrencyPlugin {
  import opened Options
  import opened Persist
  import opened PersistProofs
  import opened PersistPlugin
  import opened Concurrency

  class ConcurrencyDbPlugin {
    const backend: seq<MemoryDataCollection>
    var observed: Observed

    constructor (backend: seq<MemoryDataCollection>)
      ensures this.backend == backend && observed == map[]
    {
      this.backend := backend;
      observed := map[];
    }

    /** The rows under some keys, each observed and then handed out without the hidden column. */
    method Query(at: nat, keys: seq<Key>) returns (rows: seq<Item>)
      requires at < |backend|
      modifies this
      ensures observed == ObserveRows(old(observed), backend[at].View(), at, KeySet(keys))
      ensures rows == Stripped(backend[at].View(), keys)
    {
      rows := [];
      ghost var t := backend[at].View();
      assert observed == ObserveRows(observed, t, at, KeySet(keys[..0]));
      for i := 0 to |keys|
        invariant backend[at].View() == t
        invariant observed == ObserveRows(old(observed), t, at, KeySet(keys[..i]))
        invariant rows == Stripped(t, keys[..i])
      {
        var k := keys[i];
        ObserveOneMore(old(observed), t, at, keys, i);
        assert keys[..i + 1][..i] == keys[..i];
        if k in backend[at].data {
          var row := backend[at].data[k];
          if VersionOf(row).Some? {
            observed := observed[(at, k) := VersionOf(row).value];
          }
          rows := rows + [row.(cells := row.cells - {VERSION})];
        }
      }
      assert keys[..|keys|] == keys;
    }

    method BulkPersist(staged: seq<Changes>, uuids: seq<seq<string>>, e: Environment)
      returns (outcome: Outcome, ghost done: seq<Done>)
      requires Distinct(backend) && |backend| == |staged| && StagedOk(staged, uuids) && EnvironmentOk(e, |staged|)
      modifies this, backend
      ensures var r := SaveThrough(Keyings(backend), old(Views(backend)), old(observed), staged, uuids, e);
        && r == Persisted(Views(backend), outcome, done)
        && observed == ObserveOutcome(old(observed), r)
    {
      var stamped := StampAll(staged);
      var undo;
      outcome, undo := BulkPersistAll(backend, stamped, uuids, e);
      done := undo;
      match outcome {
        case Success => CaptureAll(undo);
        case Conflicted(conflict) =>
          observed := observed - KeysAsSlots(conflict.at, conflict.keys);
        case _ =>
      }
    }

    /** Adds start at version 1; an update carries the observed version as its check, and the next one. */
    method StampAll(staged: seq<Changes>) returns (r: seq<Changes>)
      ensures r == Stamp(observed, staged)
    {
      r := [];
      for at := 0 to |staged|
        invariant r == Stamp(observed, staged)[..at]
      {
        var adds, updates := [], [];
        for i := 0 to |staged[at].adds|
          invariant |adds| == i && forall k | 0 <= k < i :: adds[k] == WithVersion(staged[at].adds[k], 1)
        {
          adds := adds + [WithVersion(staged[at].adds[i], 1)];
        }
        for j := 0 to |staged[at].updates|
          invariant |updates| == j && forall k | 0 <= k < j :: updates[k] == StampUpdate(observed, at, staged[at].updates[k])
        {
          var u := staged[at].updates[j];
          if u.entity.key.Some? && (at, u.entity.key.value) in observed {
            var expected := observed[(at, u.entity.key.value)];
            updates := updates + [Update(WithVersion(u.entity, expected + 1), Some(Check(VERSION, NumberCell(expected))))];
          } else {
            updates := updates + [Update(WithVersion(u.entity, 1), u.check)];
          }
        }
        ghost var spec := StampChanges(observed, at, staged[at]);
        assert adds == spec.adds && updates == spec.updates;
        r := r + [Changes(adds, updates, staged[at].removes)];
      }
    }

    method CaptureAll(done: seq<Done>)
      modifies this
      ensures observed == ObserveDone(old(observed), done)
    {
      for i := 0 to |done|
        invariant observed == ObserveDone(old(observed), done[..i])
      {
        assert done[..i + 1][..i] == done[..i];
        var d := done[i];
        if d.Removed? {
          observed := observed - {SlotOf(d)};
        } else if VersionOf(d.item).Some? {
          observed := observed[SlotOf(d) := VersionOf(d.item).value];
        }
      }
      assert done[..|done|] == done;
    }
  }

  function KeySet(keys: seq<Key>): (r: set<Key>)
    ensures forall k :: k in r <==> k in keys
  {
    set k | k in keys
  }

  lemma {:induction false} ObserveOneMore(observed: Observed, t: Table, at: nat, keys: seq<Key>, i: nat)
    requires i < |keys|
    ensures ObserveRows(observed, t, at, KeySet(keys[..i + 1])) ==
      var before := ObserveRows(observed, t, at, KeySet(keys[..i]));
      if keys[i] in t.data && VersionOf(t.data[keys[i]]).Some? then before[(at, keys[i]) := VersionOf(t.data[keys[i]]).value]
      else before
  {
    assert keys[..i + 1] == keys[..i] + [keys[i]];
    assert KeySet(keys[..i + 1]) == KeySet(keys[..i]) + {keys[i]};
    hide KeySet;
    ObserveOneKey(observed, t, at, KeySet(keys[..i]), keys[i]);
  }

  lemma {:induction false} ObserveOneKey(observed: Observed, t: Table, at: nat, keys: set<Key>, key: Key)
    ensures ObserveRows(observed, t, at, keys + {key}) ==
      var before := ObserveRows(observed, t, at, keys);
      if key in t.data && VersionOf(t.data[key]).Some? then before[(at, key) := VersionOf(t.data[key]).value] else before
  {
    hide VersionOf, SlotsOf;
  }

  /** The rows as callers see them, in the order asked for. */
  function Stripped(t: Table, keys: seq<Key>): seq<Item> {
    if keys == [] then []
    else
      var before := Stripped(t, keys[..|keys| - 1]);
      var k := keys[|keys| - 1];
      if k in t.data then before + [t.data[k].(cells := t.data[k].cells - {VERSION})] else before
  }
}
