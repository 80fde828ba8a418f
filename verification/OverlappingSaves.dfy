/**
 Saves whose callbacks come late. `EphemeralDataPlugin.bulkPersist` changes the shared collections
 at once and hears only later whether they could be saved; until then other stores read and write
 the same memory. A save is therefore two steps here, a submission and a settlement.
 */
module OverlappingSaves {
  import opened Options
  import opened Persist
  import opened PersistProofs
  import opened Concurrency
  import opened ConcurrencyProofs

  // ----- what a late revert writes -----

  /** What the undo of one mutation leaves in its slot; none when there is nothing to undo. */
  function UndoOf(d: Done): Option<Option<Item>> {
    match d
    case Added(_, _, _) => Some(None)
    case Updated(_, _, _, prior) => Some(prior)
    case Removed(_, _, _, prior) => if prior.Some? then Some(prior) else None
  }

  /** What replaying an undo log leaves in a slot: the undo of its first mutation with one. */
  function UndoAt(done: seq<Done>, slot: Slot): Option<Option<Item>> {
    if done == [] then None
    else if SlotOf(done[0]) == slot && UndoOf(done[0]).Some? then UndoOf(done[0])
    else UndoAt(done[1..], slot)
  }

  /** Priors are filed under the key they were taken from. */
  predicate PriorsKeyed(done: seq<Done>) {
    forall i | 0 <= i < |done| && !done[i].Added? && done[i].prior.Some? :: done[i].prior.value.key == Some(done[i].key)
  }

  lemma {:induction false} UndoOneAt(store: Store, d: Done, slot: Slot)
    requires d.at < |store| && (!d.Added? && d.prior.Some? ==> d.prior.value.key == Some(d.key))
    ensures RecordAt(UndoOne(store, d), slot) ==
      if SlotOf(d) == slot && UndoOf(d).Some? then UndoOf(d).value else RecordAt(store, slot)
  {
  }

  /** Whatever the memory has become since, a revert writes the same records into the same slots. */
  lemma {:induction false} RevertAnywhere(now: Store, done: seq<Done>, slot: Slot)
    requires Within(|now|, done) && PriorsKeyed(done)
    ensures RecordAt(Revert(now, done), slot) == var undo := UndoAt(done, slot); if undo.Some? then undo.value else RecordAt(now, slot)
    decreases |done|
  {
    hide UndoOne, RecordAt, UndoOf;
    if done != [] {
      assert forall i | 0 <= i < |done[1..]| :: done[1..][i] == done[i + 1];
      RevertPeelsFirst(now, done);
      RevertAnywhere(now, done[1..], slot);
      UndoOneAt(Revert(now, done[1..]), done[0], slot);
    }
  }

  /** How two saves come out, and which one's callback comes first. */
  datatype Ending = Ending(firstOk: bool, secondOk: bool, firstSettlesFirst: bool)

  function RevertUnless(ok: bool, store: Store, done: seq<Done>): (r: Store)
    requires Within(|store|, done)
    ensures |r| == |store|
  {
    if ok then store else Revert(store, done)
  }

  /** The memory once both callbacks have come. */
  function Ended(now: Store, first: seq<Done>, second: seq<Done>, e: Ending): Store
    requires Within(|now|, first) && Within(|now|, second)
  {
    if e.firstSettlesFirst then RevertUnless(e.secondOk, RevertUnless(e.firstOk, now, first), second)
    else RevertUnless(e.firstOk, RevertUnless(e.secondOk, now, second), first)
  }

  /**
   Two saves that overlap on a record: `before` it was `was`, the first made it `one`, the second,
   submitted before the first settled, `two`. It ends as the saves that succeeded left it exactly
   when the first succeeds, or both fail and the second hears of it first. A first save that
   fails always takes the second one's committed record with it.
   */
  lemma {:induction false} OverlapIsHarmlessIff(now: Store, first: seq<Done>, second: seq<Done>, slot: Slot,
                                                was: Option<Item>, one: Option<Item>, two: Option<Item>, e: Ending)
    requires Within(|now|, first) && PriorsKeyed(first) && Within(|now|, second) && PriorsKeyed(second)
    requires UndoAt(first, slot) == Some(was) && UndoAt(second, slot) == Some(one) && RecordAt(now, slot) == two
    requires was != one && one != two && two != was
    ensures var meant := if e.secondOk then two else if e.firstOk then one else was;
      RecordAt(Ended(now, first, second, e), slot) == meant <==> e.firstOk || (!e.secondOk && !e.firstSettlesFirst)
  {
    RevertAnywhere(now, first, slot);
    RevertAnywhere(now, second, slot);
    RevertAnywhere(RevertUnless(e.firstOk, now, first), second, slot);
    RevertAnywhere(RevertUnless(e.secondOk, now, second), first, slot);
  }

  // ----- any number of saves on one record -----

  /** The memory after the callbacks named in `order`, each a position in `logs`, have come in that order. */
  function EndedAll(now: Store, logs: seq<seq<Done>>, order: seq<nat>, ok: seq<bool>): (r: Store)
    requires |ok| == |logs| && (forall i | 0 <= i < |logs| :: Within(|now|, logs[i])) && forall i | 0 <= i < |order| :: order[i] < |logs|
    ensures |r| == |now|
  {
    if order == [] then now
    else
      var last := order[|order| - 1];
      RevertUnless(ok[last], EndedAll(now, logs, order[..|order| - 1], ok), logs[last])
  }

  /** The save whose failure is heard last. */
  function LastFailure(order: seq<nat>, ok: seq<bool>): (r: Option<nat>)
    requires forall i | 0 <= i < |order| :: order[i] < |ok|
    ensures r.Some? ==> r.value in order && !ok[r.value]
    ensures r.None? ==> forall i | i in order :: ok[i]
  {
    if order == [] then None
    else if !ok[order[|order| - 1]] then Some(order[|order| - 1])
    else LastFailure(order[..|order| - 1], ok)
  }

  /** How many saves there are up to the last one that succeeds. */
  function UpToLastSuccess(ok: seq<bool>): (n: nat)
    ensures n <= |ok| && (n > 0 ==> ok[n - 1]) && forall i | n <= i < |ok| :: !ok[i]
  {
    if ok == [] then 0 else if ok[|ok| - 1] then |ok| else UpToLastSuccess(ok[..|ok| - 1])
  }

  /** Saves in submission order, none heard of yet: each undoes the record to `values[i]` and made it `values[i + 1]`. */
  predicate Overlapping(now: Store, logs: seq<seq<Done>>, slot: Slot, values: seq<Option<Item>>) {
    && |values| == |logs| + 1 && RecordAt(now, slot) == values[|logs|]
    && (forall i | 0 <= i < |logs| :: Within(|now|, logs[i]) && PriorsKeyed(logs[i]) && UndoAt(logs[i], slot) == Some(values[i]))
    && (forall i, j | 0 <= i < j < |values| :: values[i] != values[j])
  }

  lemma {:induction false} EndedAllAt(now: Store, logs: seq<seq<Done>>, slot: Slot, values: seq<Option<Item>>, order: seq<nat>, ok: seq<bool>)
    requires Overlapping(now, logs, slot, values) && |ok| == |logs| && forall i | 0 <= i < |order| :: order[i] < |logs|
    ensures var failed := LastFailure(order, ok);
      RecordAt(EndedAll(now, logs, order, ok), slot) == values[if failed.Some? then failed.value else |logs|]
  {
    if order != [] {
      var last := order[|order| - 1];
      EndedAllAt(now, logs, slot, values, order[..|order| - 1], ok);
      hide RecordAt;
      if !ok[last] {
        RevertAnywhere(EndedAll(now, logs, order[..|order| - 1], ok), logs[last], slot);
      }
    }
  }

  /**
   Any number of saves overlap on a record, each made while the ones before it were in flight, and
   their callbacks come in any order. The record ends as the last save that succeeded left it
   exactly when none fails, or the failure heard last is that of the save submitted right after it.
   */
  lemma {:induction false} OverlapsAreHarmlessIff(now: Store, logs: seq<seq<Done>>, slot: Slot, values: seq<Option<Item>>,
                                                  order: seq<nat>, ok: seq<bool>)
    requires Overlapping(now, logs, slot, values) && |ok| == |logs|
    requires (forall i | 0 <= i < |order| :: order[i] < |logs|) && forall i | 0 <= i < |logs| :: i in order
    ensures RecordAt(EndedAll(now, logs, order, ok), slot) == values[UpToLastSuccess(ok)] <==>
      (forall i | 0 <= i < |ok| :: ok[i]) || LastFailure(order, ok) == Some(UpToLastSuccess(ok))
  {
    EndedAllAt(now, logs, slot, values, order, ok);
    hide RecordAt, EndedAll;
  }

  // ----- any number of stores and of saves in flight -----

  /** A save that has changed the memory and whose callback has not come. */
  datatype Flight = Flight(who: nat, done: seq<Done>)

  /** `memory` is what every store reads and writes; `system.backend` is history: what the settled saves left. */
  datatype Overlap = Overlap(memory: Store, system: System, flights: map<nat, Flight>)

  datatype Turn =
    | Look(who: nat, at: nat, keys: set<Key>)
    | Submit(id: nat, who: nat, staged: seq<Changes>, uuids: seq<seq<string>>, loads: seq<bool>)
    | Settle(id: nat, ok: bool)

  /** The system as its stores see it. */
  function Seen(o: Overlap): System { o.system.(backend := o.memory) }

  /** The submission as a save that will go through. */
  function AsSave(turn: Turn): Step
    requires turn.Submit?
  {
    var n := |turn.loads|;
    Save(turn.who, turn.staged, turn.uuids, Environment(turn.loads, AllSaved(n), AllSaved(n)))
  }

  predicate TurnOk(keyings: seq<Keying>, o: Overlap, turn: Turn) {
    match turn
    case Look(who, at, keys) => StepOk(keyings, Seen(o), Read(who, at, keys))
    case Submit(id, _, _, _, _) => id !in o.flights && StepOk(keyings, Seen(o), AsSave(turn))
    case Settle(id, _) => id in o.flights && Within(|o.memory|, o.flights[id].done)
  }

  function NextOverlap(keyings: seq<Keying>, o: Overlap, turn: Turn): Overlap
    requires TurnOk(keyings, o, turn)
  {
    match turn
    case Look(who, at, keys) =>
      o.(system := NextSystem(keyings, Seen(o), Read(who, at, keys)).(backend := o.system.backend))
    case Submit(id, who, staged, uuids, _) =>
      var save := AsSave(turn);
      var r := SaveThrough(keyings, o.memory, o.system.observed[who], staged, uuids, save.e);
      if r.outcome.Success? then
        o.(memory := Apply(keyings, o.memory, AllOps(0, Stamp(o.system.observed[who], staged), uuids)).store,
           flights := o.flights[id := Flight(who, r.done)])
      else
        o.(memory := r.store,
           system := o.system.(observed := o.system.observed[who := ObserveOutcome(o.system.observed[who], r)]))
    case Settle(id, ok) =>
      var f := o.flights[id];
      if ok then o.(system := Credited(o.system, f), flights := o.flights - {id})
      else o.(memory := Revert(o.memory, f.done), flights := o.flights - {id})
  }

  /** The store that hears of its save learns what it wrote, and the history has it. */
  function Credited(s: System, f: Flight): System {
    if f.who >= |s.observed| || f.who >= |s.seen| then s
    else
      System(After(s.backend, f.done), s.observed[f.who := ObserveDone(s.observed[f.who], f.done)],
             s.seen[f.who := SeeDone(s.seen[f.who], f.done)], s.log + Commits(f.who, s.seen[f.who], f.done))
  }

  // ----- saves that keep apart -----

  predicate Mutates(done: seq<Done>, slot: Slot) { exists i | 0 <= i < |done| :: SlotOf(done[i]) == slot }

  predicate InFlight(o: Overlap, slot: Slot) { exists id | id in o.flights :: Mutates(o.flights[id].done, slot) }

  /** No record of a save in flight is read or written, and each save keeps the discipline of the whole ones. */
  predicate Apart(keyings: seq<Keying>, o: Overlap, turn: Turn)
    requires TurnOk(keyings, o, turn)
  {
    match turn
    case Look(_, at, keys) => forall k | k in keys :: !InFlight(o, (at, k))
    case Submit(_, who, staged, uuids, _) =>
      var stamped := Stamp(o.system.observed[who], staged);
      && Disciplined(keyings, Seen(o), AsSave(turn)) && Observing(o.system.observed[who], staged)
      && forall at | 0 <= at < |staged| ::
           forall k | k in ChangedKeys(keyings, o.memory, stamped, uuids, at) :: !InFlight(o, (at, k))
    case Settle(_, _) => true
  }

  ghost predicate RunApart(keyings: seq<Keying>, o: Overlap, run: seq<Turn>)
    decreases |run|
  {
    run == []
    || (TurnOk(keyings, o, run[0]) && Apart(keyings, o, run[0]) && RunApart(keyings, NextOverlap(keyings, o, run[0]), run[1..]))
  }

  function RunOverlap(keyings: seq<Keying>, o: Overlap, run: seq<Turn>): Overlap
    requires RunApart(keyings, o, run)
    decreases |run|
  {
    if run == [] then o else RunOverlap(keyings, NextOverlap(keyings, o, run[0]), run[1..])
  }

  // ----- the invariant -----

  /** A flight could be made whole at this moment: every mutation is good for the settled system, and stands in memory. */
  ghost predicate Ready(o: Overlap, f: Flight) {
    && f.who < |o.system.observed| && Within(|o.memory|, f.done) && DistinctSlots(f.done)
    && forall i | 0 <= i < |f.done| ::
      Good(o.system, f.who, f.done[i]) && RecordAt(o.memory, SlotOf(f.done[i])) == Some(f.done[i].item)
  }

  ghost predicate AllReady(o: Overlap) { forall id | id in o.flights :: Ready(o, o.flights[id]) }

  ghost predicate FlightsApart(flights: map<nat, Flight>) {
    forall a, b, slot: Slot | a in flights && b in flights && a != b :: !(Mutates(flights[a].done, slot) && Mutates(flights[b].done, slot))
  }

  /** Outside the flights the memory holds what the settled saves left. */
  ghost predicate Overlays(o: Overlap) {
    forall slot: Slot :: !InFlight(o, slot) ==> RecordAt(o.memory, slot) == RecordAt(o.system.backend, slot)
  }

  ghost predicate Steady(o: Overlap) {
    && |o.memory| == |o.system.backend| && AllFiled(o.memory) && Safe(o.system)
    && AllReady(o) && FlightsApart(o.flights) && Overlays(o)
  }

  // ----- records, slot by slot -----

  ghost predicate RecordsFiled(store: Store) {
    forall slot: Slot | RecordAt(store, slot).Some? :: RecordAt(store, slot).value.key == Some(slot.1)
  }

  lemma {:induction false} FiledByRecord(store: Store)
    ensures AllFiled(store) <==> RecordsFiled(store)
  {
    if RecordsFiled(store) {
      forall i, k | 0 <= i < |store| && k in store[i].data
        ensures store[i].data[k].key == Some(k)
      {
        var slot: Slot := (i, k);
        assert RecordAt(store, slot) == Some(store[i].data[k]);
      }
    }
  }

  /** What good mutations would undo to is what the system holds. */
  lemma {:induction false} UndoIsTheBackend(s: System, who: nat, done: seq<Done>, slot: Slot)
    requires forall i | 0 <= i < |done| :: Good(s, who, done[i])
    ensures UndoAt(done, slot) == if Mutates(done, slot) then Some(RecordAt(s.backend, slot)) else None
  {
    if done != [] {
      assert Good(s, who, done[0]);
      assert forall i | 0 <= i < |done[1..]| :: done[1..][i] == done[i + 1];
      UndoIsTheBackend(s, who, done[1..], slot);
      assert Mutates(done, slot) <==> SlotOf(done[0]) == slot || Mutates(done[1..], slot) by {
        assert done == [done[0]] + done[1..];
      }
    }
  }

  lemma {:induction false} GoodPriorsAreKeyed(s: System, who: nat, done: seq<Done>)
    requires AllFiled(s.backend) && forall i | 0 <= i < |done| :: Good(s, who, done[i])
    ensures PriorsKeyed(done)
  {
    forall i | 0 <= i < |done| && !done[i].Added? && done[i].prior.Some?
      ensures done[i].prior.value.key == Some(done[i].key)
    {
      assert Good(s, who, done[i]);
      assert Filed(s.backend[done[i].at]);
    }
  }

  /** Without removes and with each slot once, a log leaves its records. */
  lemma {:induction false} AfterAt(store: Store, done: seq<Done>, slot: Slot)
    requires Within(|store|, done) && DistinctSlots(done) && NoneRemoved(done)
    ensures |After(store, done)| == |store|
    ensures !Mutates(done, slot) ==> RecordAt(After(store, done), slot) == RecordAt(store, slot)
    ensures forall i | 0 <= i < |done| && SlotOf(done[i]) == slot :: RecordAt(After(store, done), slot) == Some(done[i].item)
  {
    LastMutationWins(store, done, slot);
    var last := LastOf(done, slot);
    if last.Some? {
      var j :| 0 <= j < |done| && done[j] == last.value;
      assert Mutates(done, slot);
    }
  }

  lemma {:induction false} GoodRemovesNothing(s: System, who: nat, done: seq<Done>)
    requires forall i | 0 <= i < |done| :: Good(s, who, done[i])
    ensures NoneRemoved(done)
  {
    forall i | 0 <= i < |done|
      ensures !done[i].Removed?
    {
      assert Good(s, who, done[i]);
    }
  }

  // ----- settling -----

  /** A revert puts the settled records back under the flight's slots and leaves the others alone. */
  lemma {:induction false} FailureLeaves(o: Overlap, f: Flight, slot: Slot)
    requires Steady(o) && Ready(o, f)
    ensures |Revert(o.memory, f.done)| == |o.memory|
    ensures RecordAt(Revert(o.memory, f.done), slot) ==
      if Mutates(f.done, slot) then RecordAt(o.system.backend, slot) else RecordAt(o.memory, slot)
  {
    GoodPriorsAreKeyed(o.system, f.who, f.done);
    UndoIsTheBackend(o.system, f.who, f.done, slot);
    RevertAnywhere(o.memory, f.done, slot);
  }

  lemma {:induction false} FailureKeepsSteady(keyings: seq<Keying>, o: Overlap, id: nat)
    requires Steady(o) && TurnOk(keyings, o, Settle(id, false))
    ensures Steady(NextOverlap(keyings, o, Settle(id, false)))
  {
    var f := o.flights[id];
    var o' := NextOverlap(keyings, o, Settle(id, false));
    assert Ready(o, f);
    forall slot: Slot
      ensures RecordAt(o'.memory, slot) == if Mutates(f.done, slot) then RecordAt(o.system.backend, slot) else RecordAt(o.memory, slot)
    {
      FailureLeaves(o, f, slot);
    }
    assert AllFiled(o'.memory) by {
      FiledByRecord(o.memory);
      FiledByRecord(o.system.backend);
      FiledByRecord(o'.memory);
    }
    hide Revert, Safe, Good, AllFiled, RecordAt;
    forall other | other in o'.flights
      ensures Ready(o', o'.flights[other])
    {
      OtherFlightStays(o, o', id, other);
    }
    LandedOverlays(o, o', id);
  }

  /** A flight that shares no slot with one that settled stays as ready as it was. */
  lemma {:induction false} OtherFlightStays(o: Overlap, o': Overlap, id: nat, other: nat)
    requires AllReady(o) && FlightsApart(o.flights) && id in o.flights && other in o.flights && other != id
    requires o'.system == o.system && |o'.memory| == |o.memory|
    requires forall slot: Slot :: !Mutates(o.flights[id].done, slot) ==> RecordAt(o'.memory, slot) == RecordAt(o.memory, slot)
    ensures Ready(o', o.flights[other])
  {
    hide RecordAt, Good;
    var g := o.flights[other];
    assert Ready(o, g);
    forall i | 0 <= i < |g.done|
      ensures RecordAt(o'.memory, SlotOf(g.done[i])) == Some(g.done[i].item)
    {
      assert Mutates(g.done, SlotOf(g.done[i]));
    }
  }

  /** Whichever way a flight settles, memory and system agree on its slots then. */
  lemma {:induction false} LandedOverlays(o: Overlap, o': Overlap, id: nat)
    requires Overlays(o) && id in o.flights && o'.flights == o.flights - {id}
    requires forall slot: Slot ::
      if Mutates(o.flights[id].done, slot) then RecordAt(o'.memory, slot) == RecordAt(o'.system.backend, slot)
      else RecordAt(o'.memory, slot) == RecordAt(o.memory, slot) && RecordAt(o'.system.backend, slot) == RecordAt(o.system.backend, slot)
    ensures Overlays(o')
  {
    hide RecordAt, Mutates;
    forall slot: Slot | !InFlight(o', slot)
      ensures RecordAt(o'.memory, slot) == RecordAt(o'.system.backend, slot)
    {
      if !Mutates(o.flights[id].done, slot) {
        assert forall other | other in o.flights && other != id :: other in o'.flights && o'.flights[other] == o.flights[other];
        assert !InFlight(o, slot);
      }
    }
  }

  lemma {:induction false} CreditIsAbsorbed(s: System, f: Flight)
    requires Safe(s) && f.who < |s.observed| && Within(|s.backend|, f.done) && DistinctSlots(f.done)
    requires forall i | 0 <= i < |f.done| :: Good(s, f.who, f.done[i])
    ensures NoneRemoved(f.done) && Credited(s, f) == AbsorbAll(s, f.who, f.done) && Safe(Credited(s, f))
  {
    GoodRemovesNothing(s, f.who, f.done);
    AbsorbAllIs(s, f.who, f.done);
    AbsorbAllKeepsSafe(s, f.who, f.done);
  }

  lemma {:induction false} GoodAfterCredit(s: System, f: Flight, who: nat, d: Done)
    requires Safe(s) && f.who < |s.observed| && Within(|s.backend|, f.done) && DistinctSlots(f.done)
    requires forall i | 0 <= i < |f.done| :: Good(s, f.who, f.done[i])
    requires Good(s, who, d) && !Mutates(f.done, SlotOf(d))
    ensures Good(Credited(s, f), who, d)
  {
    CreditIsAbsorbed(s, f);
    var r := Credited(s, f);
    assert who != f.who ==> r.seen[who] == s.seen[who];
    hide Credited, Safe, Good, RecordAt, AbsorbAll;
    OtherSlotsUntouched(s, f.who, f.done, SlotOf(d));
    SameRecordSameGood(s, r, who, d);
  }

  lemma {:induction false} SameRecordSameGood(s: System, r: System, who: nat, d: Done)
    requires Good(s, who, d) && |r.seen| == |s.seen| && |r.backend| == |s.backend|
    requires RecordAt(r.backend, SlotOf(d)) == RecordAt(s.backend, SlotOf(d))
    requires SeenAt(r.seen[who], SlotOf(d)) == SeenAt(s.seen[who], SlotOf(d))
    ensures Good(r, who, d)
  {
    assert Stored(r.backend, SlotOf(d)) <==> RecordAt(r.backend, SlotOf(d)).Some?;
    assert Stored(s.backend, SlotOf(d)) <==> RecordAt(s.backend, SlotOf(d)).Some?;
  }

  lemma {:induction false} SuccessKeepsSteady(keyings: seq<Keying>, o: Overlap, id: nat)
    requires Steady(o) && TurnOk(keyings, o, Settle(id, true))
    ensures Steady(NextOverlap(keyings, o, Settle(id, true)))
  {
    var f := o.flights[id];
    var o' := NextOverlap(keyings, o, Settle(id, true));
    assert Ready(o, f);
    CreditIsAbsorbed(o.system, f);
    assert o'.system.backend == After(o.system.backend, f.done);
    forall slot: Slot
      ensures if Mutates(f.done, slot) then RecordAt(o'.memory, slot) == RecordAt(o'.system.backend, slot)
              else RecordAt(o'.system.backend, slot) == RecordAt(o.system.backend, slot)
    {
      AfterAt(o.system.backend, f.done, slot);
    }
    AfterAt(o.system.backend, f.done, (0, TextKey("")));
    hide Safe, Good, AllFiled, RecordAt, After, Credited;
    forall other | other in o'.flights
      ensures Ready(o', o'.flights[other])
    {
      CreditedFlightStays(o, o', id, other);
    }
    LandedOverlays(o, o', id);
  }

  lemma {:induction false} CreditedFlightStays(o: Overlap, o': Overlap, id: nat, other: nat)
    requires AllReady(o) && FlightsApart(o.flights) && id in o.flights && other in o.flights && other != id
    requires Safe(o.system) && |o.memory| == |o.system.backend|
    requires o'.system == Credited(o.system, o.flights[id]) && o'.memory == o.memory
    ensures Ready(o', o.flights[other])
  {
    var f, g := o.flights[id], o.flights[other];
    assert Ready(o, f) && Ready(o, g);
    CreditIsAbsorbed(o.system, f);
    hide Safe, Good, Credited;
    forall i | 0 <= i < |g.done|
      ensures Good(o'.system, g.who, g.done[i])
    {
      assert Mutates(g.done, SlotOf(g.done[i]));
      GoodAfterCredit(o.system, f, g.who, g.done[i]);
    }
  }

  // ----- looking -----

  /** Rows outside the flights read the same from the memory as from the settled system. */
  lemma {:induction false} LooksTheSame(keyings: seq<Keying>, o: Overlap, who: nat, at: nat, keys: set<Key>)
    requires |o.memory| == |o.system.backend| && TurnOk(keyings, o, Look(who, at, keys)) && Overlays(o)
    requires forall k | k in keys :: !InFlight(o, (at, k))
    ensures NextOverlap(keyings, o, Look(who, at, keys)) == o.(system := NextSystem(keyings, o.system, Read(who, at, keys)))
  {
    var a, b := o.memory[at], o.system.backend[at];
    forall k | k in keys
      ensures k in a.data <==> k in b.data
      ensures k in a.data ==> a.data[k] == b.data[k]
    {
      assert RecordAt(o.memory, (at, k)) == RecordAt(o.system.backend, (at, k));
    }
    hide Overlays;
    SameRows(o.system.observed[who], o.system.seen[who], a, b, at, keys);
  }

  lemma {:induction false} SameRows(observed: Observed, seen: map<Slot, Item>, a: Table, b: Table, at: nat, keys: set<Key>)
    requires forall k | k in keys :: k in a.data <==> k in b.data
    requires forall k | k in keys && k in a.data :: a.data[k] == b.data[k]
    ensures SeeRows(seen, a, at, keys) == SeeRows(seen, b, at, keys)
    ensures ObserveRows(observed, a, at, keys) == ObserveRows(observed, b, at, keys)
  {
    SameRowsSeen(seen, a, b, at, keys);
    SameRowsObserved(observed, a, b, at, keys);
  }

  lemma {:induction false} SameRowsSeen(seen: map<Slot, Item>, a: Table, b: Table, at: nat, keys: set<Key>)
    requires forall k | k in keys :: k in a.data <==> k in b.data
    requires forall k | k in keys && k in a.data :: a.data[k] == b.data[k]
    ensures SeeRows(seen, a, at, keys) == SeeRows(seen, b, at, keys)
  {
    var x, y := SeeRows(seen, a, at, keys), SeeRows(seen, b, at, keys);
    forall slot: Slot
      ensures (slot in x <==> slot in y) && (slot in x ==> x[slot] == y[slot])
    {
      var k := slot.1;
      assert slot in SlotsOf(at, keys) ==> k in keys;
    }
    hide SeeRows;
  }

  lemma {:induction false} SameRowsObserved(observed: Observed, a: Table, b: Table, at: nat, keys: set<Key>)
    requires forall k | k in keys :: k in a.data <==> k in b.data
    requires forall k | k in keys && k in a.data :: a.data[k] == b.data[k]
    ensures ObserveRows(observed, a, at, keys) == ObserveRows(observed, b, at, keys)
  {
    hide VersionOf;
    var x, y := ObserveRows(observed, a, at, keys), ObserveRows(observed, b, at, keys);
    forall slot: Slot
      ensures (slot in x <==> slot in y) && (slot in x ==> x[slot] == y[slot])
    {
      var k := slot.1;
      assert slot in SlotsOf(at, keys) ==> k in keys;
    }
    hide ObserveRows;
  }

  lemma {:induction false} LookKeepsSteady(keyings: seq<Keying>, o: Overlap, who: nat, at: nat, keys: set<Key>)
    requires Steady(o) && TurnOk(keyings, o, Look(who, at, keys)) && Apart(keyings, o, Look(who, at, keys))
    ensures Steady(NextOverlap(keyings, o, Look(who, at, keys)))
  {
    var o' := NextOverlap(keyings, o, Look(who, at, keys));
    LooksTheSame(keyings, o, who, at, keys);
    ReadKeepsSafe(keyings, o.system, Read(who, at, keys));
    assert NextSystem(keyings, Seen(o), Read(who, at, keys)).seen == o.system.seen[who := SeeRows(o.system.seen[who], o.memory[at], at, keys)];
    hide Safe, AllFiled, RecordAt, NextSystem, Good;
    forall id | id in o'.flights
      ensures Ready(o', o'.flights[id])
    {
      LookedFlightStays(o, o', id, who, at, keys);
    }
    forall slot: Slot | !InFlight(o', slot)
      ensures RecordAt(o'.memory, slot) == RecordAt(o'.system.backend, slot)
    {
      assert !InFlight(o, slot);
    }
  }

  lemma {:induction false} LookedFlightStays(o: Overlap, o': Overlap, id: nat, who: nat, at: nat, keys: set<Key>)
    requires AllReady(o) && id in o.flights && who < |o.system.seen| == |o.system.observed| && at < |o.memory|
    requires o'.memory == o.memory && o'.system.backend == o.system.backend && |o'.system.observed| == |o.system.observed|
    requires o'.system.seen == o.system.seen[who := SeeRows(o.system.seen[who], o.memory[at], at, keys)]
    requires forall k | k in keys :: !InFlight(o, (at, k))
    ensures Ready(o', o.flights[id])
  {
    hide RecordAt;
    var f := o.flights[id];
    assert Ready(o, f);
    forall i | 0 <= i < |f.done|
      ensures Good(o'.system, f.who, f.done[i])
    {
      var slot := SlotOf(f.done[i]);
      assert Mutates(f.done, slot);
      assert InFlight(o, slot);
      assert slot !in SlotsOf(at, keys);
      assert SeenAt(o'.system.seen[f.who], slot) == SeenAt(o.system.seen[f.who], slot);
    }
  }

  // ----- submitting -----

  /** Forgetting what a conflict names, or nothing, keeps everything. */
  lemma {:induction false} RefusedKeepsSteady(o: Overlap, memory: Store, who: nat, slots: set<Slot>)
    requires Steady(o) && who < |o.system.observed| && |memory| == |o.memory| && DataOf(memory) == DataOf(o.memory)
    ensures Steady(o.(memory := memory, system := o.system.(observed := o.system.observed[who := o.system.observed[who] - slots])))
  {
    var o' := o.(memory := memory, system := o.system.(observed := o.system.observed[who := o.system.observed[who] - slots]));
    ForgettingKeepsSafe(o.system, who, slots);
    forall slot: Slot
      ensures RecordAt(memory, slot) == RecordAt(o.memory, slot)
    {
      SameRecords(memory, o.memory, slot);
    }
    FiledByRecord(memory);
    FiledByRecord(o.memory);
    hide Safe, AllFiled, RecordAt;
    forall id | id in o'.flights
      ensures Ready(o', o'.flights[id])
    {
      assert Ready(o, o.flights[id]);
      assert forall i | 0 <= i < |o.flights[id].done| ::
        Good(o'.system, o.flights[id].who, o.flights[id].done[i]) <==> Good(o.system, o.flights[id].who, o.flights[id].done[i]);
    }
    forall slot: Slot | !InFlight(o', slot)
      ensures RecordAt(o'.memory, slot) == RecordAt(o'.system.backend, slot)
    {
      assert !InFlight(o, slot);
    }
  }

  lemma {:induction false} RefusalKeepsSteady(keyings: seq<Keying>, o: Overlap, turn: Turn)
    requires Steady(o) && turn.Submit? && TurnOk(keyings, o, turn) && Apart(keyings, o, turn)
    requires !Succeeds(keyings, Seen(o), AsSave(turn))
    ensures Steady(NextOverlap(keyings, o, turn))
  {
    var observed := o.system.observed[turn.who];
    var e := AsSave(turn).e;
    var r := SaveThrough(keyings, o.memory, observed, turn.staged, turn.uuids, e);
    FailedSaveLeavesNothing(keyings, o.memory, Stamp(observed, turn.staged), turn.uuids, e);
    var forgot := if r.outcome.Conflicted? then KeysAsSlots(r.outcome.conflict.at, r.outcome.conflict.keys) else {};
    assert ObserveOutcome(observed, r) == observed - forgot;
    hide SaveThrough, BulkPersist, Disciplined, Steady;
    RefusedKeepsSteady(o, r.store, turn.who, forgot);
  }

  /** A mutation of records outside the flights is as good for the settled system as for the memory it was made on. */
  lemma {:induction false} SubmittedIsGood(keyings: seq<Keying>, o: Overlap, turn: Turn, done: seq<Done>, ops: seq<Op>, i: nat)
    requires Steady(o) && turn.Submit? && TurnOk(keyings, o, turn)
    requires NoRemoves(turn.staged) && Observing(o.system.observed[turn.who], turn.staged)
    requires ops == AllOps(0, Stamp(o.system.observed[turn.who], turn.staged), turn.uuids)
    requires FirstConflict(o.memory, Stamp(o.system.observed[turn.who], turn.staged), 0).None?
    requires AddsAreNew(o.memory, done) && DistinctSlots(done) && LogOf(o.memory, done)
    requires i < |done| <= |ops| && Carries(done[i], ops[i]) && !InFlight(o, SlotOf(done[i]))
    ensures Good(o.system, turn.who, done[i])
  {
    var observed := o.system.observed[turn.who];
    var staged := Stamp(observed, turn.staged);
    OpsComeFromStaged(0, staged, turn.uuids, i);
    LogOfAt(o.memory, done);
    var at := ops[i].at;
    assert turn.staged[at].removes == [];
    assert RecordAt(o.memory, SlotOf(done[i])) == RecordAt(o.system.backend, SlotOf(done[i]));
    if ops[i].UpdateOp? {
      var j :| 0 <= j < |staged[at].updates| && staged[at].updates[j].entity == ops[i].item;
      NoConflictAnywhere(o.memory, staged, 0, at);
      NoKeysNoConflicts(o.memory[at], staged[at].updates, j);
      PriorsAreFromTheStart(o.memory, done, i);
      assert staged[at].updates[j] == StampUpdate(observed, at, turn.staged[at].updates[j]);
      hide AllOps, FirstConflict, ConflictKeys, LogOf, Safe, DistinctSlots, AddsAreNew, Stamp, AllReady, FlightsApart;
      SameConflict(o.memory, o.system.backend, at, staged[at].updates[j]);
      UpdateIsGood(o.system, turn.who, done[i], turn.staged[at].updates[j]);
    } else {
      var j :| 0 <= j < |staged[at].adds| && staged[at].adds[j] == ops[i].item;
      assert VersionOf(ops[i].item) == Some(1);
      assert !Stored(o.memory, SlotOf(done[i]));
    }
  }

  lemma {:induction false} SameConflict(a: Store, b: Store, at: nat, u: Update)
    requires at < |a| == |b| && u.entity.key.Some?
    requires RecordAt(a, (at, u.entity.key.value)) == RecordAt(b, (at, u.entity.key.value))
    ensures Conflicts(a[at], u) <==> Conflicts(b[at], u)
  {
    assert Prior(a[at], u.entity) == RecordAt(a, (at, u.entity.key.value));
    assert Prior(b[at], u.entity) == RecordAt(b, (at, u.entity.key.value));
  }

  /** What a submission that goes through has logged, for the settled system. */
  lemma {:induction false} SubmissionIsGood(keyings: seq<Keying>, o: Overlap, turn: Turn)
    requires Steady(o) && turn.Submit? && TurnOk(keyings, o, turn) && Apart(keyings, o, turn)
    requires Succeeds(keyings, Seen(o), AsSave(turn))
    ensures var done := SaveThrough(keyings, o.memory, o.system.observed[turn.who], turn.staged, turn.uuids, AsSave(turn).e).done;
      && Within(|o.memory|, done) && DistinctSlots(done)
      && forall i | 0 <= i < |done| :: Good(o.system, turn.who, done[i]) && !InFlight(o, SlotOf(done[i]))
  {
    var observed := o.system.observed[turn.who];
    var staged := Stamp(observed, turn.staged);
    var ops := AllOps(0, staged, turn.uuids);
    var save := AsSave(turn);
    var r := SaveThrough(keyings, o.memory, observed, turn.staged, turn.uuids, save.e);
    DisciplinedLog(keyings, Seen(o), save);
    assert FirstConflict(o.memory, staged, 0).None?;
    assert NoRemoves(turn.staged) && Observing(observed, turn.staged);
    assert forall at | 0 <= at < |turn.staged| ::
      forall k | k in ChangedKeys(keyings, o.memory, staged, turn.uuids, at) :: !InFlight(o, (at, k));
    hide SaveThrough, BulkPersist, Apply, Disciplined, Apart, ChangedKeys, LogOf, FirstConflict, NoRemoves, Observing, Stamp, Steady, Mutates;
    forall i | 0 <= i < |r.done|
      ensures Good(o.system, turn.who, r.done[i]) && !InFlight(o, SlotOf(r.done[i]))
    {
      assert r.done[i].key in ChangedKeys(keyings, o.memory, staged, turn.uuids, r.done[i].at);
      SubmittedIsGood(keyings, o, turn, r.done, ops, i);
    }
  }

  lemma {:induction false} SubmissionIsReady(keyings: seq<Keying>, o: Overlap, turn: Turn)
    requires Steady(o) && turn.Submit? && TurnOk(keyings, o, turn) && Apart(keyings, o, turn)
    requires Succeeds(keyings, Seen(o), AsSave(turn))
    ensures var o' := NextOverlap(keyings, o, turn);
      var done := o'.flights[turn.id].done;
      && o' == o.(memory := o'.memory, flights := o.flights[turn.id := Flight(turn.who, done)])
      && |o'.memory| == |o.memory| && Within(|o.memory|, done) && DistinctSlots(done)
      && (forall i | 0 <= i < |done| :: Good(o.system, turn.who, done[i]) && !InFlight(o, SlotOf(done[i])))
      && DataOf(o'.memory) == DataOf(After(o.memory, done))
  {
    SubmissionIsGood(keyings, o, turn);
    hide Steady, Safe, Good, Disciplined, Apart, InFlight, After, Stamp, ObserveOutcome;
    ApplyKeepsLog(keyings, o.memory, AllOps(0, Stamp(o.system.observed[turn.who], turn.staged), turn.uuids));
  }

  lemma {:induction false} SubmissionKeepsSteady(keyings: seq<Keying>, o: Overlap, turn: Turn)
    requires Steady(o) && turn.Submit? && TurnOk(keyings, o, turn) && Apart(keyings, o, turn)
    requires Succeeds(keyings, Seen(o), AsSave(turn))
    ensures Steady(NextOverlap(keyings, o, turn))
  {
    SubmissionIsReady(keyings, o, turn);
    var o' := NextOverlap(keyings, o, turn);
    var done := o'.flights[turn.id].done;
    hide NextOverlap, Apart, Succeeds, TurnOk;
    NewFlightStands(o, o', turn.id, turn.who, done);
  }

  lemma {:induction false} NewFlightStands(o: Overlap, o': Overlap, id: nat, who: nat, done: seq<Done>)
    requires Steady(o) && id !in o.flights && o' == o.(memory := o'.memory, flights := o.flights[id := Flight(who, done)])
    requires who < |o.system.observed| && |o'.memory| == |o.memory| && Within(|o.memory|, done) && DistinctSlots(done)
    requires forall i | 0 <= i < |done| :: Good(o.system, who, done[i]) && !InFlight(o, SlotOf(done[i]))
    requires DataOf(o'.memory) == DataOf(After(o.memory, done))
    ensures Steady(o')
  {
    GoodRemovesNothing(o.system, who, done);
    forall slot: Slot
      ensures !Mutates(done, slot) ==> RecordAt(o'.memory, slot) == RecordAt(o.memory, slot)
      ensures forall i | 0 <= i < |done| && SlotOf(done[i]) == slot :: RecordAt(o'.memory, slot) == Some(done[i].item)
    {
      AfterAt(o.memory, done, slot);
      SameRecords(o'.memory, After(o.memory, done), slot);
    }
    assert AllFiled(o'.memory) by {
      FiledByRecord(o.memory);
      NewRecordsFiled(o, o'.memory, who, done);
      FiledByRecord(o'.memory);
    }
    hide Safe, AllFiled, RecordAt, After, DataOf, Good;
    assert forall slot: Slot | Mutates(done, slot) :: !InFlight(o, slot);
    forall other | other in o'.flights
      ensures Ready(o', o'.flights[other])
    {
      if other != id {
        assert Ready(o, o.flights[other]);
        forall i | 0 <= i < |o.flights[other].done|
          ensures !Mutates(done, SlotOf(o.flights[other].done[i]))
        {
          assert Mutates(o.flights[other].done, SlotOf(o.flights[other].done[i]));
        }
      }
    }
    NewFlightIsApart(o, o', id, who, done);
  }

  lemma {:induction false} NewRecordsFiled(o: Overlap, memory: Store, who: nat, done: seq<Done>)
    requires RecordsFiled(o.memory) && forall i | 0 <= i < |done| :: Good(o.system, who, done[i])
    requires forall slot: Slot :: !Mutates(done, slot) ==> RecordAt(memory, slot) == RecordAt(o.memory, slot)
    requires forall slot: Slot, i | 0 <= i < |done| && SlotOf(done[i]) == slot :: RecordAt(memory, slot) == Some(done[i].item)
    ensures RecordsFiled(memory)
  {
    hide RecordAt;
    forall slot: Slot | RecordAt(memory, slot).Some?
      ensures RecordAt(memory, slot).value.key == Some(slot.1)
    {
      if Mutates(done, slot) {
        var i :| 0 <= i < |done| && SlotOf(done[i]) == slot;
        assert Good(o.system, who, done[i]);
      }
    }
  }

  lemma {:induction false} NewFlightIsApart(o: Overlap, o': Overlap, id: nat, who: nat, done: seq<Done>)
    requires FlightsApart(o.flights) && Overlays(o) && id !in o.flights
    requires o'.system == o.system && o'.flights == o.flights[id := Flight(who, done)]
    requires forall slot: Slot | Mutates(done, slot) :: !InFlight(o, slot)
    requires forall slot: Slot :: !Mutates(done, slot) ==> RecordAt(o'.memory, slot) == RecordAt(o.memory, slot)
    ensures FlightsApart(o'.flights) && Overlays(o')
  {
    hide RecordAt, Mutates;
    forall slot: Slot | !InFlight(o', slot)
      ensures RecordAt(o'.memory, slot) == RecordAt(o'.system.backend, slot)
    {
      assert o'.flights[id].done == done;
      assert forall other | other in o.flights :: other in o'.flights && o'.flights[other] == o.flights[other];
      assert !InFlight(o, slot);
    }
  }

  // ----- every run -----

  lemma {:induction false} TurnKeepsSteady(keyings: seq<Keying>, o: Overlap, turn: Turn)
    requires Steady(o) && TurnOk(keyings, o, turn) && Apart(keyings, o, turn)
    ensures Steady(NextOverlap(keyings, o, turn))
  {
    match turn {
      case Look(who, at, keys) => LookKeepsSteady(keyings, o, who, at, keys);
      case Submit(_, _, _, _, _) =>
        if Succeeds(keyings, Seen(o), AsSave(turn)) {
          SubmissionKeepsSteady(keyings, o, turn);
        } else {
          RefusalKeepsSteady(keyings, o, turn);
        }
      case Settle(id, ok) =>
        if ok {
          SuccessKeepsSteady(keyings, o, id);
        } else {
          FailureKeepsSteady(keyings, o, id);
        }
    }
  }

  lemma {:induction false} RunKeepsSteady(keyings: seq<Keying>, o: Overlap, run: seq<Turn>)
    requires Steady(o) && RunApart(keyings, o, run)
    ensures Steady(RunOverlap(keyings, o, run))
    decreases |run|
  {
    hide Steady, NextOverlap, Apart, TurnOk;
    if run != [] {
      TurnKeepsSteady(keyings, o, run[0]);
      RunKeepsSteady(keyings, NextOverlap(keyings, o, run[0]), run[1..]);
    }
  }

  /**
   Over every run in which no record of a save in flight is read or written, in whatever order
   the callbacks come and whichever of them fail: no update that went through is lost, and with
   nothing in flight the memory holds just what the saves that went through wrote.
   */
  lemma {:induction false} SavesApartLoseNothing(keyings: seq<Keying>, stores: nat, run: seq<Turn>)
    requires var s := EmptySystem(|keyings|, stores); RunApart(keyings, Overlap(s.backend, s, map[]), run)
    ensures var s := EmptySystem(|keyings|, stores);
      var o := RunOverlap(keyings, Overlap(s.backend, s, map[]), run);
      && NothingLost(o.system.log) && Chained(o.system.log) && Counted(o.system.backend, o.system.log)
      && (o.flights == map[] ==> DataOf(o.memory) == DataOf(o.system.backend))
  {
    var s := EmptySystem(|keyings|, stores);
    var start := Overlap(s.backend, s, map[]);
    assert Safe(s);
    assert Steady(start);
    RunKeepsSteady(keyings, start, run);
    var o := RunOverlap(keyings, start, run);
    if o.flights == map[] {
      forall i | 0 <= i < |o.memory|
        ensures o.memory[i].data == o.system.backend[i].data
      {
        SameTable(o, i);
      }
    }
  }

  lemma {:induction false} SameTable(o: Overlap, i: nat)
    requires Overlays(o) && o.flights == map[] && i < |o.memory| == |o.system.backend|
    ensures o.memory[i].data == o.system.backend[i].data
  {
    forall k: Key
      ensures k in o.memory[i].data <==> k in o.system.backend[i].data
      ensures k in o.memory[i].data ==> o.memory[i].data[k] == o.system.backend[i].data[k]
    {
      var slot: Slot := (i, k);
      assert !InFlight(o, slot);
      assert RecordAt(o.memory, slot) == RecordAt(o.system.backend, slot);
    }
  }

  // ----- the run that loses a committed update -----

  /** One collection, one row, two stores. */
  function OneRow(t: Table, system: System, flights: map<nat, Flight>): Overlap { Overlap([t], system, flights) }

  function SubmitOne(id: nat, who: nat, entity: Item): Turn { Submit(id, who, OneUpdate(entity), [[]], [true]) }

  function Holding(t: Table, item: Item): Table
    requires item.key.Some?
  {
    t.(data := t.data[item.key.value := item])
  }

  /** An update of a row its store observes as it stands goes through, one version up. */
  lemma {:induction false} ObservedUpdateGoesThrough(keying: Keying, t: Table, observed: Observed, entity: Item, n: int)
    requires entity.key.Some? && (0, entity.key.value) in observed && observed[(0, entity.key.value)] == n
    requires Prior(t, entity).Some? && VersionOf(Prior(t, entity).value) == Some(n)
    ensures var stamped := WithVersion(entity, n + 1);
      var done := [Updated(0, entity.key.value, stamped, Prior(t, entity))];
      var r := SaveThrough([keying], [t], observed, OneUpdate(entity), [[]], Environment([true], AllSaved(1), AllSaved(1)));
      && r.outcome.Success? && r.done == done
      && Apply([keying], [t], AllOps(0, Stamp(observed, OneUpdate(entity)), [[]])).store == [Holding(t, stamped)]
  {
    var stamped := WithVersion(entity, n + 1);
    var staged := Stamp(observed, OneUpdate(entity));
    var check := Check(VERSION, NumberCell(n));
    assert staged[0] == StampChanges(observed, 0, OneUpdate(entity)[0]);
    assert staged[0].updates == [Update(stamped, Some(check))];
    assert !Conflicts(t, staged[0].updates[0]);
    assert ConflictKeys(t, staged[0].updates) == ConflictKeys(t, []) == [] by {
      assert staged[0].updates[..0] == [];
    }
    assert FirstConflict([t], staged, 0) == FirstConflict([t], staged, 1) == None;
    var op := UpdateOp(0, stamped);
    assert OpsOf(0, staged[0], []) == [op];
    assert AllOps(0, staged, [[]]) == [op] by { assert AllOps(1, staged, [[]]) == []; }
    assert [op][1..] == [];
    var now := [Holding(t, stamped)];
    assert [t][0 := now[0]] == now;
    var done := Updated(0, entity.key.value, stamped, Prior(t, entity));
    assert ApplyOp([keying], [t], op) == Stepped(now, done);
    assert Apply([keying], now, [op][1..]) == Applied(now, [], false);
    assert [done] + [] == [done];
    assert Apply([keying], [t], [op]) == Applied(now, [done], false);
    assert FirstFailure(AllSaved(1), 0) == 1;
  }

  /** One submission of an observed row. */
  lemma {:induction false} SubmitsOne(keying: Keying, o: Overlap, t: Table, id: nat, who: nat, entity: Item, n: int)
    requires o.memory == [t] && |o.system.seen| == |o.system.observed| && who < |o.system.observed| && id !in o.flights
    requires entity.key.Some? && (0, entity.key.value) in o.system.observed[who]
    requires o.system.observed[who][(0, entity.key.value)] == n
    requires Prior(t, entity).Some? && VersionOf(Prior(t, entity).value) == Some(n)
    ensures var stamped := WithVersion(entity, n + 1);
      && TurnOk([keying], o, SubmitOne(id, who, entity))
      && NextOverlap([keying], o, SubmitOne(id, who, entity)) ==
           Overlap([Holding(t, stamped)], o.system,
                   o.flights[id := Flight(who, [Updated(0, entity.key.value, stamped, Prior(t, entity))])])
  {
    ObservedUpdateGoesThrough(keying, t, o.system.observed[who], entity, n);
  }

  /** What the second store knows after looking at the row. */
  lemma {:induction false} LooksAtOne(keying: Keying, o: Overlap, t: Table, key: Key, item: Item, n: int)
    requires o.memory == [t] && |o.system.seen| == |o.system.observed| == 2
    requires key in t.data && t.data[key] == item && VersionOf(item) == Some(n)
    ensures TurnOk([keying], o, Look(1, 0, {key}))
    ensures var o' := NextOverlap([keying], o, Look(1, 0, {key}));
      && o'.memory == o.memory && o'.flights == o.flights && o'.system.backend == o.system.backend
      && |o'.system.seen| == |o'.system.observed| == 2
      && (0, key) in o'.system.observed[1] && o'.system.observed[1][(0, key)] == n
  {
    assert (0, key) in SlotsOf(0, {key});
  }

  /**
   The first store's update is in memory, not yet saved, when the second store reads it, updates
   the row with its version and commits. Then the first one's save fails: its revert puts the
   original record back, and the committed one is gone.
   */
  lemma {:induction false} LateFailureLosesACommit(keying: Keying, key: Key, row: Item, a: Item, b: Item)
    requires row.key == a.key == b.key == Some(key) && VersionOf(row) == Some(1)
    ensures var t := Table(map[key := row], None, map[key := row]);
      var start := Overlap([t], System([t], [map[(0, key) := 1], map[]], [map[(0, key) := row], map[]], []), map[]);
      var run := [SubmitOne(0, 0, a), Look(1, 0, {key}), SubmitOne(1, 1, b), Settle(1, true), Settle(0, false)];
      exists end :: (RunsTo([keying], start, run, end)
        && RecordAt(end.memory, (0, key)) == Some(row) && RecordAt(end.system.backend, (0, key)) == Some(WithVersion(b, 3)))
  {
    hide NextOverlap, TurnOk, RecordAt, RunsTo;
    var t := Table(map[key := row], None, map[key := row]);
    var start := Overlap([t], System([t], [map[(0, key) := 1], map[]], [map[(0, key) := row], map[]], []), map[]);
    SubmitsOne(keying, start, t, 0, 0, a, 1);
    var first := NextOverlap([keying], start, SubmitOne(0, 0, a));
    var t1 := Holding(t, WithVersion(a, 2));
    LooksAtOne(keying, first, t1, key, WithVersion(a, 2), 2);
    var looked := NextOverlap([keying], first, Look(1, 0, {key}));
    SubmitsOne(keying, looked, t1, 1, 1, b, 2);
    var second := NextOverlap([keying], looked, SubmitOne(1, 1, b));
    CommitsThenReverts(keying, second, t, key, row, WithVersion(a, 2), WithVersion(b, 3));
    var committed := NextOverlap([keying], second, Settle(1, true));
    var end := NextOverlap([keying], committed, Settle(0, false));
    RunsThenRuns([keying], start, SubmitOne(0, 0, a), Look(1, 0, {key}), SubmitOne(1, 1, b), Settle(1, true), Settle(0, false));
  }

  lemma {:induction false} RunsThenRuns(keyings: seq<Keying>, o: Overlap, a: Turn, b: Turn, c: Turn, d: Turn, e: Turn)
    requires TurnOk(keyings, o, a) && TurnOk(keyings, NextOverlap(keyings, o, a), b)
    requires var s := NextOverlap(keyings, NextOverlap(keyings, o, a), b);
      && TurnOk(keyings, s, c) && TurnOk(keyings, NextOverlap(keyings, s, c), d)
      && TurnOk(keyings, NextOverlap(keyings, NextOverlap(keyings, s, c), d), e)
    ensures var s := NextOverlap(keyings, NextOverlap(keyings, o, a), b);
      RunsTo(keyings, o, [a, b, c, d, e], NextOverlap(keyings, NextOverlap(keyings, NextOverlap(keyings, s, c), d), e))
  {
    hide TurnOk, NextOverlap;
    var s := NextOverlap(keyings, NextOverlap(keyings, o, a), b);
    var end := NextOverlap(keyings, NextOverlap(keyings, NextOverlap(keyings, s, c), d), e);
    RunsOn(keyings, NextOverlap(keyings, NextOverlap(keyings, s, c), d), e, [], end);
    RunsOn(keyings, NextOverlap(keyings, s, c), d, [e], end);
    RunsOn(keyings, s, c, [d, e], end);
    RunsOn(keyings, NextOverlap(keyings, o, a), b, [c, d, e], end);
    RunsOn(keyings, o, a, [b, c, d, e], end);
    assert [e] + [] == [e] && [d] + [e] == [d, e] && [c] + [d, e] == [c, d, e];
    assert [b] + [c, d, e] == [b, c, d, e] && [a] + [b, c, d, e] == [a, b, c, d, e];
    hide RunsTo;
  }

  lemma {:induction false} RunsOn(keyings: seq<Keying>, o: Overlap, turn: Turn, rest: seq<Turn>, end: Overlap)
    requires TurnOk(keyings, o, turn)
    ensures RunsTo(keyings, NextOverlap(keyings, o, turn), rest, end) ==> RunsTo(keyings, o, [turn] + rest, end)
  {
    hide TurnOk, NextOverlap;
    assert ([turn] + rest)[1..] == rest;
  }

  ghost predicate RunsTo(keyings: seq<Keying>, o: Overlap, run: seq<Turn>, end: Overlap)
    decreases |run|
  {
    if run == [] then o == end
    else TurnOk(keyings, o, run[0]) && RunsTo(keyings, NextOverlap(keyings, o, run[0]), run[1..], end)
  }

  lemma {:induction false} CommitsThenReverts(keying: Keying, o: Overlap, t: Table, key: Key, row: Item, a: Item, b: Item)
    requires a.key == b.key == row.key == Some(key)
    requires o.memory == [Holding(Holding(t, a), b)] && |o.system.seen| == |o.system.observed| == 2 && o.system.backend == [t]
    requires o.flights == map[0 := Flight(0, [Updated(0, key, a, Some(row))]), 1 := Flight(1, [Updated(0, key, b, Some(a))])]
    ensures TurnOk([keying], o, Settle(1, true))
    ensures var committed := NextOverlap([keying], o, Settle(1, true));
      && TurnOk([keying], committed, Settle(0, false))
      && var end := NextOverlap([keying], committed, Settle(0, false));
      && RecordAt(end.memory, (0, key)) == Some(row) && RecordAt(end.system.backend, (0, key)) == Some(b)
  {
    var committed := NextOverlap([keying], o, Settle(1, true));
    var d := Updated(0, key, b, Some(a));
    assert [d][1..] == [];
    assert After([t], [d]) == After(StepBy([t], d), []) == StepBy([t], d);
    assert committed.flights == map[0 := Flight(0, [Updated(0, key, a, Some(row))])];
    RevertAnywhere(o.memory, [Updated(0, key, a, Some(row))], (0, key));
  }
}
