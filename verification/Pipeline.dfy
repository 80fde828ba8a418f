/**
 Callback pipelines of core/src/pipeline/TrampolinePipeline.ts: processors that report at once or
 later, run by a loop that restarts itself on a late report. `WorkPipeline` is the same machine
 with nothing to carry from one unit of work to the next.
 */
module Pipeline {
  import opened Options

  type Error = string

  /** What a processor does with its one callback. */
  datatype Report<T> =
    | Now(value: T)
    | Later(value: T)
    | NowError(error: Error)
    | Throws(error: Error)
    | NowThenThrows(value: T, error: Error)
    | LaterError(error: Error)
    | Silent

  type Processor<!T> = T -> Report<T>

  /** One call of `done`; `throws` below says whether the caller's function throws on it. */
  datatype Completion<T> = Completion(data: T, error: Option<Error>)

  type Listener<!T> = Completion<T> -> Option<Error>

  // ----- what a run comes to -----

  datatype Fate<T> = Completed(value: T) | Failed(data: T, error: Error) | Lost

  function FateFrom<T>(list: seq<Processor<T>>, i: nat, data: T): Fate<T>
    requires i <= |list|
    decreases |list| - i
  {
    if i == |list| then Completed(data)
    else
      match list[i](data)
      case Now(v) => FateFrom(list, i + 1, v)
      case Later(v) => FateFrom(list, i + 1, v)
      case NowError(e) => Failed(data, e)
      case Throws(e) => Failed(data, e)
      case NowThenThrows(v, e) => Failed(v, e)
      case _ => Lost
  }

  datatype Call<T> = Call(index: nat, data: T)

  /** The processors called, in order, each with what it was given. */
  function TraceFrom<T>(list: seq<Processor<T>>, i: nat, data: T): seq<Call<T>>
    requires i <= |list|
    decreases |list| - i
  {
    if i == |list| then []
    else
      [Call(i, data)] +
      (match list[i](data)
       case Now(v) => TraceFrom(list, i + 1, v)
       case Later(v) => TraceFrom(list, i + 1, v)
       case _ => [])
  }

  /** How many reports come late, a late error among them. */
  function LateFrom<T>(list: seq<Processor<T>>, i: nat, data: T): nat
    requires i <= |list|
    decreases |list| - i
  {
    if i == |list| then 0
    else
      match list[i](data)
      case Now(v) => LateFrom(list, i + 1, v)
      case Later(v) => 1 + LateFrom(list, i + 1, v)
      case _ => 0
  }

  /** The calls `done` receives: a `done` that throws is told of its own error. */
  function ErrorCalls<T>(done: Listener<T>, data: T, error: Error, guarded: bool): seq<Completion<T>> {
    var c := Completion(data, Some(error));
    [c] + if done(c).Some? && guarded then [Completion(data, done(c))] else []
  }

  function Calls<T>(done: Listener<T>, fate: Fate<T>, guarded: bool): seq<Completion<T>> {
    match fate
    case Completed(v) =>
      var c := Completion(v, None);
      [c] + if done(c).Some? then ErrorCalls(done, v, done(c).value, guarded) else []
    case Failed(d, e) => ErrorCalls(done, d, e, guarded)
    case Lost => []
  }

  /** Without processors `done` is called outside every guard. */
  function AllCalls<T>(list: seq<Processor<T>>, done: Listener<T>, data: T): seq<Completion<T>> {
    if list == [] then [Completion(data, None)]
    else Calls(done, FateFrom(list, 0, data), LateFrom(list, 0, data) == 0)
  }

  // ----- what that means -----

  /** The composition of what the processors report, whenever they all report success. */
  function Composed<T>(list: seq<Processor<T>>, n: nat, data: T): T
    requires n <= |list|
  {
    if n == 0 then data
    else
      var before := Composed(list, n - 1, data);
      match list[n - 1](before)
      case Now(v) => v
      case Later(v) => v
      case _ => before
  }

  predicate Succeeds<T>(list: seq<Processor<T>>, n: nat, data: T)
    requires n < |list|
  {
    var r := list[n](Composed(list, n, data)); r.Now? || r.Later?
  }

  predicate AllSucceed<T>(list: seq<Processor<T>>, n: nat, data: T)
    requires n <= |list|
  {
    forall k | 0 <= k < n :: Succeeds(list, k, data)
  }

  /** The first `n` processors, each given what the ones before it made. */
  function TraceTo<T>(list: seq<Processor<T>>, n: nat, data: T): (r: seq<Call<T>>)
    requires n <= |list|
    ensures |r| == n && forall k | 0 <= k < n :: r[k] == Call(k, Composed(list, k, data))
  {
    if n == 0 then [] else TraceTo(list, n - 1, data) + [Call(n - 1, Composed(list, n - 1, data))]
  }

  lemma {:induction false} RunReaches<T>(list: seq<Processor<T>>, n: nat, data: T)
    requires n <= |list| && AllSucceed(list, n, data)
    ensures FateFrom(list, 0, data) == FateFrom(list, n, Composed(list, n, data))
    ensures TraceFrom(list, 0, data) == TraceTo(list, n, data) + TraceFrom(list, n, Composed(list, n, data))
  {
    if n > 0 {
      RunReaches(list, n - 1, data);
      assert Succeeds(list, n - 1, data);
      Onward(list, n - 1, Composed(list, n - 1, data), TraceTo(list, n - 1, data));
    }
  }

  /** What a successful report does to the rest of the run. */
  lemma {:induction false} Onward<T>(list: seq<Processor<T>>, i: nat, data: T, trace: seq<Call<T>>)
    requires i < |list| && (list[i](data).Now? || list[i](data).Later?)
    ensures var v := list[i](data).value;
      && FateFrom(list, i, data) == FateFrom(list, i + 1, v)
      && trace + TraceFrom(list, i, data) == trace + [Call(i, data)] + TraceFrom(list, i + 1, v)
      && LateFrom(list, i, data) == LateFrom(list, i + 1, v) + if list[i](data).Later? then 1 else 0
  {
    var v := list[i](data).value;
    assert TraceFrom(list, i, data) == [Call(i, data)] + TraceFrom(list, i + 1, v);
    assert trace + ([Call(i, data)] + TraceFrom(list, i + 1, v)) == trace + [Call(i, data)] + TraceFrom(list, i + 1, v);
  }

  lemma {:induction false} Endward<T>(list: seq<Processor<T>>, i: nat, data: T, trace: seq<Call<T>>)
    requires i < |list| && !list[i](data).Now? && !list[i](data).Later?
    ensures trace + TraceFrom(list, i, data) == trace + [Call(i, data)] && LateFrom(list, i, data) == 0
  {
    assert TraceFrom(list, i, data) == [Call(i, data)] + [];
  }

  /** A run completes exactly when every processor succeeds on what the ones before it made. */
  lemma {:induction false} CompletesIff<T>(list: seq<Processor<T>>, data: T)
    ensures FateFrom(list, 0, data).Completed? <==> AllSucceed(list, |list|, data)
    ensures AllSucceed(list, |list|, data) ==>
      FateFrom(list, 0, data) == Completed(Composed(list, |list|, data))
  {
    if AllSucceed(list, |list|, data) {
      RunReaches(list, |list|, data);
    } else {
      var k := FirstFailure(list, |list|, data);
      RunReaches(list, k, data);
    }
  }

  function FirstFailure<T>(list: seq<Processor<T>>, n: nat, data: T): (k: nat)
    requires n <= |list| && !AllSucceed(list, n, data)
    ensures k < n && AllSucceed(list, k, data) && !Succeeds(list, k, data)
  {
    if AllSucceed(list, n - 1, data) then n - 1 else FirstFailure(list, n - 1, data)
  }

  /** Each processor up to the first that does not succeed runs once, in order; none after it runs. */
  lemma {:induction false} EachRunsOnceInOrder<T>(list: seq<Processor<T>>, data: T)
    ensures var n := if AllSucceed(list, |list|, data) then |list| else FirstFailure(list, |list|, data) + 1;
      TraceFrom(list, 0, data) == TraceTo(list, n, data)
  {
    if AllSucceed(list, |list|, data) {
      RunReaches(list, |list|, data);
    } else {
      var k := FirstFailure(list, |list|, data);
      RunReaches(list, k, data);
      Endward(list, k, Composed(list, k, data), TraceTo(list, k, data));
    }
  }

  /** One of the first `n` processors reports its success late. */
  predicate LateBefore<T>(list: seq<Processor<T>>, n: nat, data: T)
    requires n <= |list|
  {
    exists i | 0 <= i < n :: list[i](Composed(list, i, data)).Later?
  }

  /** What the first processor not to succeed makes `done` hear: nothing, when it errs late or never reports. */
  function Told<T>(list: seq<Processor<T>>, k: nat, data: T): Option<Completion<T>>
    requires k < |list|
  {
    var before := Composed(list, k, data);
    match list[k](before)
    case NowError(e) => Some(Completion(before, Some(e)))
    case Throws(e) => Some(Completion(before, Some(e)))
    case NowThenThrows(v, e) => Some(Completion(v, Some(e)))
    case _ => None
  }

  lemma {:induction false} OneMoreLate<T>(list: seq<Processor<T>>, n: nat, data: T)
    requires 0 < n <= |list|
    ensures LateBefore(list, n, data) <==> LateBefore(list, n - 1, data) || list[n - 1](Composed(list, n - 1, data)).Later?
  {
    hide Composed;
  }

  lemma {:induction false} LateReaches<T>(list: seq<Processor<T>>, n: nat, data: T)
    requires n <= |list| && AllSucceed(list, n, data)
    ensures LateFrom(list, 0, data) >= LateFrom(list, n, Composed(list, n, data))
    ensures LateFrom(list, 0, data) > LateFrom(list, n, Composed(list, n, data)) <==> LateBefore(list, n, data)
  {
    hide FateFrom, TraceFrom;
    if n > 0 {
      var before := Composed(list, n - 1, data);
      assert Succeeds(list, n - 1, data) && Composed(list, n, data) == list[n - 1](before).value;
      hide LateBefore, Composed;
      OneMoreLate(list, n, data);
      LateReaches(list, n - 1, data);
      Onward(list, n - 1, before, []);
    }
  }

  /**
   How often `done` is called, from the processors alone. When all succeed: with their
   composition first, and once exactly when it takes that without throwing (or there is no
   processor). Otherwise the first that does not succeed decides: not at all when its error
   comes late or nothing comes; else first with that error, and once exactly when `done` takes
   it without throwing, or an earlier report came late and left no guard to tell it again.
   */
  lemma {:induction false} DoneOnceIff<T>(list: seq<Processor<T>>, done: Listener<T>, data: T)
    ensures AllSucceed(list, |list|, data) ==>
      var calls, c := AllCalls(list, done, data), Completion(Composed(list, |list|, data), None);
      calls != [] && calls[0] == c && (|calls| == 1 <==> list == [] || done(c).None?)
    ensures !AllSucceed(list, |list|, data) ==>
      var calls, k := AllCalls(list, done, data), FirstFailure(list, |list|, data);
      && (calls == [] <==> Told(list, k, data).None?)
      && (calls != [] ==>
            var c := Told(list, k, data).value;
            calls[0] == c && (|calls| == 1 <==> done(c).None? || LateBefore(list, k, data)))
  {
    if AllSucceed(list, |list|, data) {
      CompletesIff(list, data);
    } else {
      var k := FirstFailure(list, |list|, data);
      RunReaches(list, k, data);
      LateReaches(list, k, data);
      Endward(list, k, Composed(list, k, data), []);
    }
  }

  // ----- the machine -----

  datatype Waiting<T> = Waiting(index: nat, report: Report<T>)

  /** The variables of one call of `filter`, and what the outside has seen of it. */
  class Run<T(!new)> {
    const list: seq<Processor<T>>
    const initial: T
    const done: Listener<T>
    var currentData: T
    var hasErrored: bool
    var isRunning: bool
    var waiting: Option<Waiting<T>>
    var completions: seq<Completion<T>>
    ghost var trace: seq<Call<T>>
    ghost var starts: nat

    constructor (list: seq<Processor<T>>, initial: T, done: Listener<T>)
      ensures this.list == list && this.initial == initial && this.done == done
      ensures Fresh()
    {
      this.list := list;
      this.initial := initial;
      this.done := done;
      currentData := initial;
      hasErrored, isRunning := false, false;
      waiting := None;
      completions := [];
      trace := [];
      starts := 0;
    }

    ghost predicate Fresh()
      reads this
    {
      currentData == initial && !hasErrored && !isRunning && waiting.None? && completions == [] && trace == [] && starts == 0
    }

    /** The run stands before processor `i`, with nothing reported yet. */
    ghost predicate Before(i: nat)
      reads this
    {
      && i <= |list| && !hasErrored && waiting.None? && completions == [] && starts > 0
      && FateFrom(list, 0, initial) == FateFrom(list, i, currentData)
      && trace + TraceFrom(list, i, currentData) == TraceFrom(list, 0, initial)
      && starts + LateFrom(list, i, currentData) == 1 + LateFrom(list, 0, initial)
    }

    /** The run stands still until a processor's report arrives. */
    ghost predicate Paused()
      reads this
    {
      && waiting.Some? && !hasErrored && !isRunning && completions == [] && starts > 0
      && var i := waiting.value.index;
      && i < |list|
      && match waiting.value.report
         case Later(v) =>
           && FateFrom(list, 0, initial) == FateFrom(list, i + 1, v)
           && trace + TraceFrom(list, i + 1, v) == TraceFrom(list, 0, initial)
           && starts + 1 + LateFrom(list, i + 1, v) == 1 + LateFrom(list, 0, initial)
         case LaterError(e) => LostHere()
         case Silent => LostHere()
         case _ => false
    }

    ghost predicate LostHere()
      reads this
    {
      FateFrom(list, 0, initial).Lost? && trace == TraceFrom(list, 0, initial) && starts == 1 + LateFrom(list, 0, initial)
    }

    /** The run is over, and the outside has seen what it should. */
    ghost predicate Over()
      reads this
    {
      && waiting.None? && !isRunning
      && completions == Calls(done, FateFrom(list, 0, initial), LateFrom(list, 0, initial) == 0)
      && trace == TraceFrom(list, 0, initial) && starts == 1 + LateFrom(list, 0, initial)
    }

    /** All but the outermost guard has run: `thrown` is what `done` threw on an error. */
    ghost predicate AlmostOver(thrown: Option<Error>)
      reads this
    {
      && waiting.None? && !isRunning
      && completions == Calls(done, FateFrom(list, 0, initial), false)
      && trace == TraceFrom(list, 0, initial) && starts == 1 + LateFrom(list, 0, initial)
      && (thrown.None? ==> completions == Calls(done, FateFrom(list, 0, initial), true))
      && (thrown.Some? ==> completions + [Completion(currentData, thrown)] == Calls(done, FateFrom(list, 0, initial), true))
    }

    /** Calls `done`; what it throws comes back. */
    method Done(data: T, error: Option<Error>) returns (thrown: Option<Error>)
      modifies this`completions
      ensures completions == old(completions) + [Completion(data, error)] && thrown == done(Completion(data, error))
    {
      completions := completions + [Completion(data, error)];
      thrown := done(Completion(data, error));
    }

    /** One step: the next one to run, none when the run waits or ends, or an error thrown. */
    method Step(i: nat) returns (next: Option<nat>, thrown: Option<Error>)
      requires Before(i) && isRunning
      modifies this
      ensures isRunning && starts == old(starts)
      ensures waiting.Some? ==> waiting.value.index == i
      ensures next.Some? ==> thrown.None? && next.value == i + 1 && Before(i + 1)
      ensures next.None? && thrown.None? ==> StoppedAt()
      ensures next.None? && thrown.Some? ==> Thrown(thrown.value)
    {
      next, thrown := None, None;
      if i >= |list| {
        assert trace + [] == trace;
        thrown := Done(currentData, None);
        return;
      }
      var report := list[i](currentData);
      if report.Now? || report.Later? {
        Onward(list, i, currentData, trace);
      } else {
        Endward(list, i, currentData, trace);
      }
      trace := trace + [Call(i, currentData)];
      match report {
        case Now(v) =>
          currentData := v;
          next := Some(i + 1);
        case NowError(e) =>
          hasErrored := true;
          thrown := Some(e);
        case Throws(e) =>
          hasErrored := true;
          thrown := Some(e);
        case NowThenThrows(v, e) =>
          currentData := v;
          hasErrored := true;
          thrown := Some(e);
        case _ =>
          waiting := Some(Waiting(i, report));
      }
    }

    /** The step ended the run, or left it waiting. */
    ghost predicate StoppedAt()
      reads this
    {
      if waiting.Some? then
        && !hasErrored && completions == [] && starts > 0
        && waiting.value.index < |list|
        && match waiting.value.report
           case Later(v) =>
             && FateFrom(list, 0, initial) == FateFrom(list, waiting.value.index + 1, v)
             && trace + TraceFrom(list, waiting.value.index + 1, v) == TraceFrom(list, 0, initial)
             && starts + 1 + LateFrom(list, waiting.value.index + 1, v) == 1 + LateFrom(list, 0, initial)
           case LaterError(e) => LostHere()
           case Silent => LostHere()
           case _ => false
      else
        && completions == Calls(done, FateFrom(list, 0, initial), false) == Calls(done, FateFrom(list, 0, initial), true)
        && trace == TraceFrom(list, 0, initial) && starts == 1 + LateFrom(list, 0, initial)
    }

    ghost predicate Thrown(e: Error)
      reads this
    {
      && waiting.None? && trace == TraceFrom(list, 0, initial) && starts == 1 + LateFrom(list, 0, initial)
      && completions + ErrorCalls(done, currentData, e, false) == Calls(done, FateFrom(list, 0, initial), false)
      && completions + ErrorCalls(done, currentData, e, true) == Calls(done, FateFrom(list, 0, initial), true)
    }

    /** An error thrown out of a step: `done` is told of it. */
    method Catch(error: Error) returns (thrown: Option<Error>)
      requires Thrown(error)
      modifies this
      ensures starts == old(starts) && waiting.None? && AlmostOver(thrown)
    {
      hide FateFrom, TraceFrom, LateFrom, Calls;
      hasErrored := true;
      isRunning := false;
      thrown := Done(currentData, Some(error));
    }

    /** Runs steps one after another until one waits, ends the run or throws; never inside itself. */
    method Trampoline(start: nat) returns (thrown: Option<Error>)
      requires Before(start) && !isRunning
      modifies this
      ensures starts == old(starts)
      ensures waiting.Some? ==> waiting.value.index >= start
      ensures (thrown.None? && Paused()) || AlmostOver(thrown)
    {
      isRunning := true;
      thrown := None;
      var step := Some(start);
      while step.Some?
        invariant isRunning && starts == old(starts) && thrown.None?
        invariant if step.Some? then Before(step.value) && step.value >= start else StoppedAt()
        invariant waiting.Some? ==> waiting.value.index >= start
        decreases if step.Some? then |list| + 1 - step.value else 0
      {
        var next, error := Step(step.value);
        if error.Some? {
          thrown := Catch(error.value);
          return;
        }
        step := next;
      }
      isRunning := false;
    }

    /** A run from its start: it comes to its end, or to a report that is not there yet. */
    method Filter() returns (thrown: Option<Error>)
      requires Fresh()
      modifies this
      ensures Paused() || Over() || (list == [] && completions == AllCalls(list, done, initial))
      ensures Paused() ==> starts == 1
    {
      thrown := None;
      if |list| == 0 {
        thrown := Done(initial, None);
        return;
      }
      starts := 1;
      assert trace + TraceFrom(list, 0, initial) == TraceFrom(list, 0, initial);
      var error := Trampoline(0);
      if error.Some? {
        thrown := Done(currentData, error);
      }
    }

    /** A late report arrives: an error is thrown to the reporter, a value restarts the loop. */
    method Arrive() returns (thrown: Option<Error>)
      requires Paused() && !waiting.value.report.Silent?
      modifies this
      ensures var w := old(waiting.value);
        if w.report.LaterError? then thrown == Some(w.report.error) && completions == [] && hasErrored && waiting.None?
        else (Paused() && waiting.value.index > w.index) || Over()
    {
      var w := waiting.value;
      waiting := None;
      if w.report.LaterError? {
        hasErrored := true;
        return Some(w.report.error);
      }
      currentData := w.report.value;
      starts := starts + 1;
      thrown := Trampoline(w.index + 1);
    }

    /** Every report that will come has come. */
    method RunToEnd()
      requires Fresh() && list != []
      modifies this
      ensures completions == AllCalls(list, done, initial) && trace == TraceFrom(list, 0, initial)
      ensures starts == 1 + LateFrom(list, 0, initial)
    {
      var thrown := Filter();
      while waiting.Some? && waiting.value.report.Later?
        invariant Paused() || Over()
        decreases if waiting.Some? then |list| - waiting.value.index else -1
      {
        thrown := Arrive();
      }
    }
  }
}
