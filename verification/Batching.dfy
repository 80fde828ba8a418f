/**
 The write queue of core/src/plugins/BatchingDbPlugin.ts as a step machine over an abstract
 inner plugin.

 Every callback is a step of its own, so another caller (or the caller just answered, from
 inside its own callback) can submit a write or destroy the plugin between any two steps.
 */
module Batching {
  import opened Options

  type SchemaId = nat
  type Schema(==, !new)
  type Changes(==, !new)
  type Table(==, !new)
  type Record(==, !new)
  type Error(==, !new)

  /** What a plugin hands back for one schema. */
  datatype Echo = Echo(adds: seq<Record>, updates: seq<Record>, removes: seq<Record>)

  const NOTHING := Echo([], [], [])

  type Operation = map<SchemaId, Changes>
  type Db = map<SchemaId, Table>

  datatype Event = Event(operation: Operation, schemas: map<SchemaId, Schema>)

  /** A caller's write; the ticket stands for its callback. */
  datatype Write = Write(ticket: nat, event: Event)

  datatype Reply =
    | Stored(data: map<SchemaId, Echo>)
    | Partial(data: map<SchemaId, Echo>, error: Option<Error>)
    | Failed(error: Option<Error>)
    | Destroyed

  datatype Answer = Answer(write: Write, reply: Reply)

  datatype Written = Written(db: Db, reply: Reply)

  /** `write` is the inner plugin's `bulkPersist`. */
  datatype Config = Config(write: (Db, Operation) -> Written, canMerge: bool, maxBatchSize: nat)

  predicate ConfigOk(cfg: Config) { cfg.maxBatchSize >= 1 }

  // ----- an atomic inner plugin -----

  datatype Effect = Applied(table: Table, echo: Option<Echo>) | Rejected

  /** What a write does to one schema's table, given only that table and its changes. */
  type Inner = (SchemaId, Option<Table>, Changes) -> Effect

  /** What a failed write reports: any error, of its own for every write. */
  type ErrorOf = (Db, Operation) -> Option<Error>

  function TableOf(db: Db, s: SchemaId): Option<Table> { if s in db then Some(db[s]) else None }

  function EffectOn(inner: Inner, db: Db, op: Operation, s: SchemaId): Effect
    requires s in op
  {
    inner(s, TableOf(db, s), op[s])
  }

  predicate AnyRejected(inner: Inner, db: Db, op: Operation) {
    exists s | s in op :: EffectOn(inner, db, op, s).Rejected?
  }

  function Tables(inner: Inner, db: Db, op: Operation): Db {
    map s | s in op && EffectOn(inner, db, op, s).Applied? :: EffectOn(inner, db, op, s).table
  }

  function Echoes(inner: Inner, db: Db, op: Operation): map<SchemaId, Echo> {
    map s | s in op && EffectOn(inner, db, op, s).Applied? && EffectOn(inner, db, op, s).echo.Some?
      :: EffectOn(inner, db, op, s).echo.value
  }

  /** All schemas or none: a failed write leaves nothing applied. */
  function WriteAll(inner: Inner, error: ErrorOf, db: Db, op: Operation): Written {
    if AnyRejected(inner, db, op) then Written(db, Failed(error(db, op)))
    else Written(db + Tables(inner, db, op), Stored(Echoes(inner, db, op)))
  }

  /** The promise behind `isAtomic`, with each schema's outcome a matter of its own table. */
  ghost predicate Atomic(cfg: Config, inner: Inner, error: ErrorOf) {
    forall db, op :: cfg.write(db, op) == WriteAll(inner, error, db, op)
  }

  // ----- preparing a batch -----

  function SchemasOf(w: Write): set<SchemaId> { w.event.operation.Keys }

  /** Joins the last group unless it claims one of the item's schemas already. */
  function PrepareFrom(canMerge: bool, groups: seq<seq<Write>>, claimed: set<SchemaId>, batch: seq<Write>)
    : (r: seq<seq<Write>>)
    ensures groups != [] || batch != [] ==> r != []
    decreases |batch|
  {
    if batch == [] then groups
    else
      var item := batch[0];
      if groups == [] || !(SchemasOf(item) !! claimed) || !canMerge then
        PrepareFrom(canMerge, groups + [[item]], SchemasOf(item), batch[1..])
      else
        PrepareFrom(canMerge, groups[..|groups| - 1] + [groups[|groups| - 1] + [item]], claimed + SchemasOf(item), batch[1..])
  }

  function Prepare(canMerge: bool, batch: seq<Write>): seq<seq<Write>> {
    PrepareFrom(canMerge, [], {}, batch)
  }

  /** The union of the items' operations, a later item's entry winning. */
  function MergedOperation(items: seq<Write>): Operation {
    if items == [] then map[]
    else MergedOperation(items[..|items| - 1]) + items[|items| - 1].event.operation
  }

  function MergedSchemas(items: seq<Write>): map<SchemaId, Schema> {
    if items == [] then map[]
    else MergedSchemas(items[..|items| - 1]) + items[|items| - 1].event.schemas
  }

  function MergeEvents(items: seq<Write>): Event
    requires items != []
  {
    if |items| == 1 then items[0].event else Event(MergedOperation(items), MergedSchemas(items))
  }

  // ----- splitting a result -----

  function DataOf(data: map<SchemaId, Echo>, op: Operation): map<SchemaId, Echo> {
    map s | s in op :: if s in data then data[s] else NOTHING
  }

  function SplitOne(reply: Reply, item: Write): Answer
    requires reply.Stored? || reply.Partial?
  {
    var mine := DataOf(reply.data, item.event.operation);
    Answer(item, if reply.Partial? then Partial(mine, reply.error) else Stored(mine))
  }

  function Split(reply: Reply, items: seq<Write>): seq<Answer>
    requires reply.Stored? || reply.Partial?
  {
    if items == [] then [] else [SplitOne(reply, items[0])] + Split(reply, items[1..])
  }

  // ----- the machine -----

  /** What the drain in progress still has to write, in order. */
  datatype Plan = Plan(individually: seq<Write>, groups: seq<seq<Write>>)

  datatype Job =
    | Idle
    | Awaiting(items: seq<Write>, plan: Plan)            // one inner write is out
    | Delivering(pending: seq<Answer>, plan: Plan)       // answers still to hand out

  datatype Teardown = NotCalled | Failing(left: seq<Write>) | Forwarded

  datatype State = State(
    db: Db,
    queue: seq<Write>,
    isWriting: bool,
    isDestroyed: bool,
    onSettled: bool,
    job: Job,
    teardown: Teardown,
    innerWrites: nat,          // inner writes issued
    innerReplies: nat,         // inner writes called back
    innerDestroys: nat,
    accepted: seq<Write>,      // history: writes taken into the queue
    answers: seq<Answer>,      // history: answers given from the drain
    failed: seq<Write>,        // history: queued writes failed by destroy
    refused: seq<Write>)       // history: writes submitted after destroy

  function Init(db: Db): State {
    State(db, [], false, false, false, Idle, NotCalled, 0, 0, 0, [], [], [], [])
  }

  datatype Step =
    | Arrive(write: Write, prepareThrows: bool)
    | InnerDone(spurious: bool)       // `spurious` fails a merged write the inner could have applied
    | Deliver
    | Continue(throws: bool)
    | Destroy
    | FailNext
    | Forward

  predicate Enabled(s: State, step: Step) {
    match step
    case Arrive(_, _) => true
    case InnerDone(_) => s.job.Awaiting? && s.job.items != []
    case Deliver => s.job.Delivering? && s.job.pending != []
    case Continue(_) => s.job.Delivering? && s.job.pending == []
    case Destroy => s.teardown.NotCalled?
    case FailNext => s.teardown.Failing? && s.teardown.left != []
    case Forward => s.teardown.Failing? && s.teardown.left == []
  }

  /** The latch comes down; a waiting destroy is forwarded. */
  function Settle(s: State): State {
    s.(isWriting := false, job := Idle, onSettled := false,
       innerDestroys := if s.onSettled then s.innerDestroys + 1 else s.innerDestroys)
  }

  function Issue(s: State, items: seq<Write>, plan: Plan): State {
    s.(isWriting := true, job := Awaiting(items, plan), innerWrites := s.innerWrites + 1)
  }

  function Drain(cfg: Config, s: State, throws: bool): State {
    var n := if |s.queue| <= cfg.maxBatchSize then |s.queue| else cfg.maxBatchSize;
    if n == 0 then Settle(s)
    else
      var batch := s.queue[..n];
      var s' := s.(queue := s.queue[n..]);
      if throws then Issue(s', [batch[0]], Plan(batch[1..], []))
      else
        var groups := Prepare(cfg.canMerge, batch);
        Issue(s', groups[0], Plan([], groups[1..]))
  }

  /** The next write of the plan, or the next drain. */
  function Advance(cfg: Config, s: State, plan: Plan, throws: bool): State {
    if plan.individually != [] then Issue(s, [plan.individually[0]], plan.(individually := plan.individually[1..]))
    else if plan.groups != [] then Issue(s, plan.groups[0], plan.(groups := plan.groups[1..]))
    else Drain(cfg, s, throws)
  }

  function Completed(cfg: Config, s: State, spurious: bool): State
    requires s.job.Awaiting? && s.job.items != []
  {
    var items, plan := s.job.items, s.job.plan;
    var s' := s.(innerReplies := s.innerReplies + 1);
    if |items| == 1 then
      var w := cfg.write(s.db, items[0].event.operation);
      s'.(db := w.db, job := Delivering([Answer(items[0], w.reply)], plan))
    else
      var w := if spurious then Written(s.db, Failed(None)) else cfg.write(s.db, MergeEvents(items).operation);
      if w.reply.Failed? || w.reply.Destroyed? then
        Issue(s'.(db := w.db), [items[0]], plan.(individually := items[1..] + plan.individually))
      else
        s'.(db := w.db, job := Delivering(Split(w.reply, items), plan))
  }

  function Next(cfg: Config, s: State, step: Step): State
    requires Enabled(s, step)
  {
    match step
    case Arrive(w, throws) =>
      if s.isDestroyed then s.(refused := s.refused + [w])
      else
        var s' := s.(queue := s.queue + [w], accepted := s.accepted + [w]);
        if s.isWriting then s' else Drain(cfg, s', throws)
    case InnerDone(spurious) => Completed(cfg, s, spurious)
    case Deliver =>
      s.(answers := s.answers + [s.job.pending[0]], job := s.job.(pending := s.job.pending[1..]))
    case Continue(throws) => Advance(cfg, s, s.job.plan, throws)
    case Destroy => s.(isDestroyed := true, teardown := Failing(s.queue), queue := [])
    case FailNext => s.(failed := s.failed + [s.teardown.left[0]], teardown := Failing(s.teardown.left[1..]))
    case Forward =>
      if s.isWriting then s.(teardown := Forwarded, onSettled := true)
      else s.(teardown := Forwarded, innerDestroys := s.innerDestroys + 1)
  }

  ghost predicate RunOk(cfg: Config, s: State, run: seq<Step>)
    decreases |run|
  {
    run == [] || (Enabled(s, run[0]) && RunOk(cfg, Next(cfg, s, run[0]), run[1..]))
  }

  function Run(cfg: Config, s: State, run: seq<Step>): State
    requires RunOk(cfg, s, run)
    decreases |run|
  {
    if run == [] then s else Run(cfg, Next(cfg, s, run[0]), run[1..])
  }

  // ----- writing one item at a time -----

  /** What a run of single writes leaves and answers. */
  datatype Ran = Ran(db: Db, answers: seq<Answer>)

  /** The reference: the writes sent to the inner plugin one by one, in arrival order. */
  function OneByOne(cfg: Config, db: Db, writes: seq<Write>): Ran
    decreases |writes|
  {
    if writes == [] then Ran(db, [])
    else
      var before := OneByOne(cfg, db, writes[..|writes| - 1]);
      var last := writes[|writes| - 1];
      var w := cfg.write(before.db, last.event.operation);
      Ran(w.db, before.answers + [Answer(last, w.reply)])
  }

  /** A schema the plugin had nothing to echo for reads as an empty result. */
  function Filled(a: Answer): Answer {
    match a.reply
    case Stored(data) => Answer(a.write, Stored(DataOf(data, a.write.event.operation)))
    case Partial(data, error) => Answer(a.write, Partial(DataOf(data, a.write.event.operation), error))
    case _ => a
  }

  /** Two lists of answers that a caller reading by schema cannot tell apart. */
  predicate SameAnswers(a: seq<Answer>, b: seq<Answer>) {
    |a| == |b| && forall i | 0 <= i < |a| :: Filled(a[i]) == Filled(b[i])
  }

  function WritesOf(answers: seq<Answer>): (r: seq<Write>)
    ensures |r| == |answers| && forall i | 0 <= i < |r| :: r[i] == answers[i].write
  {
    seq(|answers|, i requires 0 <= i < |answers| => answers[i].write)
  }

  function Concat(groups: seq<seq<Write>>): seq<Write> {
    if groups == [] then [] else groups[0] + Concat(groups[1..])
  }
}
