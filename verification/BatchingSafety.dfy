/** The invariant of the write queue, over every run and every interleaving of callbacks. */
module BatchingSafety {
  import opened Options
  import opened Batching
  import opened BatchingProofs

  function Pending(job: Job): seq<Answer> {
    if job.Delivering? then job.pending else []
  }

  /** Answers given and answers settled but not yet handed out. */
  function Settled(s: State): seq<Answer> { s.answers + Pending(s.job) }

  function PlanWrites(plan: Plan): seq<Write> { plan.individually + Concat(plan.groups) }

  /** Writes taken out of the queue and not yet applied. */
  function Outstanding(job: Job): seq<Write> {
    match job
    case Idle => []
    case Awaiting(items, plan) => items + PlanWrites(plan)
    case Delivering(_, plan) => PlanWrites(plan)
  }

  function Dropping(t: Teardown): seq<Write> { if t.Failing? then t.left else [] }

  /** Every accepted write is in exactly one place, in arrival order. */
  predicate Conserved(s: State) {
    s.accepted == WritesOf(Settled(s)) + Outstanding(s.job) + s.queue + s.failed + Dropping(s.teardown)
  }

  /** The tables and answers so far are those of writing the settled writes one at a time. */
  predicate Refines(cfg: Config, db0: Db, s: State) {
    var reference := OneByOne(cfg, db0, WritesOf(Settled(s)));
    s.db == reference.db && SameAnswers(Settled(s), reference.answers)
  }

  ghost predicate JobOk(canMerge: bool, job: Job) {
    match job
    case Idle => true
    case Awaiting(items, plan) => GroupOk(canMerge, items) && GroupsOk(canMerge, plan.groups)
    case Delivering(_, plan) => GroupsOk(canMerge, plan.groups)
  }

  /** The latch is up exactly while something is in flight, and nothing waits behind a latch that is down. */
  predicate LatchOk(s: State) {
    && (s.isWriting <==> !s.job.Idle?)
    && (s.job.Idle? ==> s.queue == [])
    && s.innerWrites == s.innerReplies + if s.job.Awaiting? then 1 else 0
  }

  /** Teardown: the queue is failed first, and the inner destroy follows the write in flight. */
  predicate TeardownOk(s: State) {
    && (s.isDestroyed <==> !s.teardown.NotCalled?)
    && (s.isDestroyed ==> s.queue == [])
    && (!s.isDestroyed ==> s.failed == [] && s.refused == [])
    && (s.onSettled <==> s.teardown.Forwarded? && s.innerDestroys == 0)
    && (s.onSettled ==> s.isWriting)
    && s.innerDestroys <= 1
    && (s.innerDestroys == 1 ==> s.teardown.Forwarded? && s.job.Idle?)
  }

  /** What a state could break. */
  datatype Fault = Sound | LostWrite | Diverged | BadJob | BadLatch | BadTeardown

  ghost function FaultOf(cfg: Config, db0: Db, s: State): Fault {
    if !Conserved(s) then LostWrite
    else if !Refines(cfg, db0, s) then Diverged
    else if !JobOk(cfg.canMerge, s.job) then BadJob
    else if !LatchOk(s) then BadLatch
    else if !TeardownOk(s) then BadTeardown
    else Sound
  }

  ghost predicate Inv(cfg: Config, db0: Db, s: State) { FaultOf(cfg, db0, s) == Sound }

  /** What `isAtomic` promises; without it no two writes are merged and nothing is asked of the inner plugin. */
  ghost predicate Promise(cfg: Config, inner: Inner, error: ErrorOf) {
    ConfigOk(cfg) && (cfg.canMerge ==> Atomic(cfg, inner, error))
  }

  // ----- moving work along -----

  /** Everything of `Inv` but the latch, for the moment between two plans. */
  ghost predicate Between(cfg: Config, db0: Db, s: State, plan: Plan) {
    var reference := OneByOne(cfg, db0, WritesOf(s.answers));
    && s.accepted == WritesOf(s.answers) + PlanWrites(plan) + s.queue + s.failed + Dropping(s.teardown)
    && s.db == reference.db && SameAnswers(s.answers, reference.answers)
    && GroupsOk(cfg.canMerge, plan.groups)
    && s.innerWrites == s.innerReplies
    && TeardownOk(s.(isWriting := true, job := Delivering([], plan)))
  }

  lemma {:induction false} IssueKeeps(cfg: Config, db0: Db, s: State, plan: Plan, items: seq<Write>, rest: Plan)
    requires Between(cfg, db0, s, plan)
    requires PlanWrites(plan) == items + PlanWrites(rest) && GroupOk(cfg.canMerge, items) && GroupsOk(cfg.canMerge, rest.groups)
    ensures Inv(cfg, db0, Issue(s, items, rest))
  {
    var s' := Issue(s, items, rest);
    assert Settled(s') == s.answers;
  }

  lemma {:induction false} SettleKeeps(cfg: Config, db0: Db, s: State)
    requires Between(cfg, db0, s, Plan([], [])) && s.queue == []
    ensures Inv(cfg, db0, Settle(s))
  {
    var s' := Settle(s);
    assert Settled(s') == s.answers;
    assert PlanWrites(Plan([], [])) == [];
  }

  /** Taking a batch off the queue moves it into a plan, in order. */
  lemma {:induction false} TakeBatch(cfg: Config, db0: Db, s: State, n: nat, plan: Plan)
    requires Between(cfg, db0, s, Plan([], [])) && n <= |s.queue|
    requires PlanWrites(plan) == s.queue[..n] && GroupsOk(cfg.canMerge, plan.groups)
    ensures Between(cfg, db0, s.(queue := s.queue[n..]), plan)
  {
    assert PlanWrites(Plan([], [])) == [];
    assert s.queue == s.queue[..n] + s.queue[n..];
  }

  lemma {:induction false} DrainKeeps(cfg: Config, db0: Db, s: State, throws: bool)
    requires ConfigOk(cfg) && Between(cfg, db0, s, Plan([], []))
    ensures Inv(cfg, db0, Drain(cfg, s, throws))
  {
    var n := if |s.queue| <= cfg.maxBatchSize then |s.queue| else cfg.maxBatchSize;
    if n == 0 {
      SettleKeeps(cfg, db0, s);
    } else if throws {
      DrainIndividually(cfg, db0, s, n);
    } else {
      DrainInGroups(cfg, db0, s, n);
    }
  }

  lemma {:induction false} DrainIndividually(cfg: Config, db0: Db, s: State, n: nat)
    requires Between(cfg, db0, s, Plan([], [])) && 0 < n <= |s.queue|
    ensures Inv(cfg, db0, Issue(s.(queue := s.queue[n..]), [s.queue[0]], Plan(s.queue[..n][1..], [])))
  {
    var batch := s.queue[..n];
    var plan, rest := Plan(batch, []), Plan(batch[1..], []);
    assert PlanWrites(plan) == batch && PlanWrites(rest) == batch[1..];
    TakeBatch(cfg, db0, s, n, plan);
    assert batch == [batch[0]] + batch[1..];
    IssueKeeps(cfg, db0, s.(queue := s.queue[n..]), plan, [batch[0]], rest);
  }

  lemma {:induction false} DrainInGroups(cfg: Config, db0: Db, s: State, n: nat)
    requires Between(cfg, db0, s, Plan([], [])) && 0 < n <= |s.queue|
    ensures var groups := Prepare(cfg.canMerge, s.queue[..n]);
      Inv(cfg, db0, Issue(s.(queue := s.queue[n..]), groups[0], Plan([], groups[1..])))
  {
    var batch := s.queue[..n];
    var groups := Prepare(cfg.canMerge, batch);
    PrepareIsOrderedAndDisjoint(cfg.canMerge, batch);
    var plan, rest := Plan([], groups), Plan([], groups[1..]);
    assert PlanWrites(plan) == Concat(groups) && PlanWrites(rest) == Concat(groups[1..]);
    TakeBatch(cfg, db0, s, n, plan);
    IssueKeeps(cfg, db0, s.(queue := s.queue[n..]), plan, groups[0], rest);
  }

  lemma {:induction false} AdvanceKeeps(cfg: Config, db0: Db, s: State, plan: Plan, throws: bool)
    requires ConfigOk(cfg) && Between(cfg, db0, s, plan)
    ensures Inv(cfg, db0, Advance(cfg, s, plan, throws))
  {
    if plan.individually != [] {
      var rest := plan.(individually := plan.individually[1..]);
      assert PlanWrites(plan) == [plan.individually[0]] + PlanWrites(rest);
      IssueKeeps(cfg, db0, s, plan, [plan.individually[0]], rest);
    } else if plan.groups != [] {
      var rest := plan.(groups := plan.groups[1..]);
      assert PlanWrites(plan) == plan.groups[0] + PlanWrites(rest);
      IssueKeeps(cfg, db0, s, plan, plan.groups[0], rest);
    } else {
      assert plan == Plan([], []);
      DrainKeeps(cfg, db0, s, throws);
    }
  }

  // ----- the inner plugin answers -----

  lemma {:induction false} WritesOfAppend(a: seq<Answer>, b: seq<Answer>)
    ensures WritesOf(a + b) == WritesOf(a) + WritesOf(b)
  {
  }

  lemma {:induction false} WritesOfSplit(reply: Reply, items: seq<Write>)
    requires reply.Stored? || reply.Partial?
    ensures |Split(reply, items)| == |items| && WritesOf(Split(reply, items)) == items
  {
    forall i | 0 <= i < |items|
      ensures |Split(reply, items)| == |items| && Split(reply, items)[i] == SplitOne(reply, items[i])
    {
      SplitAt(reply, items, i);
    }
    if items == [] { assert Split(reply, items) == []; }
  }

  /** The settled answers grow by `more`, which the reference gives too. */
  lemma {:induction false} SettleMore(cfg: Config, db0: Db, s: State, items: seq<Write>, plan: Plan, db: Db, more: seq<Answer>)
    requires Inv(cfg, db0, s) && s.job == Awaiting(items, plan) && WritesOf(more) == items
    requires db == OneByOne(cfg, db0, WritesOf(s.answers) + items).db
    requires SameAnswers(s.answers + more, OneByOne(cfg, db0, WritesOf(s.answers) + items).answers)
    ensures Inv(cfg, db0, s.(innerReplies := s.innerReplies + 1, db := db, job := Delivering(more, plan)))
  {
    hide OneByOne, SameAnswers;
    var s' := s.(innerReplies := s.innerReplies + 1, db := db, job := Delivering(more, plan));
    assert Settled(s) == s.answers;
    assert Settled(s') == s.answers + more;
    WritesOfAppend(s.answers, more);
    assert Refines(cfg, db0, s');
    assert WritesOf(s.answers) + (items + PlanWrites(plan)) == WritesOf(s.answers) + items + PlanWrites(plan);
    assert Conserved(s');
  }

  /** What the invariant says of a state that waits for the inner plugin. */
  lemma {:induction false} AwaitingGroup(cfg: Config, db0: Db, s: State)
    requires Inv(cfg, db0, s) && s.job.Awaiting?
    ensures s.job.items != [] && Settled(s) == s.answers
    ensures |s.job.items| > 1 ==> cfg.canMerge && Disjoint(s.job.items)
    ensures s.db == OneByOne(cfg, db0, WritesOf(s.answers)).db && SameAnswers(s.answers, OneByOne(cfg, db0, WritesOf(s.answers)).answers)
  {
  }

  lemma {:induction false} SingleDoneKeeps(cfg: Config, db0: Db, s: State, spurious: bool)
    requires Inv(cfg, db0, s) && s.job.Awaiting? && |s.job.items| == 1
    ensures Inv(cfg, db0, Completed(cfg, s, spurious))
  {
    hide Inv;
    var item := s.job.items[0];
    assert s.job.items == [item];
    var before := WritesOf(s.answers);
    AwaitingGroup(cfg, db0, s);
    var w := cfg.write(s.db, item.event.operation);
    assert (before + [item])[..|before + [item]| - 1] == before;
    var was := OneByOne(cfg, db0, before);
    assert OneByOne(cfg, db0, before + [item]) == Ran(w.db, was.answers + [Answer(item, w.reply)]);
    SettleMore(cfg, db0, s, [item], s.job.plan, w.db, [Answer(item, w.reply)]);
  }

  lemma {:induction false} FallbackKeeps(cfg: Config, db0: Db, s: State, items: seq<Write>, plan: Plan)
    requires Inv(cfg, db0, s) && s.job == Awaiting(items, plan) && |items| > 1
    ensures Inv(cfg, db0, Issue(s.(innerReplies := s.innerReplies + 1), [items[0]],
                                plan.(individually := items[1..] + plan.individually)))
  {
    var s' := s.(innerReplies := s.innerReplies + 1);
    var whole := plan.(individually := items + plan.individually);
    var rest := plan.(individually := items[1..] + plan.individually);
    assert Settled(s) == s.answers;
    assert items + PlanWrites(plan) == PlanWrites(whole);
    assert items == [items[0]] + items[1..];
    assert PlanWrites(whole) == [items[0]] + PlanWrites(rest);
    assert Between(cfg, db0, s', whole);
    IssueKeeps(cfg, db0, s', whole, [items[0]], rest);
  }

  lemma {:induction false} SplitFillsAlready(reply: Reply, items: seq<Write>, i: nat)
    requires (reply.Stored? || reply.Partial?) && i < |items|
    ensures Filled(SplitOne(reply, items[i])) == SplitOne(reply, items[i])
  {
    var op := items[i].event.operation;
    assert DataOf(DataOf(reply.data, op), op) == DataOf(reply.data, op);
  }

  /** The split answers of a merged write are those of its items written one by one. */
  lemma {:induction false} SplitIsSequential(inner: Inner, was: Ran, now: Ran, given: seq<Answer>, items: seq<Write>)
    requires RanAs(inner, was, now, items) && SameAnswers(given, was.answers)
    ensures SameAnswers(given + Split(Stored(Echoes(inner, was.db, MergedOperation(items))), items), now.answers)
  {
    var reply := Stored(Echoes(inner, was.db, MergedOperation(items)));
    WritesOfSplit(reply, items);
    var all := given + Split(reply, items);
    forall i | 0 <= i < |all|
      ensures Filled(all[i]) == Filled(now.answers[i])
    {
      if i < |given| {
        assert now.answers[i] == was.answers[i];
      } else {
        var k := i - |given|;
        SplitAt(reply, items, k);
        SplitFillsAlready(reply, items, k);
      }
    }
  }

  lemma {:induction false} MergedDoneKeeps(cfg: Config, inner: Inner, db0: Db, s: State, w: Written)
    requires Inv(cfg, db0, s) && s.job.Awaiting? && |s.job.items| > 1
    requires var op := MergedOperation(s.job.items);
      w == Written(s.db + Tables(inner, s.db, op), Stored(Echoes(inner, s.db, op)))
    requires var before := WritesOf(s.answers);
      RanAs(inner, OneByOne(cfg, db0, before), OneByOne(cfg, db0, before + s.job.items), s.job.items)
    ensures Inv(cfg, db0, s.(innerReplies := s.innerReplies + 1, db := w.db, job := Delivering(Split(w.reply, s.job.items), s.job.plan)))
  {
    var items := s.job.items;
    var before := WritesOf(s.answers);
    assert Settled(s) == s.answers;
    SplitIsSequential(inner, OneByOne(cfg, db0, before), OneByOne(cfg, db0, before + items), s.answers, items);
    WritesOfSplit(w.reply, items);
    SettleMore(cfg, db0, s, items, s.job.plan, w.db, Split(w.reply, items));
  }

  lemma {:induction false} MergedKeeps(cfg: Config, inner: Inner, error: ErrorOf, db0: Db, s: State)
    requires Promise(cfg, inner, error) && Inv(cfg, db0, s) && s.job.Awaiting? && |s.job.items| > 1
    requires !cfg.write(s.db, MergeEvents(s.job.items).operation).reply.Failed?
    ensures Inv(cfg, db0, Completed(cfg, s, false))
  {
    var items := s.job.items;
    AwaitingGroup(cfg, db0, s);
    var w := cfg.write(s.db, MergeEvents(items).operation);
    assert w == WriteAll(inner, error, s.db, MergedOperation(items));
    MergedWriteIsSequential(cfg, inner, error, db0, WritesOf(s.answers), items);
    MergedDoneKeeps(cfg, inner, db0, s, w);
  }

  lemma {:induction false} CompletedKeeps(cfg: Config, inner: Inner, error: ErrorOf, db0: Db, s: State, spurious: bool)
    requires Promise(cfg, inner, error) && Inv(cfg, db0, s) && s.job.Awaiting?
    ensures s.job.items != [] && Inv(cfg, db0, Completed(cfg, s, spurious))
  {
    hide Inv, OneByOne;
    var items, plan := s.job.items, s.job.plan;
    AwaitingGroup(cfg, db0, s);
    if |items| == 1 {
      SingleDoneKeeps(cfg, db0, s, spurious);
    } else {
      var w := cfg.write(s.db, MergeEvents(items).operation);
      assert w == WriteAll(inner, error, s.db, MergedOperation(items));
      if spurious || w.reply.Failed? {
        FallbackKeeps(cfg, db0, s, items, plan);
        assert Completed(cfg, s, spurious)
            == Issue(s.(innerReplies := s.innerReplies + 1), [items[0]], plan.(individually := items[1..] + plan.individually));
      } else {
        MergedKeeps(cfg, inner, error, db0, s);
        assert Completed(cfg, s, spurious) == Completed(cfg, s, false);
      }
    }
  }

  // ----- every step -----

  lemma {:induction false} ArriveKeeps(cfg: Config, db0: Db, s: State, w: Write, throws: bool)
    requires ConfigOk(cfg) && Inv(cfg, db0, s)
    ensures Inv(cfg, db0, Next(cfg, s, Arrive(w, throws)))
  {
    if !s.isDestroyed {
      var s' := s.(queue := s.queue + [w], accepted := s.accepted + [w]);
      assert Settled(s') == Settled(s);
      if !s.isWriting {
        assert Settled(s) == s.answers;
        assert PlanWrites(Plan([], [])) == [];
        assert Between(cfg, db0, s', Plan([], []));
        DrainKeeps(cfg, db0, s', throws);
      }
    } else {
      assert Settled(s.(refused := s.refused + [w])) == Settled(s);
    }
  }

  lemma {:induction false} DeliverKeeps(cfg: Config, db0: Db, s: State)
    requires Inv(cfg, db0, s) && Enabled(s, Deliver)
    ensures Inv(cfg, db0, Next(cfg, s, Deliver))
  {
    var s' := Next(cfg, s, Deliver);
    assert Settled(s') == Settled(s) by {
      assert s.job.pending == [s.job.pending[0]] + s.job.pending[1..];
    }
  }

  lemma {:induction false} TeardownKeeps(cfg: Config, db0: Db, s: State, step: Step)
    requires Inv(cfg, db0, s) && Enabled(s, step) && (step.Destroy? || step.FailNext? || step.Forward?)
    ensures Inv(cfg, db0, Next(cfg, s, step))
  {
    var s' := Next(cfg, s, step);
    assert Settled(s') == Settled(s);
    hide OneByOne, SameAnswers, JobOk, Settled, WritesOf;
    if step.FailNext? {
      assert s.teardown.left == [s.teardown.left[0]] + s.teardown.left[1..];
    }
  }

  lemma {:induction false} StepKeepsInv(cfg: Config, inner: Inner, error: ErrorOf, db0: Db, s: State, step: Step)
    requires Promise(cfg, inner, error) && Inv(cfg, db0, s) && Enabled(s, step)
    ensures Inv(cfg, db0, Next(cfg, s, step))
  {
    match step
    case Arrive(w, throws) => ArriveKeeps(cfg, db0, s, w, throws);
    case InnerDone(spurious) => CompletedKeeps(cfg, inner, error, db0, s, spurious);
    case Deliver => DeliverKeeps(cfg, db0, s);
    case Continue(throws) =>
      assert Settled(s) == s.answers;
      assert Between(cfg, db0, s, s.job.plan);
      AdvanceKeeps(cfg, db0, s, s.job.plan, throws);
    case _ => TeardownKeeps(cfg, db0, s, step);
  }

  /** The invariant holds after every run. */
  lemma {:induction false} RunKeepsInv(cfg: Config, inner: Inner, error: ErrorOf, db0: Db, s: State, run: seq<Step>)
    requires Promise(cfg, inner, error) && Inv(cfg, db0, s) && RunOk(cfg, s, run)
    ensures Inv(cfg, db0, Run(cfg, s, run))
    decreases |run|
  {
    if run != [] {
      StepKeepsInv(cfg, inner, error, db0, s, run[0]);
      RunKeepsInv(cfg, inner, error, db0, Next(cfg, s, run[0]), run[1..]);
    }
  }

  // ----- what callers can rely on -----

  /** Nothing in flight and no destroy half way through. */
  predicate AtRest(s: State) { s.job.Idle? && !s.teardown.Failing? }

  /**
   The wrapper cannot be told apart from writing one item at a time: whenever nothing is in
   flight, the tables and every answer given are those of writing the same writes singly, in
   the order they arrived; without a destroy, those are all the writes accepted.
   */
  lemma {:induction false} BatchingIsInvisible(cfg: Config, inner: Inner, error: ErrorOf, db0: Db, run: seq<Step>)
    requires Promise(cfg, inner, error) && RunOk(cfg, Init(db0), run)
    requires Run(cfg, Init(db0), run).job.Idle?
    ensures var s := Run(cfg, Init(db0), run);
      var reference := OneByOne(cfg, db0, WritesOf(s.answers));
      && WritesOf(s.answers) <= s.accepted
      && (!s.isDestroyed ==> WritesOf(s.answers) == s.accepted)
      && s.db == reference.db
      && SameAnswers(s.answers, reference.answers)
  {
    RunKeepsInv(cfg, inner, error, db0, Init(db0), run);
    var s := Run(cfg, Init(db0), run);
    assert Settled(s) == s.answers;
  }

  /** Every accepted write is answered exactly once, and a write refused or failed never reaches the inner plugin. */
  lemma {:induction false} AnsweredExactlyOnce(cfg: Config, inner: Inner, error: ErrorOf, db0: Db, run: seq<Step>)
    requires Promise(cfg, inner, error) && RunOk(cfg, Init(db0), run)
    requires AtRest(Run(cfg, Init(db0), run))
    ensures var s := Run(cfg, Init(db0), run);
      s.accepted == WritesOf(s.answers) + s.failed
  {
    RunKeepsInv(cfg, inner, error, db0, Init(db0), run);
    assert Settled(Run(cfg, Init(db0), run)) == Run(cfg, Init(db0), run).answers;
  }

  /**
   At every point of every run: at most one inner write is out, the latch is up exactly while
   work is in flight, and the inner destroy has run at most once, with nothing in flight and
   the queue already failed.
   */
  lemma {:induction false} OneWriteAtATimeAndDestroyLast(cfg: Config, inner: Inner, error: ErrorOf, db0: Db, run: seq<Step>)
    requires Promise(cfg, inner, error) && RunOk(cfg, Init(db0), run)
    ensures var s := Run(cfg, Init(db0), run);
      && s.innerReplies <= s.innerWrites <= s.innerReplies + 1
      && (s.isWriting <==> !s.job.Idle?)
      && (!s.isWriting ==> s.queue == [] && s.innerWrites == s.innerReplies)
      && s.innerDestroys <= 1
      && (s.innerDestroys == 1 ==> !s.isWriting && s.isDestroyed && s.teardown.Forwarded? && s.innerWrites == s.innerReplies)
      && (AtRest(s) && s.isDestroyed ==> s.innerDestroys == 1)
  {
    RunKeepsInv(cfg, inner, error, db0, Init(db0), run);
  }

  /** After the inner destroy nothing is ever written again: later writes are refused. */
  lemma {:induction false} NothingAfterDestroy(cfg: Config, db0: Db, s: State, step: Step)
    requires ConfigOk(cfg) && Inv(cfg, db0, s) && s.innerDestroys == 1 && Enabled(s, step)
    ensures var s' := Next(cfg, s, step);
      s'.innerWrites == s.innerWrites && s'.db == s.db && s'.innerDestroys == 1 && s'.accepted == s.accepted
  {
  }

  // ----- every accepted write does get its answer -----

  function GroupsWork(groups: seq<seq<Write>>): nat {
    if groups == [] then 0 else 3 * |groups[0]| + 1 + GroupsWork(groups[1..])
  }

  function PlanWork(plan: Plan): nat { 3 * |plan.individually| + GroupsWork(plan.groups) }

  function JobWork(job: Job): nat {
    match job
    case Idle => 0
    case Awaiting(items, plan) => (if |items| == 1 then 3 else 3 * |items| + 1) + PlanWork(plan)
    case Delivering(pending, plan) => |pending| + 1 + PlanWork(plan)
  }

  /** A bound on the steps left before the wrapper is at rest, if nobody calls it again. */
  function Work(s: State): nat {
    JobWork(s.job) + 4 * |s.queue| + if s.teardown.Failing? then |s.teardown.left| + 1 else 0
  }

  predicate Internal(step: Step) { !step.Arrive? && !step.Destroy? }

  lemma {:induction false} GroupsWorkIsBounded(canMerge: bool, groups: seq<seq<Write>>)
    requires GroupsOk(canMerge, groups)
    ensures GroupsWork(groups) <= 4 * |Concat(groups)|
    decreases |groups|
  {
    if groups != [] {
      assert GroupOk(canMerge, groups[0]);
      forall i | 0 <= i < |groups[1..]| ensures GroupOk(canMerge, groups[1..][i]) { assert groups[1..][i] == groups[i + 1]; }
      GroupsWorkIsBounded(canMerge, groups[1..]);
    }
  }

  lemma {:induction false} GroupedBatchWork(canMerge: bool, batch: seq<Write>)
    requires batch != []
    ensures var groups := Prepare(canMerge, batch);
      JobWork(Awaiting(groups[0], Plan([], groups[1..]))) <= 4 * |batch|
  {
    var groups := Prepare(canMerge, batch);
    PrepareIsOrderedAndDisjoint(canMerge, batch);
    GroupsWorkIsBounded(canMerge, groups);
    assert PlanWork(Plan([], groups[1..])) == GroupsWork(groups[1..]);
  }

  lemma {:induction false} DrainConsumes(cfg: Config, s: State, throws: bool)
    requires ConfigOk(cfg) && s.job == Delivering([], Plan([], []))
    ensures Work(Drain(cfg, s, throws)) < Work(s)
  {
    assert JobWork(s.job) == 1;
    if s.queue != [] {
      DrainedJobWork(cfg, s, throws);
      hide Drain, JobWork;
    }
  }

  /** What a drain takes on is paid for by the writes it takes out of the queue. */
  lemma {:induction false} DrainedJobWork(cfg: Config, s: State, throws: bool)
    requires ConfigOk(cfg) && s.queue != []
    ensures var s' := Drain(cfg, s, throws);
      JobWork(s'.job) + 4 * |s'.queue| <= 4 * |s.queue| && s'.teardown == s.teardown
  {
    var n := if |s.queue| <= cfg.maxBatchSize then |s.queue| else cfg.maxBatchSize;
    var batch := s.queue[..n];
    if throws {
      assert Drain(cfg, s, true).job == Awaiting([batch[0]], Plan(batch[1..], []));
      assert JobWork(Awaiting([batch[0]], Plan(batch[1..], []))) == 3 + 3 * (n - 1);
    } else {
      GroupedBatchWork(cfg.canMerge, batch);
      hide Prepare, JobWork;
    }
  }

  lemma {:induction false} ContinueConsumes(cfg: Config, s: State, throws: bool)
    requires ConfigOk(cfg) && s.job.Delivering? && s.job.pending == [] && JobOk(cfg.canMerge, s.job)
    ensures Work(Advance(cfg, s, s.job.plan, throws)) < Work(s)
  {
    var plan := s.job.plan;
    if plan.individually == [] && plan.groups == [] {
      assert plan == Plan([], []);
      DrainConsumes(cfg, s, throws);
    }
  }

  /** Each internal step brings the wrapper closer to rest, and until it is there one is enabled. */
  lemma {:induction false} InternalStepsRunOut(cfg: Config, inner: Inner, error: ErrorOf, db0: Db, s: State, step: Step)
    requires Promise(cfg, inner, error) && Inv(cfg, db0, s)
    ensures Internal(step) && Enabled(s, step) ==> Work(Next(cfg, s, step)) < Work(s)
    ensures AtRest(s) <==> forall t | Internal(t) :: !Enabled(s, t)
  {
    if Internal(step) && Enabled(s, step) {
      match step
      case InnerDone(spurious) => DoneConsumes(cfg, inner, error, s, spurious);
      case Continue(throws) => ContinueConsumes(cfg, s, throws);
      case _ =>
    }
    if !AtRest(s) {
      var t := if s.teardown.Failing? then (if s.teardown.left == [] then Forward else FailNext)
        else if s.job.Awaiting? then InnerDone(false)
        else if s.job.pending == [] then Continue(false) else Deliver;
      assert Internal(t) && Enabled(s, t);
    }
  }

  lemma {:induction false} DoneConsumes(cfg: Config, inner: Inner, error: ErrorOf, s: State, spurious: bool)
    requires Promise(cfg, inner, error) && JobOk(cfg.canMerge, s.job) && s.job.Awaiting? && s.job.items != []
    ensures Work(Completed(cfg, s, spurious)) < Work(s)
  {
    var items, plan := s.job.items, s.job.plan;
    if |items| > 1 {
      var w := if spurious then Written(s.db, Failed(None)) else cfg.write(s.db, MergeEvents(items).operation);
      hide MergeEvents, WriteAll;
      var s' := Completed(cfg, s, spurious);
      if w.reply.Stored? || w.reply.Partial? {
        WritesOfSplit(w.reply, items);
        assert s'.job == Delivering(Split(w.reply, items), plan);
      } else {
        assert s'.job == Awaiting([items[0]], plan.(individually := items[1..] + plan.individually));
      }
    }
  }

  ghost predicate AllInternal(run: seq<Step>) { forall i | 0 <= i < |run| :: Internal(run[i]) }

  /** However the inner plugin behaves, a run without new calls is no longer than the work at hand. */
  lemma {:induction false} RunsWithoutCallersEnd(cfg: Config, inner: Inner, error: ErrorOf, db0: Db, s: State, run: seq<Step>)
    requires Promise(cfg, inner, error) && Inv(cfg, db0, s) && RunOk(cfg, s, run) && AllInternal(run)
    ensures |run| <= Work(s)
    decreases |run|
  {
    if run != [] {
      assert Internal(run[0]);
      InternalStepsRunOut(cfg, inner, error, db0, s, run[0]);
      StepKeepsInv(cfg, inner, error, db0, s, run[0]);
      RunsWithoutCallersEnd(cfg, inner, error, db0, Next(cfg, s, run[0]), run[1..]);
    }
  }
}
