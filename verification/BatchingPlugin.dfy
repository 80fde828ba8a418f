/**
 The write queue as core/src/plugins/BatchingDbPlugin.ts writes it: fields updated in place
 and loops over the batch. Each method is proved to take the step of the same name in
 `Batching`, so what `BatchingSafety` proves of every run holds of the object.

 What runs after a callback returns is kept in `job` and `teardown`; the inner plugin's tables
 are `db`.
 */
module BatchingPlugin {
  import opened Options
  import opened Batching

  class BatchingDbPlugin {
    const cfg: Config
    var queue: seq<Write>
    var isWriting: bool
    var isDestroyed: bool
    var onSettled: bool
    var job: Job
    var teardown: Teardown
    var db: Db
    var innerDestroys: nat
    ghost var innerWrites: nat
    ghost var innerReplies: nat
    ghost var accepted: seq<Write>
    ghost var answers: seq<Answer>
    ghost var failed: seq<Write>
    ghost var refused: seq<Write>

    constructor (cfg: Config, db: Db)
      requires ConfigOk(cfg)
      ensures this.cfg == cfg && View() == Init(db)
    {
      this.cfg := cfg;
      this.db := db;
      queue, isWriting, isDestroyed, onSettled := [], false, false, false;
      job, teardown, innerDestroys := Idle, NotCalled, 0;
      innerWrites, innerReplies, accepted, answers, failed, refused := 0, 0, [], [], [], [];
    }

    ghost function View(): State
      reads this
    {
      State(db, queue, isWriting, isDestroyed, onSettled, job, teardown, innerWrites, innerReplies, innerDestroys,
            accepted, answers, failed, refused)
    }

    method BulkPersist(write: Write, throws: bool)
      modifies this
      ensures View() == Next(cfg, old(View()), Arrive(write, throws))
    {
      if isDestroyed {
        refused := refused + [write];
        return;
      }
      queue := queue + [write];
      accepted := accepted + [write];
      if isWriting {
        return;
      }
      DrainQueue(throws);
    }

    /** Destroy marks the object and takes the queue; the queued callers are failed one by one. */
    method DestroyAll()
      requires teardown.NotCalled?
      modifies this
      ensures View() == Next(cfg, old(View()), Destroy)
    {
      isDestroyed := true;
      teardown := Failing(queue);
      queue := [];
    }

    method FailNextQueued()
      requires Enabled(View(), FailNext)
      modifies this
      ensures View() == Next(cfg, old(View()), FailNext)
    {
      failed := failed + [teardown.left[0]];
      teardown := Failing(teardown.left[1..]);
    }

    method ForwardDestroy()
      requires Enabled(View(), Forward)
      modifies this
      ensures View() == Next(cfg, old(View()), Forward)
    {
      teardown := Forwarded;
      if isWriting {
        onSettled := true;
        return;
      }
      innerDestroys := innerDestroys + 1;
    }

    method DrainQueue(throws: bool)
      modifies this
      ensures View() == Drain(cfg, old(View()), throws)
    {
      hide PrepareFrom;
      var n := if |queue| <= cfg.maxBatchSize then |queue| else cfg.maxBatchSize;
      var batch := queue[..n];
      queue := queue[n..];
      if |batch| == 0 {
        SettleQueue();
        return;
      }
      WriteBatch(batch, throws);
    }

    /** Nothing is left to write: the latch opens, and a destroy that waited goes on. */
    method SettleQueue()
      modifies this
      ensures View() == Settle(old(View()))
    {
      isWriting := false;
      job := Idle;
      if onSettled {
        onSettled := false;
        innerDestroys := innerDestroys + 1;
      }
    }

    /** Preparing the batch may throw; it is then written one item at a time. */
    method WriteBatch(batch: seq<Write>, throws: bool)
      requires batch != []
      modifies this
      ensures var groups := Prepare(cfg.canMerge, batch);
        View() == if throws then Issue(old(View()), [batch[0]], Plan(batch[1..], []))
                  else Issue(old(View()), groups[0], Plan([], groups[1..]))
    {
      hide PrepareFrom;
      isWriting := true;
      if throws {
        IssueWrite([batch[0]], Plan(batch[1..], []));
        return;
      }
      var groups := PrepareGroups(cfg.canMerge, batch);
      IssueWrite(groups[0], Plan([], groups[1..]));
    }

    method IssueWrite(items: seq<Write>, plan: Plan)
      modifies this
      ensures View() == Issue(old(View()), items, plan)
    {
      isWriting := true;
      job := Awaiting(items, plan);
      innerWrites := innerWrites + 1;
    }

    /** The inner plugin calls back: answer, split or fall back to one write per item. */
    method InnerCallback(spurious: bool)
      requires Enabled(View(), InnerDone(spurious))
      modifies this
      ensures View() == Next(cfg, old(View()), InnerDone(spurious))
    {
      var items, plan := job.items, job.plan;
      innerReplies := innerReplies + 1;
      if |items| == 1 {
        var w := cfg.write(db, items[0].event.operation);
        db := w.db;
        job := Delivering([Answer(items[0], w.reply)], plan);
        return;
      }
      var event := MergeItems(items);
      var w := if spurious then Written(db, Failed(None)) else cfg.write(db, event.operation);
      db := w.db;
      if w.reply.Failed? || w.reply.Destroyed? {
        IssueWrite([items[0]], plan.(individually := items[1..] + plan.individually));
        return;
      }
      var split := SplitResult(w.reply, items);
      job := Delivering(split, plan);
    }

    method DeliverNext()
      requires Enabled(View(), Deliver)
      modifies this
      ensures View() == Next(cfg, old(View()), Deliver)
    {
      answers := answers + [job.pending[0]];
      job := job.(pending := job.pending[1..]);
    }

    /** After the last callback of a write has returned. */
    method ContinuePlan(throws: bool)
      requires Enabled(View(), Continue(throws))
      modifies this
      ensures View() == Next(cfg, old(View()), Continue(throws))
    {
      var plan := job.plan;
      if plan.individually != [] {
        IssueWrite([plan.individually[0]], plan.(individually := plan.individually[1..]));
      } else if plan.groups != [] {
        IssueWrite(plan.groups[0], plan.(groups := plan.groups[1..]));
      } else {
        DrainQueue(throws);
      }
    }
  }

  method PrepareGroups(canMerge: bool, batch: seq<Write>) returns (groups: seq<seq<Write>>)
    ensures groups == Prepare(canMerge, batch)
  {
    groups := [];
    var claimed: set<SchemaId> := {};
    for i := 0 to |batch|
      invariant PrepareFrom(canMerge, groups, claimed, batch[i..]) == Prepare(canMerge, batch)
    {
      var item := batch[i];
      var schemas := SchemasOf(item);
      assert batch[i..][1..] == batch[i + 1..];
      if groups == [] || !(schemas !! claimed) || !canMerge {
        groups := groups + [[item]];
        claimed := schemas;
        continue;
      }
      groups := groups[..|groups| - 1] + [groups[|groups| - 1] + [item]];
      claimed := claimed + schemas;
    }
  }

  method MergeItems(items: seq<Write>) returns (event: Event)
    requires items != []
    ensures event == MergeEvents(items)
  {
    if |items| == 1 {
      return items[0].event;
    }
    var operation: Operation := map[];
    var schemas: map<SchemaId, Schema> := map[];
    for i := 0 to |items|
      invariant operation == MergedOperation(items[..i]) && schemas == MergedSchemas(items[..i])
    {
      operation := operation + items[i].event.operation;
      schemas := schemas + items[i].event.schemas;
      assert items[..i + 1][..i] == items[..i];
    }
    assert items[..|items|] == items;
    event := Event(operation, schemas);
  }

  method SplitResult(reply: Reply, items: seq<Write>) returns (answers: seq<Answer>)
    requires reply.Stored? || reply.Partial?
    ensures answers == Split(reply, items)
  {
    answers := [];
    for i := 0 to |items|
      invariant answers + Split(reply, items[i..]) == Split(reply, items)
    {
      assert items[i..][1..] == items[i + 1..];
      answers := answers + [SplitOne(reply, items[i])];
    }
  }
}
