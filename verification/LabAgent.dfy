/**
 * The agent's code for the durable task protocol: the result journal and one pass of the receiver, of
 * the task worker and of the outbox sender. Every write may fail, which the code meets as an exception.
 */
module LabAgent {
  import opened Prelude
  import opened AgentModel

  /** A journal row; the payload of a corrupted one cannot be read back. */
  datatype Entry = Entry(payload: Option<Outcome>, created: int)

  ghost function ReadableOf(rows: map<TaskId, Entry>): map<TaskId, Outcome> {
    map id | id in rows && rows[id].payload.Some? :: rows[id].payload.value
  }

  /** The readable entries that a write at `oldest + retention` removes. */
  ghost function ExpiredOf(rows: map<TaskId, Entry>, kept: TaskId, oldest: int): set<TaskId> {
    set id | id in rows && rows[id].payload.Some? && id != kept && rows[id].created < oldest
  }

  /** The entries that are not older than `oldest`. */
  function Fresh(rows: map<TaskId, Entry>, oldest: int): map<TaskId, Entry> {
    map id | id in rows && rows[id].created >= oldest :: rows[id]
  }

  /** What can be read after a new outcome is written and expired entries are removed. */
  ghost function WrittenTo(rows: map<TaskId, Entry>, id: TaskId, outcome: Outcome, oldest: int): map<TaskId, Outcome> {
    ReadableOf(rows)[id := outcome] - ExpiredOf(rows, id, oldest)
  }

  /** The new entry is there, and of the others exactly those that are not older than `oldest`. */
  ghost predicate Kept(before: map<TaskId, Entry>, after: map<TaskId, Entry>, id: TaskId, entry: Entry, oldest: int) {
    && id in after && after[id] == entry
    && (forall k :: k != id ==> (k in after <==> k in before && before[k].created >= oldest))
    && (forall k :: k != id && k in after ==> after[k] == before[k])
  }

  lemma FreshKeeps(rows: map<TaskId, Entry>, id: TaskId, entry: Entry, oldest: int)
    requires oldest <= entry.created
    ensures Kept(rows, Fresh(rows[id := entry], oldest), id, entry, oldest)
  {
  }

  lemma PutReadable(rows: map<TaskId, Entry>, id: TaskId, outcome: Outcome, now: int, oldest: int)
    requires oldest <= now
    ensures ReadableOf(Fresh(rows[id := Entry(Some(outcome), now)], oldest)) == WrittenTo(rows, id, outcome, oldest)
  {
    var kept := Fresh(rows[id := Entry(Some(outcome), now)], oldest);
    var readable := WrittenTo(rows, id, outcome, oldest);
    assert forall k :: k in ReadableOf(kept) <==> k in readable;
    assert forall k :: k in readable ==> ReadableOf(kept)[k] == readable[k];
  }

  class TaskJournal {
    const retain: nat
    var rows: map<TaskId, Entry>

    constructor (retain: nat)
      ensures this.retain == retain && rows == map[]
    {
      this.retain := retain;
      rows := map[];
    }

    ghost function Readable(): map<TaskId, Outcome>
      reads this
    {
      ReadableOf(rows)
    }

    /** An unreadable row is a miss, not an error. */
    method Get(id: TaskId) returns (cached: Option<Outcome>)
      ensures cached == if id in Readable() then Some(Readable()[id]) else None
    {
      if id !in rows {
        return None;
      }
      return rows[id].payload;
    }

    /** The new entry replaces an old one and survives; every other entry older than the retention goes. */
    method Put(id: TaskId, outcome: Outcome, now: int)
      modifies this
      ensures Kept(old(rows), rows, id, Entry(Some(outcome), now), now - retain)
      ensures Readable() == WrittenTo(old(rows), id, outcome, now - retain)
    {
      hide Fresh, Kept, ReadableOf, WrittenTo;
      var entry := Entry(Some(outcome), now);
      FreshKeeps(rows, id, entry, now - retain);
      PutReadable(rows, id, outcome, now, now - retain);
      rows := rows[id := entry];
      rows := Fresh(rows, now - retain);
    }
  }

  /** The state with some journal entries lost. */
  ghost function Forgotten(a: Agent, ids: set<TaskId>): Agent {
    a.(journal := a.journal - ids, past := a.past.(losses := a.past.losses + multiset(ids)))
  }

  lemma {:induction false} ReachesForgotten(start: Agent, a: Agent, ids: set<TaskId>)
    requires Reaches(start, a) && ids <= a.journal.Keys
    ensures Reaches(start, Forgotten(a, ids))
    decreases |ids|
  {
    if ids == {} {
      assert a.journal - ids == a.journal;
      assert Forgotten(a, ids) == a;
    } else {
      var id := Any(ids);
      var b := Apply(a, Forget(id));
      ReachesThenOne(start, a, Forget(id));
      ReachesForgotten(start, b, ids - {id});
      assert b.journal - (ids - {id}) == a.journal - ids;
      assert b.past.losses + multiset(ids - {id}) == a.past.losses + multiset(ids);
    }
  }

  /** What arrives on the socket. */
  datatype Inbound = Unparsable | Malformed | Other | Pushed(task: Task)

  datatype Pass = Nothing | Dropped | Replayed(task: Task) | Executed(task: Task, outcome: Outcome) | Failed

  /**
   * How the writes of one round go: which of the journal's, the outbox's and the acknowledgement's
   * succeed, and whether the claim is still live when it is acknowledged.
   */
  datatype Luck = Luck(journaled: bool, answered: bool, acked: bool, live: bool)

  /** The frame is the newest in the outbox. */
  ghost predicate Queued(before: map<JobId, Frame>, next: nat, after: map<JobId, Frame>, frame: Frame) {
    after == before[JobId(next) := frame]
  }

  /** The job left the queue, if the round went through to the end while its claim was live. */
  ghost predicate Settled(before: map<JobId, Payload>, after: map<JobId, Payload>, job: JobId, luck: Luck) {
    after == if luck.answered && luck.acked && luck.live then before - {job} else before
  }

  class LabAgent {
    const journal: TaskJournal
    var tasks: map<JobId, Payload>
    var outbox: map<JobId, Frame>
    var next: nat

    ghost var worker: Worker
    ghost var sender: Sender
    ghost var past: History

    ghost function Value(): Agent
      reads this, journal
    {
      Agent(tasks, outbox, journal.Readable(), next, worker, sender, past)
    }

    constructor (retain: nat)
      ensures Value() == NEWBORN && fresh(journal) && journal.retain == retain
    {
      journal := new TaskJournal(retain);
      tasks, outbox, next := map[], map[], 0;
      worker, sender, past := Idle, Resting, NEWBORN.past;
    }

    /** A restart keeps exactly what is on disk. */
    method Restart()
      modifies this
      ensures Value() == Apply(old(Value()), Crash)
    {
      past := Interrupted(Value()).past;
      worker, sender := Idle, Resting;
    }

    method EnqueueOutbound(frame: Frame)
      modifies this`outbox, this`next
      ensures Value() == WithFrame(old(Value()), frame)
    {
      outbox, next := outbox[JobId(next) := frame], next + 1;
    }

    /** Persist a pushed task, then its receipt; either write may fail. */
    method Receive(frame: Inbound, stored: bool, queued: bool) returns (persisted: bool, receipted: bool)
      modifies this
      ensures Reaches(old(Value()), Value())
      ensures worker == old(worker) && sender == old(sender)
      ensures !frame.Pushed? ==> !persisted
      ensures !persisted ==> !receipted && Value() == old(Value())
      ensures persisted ==> InQueue(Value(), frame.task) && past.accepted == old(past.accepted) + {frame.task}
      ensures receipted ==> Emitted(Value(), Receipt(frame.task.id))
      ensures persisted && !receipted ==> outbox == old(outbox)
      // a well-formed task is persisted and receipted unless the write fails
      ensures persisted == (frame.Pushed? && stored) && receipted == (persisted && queued)
      ensures persisted ==> tasks == old(tasks)[JobId(old(next)) := Good(frame.task)]
      ensures receipted ==> Queued(old(outbox), old(next) + 1, outbox, Receipt(frame.task.id))
    {
      ghost var start := Value();
      ReachesItself(start);
      persisted, receipted := false, false;
      if !frame.Pushed? {
        return;
      }
      if !stored {
        return;
      }
      tasks, next := tasks[JobId(next) := Good(frame.task)], next + 1;
      past := past.(accepted := past.accepted + {frame.task});
      persisted := true;
      ReachesThenOne(start, start, Accept(frame.task));
      assert tasks[JobId(start.next)] == Good(frame.task);
      if queued {
        ghost var before := Value();
        EnqueueOutbound(Receipt(frame.task.id));
        receipted := true;
        ReachesThenOne(start, before, Action.Acknowledge(frame.task.id));
        assert outbox[JobId(before.next)] == Receipt(frame.task.id);
      }
    }

    /** The job that the queue offers, if any: jobs claimed earlier come back only after a while. */
    method ClaimTask(offered: Option<JobId>) returns (claimed: Option<JobId>)
      ensures claimed == if offered.Some? && offered.value in tasks then offered else None
    {
      claimed := if offered.Some? && offered.value in tasks then offered else None;
    }

    /** Acknowledging removes the job unless its claim had expired. */
    method AckTask(job: JobId, live: bool)
      modifies this`tasks
      ensures tasks == if live then old(tasks) - {job} else old(tasks)
    {
      if live {
        tasks := tasks - {job};
      }
    }

    /**
     * One round of the worker loop. `offered` is what the queue hands out, `made` what the handler would
     * return (its own exceptions are outcomes too), and `luck` how the writes go.
     */
    method TaskWorkerPass(now: int, offered: Option<JobId>, made: Outcome, luck: Luck) returns (pass: Pass)
      requires worker.Idle?
      modifies this, journal
      ensures worker.Idle? && sender == old(sender)
      ensures Reaches(old(Value()), Value())
      ensures !pass.Executed? && !pass.Failed? ==> past.runs == old(past.runs) && journal.Readable() == old(journal.Readable())
      ensures pass.Replayed? ==> AnsweredFromJournal(old(Value()), Value(), pass.task)
      ensures pass.Executed? ==> AnsweredByHandler(old(Value()), Value(), pass.task, pass.outcome)
      // an empty queue leaves everything alone, and an undecodable job is dropped
      ensures offered.None? || offered.value !in old(tasks) ==> pass == Nothing && Value() == old(Value())
      ensures offered.Some? && offered.value in old(tasks) && old(tasks)[offered.value].Poison? ==>
                && pass == Dropped && outbox == old(outbox) && past == old(past)
                && tasks == if luck.live then old(tasks) - {offered.value} else old(tasks)
      // a task that the journal knows is answered from it
      ensures offered.Some? && offered.value in old(tasks) && old(tasks)[offered.value].Good? ==>
                ReplayedIfKnown(old(Value()), Value(), offered.value, pass, luck)
      // any other is run once, and its outcome journaled, queued and acknowledged as far as the writes succeed
      ensures offered.Some? && offered.value in old(tasks) && old(tasks)[offered.value].Good? ==>
                ExecutedIfNew(old(Value()), Value(), offered.value, pass, made, luck)
    {
      ghost var start := Value();
      ReachesItself(start);
      var claimed := ClaimTask(offered);
      if claimed.None? {
        return Nothing;
      }
      var job := claimed.value;
      if tasks[job].Poison? {
        AckTask(job, luck.live);
        if luck.live {
          ReachesThenOne(start, start, DropPoison(job));
        }
        return Dropped;
      }
      hide Reaches;
      var task := tasks[job].task;
      worker := Busy(job, task, Claimed);
      ReachesThenOne(start, start, Claim(job));
      var cached := journal.Get(task.id);
      if cached.Some? {
        pass := ReplayCached(start, job, task, cached.value, luck);
        assert luck.answered ==> outbox[JobId(start.next)] == Result(task.id, cached.value, true);
      } else {
        pass := ExecuteTask(start, job, task, now, made, luck);
        assert luck.journaled && luck.answered ==> outbox[JobId(start.next)] == Result(task.id, made, false);
      }
    }

    method ReplayCached(ghost start: Agent, job: JobId, task: Task, cached: Outcome, luck: Luck) returns (pass: Pass)
      requires worker == Busy(job, task, Claimed) && Reaches(start, Value())
      requires task.id in journal.Readable() && journal.Readable()[task.id] == cached
      modifies this
      ensures worker.Idle? && sender == old(sender) && past == old(past)
      ensures Reaches(start, Value())
      ensures pass == if luck.answered && luck.acked then Replayed(task) else Failed
      ensures luck.answered ==> Queued(old(outbox), old(next), outbox, Result(task.id, cached, true))
      ensures !luck.answered ==> outbox == old(outbox)
      ensures Settled(old(tasks), tasks, job, luck)
    {
      hide Reaches;
      ghost var a := Value();
      if !luck.answered {
        worker := Idle;
        ReachesThenOne(start, a, AgentModel.Fail);
        return Failed;
      }
      EnqueueOutbound(Result(task.id, cached, true));
      worker := Busy(job, task, Answered);
      ReachesThenOne(start, a, Replay);
      pass := Acknowledge(start, job, task, Replayed(task), luck);
    }

    /** The last step of a round: acknowledge the job, or give it back when that fails. */
    method Acknowledge(ghost start: Agent, job: JobId, task: Task, done: Pass, luck: Luck) returns (pass: Pass)
      requires worker == Busy(job, task, Answered) && Reaches(start, Value()) && luck.answered
      modifies this`tasks, this`worker
      ensures worker.Idle? && Reaches(start, Value())
      ensures pass == if luck.acked then done else Failed
      ensures Settled(old(tasks), tasks, job, luck)
    {
      hide Reaches;
      ghost var a := Value();
      if !luck.acked {
        worker := Idle;
        ReachesThenOne(start, a, AgentModel.Fail);
        return Failed;
      }
      AckTask(job, luck.live);
      worker := Idle;
      ReachesThenOne(start, a, Ack(luck.live));
      return done;
    }

    /** Run the handler, journal its result, queue it, acknowledge the job: in this order. */
    method ExecuteTask(ghost start: Agent, job: JobId, task: Task, now: int, made: Outcome, luck: Luck) returns (pass: Pass)
      requires worker == Busy(job, task, Claimed) && Reaches(start, Value())
      requires task.id !in journal.Readable()
      modifies this, journal
      ensures worker.Idle? && sender == old(sender)
      ensures Reaches(start, Value())
      ensures pass == if luck.journaled && luck.answered && luck.acked then Executed(task, made) else Failed
      ensures past.runs == old(past.runs) + multiset{task.id}
      ensures luck.journaled ==> task.id in journal.Readable() && journal.Readable()[task.id] == made
      ensures !luck.journaled ==> journal.Readable() == old(journal.Readable())
      ensures luck.journaled && luck.answered ==> Queued(old(outbox), old(next), outbox, Result(task.id, made, false))
      ensures !(luck.journaled && luck.answered) ==> outbox == old(outbox)
      ensures Settled(old(tasks), tasks, job, luck.(answered := luck.journaled && luck.answered))
    {
      hide Reaches, Interrupted;
      RunHandler(start, job, task, made);
      var journaled := RecordResult(start, job, task, made, now, luck.journaled);
      if !journaled {
        return Failed;
      }
      pass := SendResult(start, job, task, made, luck);
    }

    method RunHandler(ghost start: Agent, job: JobId, task: Task, outcome: Outcome)
      requires worker == Busy(job, task, Claimed) && Reaches(start, Value())
      requires task.id !in journal.Readable()
      modifies this`worker, this`past
      ensures worker == Busy(job, task, Finished(outcome)) && Reaches(start, Value())
      ensures past.runs == old(past.runs) + multiset{task.id}
    {
      ghost var before := Value();
      worker := Busy(job, task, Running);
      past := past.(runs := past.runs + multiset{task.id});
      ReachesThenOne(start, before, Start);
      ghost var running := Value();
      worker := Busy(job, task, Finished(outcome));
      past := past.(executed := past.executed + {(task, outcome)});
      ReachesThenOne(start, running, Finish(outcome));
    }

    method SendResult(ghost start: Agent, job: JobId, task: Task, outcome: Outcome, luck: Luck) returns (pass: Pass)
      requires worker == Busy(job, task, Journaled(outcome)) && Reaches(start, Value())
      modifies this
      ensures worker.Idle? && sender == old(sender) && past == old(past)
      ensures Reaches(start, Value())
      ensures pass == if luck.answered && luck.acked then Executed(task, outcome) else Failed
      ensures luck.answered ==> Queued(old(outbox), old(next), outbox, Result(task.id, outcome, false))
      ensures !luck.answered ==> outbox == old(outbox)
      ensures Settled(old(tasks), tasks, job, luck)
    {
      hide Reaches;
      ghost var a := Value();
      if !luck.answered {
        worker := Idle;
        ReachesThenOne(start, a, AgentModel.Fail);
        return Failed;
      }
      EnqueueOutbound(Result(task.id, outcome, false));
      worker := Busy(job, task, Answered);
      ReachesThenOne(start, a, Answer);
      pass := Acknowledge(start, job, task, Executed(task, outcome), luck);
    }

    /** Commit the result to the journal, which forgets expired entries. A failure gives the job back. */
    method RecordResult(ghost start: Agent, job: JobId, task: Task, outcome: Outcome, now: int, stored: bool) returns (ok: bool)
      requires worker == Busy(job, task, Finished(outcome)) && Reaches(start, Value())
      requires task.id !in journal.Readable()
      modifies this`worker, this`past, journal
      ensures Reaches(start, Value()) && ok == stored && past.runs == old(past.runs)
      ensures !ok ==> worker.Idle? && journal.Readable() == old(journal.Readable())
      ensures ok ==> Kept(old(journal.rows), journal.rows, task.id, Entry(Some(outcome), now), now - journal.retain)
      ensures ok ==> worker == Busy(job, task, Journaled(outcome))
      ensures ok ==> past.executed == old(past.executed) && past.handed == old(past.handed)
      ensures ok ==> task.id in journal.Readable() && journal.Readable()[task.id] == outcome
    {
      hide Reaches;
      ghost var a := Value();
      if !stored {
        ReachesThenOne(start, a, AgentModel.Fail);
        past := Interrupted(a).past;
        worker := Idle;
        return false;
      }
      ghost var expired := ExpiredOf(journal.rows, task.id, now - journal.retain);
      journal.Put(task.id, outcome, now);
      worker := Busy(job, task, Journaled(outcome));
      past := past.(losses := past.losses + multiset(expired));
      ReachesThenOne(start, a, Commit);
      ReachesForgotten(start, Apply(a, Commit), expired);
      return true;
    }

    /** One round of the sender loop: the frame is acknowledged only after the socket took it. */
    method OutboxSenderPass(offered: Option<JobId>, taken: bool, acked: bool) returns (sent: Option<Frame>)
      requires sender.Resting?
      modifies this
      ensures sender.Resting? && worker == old(worker) && tasks == old(tasks)
      ensures Reaches(old(Value()), Value())
      // the frame offered is sent when the socket takes it, and leaves the outbox only then
      ensures sent == if offered.Some? && offered.value in old(outbox) && taken then Some(old(outbox)[offered.value]) else None
      ensures past == if sent.Some? then old(past).(handed := old(past.handed) + {sent.value}) else old(past)
      ensures outbox == if sent.Some? && acked then old(outbox) - {offered.value} else old(outbox)
    {
      ghost var start := Value();
      ReachesItself(start);
      if offered.None? || offered.value !in outbox {
        return None;
      }
      hide Reaches;
      var frame := outbox[offered.value];
      sender := Holding(offered.value, frame, false);
      ReachesThenOne(start, start, Pick(offered.value));
      ghost var picked := Value();
      if !taken {
        sender := Resting;
        ReachesThenOne(start, picked, Drop);
        return None;
      }
      past := past.(handed := past.handed + {frame});
      sender := Holding(offered.value, frame, true);
      ReachesThenOne(start, picked, Send);
      ghost var handed := Value();
      if acked {
        outbox := outbox - {offered.value};
      }
      sender := Resting;
      ReachesThenOne(start, handed, Settle(acked));
      return Some(frame);
    }
  }

  /** A claimed task that the journal knows: its outcome is queued again, and the handler does not start. */
  ghost predicate ReplayedIfKnown(before: Agent, after: Agent, job: JobId, pass: Pass, luck: Luck)
    requires job in before.tasks && before.tasks[job].Good?
  {
    var task := before.tasks[job].task;
    task.id in before.journal ==>
      && pass == (if luck.answered && luck.acked then Replayed(task) else Failed)
      && after.past == before.past && after.journal == before.journal && Settled(before.tasks, after.tasks, job, luck)
      && (if luck.answered then Queued(before.outbox, before.next, after.outbox, Result(task.id, before.journal[task.id], true))
          else after.outbox == before.outbox)
  }

  /** A claimed task that the journal does not know: the handler starts once. */
  ghost predicate ExecutedIfNew(before: Agent, after: Agent, job: JobId, pass: Pass, made: Outcome, luck: Luck)
    requires job in before.tasks && before.tasks[job].Good?
  {
    var task := before.tasks[job].task;
    task.id !in before.journal ==>
      && pass == (if luck.journaled && luck.answered && luck.acked then Executed(task, made) else Failed)
      && after.past.runs == before.past.runs + multiset{task.id}
      && (if luck.journaled then task.id in after.journal && after.journal[task.id] == made else after.journal == before.journal)
      && Settled(before.tasks, after.tasks, job, luck.(answered := luck.journaled && luck.answered))
      && (if luck.journaled && luck.answered then Queued(before.outbox, before.next, after.outbox, Result(task.id, made, false))
          else after.outbox == before.outbox)
  }

  /** A redelivered task costs no handler run: its journaled outcome is sent again. */
  ghost predicate AnsweredFromJournal(before: Agent, after: Agent, task: Task) {
    && task.id in before.journal && after.past == before.past
    && Emitted(after, Result(task.id, before.journal[task.id], true))
  }

  /** A task unknown to the journal is run once; the outcome is journaled and queued for sending. */
  ghost predicate AnsweredByHandler(before: Agent, after: Agent, task: Task, outcome: Outcome) {
    && task.id !in before.journal && after.past.runs == before.past.runs + multiset{task.id}
    && task.id in after.journal && after.journal[task.id] == outcome
    && Emitted(after, Result(task.id, outcome, false))
  }
}
