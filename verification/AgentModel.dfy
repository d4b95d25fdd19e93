/**
 * The agent's half of the durable task protocol as a transition system: the persisted task queue,
 * outbox and result journal, the single task worker and the outbox sender. One action is one durable
 * write or one volatile step, so a crash can fall between any two of them.
 */
module AgentModel {
  import opened Prelude

  type TaskId = string

  datatype Task = Task(id: TaskId, action: string, params: string)

  /** What a handler produced: success or failure, with its payload. */
  datatype Outcome = Outcome(ok: bool, body: string)

  /** Frames the agent sends. A receipt says that a pushed task was persisted. */
  datatype Frame = Result(id: TaskId, outcome: Outcome, cached: bool) | Receipt(id: TaskId)

  datatype JobId = JobId(n: nat)

  /** A persisted task. One whose payload no longer decrypts is dropped by the worker. */
  datatype Payload = Good(task: Task) | Poison

  datatype Phase = Claimed | Running | Finished(outcome: Outcome) | Journaled(outcome: Outcome) | Answered

  datatype Worker = Idle | Busy(job: JobId, task: Task, phase: Phase)

  datatype Sender = Resting | Holding(job: JobId, frame: Frame, sent: bool)

  /**
   * What happened so far: tasks persisted, tasks whose stored payload was corrupted, frames handed to
   * a socket, handler results, handler starts, starts that were interrupted before their result was
   * journaled, and journal entries lost to pruning or corruption.
   */
  datatype History = History(
    accepted: set<Task>, spoiled: set<Task>, handed: set<Frame>, executed: set<(Task, Outcome)>,
    runs: multiset<TaskId>, interruptions: multiset<TaskId>, losses: multiset<TaskId>)

  /** An unacknowledged job of either queue can be claimed again, so claims need no record here. */
  datatype Agent = Agent(
    tasks: map<JobId, Payload>, outbox: map<JobId, Frame>, journal: map<TaskId, Outcome>,
    next: nat, worker: Worker, sender: Sender, past: History)

  const NEWBORN := Agent(map[], map[], map[], 0, Idle, Resting,
                         History({}, {}, {}, {}, multiset{}, multiset{}, multiset{}))

  // ------------------------------------------------------------------ actions

  datatype Action =
    | Accept(task: Task)           // the receiver persists a pushed task
    | Acknowledge(id: TaskId)      // ... and then its receipt
    | Claim(job: JobId)            // the worker picks a job
    | DropPoison(job: JobId)       // ... or drops one it cannot decode
    | Replay                       // the journal knows the task: enqueue the cached result
    | Start                        // it does not: run the handler
    | Finish(outcome: Outcome)     // the handler returns (its exceptions are outcomes too)
    | Commit                       // write the journal
    | Answer                       // enqueue the result
    | Ack(removed: bool)           // acknowledge the job; an expired claim leaves it in the queue
    | Fail                         // any error: the job goes back
    | Pick(job: JobId)             // the sender picks a frame
    | Send                         // ... hands it to the socket
    | Settle(removed: bool)        // ... and acknowledges it
    | Drop                         // a failed send puts it back
    | Crash                        // the process dies: what is not persisted is gone
    | Forget(id: TaskId)           // a journal entry is pruned or becomes unreadable
    | Spoil(job: JobId)            // a stored task becomes undecodable

  predicate InPhase(a: Agent, phase: Phase) {
    a.worker.Busy? && a.worker.phase == phase
  }

  predicate Enabled(a: Agent, act: Action) {
    match act
    case Accept(_) => true
    case Acknowledge(id) => exists t :: t in a.past.accepted && t.id == id
    case Claim(job) => a.worker.Idle? && job in a.tasks && a.tasks[job].Good?
    case DropPoison(job) => a.worker.Idle? && job in a.tasks && a.tasks[job].Poison?
    case Replay => InPhase(a, Claimed) && a.worker.task.id in a.journal
    case Start => InPhase(a, Claimed) && a.worker.task.id !in a.journal
    case Finish(_) => InPhase(a, Running)
    case Commit => a.worker.Busy? && a.worker.phase.Finished?
    case Answer => a.worker.Busy? && a.worker.phase.Journaled?
    case Ack(_) => InPhase(a, Answered)
    case Fail => a.worker.Busy?
    case Pick(job) => a.sender.Resting? && job in a.outbox
    case Send => a.sender.Holding? && !a.sender.sent
    case Settle(_) => a.sender.Holding? && a.sender.sent
    case Drop => a.sender.Holding?
    case Crash => true
    case Forget(id) => id in a.journal
    case Spoil(job) => job in a.tasks
  }

  function WithJob(a: Agent, payload: Payload): Agent {
    a.(tasks := a.tasks[JobId(a.next) := payload], next := a.next + 1)
  }

  function WithFrame(a: Agent, frame: Frame): Agent {
    a.(outbox := a.outbox[JobId(a.next) := frame], next := a.next + 1)
  }

  /** Stopping the worker between the start of a handler and its journal entry is an interruption. */
  function Interrupted(a: Agent): Agent {
    a.(worker := Idle,
       past := if a.worker.Busy? && (a.worker.phase.Running? || a.worker.phase.Finished?)
               then a.past.(interruptions := a.past.interruptions + multiset{a.worker.task.id})
               else a.past)
  }

  function Apply(a: Agent, act: Action): Agent
    requires Enabled(a, act)
  {
    match act
    case Accept(task) => WithJob(a, Good(task)).(past := a.past.(accepted := a.past.accepted + {task}))
    case Acknowledge(id) => WithFrame(a, Receipt(id))
    case Claim(job) => a.(worker := Busy(job, a.tasks[job].task, Claimed))
    case DropPoison(job) => a.(tasks := a.tasks - {job})
    case Replay =>
      var id := a.worker.task.id;
      WithFrame(a, Result(id, a.journal[id], true)).(worker := a.worker.(phase := Answered))
    case Start =>
      a.(worker := a.worker.(phase := Running), past := a.past.(runs := a.past.runs + multiset{a.worker.task.id}))
    case Finish(outcome) =>
      a.(worker := a.worker.(phase := Finished(outcome)),
         past := a.past.(executed := a.past.executed + {(a.worker.task, outcome)}))
    case Commit =>
      a.(journal := a.journal[a.worker.task.id := a.worker.phase.outcome],
         worker := a.worker.(phase := Journaled(a.worker.phase.outcome)))
    case Answer =>
      WithFrame(a, Result(a.worker.task.id, a.worker.phase.outcome, false)).(worker := a.worker.(phase := Answered))
    case Ack(removed) =>
      a.(tasks := if removed then a.tasks - {a.worker.job} else a.tasks, worker := Idle)
    case Fail => Interrupted(a)
    case Pick(job) => a.(sender := Holding(job, a.outbox[job], false))
    case Send =>
      a.(sender := a.sender.(sent := true), past := a.past.(handed := a.past.handed + {a.sender.frame}))
    case Settle(removed) =>
      a.(outbox := if removed then a.outbox - {a.sender.job} else a.outbox, sender := Resting)
    case Drop => a.(sender := Resting)
    case Crash => Interrupted(a).(sender := Resting)
    case Forget(id) =>
      a.(journal := a.journal - {id}, past := a.past.(losses := a.past.losses + multiset{id}))
    case Spoil(job) =>
      a.(tasks := a.tasks[job := Poison],
         past := if a.tasks[job].Good? then a.past.(spoiled := a.past.spoiled + {a.tasks[job].task}) else a.past)
  }

  // ------------------------------------------------------------------ runs

  ghost predicate Legal(a: Agent, acts: seq<Action>)
    decreases |acts|
  {
    acts == [] || (Enabled(a, acts[0]) && Legal(Apply(a, acts[0]), acts[1..]))
  }

  ghost function Exec(a: Agent, acts: seq<Action>): Agent
    requires Legal(a, acts)
    decreases |acts|
  {
    if acts == [] then a else Exec(Apply(a, acts[0]), acts[1..])
  }

  /** Some run of actions leads from one state to the other. */
  ghost predicate Reaches(a: Agent, b: Agent) {
    exists acts :: Legal(a, acts) && Exec(a, acts) == b
  }

  lemma ReachesItself(a: Agent)
    ensures Reaches(a, a)
  {
    assert Legal(a, []) && Exec(a, []) == a;
  }

  lemma {:induction false} LegalThenOne(a: Agent, acts: seq<Action>, act: Action)
    requires Legal(a, acts) && Enabled(Exec(a, acts), act)
    ensures Legal(a, acts + [act]) && Exec(a, acts + [act]) == Apply(Exec(a, acts), act)
    decreases |acts|
  {
    var all := acts + [act];
    if acts == [] {
      assert all[1..] == [];
      assert Legal(Apply(a, act), []);
    } else {
      assert all[1..] == acts[1..] + [act];
      LegalThenOne(Apply(a, acts[0]), acts[1..], act);
    }
  }

  lemma ReachesThenOne(a: Agent, b: Agent, act: Action)
    requires Reaches(a, b) && Enabled(b, act)
    ensures Reaches(a, Apply(b, act))
  {
    var acts :| Legal(a, acts) && Exec(a, acts) == b;
    LegalThenOne(a, acts, act);
  }

  // ------------------------------------------------------------------ what every action keeps

  /** A result for the task is waiting in the outbox or was handed to a socket. */
  ghost predicate Emitted(a: Agent, frame: Frame) {
    frame in a.past.handed || exists job :: job in a.outbox && a.outbox[job] == frame
  }

  ghost predicate ResultEmitted(a: Agent, id: TaskId) {
    exists frame :: Emitted(a, frame) && frame.Result? && frame.id == id
  }

  ghost predicate InQueue(a: Agent, task: Task) {
    exists job :: job in a.tasks && a.tasks[job] == Good(task)
  }

  /** Job numbers are never reused, and what the worker and the sender hold is what is stored. */
  ghost predicate Coherent(a: Agent) {
    WorkerCoherent(a) && SenderCoherent(a)
  }

  ghost predicate WorkerCoherent(a: Agent) {
    && (forall job :: job in a.tasks ==> job.n < a.next)
    && (a.worker.Busy? ==> a.worker.job.n < a.next && a.worker.task in a.past.accepted)
    && (a.worker.Busy? && a.worker.job in a.tasks ==>
          a.tasks[a.worker.job] == Good(a.worker.task) || a.tasks[a.worker.job] == Poison)
    && (forall job :: job in a.tasks && a.tasks[job].Good? ==> a.tasks[job].task in a.past.accepted)
  }

  ghost predicate SenderCoherent(a: Agent) {
    && (forall job :: job in a.outbox ==> job.n < a.next)
    && (a.sender.Holding? ==> a.sender.job.n < a.next && Emitted(a, a.sender.frame))
    && (a.sender.Holding? && a.sender.job in a.outbox ==> a.outbox[a.sender.job] == a.sender.frame)
    && (a.sender.Holding? && a.sender.sent ==> a.sender.frame in a.past.handed)
  }

  /** A persisted task is queued, or answered, or its stored copy was corrupted. */
  ghost predicate NothingLost(a: Agent) {
    && (forall t :: t in a.past.accepted ==> InQueue(a, t) || ResultEmitted(a, t.id) || t in a.past.spoiled)
    && (InPhase(a, Answered) ==> ResultEmitted(a, a.worker.task.id))
  }

  /** Results come from finished handlers of persisted tasks. */
  ghost predicate Genuine(a: Agent) {
    GenuineOutcomes(a) && forall frame :: Emitted(a, frame) ==> GenuineFrame(a, frame)
  }

  ghost predicate GenuineOutcomes(a: Agent) {
    && (forall e :: e in a.past.executed ==> e.0 in a.past.accepted)
    && (forall id :: id in a.journal ==> Produced(a, id, a.journal[id]))
    && (a.worker.Busy? && (a.worker.phase.Finished? || a.worker.phase.Journaled?) ==>
          (a.worker.task, a.worker.phase.outcome) in a.past.executed)
  }

  ghost predicate GenuineFrame(a: Agent, frame: Frame) {
    match frame
    case Result(id, outcome, _) => Produced(a, id, outcome)
    case Receipt(id) => exists t :: t in a.past.accepted && t.id == id
  }

  ghost predicate Produced(a: Agent, id: TaskId, outcome: Outcome) {
    exists t :: (t, outcome) in a.past.executed && t.id == id
  }

  /** The handler start that the journal, or the running worker, still accounts for. */
  function Accounted(a: Agent, id: TaskId): nat {
    if id in a.journal then 1
    else if a.worker.Busy? && a.worker.task.id == id && (a.worker.phase.Running? || a.worker.phase.Finished?) then 1
    else 0
  }

  /** Every handler start is accounted for by the journal, an interruption or a lost journal entry. */
  ghost predicate RunsBounded(a: Agent) {
    && (forall id :: a.past.runs[id] <= a.past.interruptions[id] + a.past.losses[id] + Accounted(a, id))
    && (a.worker.Busy? && (a.worker.phase.Running? || a.worker.phase.Finished?) ==> a.worker.task.id !in a.journal)
  }

  /** Until a journal entry is lost, all results ever sent for a task are the journaled one. */
  ghost predicate ResultsAgree(a: Agent) {
    && (forall frame :: Emitted(a, frame) && frame.Result? && a.past.losses[frame.id] == 0 ==>
          frame.id in a.journal && a.journal[frame.id] == frame.outcome)
    && (a.worker.Busy? && a.worker.phase.Journaled? && a.past.losses[a.worker.task.id] == 0 ==>
          a.worker.task.id in a.journal && a.journal[a.worker.task.id] == a.worker.phase.outcome)
  }

  ghost predicate Inv(a: Agent) {
    Coherent(a) && NothingLost(a) && Genuine(a) && RunsBounded(a) && ResultsAgree(a)
  }

  /** How the set of emitted frames can change: one frame may be added, and none disappears. */
  ghost predicate EmitsAtMost(a: Agent, b: Agent, added: set<Frame>) {
    && (forall frame :: Emitted(a, frame) || frame in added ==> Emitted(b, frame))
    && (forall frame :: Emitted(b, frame) ==> Emitted(a, frame) || frame in added)
  }

  function Added(a: Agent, act: Action): set<Frame>
    requires Enabled(a, act)
  {
    match act
    case Acknowledge(id) => {Receipt(id)}
    case Replay => {Result(a.worker.task.id, a.journal[a.worker.task.id], true)}
    case Answer => {Result(a.worker.task.id, a.worker.phase.outcome, false)}
    case _ => {}
  }

  lemma FrameAdded(a: Agent, b: Agent, frame: Frame)
    requires forall job :: job in a.outbox ==> job.n < a.next
    requires b.outbox == a.outbox[JobId(a.next) := frame] && b.past.handed == a.past.handed
    ensures EmitsAtMost(a, b, {frame})
  {
    assert b.outbox[JobId(a.next)] == frame;
    forall f | Emitted(a, f)
      ensures Emitted(b, f)
    {
      if f !in a.past.handed {
        var job :| job in a.outbox && a.outbox[job] == f;
        assert b.outbox[job] == f;
      }
    }
  }

  lemma FrameSettled(a: Agent, b: Agent, job: JobId)
    requires b.outbox == a.outbox - {job} && b.past.handed == a.past.handed
    requires job in a.outbox ==> a.outbox[job] in a.past.handed
    ensures EmitsAtMost(a, b, {})
  {
    forall f | Emitted(a, f)
      ensures Emitted(b, f)
    {
      if f !in a.past.handed {
        var j :| j in a.outbox && a.outbox[j] == f;
        assert j in b.outbox && b.outbox[j] == f;
      }
    }
  }

  lemma EmissionStep(a: Agent, act: Action)
    requires Coherent(a) && Enabled(a, act)
    ensures EmitsAtMost(a, Apply(a, act), Added(a, act))
  {
    var b := Apply(a, act);
    match act {
      case Acknowledge(id) => FrameAdded(a, b, Receipt(id));
      case Replay => FrameAdded(a, b, Result(a.worker.task.id, a.journal[a.worker.task.id], true));
      case Answer => FrameAdded(a, b, Result(a.worker.task.id, a.worker.phase.outcome, false));
      case Settle(removed) =>
        if removed {
          FrameSettled(a, b, a.sender.job);
        }
      case _ =>
    }
  }

  lemma WorkerCoherentStep(a: Agent, act: Action)
    requires WorkerCoherent(a) && Enabled(a, act)
    ensures WorkerCoherent(Apply(a, act))
  {
  }

  lemma SenderCoherentStep(a: Agent, act: Action)
    requires Coherent(a) && Enabled(a, act)
    ensures SenderCoherent(Apply(a, act))
  {
    EmissionStep(a, act);
    hide WorkerCoherent;
    if act.Pick? {
      assert Emitted(a, a.outbox[act.job]);
    }
  }

  lemma CoherentStep(a: Agent, act: Action)
    requires Coherent(a) && Enabled(a, act)
    ensures Coherent(Apply(a, act))
  {
    WorkerCoherentStep(a, act);
    SenderCoherentStep(a, act);
  }

  lemma QueueStep(a: Agent, act: Action, t: Task)
    requires Coherent(a) && Enabled(a, act) && InQueue(a, t)
    ensures InQueue(Apply(a, act), t) || t in Apply(a, act).past.spoiled || (act == Ack(true) && a.worker.task == t)
  {
    var b := Apply(a, act);
    var job :| job in a.tasks && a.tasks[job] == Good(t);
    if job in b.tasks && b.tasks[job] == Good(t) {
      assert InQueue(b, t);
    }
  }

  lemma NothingLostStep(a: Agent, act: Action)
    requires Coherent(a) && NothingLost(a) && Enabled(a, act)
    ensures NothingLost(Apply(a, act))
  {
    var b := Apply(a, act);
    EmissionStep(a, act);
    KeptResults(a, act);
    forall t | t in b.past.accepted
      ensures InQueue(b, t) || ResultEmitted(b, t.id) || t in b.past.spoiled
    {
      if t in a.past.accepted {
        if InQueue(a, t) {
          QueueStep(a, act, t);
        }
      } else {
        assert b.tasks[JobId(a.next)] == Good(t);
      }
    }
    if act.Replay? || act.Answer? {
      var frame := Any(Added(a, act));
      assert Emitted(b, frame);
    }
  }

  lemma KeptResults(a: Agent, act: Action)
    requires Coherent(a) && Enabled(a, act)
    ensures forall id :: ResultEmitted(a, id) ==> ResultEmitted(Apply(a, act), id)
  {
    EmissionStep(a, act);
    forall id | ResultEmitted(a, id)
      ensures ResultEmitted(Apply(a, act), id)
    {
      var frame :| Emitted(a, frame) && frame.Result? && frame.id == id;
      assert Emitted(Apply(a, act), frame);
    }
  }

  lemma GenuineOutcomesStep(a: Agent, act: Action)
    requires WorkerCoherent(a) && GenuineOutcomes(a) && Enabled(a, act)
    ensures GenuineOutcomes(Apply(a, act))
  {
    var b := Apply(a, act);
    assert forall id, o :: Produced(a, id, o) ==> Produced(b, id, o);
    if a.worker.Busy? && (a.worker.phase.Finished? || a.worker.phase.Journaled?) {
      assert Produced(a, a.worker.task.id, a.worker.phase.outcome);
    }
  }

  lemma GenuineFrameKept(a: Agent, act: Action, frame: Frame)
    requires Enabled(a, act) && GenuineFrame(a, frame)
    ensures GenuineFrame(Apply(a, act), frame)
  {
    var b := Apply(a, act);
    match frame {
      case Result(id, outcome, _) =>
        var t :| (t, outcome) in a.past.executed && t.id == id;
        assert (t, outcome) in b.past.executed;
      case Receipt(id) =>
        var t :| t in a.past.accepted && t.id == id;
        assert t in b.past.accepted;
    }
  }

  /** The frame that an action adds tells the truth. */
  lemma AddedIsGenuine(a: Agent, act: Action, frame: Frame)
    requires GenuineOutcomes(a) && Enabled(a, act) && frame in Added(a, act)
    ensures GenuineFrame(a, frame)
  {
  }

  lemma GenuineStep(a: Agent, act: Action)
    requires Coherent(a) && Genuine(a) && Enabled(a, act)
    ensures Genuine(Apply(a, act))
  {
    EmissionStep(a, act);
    GenuineOutcomesStep(a, act);
    hide Emitted, GenuineOutcomes, GenuineFrame, Apply;
    forall frame | Emitted(Apply(a, act), frame)
      ensures GenuineFrame(Apply(a, act), frame)
    {
      if !Emitted(a, frame) {
        AddedIsGenuine(a, act, frame);
      }
      GenuineFrameKept(a, act, frame);
    }
  }

  lemma RunsBoundedStep(a: Agent, act: Action)
    requires RunsBounded(a) && Enabled(a, act)
    ensures RunsBounded(Apply(a, act))
  {
  }

  lemma ResultsAgreeStep(a: Agent, act: Action)
    requires Coherent(a) && RunsBounded(a) && ResultsAgree(a) && Enabled(a, act)
    ensures ResultsAgree(Apply(a, act))
  {
    EmissionStep(a, act);
    var b := Apply(a, act);
    hide Coherent, Emitted;
    forall frame | Emitted(b, frame) && frame.Result? && b.past.losses[frame.id] == 0
      ensures frame.id in b.journal && b.journal[frame.id] == frame.outcome
    {
      assert Emitted(a, frame) || frame in Added(a, act);
    }
  }

  lemma {:induction false} InvStep(a: Agent, act: Action)
    requires Inv(a) && Enabled(a, act)
    ensures Inv(Apply(a, act))
  {
    CoherentStep(a, act);
    NothingLostStep(a, act);
    GenuineStep(a, act);
    RunsBoundedStep(a, act);
    ResultsAgreeStep(a, act);
  }

  lemma {:induction false} InvRun(a: Agent, acts: seq<Action>)
    requires Inv(a) && Legal(a, acts)
    ensures Inv(Exec(a, acts))
    decreases |acts|
  {
    if acts != [] {
      InvStep(a, acts[0]);
      InvRun(Apply(a, acts[0]), acts[1..]);
    }
  }

  lemma ReachesInv(a: Agent, b: Agent)
    requires Inv(a) && Reaches(a, b)
    ensures Inv(b)
  {
    var acts :| Legal(a, acts) && Exec(a, acts) == b;
    InvRun(a, acts);
  }
}
