/**
 * The durable task protocol end to end: the controller's task log and per-node queues, the network,
 * and every node's agent. A pushed frame may be lost, delivered late, out of order or many times, a
 * result frame likewise, and both sides may crash between any two durable writes.
 */
module Protocol {
  import opened Prelude
  import opened AgentModel

  type Node = string

  datatype State = Queued | Sent | Done(outcome: Outcome, cached: bool)

  datatype Row = Row(node: Node, task: Task, state: State, received: bool, attempts: nat)

  datatype Pushed = Push(node: Node, task: Task)

  /**
   * The task log, the queues (a job that is not acknowledged becomes claimable again, so claims leave
   * no trace), the nodes that may connect, and three histories: which task id was issued for which
   * node, which frames were put on the wire, and for which task ids the lifecycle effects of a result
   * began.
   */
  datatype Controller = Controller(
    rows: map<TaskId, Row>, jobs: map<JobId, Pushed>, next: nat, known: set<Node>,
    issued: map<TaskId, Pushed>, pushed: set<Pushed>, effects: multiset<TaskId>)

  datatype System = System(control: Controller, agents: map<Node, Agent>)

  const START := System(Controller(map[], map[], 0, {}, map[], {}, multiset{}), map[])

  function AgentOf(s: System, node: Node): Agent {
    if node in s.agents then s.agents[node] else NEWBORN
  }

  // ------------------------------------------------------------------ the controller's steps

  datatype Control =
    | Enqueue(push: Pushed, logged: bool)   // not logged: a crash came between queue and task log
    | Drain(job: JobId, stop: Stop)         // one round of the drain loop, for a node that may connect
    | Receive(node: Node, frame: Frame, handled: bool)  // not handled: a crash came after the row update
    | Provision(node: Node)                 // the node gets a token, and may connect
    | Purge(node: Node)                     // the node is deleted, and its rows with it

  /** How far a round of the drain loop got. The acknowledgement of an expired claim removes nothing. */
  datatype Stop = Stop(sent: bool, removed: bool, marked: bool, counted: bool)

  ghost predicate Possible(stop: Stop) {
    (stop.removed || stop.marked ==> stop.sent) && (stop.counted ==> stop.marked)
  }

  ghost predicate ControlEnabled(c: Controller, act: Control) {
    match act
    case Enqueue(push, _) => push.task.id !in c.issued
    case Drain(job, stop) => job in c.jobs && c.jobs[job].node in c.known && Possible(stop)
    case _ => true
  }

  /** The guard of the row update: the row belongs to the sender's node and is not terminal. */
  predicate Open(c: Controller, node: Node, id: TaskId) {
    id in c.rows && c.rows[id].node == node && !c.rows[id].state.Done?
  }

  function Mark(c: Controller, node: Node, id: TaskId, state: State): Controller {
    if Open(c, node, id) then c.(rows := c.rows[id := c.rows[id].(state := state)]) else c
  }

  function MarkReceived(c: Controller, node: Node, id: TaskId): Controller {
    if id in c.rows && c.rows[id].node == node then c.(rows := c.rows[id := c.rows[id].(received := true)]) else c
  }

  function CountAttempt(c: Controller, node: Node, id: TaskId): Controller {
    if id in c.rows && c.rows[id].node == node
    then c.(rows := c.rows[id := c.rows[id].(attempts := c.rows[id].attempts + 1)])
    else c
  }

  function Queue(c: Controller, push: Pushed): Controller {
    c.(jobs := c.jobs[JobId(c.next) := push], next := c.next + 1, issued := c.issued[push.task.id := push])
  }

  function Log(c: Controller, push: Pushed): Controller {
    c.(rows := c.rows[push.task.id := Row(push.node, push.task, Queued, false, 0)])
  }

  function Effect(c: Controller, id: TaskId): Controller {
    c.(effects := c.effects + multiset{id})
  }

  /** After `ws.send`: the acknowledgement, the row's state and its attempt counter. */
  function Drained(c: Controller, job: JobId, stop: Stop): Controller
    requires job in c.jobs
  {
    var push := c.jobs[job];
    var id := push.task.id;
    var marked := if stop.marked then Mark(c, push.node, id, Sent) else c;
    var counted := if stop.counted then CountAttempt(marked, push.node, id) else marked;
    counted.(pushed := if stop.sent then c.pushed + {push} else c.pushed,
             jobs := if stop.removed then c.jobs - {job} else c.jobs)
  }

  function Received(c: Controller, node: Node, frame: Frame, handled: bool): Controller {
    match frame
    case Receipt(id) => MarkReceived(c, node, id)
    case Result(id, outcome, cached) =>
      var marked := Mark(c, node, id, Done(outcome, cached));
      if Open(c, node, id) && handled then Effect(marked, id) else marked
  }

  function Purged(c: Controller, node: Node): Controller {
    c.(rows := map id | id in c.rows && c.rows[id].node != node :: c.rows[id], known := c.known - {node})
  }

  function ControlApply(c: Controller, act: Control): Controller
    requires ControlEnabled(c, act)
  {
    match act
    case Enqueue(push, logged) => if logged then Log(Queue(c, push), push) else Queue(c, push)
    case Drain(job, stop) => Drained(c, job, stop)
    case Receive(node, frame, handled) => Received(c, node, frame, handled)
    case Provision(node) => c.(known := c.known + {node})
    case Purge(node) => Purged(c, node)
  }

  // ------------------------------------------------------------------ the system's steps

  datatype Event = AtController(control: Control) | AtNode(node: Node, action: Action)

  /** The nodes in `rogue` may send any frame; the others only what their agent handed to a socket. */
  ghost predicate Happens(s: System, rogue: set<Node>, e: Event) {
    match e
    case AtController(act) =>
      ControlEnabled(s.control, act) &&
      (act.Receive? && act.node !in rogue ==> act.frame in AgentOf(s, act.node).past.handed)
    case AtNode(node, act) =>
      Enabled(AgentOf(s, node), act) && (act.Accept? ==> Push(node, act.task) in s.control.pushed)
  }

  ghost function After(s: System, rogue: set<Node>, e: Event): System
    requires Happens(s, rogue, e)
  {
    match e
    case AtController(act) => s.(control := ControlApply(s.control, act))
    case AtNode(node, act) => s.(agents := s.agents[node := Apply(AgentOf(s, node), act)])
  }

  ghost predicate Run(s: System, rogue: set<Node>, events: seq<Event>)
    decreases |events|
  {
    events == [] || (Happens(s, rogue, events[0]) && Run(After(s, rogue, events[0]), rogue, events[1..]))
  }

  ghost function End(s: System, rogue: set<Node>, events: seq<Event>): System
    requires Run(s, rogue, events)
    decreases |events|
  {
    if events == [] then s else End(After(s, rogue, events[0]), rogue, events[1..])
  }

  ghost predicate Reachable(s: System, rogue: set<Node>) {
    exists events :: Run(START, rogue, events) && End(START, rogue, events) == s
  }

  // ------------------------------------------------------------------ what every step keeps

  /** The queue, the wire and the task log agree on which node a task id belongs to. */
  ghost predicate Registered(c: Controller) {
    && (forall job :: job in c.jobs ==> job.n < c.next && Issued(c, c.jobs[job]))
    && (forall p :: p in c.pushed ==> Issued(c, p))
    && (forall id :: id in c.rows ==> c.rows[id].task.id == id && Issued(c, Push(c.rows[id].node, c.rows[id].task)))
    && (forall id :: id in c.issued ==> c.issued[id].task.id == id)
  }

  ghost predicate Issued(c: Controller, p: Pushed) {
    p.task.id in c.issued && c.issued[p.task.id] == p
  }

  ghost predicate Waiting(c: Controller, p: Pushed) {
    exists job :: job in c.jobs && c.jobs[job] == p
  }

  /** A task leaves the queue only onto the wire. */
  ghost predicate Conserved(c: Controller) {
    && (forall id :: id in c.issued ==> Waiting(c, c.issued[id]) || c.issued[id] in c.pushed)
    && (forall id :: id in c.rows && c.rows[id].state.Sent? ==> Push(c.rows[id].node, c.rows[id].task) in c.pushed)
  }

  ghost predicate EffectsOnce(c: Controller) {
    forall id :: c.effects[id] <= 1 && (id in c.effects ==> id in c.issued && (id in c.rows ==> c.rows[id].state.Done?))
  }

  ghost predicate ControlInv(c: Controller) {
    Registered(c) && Conserved(c) && EffectsOnce(c)
  }

  /** Agents hold only what was pushed to them. */
  ghost predicate Delivered(s: System) {
    forall node, t :: t in AgentOf(s, node).past.accepted ==> Push(node, t) in s.control.pushed
  }

  ghost predicate Earned(row: Row, a: Agent) {
    && (row.state.Done? ==> (row.task, row.state.outcome) in a.past.executed)
    && (row.state.Done? ==> Result(row.task.id, row.state.outcome, row.state.cached) in a.past.handed)
    && (row.received ==> row.task in a.past.accepted)
  }

  ghost predicate RowsEarned(s: System, rogue: set<Node>) {
    forall id :: id in s.control.rows && s.control.rows[id].node !in rogue ==>
      Earned(s.control.rows[id], AgentOf(s, s.control.rows[id].node))
  }

  ghost predicate AgentsSound(s: System) {
    forall node :: Inv(AgentOf(s, node))
  }

  ghost predicate SystemInv(s: System, rogue: set<Node>) {
    ControlInv(s.control) && AgentsSound(s) && Delivered(s) && RowsEarned(s, rogue)
  }

  lemma WaitingKept(c: Controller, d: Controller, p: Pushed, gone: JobId)
    requires Waiting(c, p) && forall job :: job in c.jobs && job != gone ==> job in d.jobs && d.jobs[job] == c.jobs[job]
    requires gone in c.jobs && c.jobs[gone] == p ==> gone in d.jobs && d.jobs[gone] == p
    ensures Waiting(d, p)
  {
    var job :| job in c.jobs && c.jobs[job] == p;
    assert job in d.jobs && d.jobs[job] == p;
  }

  /** Rows keep their node and task, and terminal ones their state. */
  ghost predicate RowsMoved(c: Controller, d: Controller) {
    && (forall id :: id in d.rows <==> id in c.rows)
    && (forall id :: id in c.rows ==> d.rows[id].node == c.rows[id].node && d.rows[id].task == c.rows[id].task)
    && (forall id :: id in c.rows && c.rows[id].state.Done? ==> d.rows[id].state == c.rows[id].state)
  }

  /** What a round of the drain loop for the job of `push` can do. */
  ghost predicate DrainShape(c: Controller, d: Controller, push: Pushed, job: JobId) {
    && RowsMoved(c, d) && d.issued == c.issued && d.effects == c.effects && d.next == c.next && d.known == c.known
    && (d.jobs == c.jobs || (d.jobs == c.jobs - {job} && push in d.pushed))
    && (d.pushed == c.pushed || d.pushed == c.pushed + {push})
    && (forall id :: id in c.rows ==> d.rows[id].received == c.rows[id].received)
    && (forall id :: id in c.rows && d.rows[id].state != c.rows[id].state ==>
          id == push.task.id && c.rows[id].node == push.node && d.rows[id].state == Sent && push in d.pushed)
  }

  /** What a frame can do. */
  ghost predicate ReceiveShape(c: Controller, d: Controller, node: Node, frame: Frame) {
    && RowsMoved(c, d) && d.issued == c.issued && d.next == c.next && d.jobs == c.jobs && d.pushed == c.pushed
    && (forall id :: id in c.rows && d.rows[id] != c.rows[id] ==> id == frame.id && c.rows[id].node == node)
    && (forall id :: id in c.rows && d.rows[id].state != c.rows[id].state ==>
          frame.Result? && d.rows[id].state == Done(frame.outcome, frame.cached))
    && (forall id :: id in c.rows && d.rows[id].received != c.rows[id].received ==> frame.Receipt?)
    && (d.effects == c.effects ||
        (Open(c, node, frame.id) && d.rows[frame.id].state.Done? && d.effects == c.effects + multiset{frame.id}))
  }

  lemma MarkMoves(c: Controller, node: Node, id: TaskId, state: State)
    ensures
      var d := Mark(c, node, id, state);
      && RowsMoved(c, d) && d == c.(rows := d.rows)
      && (forall k :: k in c.rows ==> d.rows[k].received == c.rows[k].received)
      && (forall k :: k in c.rows && d.rows[k].state != c.rows[k].state ==>
            k == id && c.rows[k].node == node && d.rows[k].state == state)
  {
  }

  lemma CountMoves(c: Controller, node: Node, id: TaskId)
    ensures
      var d := CountAttempt(c, node, id);
      && RowsMoved(c, d) && d == c.(rows := d.rows)
      && (forall k :: k in c.rows ==> d.rows[k].received == c.rows[k].received && d.rows[k].state == c.rows[k].state)
  {
  }

  lemma DrainedShape(c: Controller, job: JobId, stop: Stop)
    requires job in c.jobs && Possible(stop)
    ensures DrainShape(c, Drained(c, job, stop), c.jobs[job], job)
  {
    hide Mark, CountAttempt;
    var push := c.jobs[job];
    MarkMoves(c, push.node, push.task.id, Sent);
    CountMoves(if stop.marked then Mark(c, push.node, push.task.id, Sent) else c, push.node, push.task.id);
  }

  lemma ReceivedShape(c: Controller, node: Node, frame: Frame, handled: bool)
    ensures ReceiveShape(c, Received(c, node, frame, handled), node, frame)
  {
  }

  lemma RegisteredEnqueue(c: Controller, push: Pushed, logged: bool)
    requires Registered(c) && push.task.id !in c.issued
    ensures Registered(ControlApply(c, Enqueue(push, logged)))
  {
  }

  lemma RegisteredDrain(c: Controller, d: Controller, job: JobId)
    requires Registered(c) && job in c.jobs && DrainShape(c, d, c.jobs[job], job)
    ensures Registered(d)
  {
    assert Issued(c, c.jobs[job]);
  }

  /** Rows that only move, or disappear, stay registered. */
  lemma RegisteredKept(c: Controller, d: Controller)
    requires Registered(c) && d.jobs == c.jobs && d.next == c.next && d.pushed == c.pushed && d.issued == c.issued
    requires forall id :: id in d.rows ==> id in c.rows && d.rows[id].node == c.rows[id].node && d.rows[id].task == c.rows[id].task
    ensures Registered(d)
  {
  }

  lemma RegisteredStep(c: Controller, act: Control)
    requires Registered(c) && ControlEnabled(c, act)
    ensures Registered(ControlApply(c, act))
  {
    hide Drained, Received, Registered;
    match act {
      case Enqueue(push, logged) => RegisteredEnqueue(c, push, logged);
      case Drain(job, stop) =>
        DrainedShape(c, job, stop);
        RegisteredDrain(c, Drained(c, job, stop), job);
      case Receive(node, frame, handled) =>
        ReceivedShape(c, node, frame, handled);
        RegisteredKept(c, Received(c, node, frame, handled));
      case _ => RegisteredKept(c, ControlApply(c, act));
    }
  }

  lemma ConservedEnqueue(c: Controller, push: Pushed, logged: bool)
    requires Registered(c) && Conserved(c) && push.task.id !in c.issued
    ensures Conserved(ControlApply(c, Enqueue(push, logged)))
  {
    var d := ControlApply(c, Enqueue(push, logged));
    assert d.jobs[JobId(c.next)] == push;
    forall id | id in c.issued && Waiting(c, c.issued[id])
      ensures Waiting(d, c.issued[id])
    {
      WaitingKept(c, d, c.issued[id], JobId(c.next));
    }
  }

  lemma ConservedDrain(c: Controller, d: Controller, job: JobId)
    requires Registered(c) && Conserved(c) && job in c.jobs && DrainShape(c, d, c.jobs[job], job)
    ensures Conserved(d)
  {
    forall id | id in c.issued && Waiting(c, c.issued[id])
      ensures Waiting(d, c.issued[id]) || c.issued[id] in d.pushed
    {
      if c.jobs[job] != c.issued[id] || d.jobs == c.jobs {
        WaitingKept(c, d, c.issued[id], job);
      }
    }
    assert Issued(c, c.jobs[job]);
  }

  lemma ConservedKept(c: Controller, d: Controller)
    requires Conserved(c) && d.jobs == c.jobs && d.issued == c.issued && d.pushed == c.pushed
    requires forall id :: id in d.rows && d.rows[id].state.Sent? ==>
                 id in c.rows && c.rows[id].state.Sent? && c.rows[id].node == d.rows[id].node && c.rows[id].task == d.rows[id].task
    ensures Conserved(d)
  {
    assert forall p :: Waiting(c, p) ==> Waiting(d, p);
  }

  lemma ConservedStep(c: Controller, act: Control)
    requires Registered(c) && Conserved(c) && ControlEnabled(c, act)
    ensures Conserved(ControlApply(c, act))
  {
    hide Drained, Received, Registered, Conserved;
    match act {
      case Enqueue(push, logged) => ConservedEnqueue(c, push, logged);
      case Drain(job, stop) =>
        DrainedShape(c, job, stop);
        ConservedDrain(c, Drained(c, job, stop), job);
      case Receive(node, frame, handled) =>
        ReceivedShape(c, node, frame, handled);
        ConservedKept(c, Received(c, node, frame, handled));
      case _ => ConservedKept(c, ControlApply(c, act));
    }
  }

  lemma EffectsOnceStep(c: Controller, act: Control)
    requires Registered(c) && EffectsOnce(c) && ControlEnabled(c, act)
    ensures EffectsOnce(ControlApply(c, act))
  {
    hide Drained, Received;
    match act {
      case Drain(job, stop) => DrainedShape(c, job, stop);
      case Receive(node, frame, handled) =>
        ReceivedShape(c, node, frame, handled);
        if Open(c, node, frame.id) {
          assert Issued(c, Push(c.rows[frame.id].node, c.rows[frame.id].task));
        }
      case _ =>
    }
  }

  lemma {:induction false} ControlInvStep(c: Controller, act: Control)
    requires ControlInv(c) && ControlEnabled(c, act)
    ensures ControlInv(ControlApply(c, act))
  {
    RegisteredStep(c, act);
    ConservedStep(c, act);
    EffectsOnceStep(c, act);
  }

  /** An agent's histories only grow. */
  lemma HistoryGrows(a: Agent, act: Action)
    requires Enabled(a, act)
    ensures a.past.accepted <= Apply(a, act).past.accepted
    ensures a.past.executed <= Apply(a, act).past.executed
    ensures a.past.handed <= Apply(a, act).past.handed
    ensures Apply(a, act).past.accepted <= a.past.accepted + (if act.Accept? then {act.task} else {})
  {
  }

  lemma AgentsSoundStep(s: System, rogue: set<Node>, e: Event)
    requires AgentsSound(s) && Happens(s, rogue, e)
    ensures AgentsSound(After(s, rogue, e))
  {
    forall node
      ensures Inv(AgentOf(After(s, rogue, e), node))
    {
      assert Inv(AgentOf(s, node));
      if e.AtNode? && e.node == node {
        InvStep(AgentOf(s, node), e.action);
      }
    }
  }

  lemma DeliveredStep(s: System, rogue: set<Node>, e: Event)
    requires Delivered(s) && Happens(s, rogue, e)
    ensures Delivered(After(s, rogue, e))
  {
    if e.AtNode? {
      HistoryGrows(AgentOf(s, e.node), e.action);
    }
  }

  /** What a node that is not rogue says about its own task is true. */
  lemma HonestFrame(s: System, node: Node, frame: Frame, row: Row)
    requires Inv(AgentOf(s, node)) && Delivered(s) && Registered(s.control)
    requires frame in AgentOf(s, node).past.handed
    requires row.task.id == frame.id && row.node == node && Issued(s.control, Push(row.node, row.task))
    ensures frame.Result? ==> (row.task, frame.outcome) in AgentOf(s, node).past.executed
    ensures frame.Receipt? ==> row.task in AgentOf(s, node).past.accepted
  {
    var a := AgentOf(s, node);
    assert Emitted(a, frame);
    if frame.Result? {
      assert Produced(a, frame.id, frame.outcome);
      var t :| (t, frame.outcome) in a.past.executed && t.id == frame.id;
      assert Issued(s.control, Push(node, t));
    } else {
      var t :| t in a.past.accepted && t.id == frame.id;
      assert Issued(s.control, Push(node, t));
    }
  }

  lemma RowsEarnedAtNode(s: System, rogue: set<Node>, e: Event)
    requires RowsEarned(s, rogue) && Happens(s, rogue, e) && e.AtNode?
    ensures RowsEarned(After(s, rogue, e), rogue)
  {
    HistoryGrows(AgentOf(s, e.node), e.action);
  }

  lemma EarnedKept(row: Row, later: Row, a: Agent)
    requires Earned(row, a) && later.task == row.task && later.received == row.received
    requires later.state == row.state || !later.state.Done?
    ensures Earned(later, a)
  {
  }

  lemma RowsEarnedByFrame(s: System, rogue: set<Node>, d: Controller, node: Node, frame: Frame)
    requires Registered(s.control) && AgentsSound(s) && Delivered(s) && RowsEarned(s, rogue)
    requires node !in rogue ==> frame in AgentOf(s, node).past.handed
    requires ReceiveShape(s.control, d, node, frame)
    ensures RowsEarned(s.(control := d), rogue)
  {
    hide Inv;
    forall id | id in d.rows && d.rows[id].node !in rogue
      ensures Earned(d.rows[id], AgentOf(s, d.rows[id].node))
    {
      var row := s.control.rows[id];
      assert Earned(row, AgentOf(s, row.node));
      if d.rows[id] != row {
        assert Inv(AgentOf(s, node));
        assert Issued(s.control, Push(row.node, row.task));
        HonestFrame(s, node, frame, row);
      }
    }
  }

  lemma RowsEarnedKept(s: System, rogue: set<Node>, d: Controller)
    requires RowsEarned(s, rogue)
    requires forall id :: id in d.rows && id !in s.control.rows ==> !d.rows[id].state.Done? && !d.rows[id].received
    requires forall id :: id in d.rows && id in s.control.rows ==>
                 && d.rows[id].node == s.control.rows[id].node && d.rows[id].task == s.control.rows[id].task
                 && d.rows[id].received == s.control.rows[id].received
                 && (d.rows[id].state == s.control.rows[id].state || !d.rows[id].state.Done?)
    ensures RowsEarned(s.(control := d), rogue)
  {
    hide Earned;
    forall id | id in d.rows && d.rows[id].node !in rogue
      ensures Earned(d.rows[id], AgentOf(s, d.rows[id].node))
    {
      if id in s.control.rows {
        EarnedKept(s.control.rows[id], d.rows[id], AgentOf(s, d.rows[id].node));
      } else {
        NewRowEarned(d.rows[id], AgentOf(s, d.rows[id].node));
      }
    }
  }

  lemma NewRowEarned(row: Row, a: Agent)
    requires !row.state.Done? && !row.received
    ensures Earned(row, a)
  {
  }

  lemma RowsEarnedAtController(s: System, rogue: set<Node>, act: Control)
    requires Registered(s.control) && AgentsSound(s) && Delivered(s) && RowsEarned(s, rogue)
    requires Happens(s, rogue, AtController(act))
    ensures RowsEarned(After(s, rogue, AtController(act)), rogue)
  {
    var c, d := s.control, ControlApply(s.control, act);
    assert act.Enqueue? ==> act.push.task.id !in c.rows by {
      assert forall id :: id in c.rows ==> Issued(c, Push(c.rows[id].node, c.rows[id].task));
    }
    hide Drained, Received, AgentsSound, Delivered, Registered, RowsEarned;
    match act {
      case Drain(job, stop) =>
        DrainedShape(c, job, stop);
        RowsEarnedKept(s, rogue, d);
      case Receive(node, frame, handled) =>
        ReceivedShape(c, node, frame, handled);
        RowsEarnedByFrame(s, rogue, d, node, frame);
      case _ => RowsEarnedKept(s, rogue, d);
    }
  }

  lemma {:induction false} SystemInvStep(s: System, rogue: set<Node>, e: Event)
    requires SystemInv(s, rogue) && Happens(s, rogue, e)
    ensures SystemInv(After(s, rogue, e), rogue)
  {
    AgentsSoundStep(s, rogue, e);
    DeliveredStep(s, rogue, e);
    if e.AtController? {
      ControlInvStep(s.control, e.control);
      RowsEarnedAtController(s, rogue, e.control);
    } else {
      RowsEarnedAtNode(s, rogue, e);
    }
  }

  lemma {:induction false} SystemInvRun(s: System, rogue: set<Node>, events: seq<Event>)
    requires SystemInv(s, rogue) && Run(s, rogue, events)
    ensures SystemInv(End(s, rogue, events), rogue)
    decreases |events|
  {
    if events != [] {
      SystemInvStep(s, rogue, events[0]);
      SystemInvRun(After(s, rogue, events[0]), rogue, events[1..]);
    }
  }

  lemma ReachableInv(s: System, rogue: set<Node>)
    requires Reachable(s, rogue)
    ensures SystemInv(s, rogue)
  {
    var events :| Run(START, rogue, events) && End(START, rogue, events) == s;
    assert Inv(NEWBORN);
    SystemInvRun(START, rogue, events);
  }

  // ------------------------------------------------------------------ what every run guarantees

  /**
   * A row is terminal only if the node it was queued for executed that very task, with that outcome,
   * and handed the result to a socket.
   */
  lemma TerminalRowsAreEarned(s: System, rogue: set<Node>, id: TaskId)
    requires Reachable(s, rogue) && id in s.control.rows
    requires s.control.rows[id].node !in rogue && s.control.rows[id].state.Done?
    ensures
      var row := s.control.rows[id];
      var past := AgentOf(s, row.node).past;
      && Issued(s.control, Push(row.node, row.task))
      && (row.task, row.state.outcome) in past.executed
      && Result(id, row.state.outcome, row.state.cached) in past.handed
  {
    ReachableInv(s, rogue);
    assert Earned(s.control.rows[id], AgentOf(s, s.control.rows[id].node));
  }

  /** Whatever happens later, a terminal row keeps its state and causes no further effect. */
  lemma {:induction false} TerminalRowsAreFinal(s: System, rogue: set<Node>, events: seq<Event>, id: TaskId)
    requires Reachable(s, rogue) && Run(s, rogue, events)
    requires id in s.control.rows && s.control.rows[id].state.Done?
    ensures
      var c := End(s, rogue, events).control;
      && (id in c.rows ==> c.rows[id].state == s.control.rows[id].state)
      && c.effects[id] == s.control.effects[id]
  {
    ReachableInv(s, rogue);
    TerminalKept(s, rogue, events, id, s.control.rows[id].state, s.control.effects[id]);
  }

  /** The row is terminal with this state, or was purged. */
  ghost predicate Closed(c: Controller, id: TaskId, state: State, effects: nat) {
    id in c.issued && (id in c.rows ==> c.rows[id].state == state) && c.effects[id] == effects
  }

  lemma ClosedStep(c: Controller, act: Control, id: TaskId, state: State, effects: nat)
    requires Registered(c) && ControlEnabled(c, act) && state.Done? && Closed(c, id, state, effects)
    ensures Closed(ControlApply(c, act), id, state, effects)
  {
    hide Drained, Received;
    match act {
      case Drain(job, stop) => DrainedShape(c, job, stop);
      case Receive(node, frame, handled) => ReceivedShape(c, node, frame, handled);
      case _ =>
    }
  }

  lemma {:induction false} TerminalKept(s: System, rogue: set<Node>, events: seq<Event>, id: TaskId, state: State, effects: nat)
    requires SystemInv(s, rogue) && Run(s, rogue, events)
    requires state.Done? && Closed(s.control, id, state, effects)
    ensures Closed(End(s, rogue, events).control, id, state, effects)
    decreases |events|
  {
    hide Closed, ControlApply, Apply, AgentsSound, Delivered, RowsEarned;
    if events != [] {
      SystemInvStep(s, rogue, events[0]);
      if events[0].AtController? {
        ClosedStep(s.control, events[0].control, id, state, effects);
      }
      TerminalKept(After(s, rogue, events[0]), rogue, events[1..], id, state, effects);
    }
  }

  /** The lifecycle effects of a result begin at most once per task, and only when its row closes. */
  lemma EffectsAtMostOnce(s: System, rogue: set<Node>, id: TaskId)
    requires Reachable(s, rogue)
    ensures s.control.effects[id] <= 1
    ensures id in s.control.effects && id in s.control.rows ==> s.control.rows[id].state.Done?
  {
    ReachableInv(s, rogue);
  }

  /** A task the controller enqueued is still in its queue or was put on the wire to its own node. */
  lemma NoEnqueuedTaskIsDropped(s: System, rogue: set<Node>, id: TaskId)
    requires Reachable(s, rogue) && id in s.control.issued
    ensures Waiting(s.control, s.control.issued[id]) || s.control.issued[id] in s.control.pushed
    ensures forall node, t :: t in AgentOf(s, node).past.accepted && t.id == id ==> s.control.issued[id] == Push(node, t)
  {
    ReachableInv(s, rogue);
    forall node, t | t in AgentOf(s, node).past.accepted && t.id == id
      ensures s.control.issued[id] == Push(node, t)
    {
      assert Issued(s.control, Push(node, t));
    }
  }

  /**
   * A task that a node persisted is still queued there, or a result for it waits in the outbox or was
   * handed to a socket, unless the stored copy was corrupted.
   */
  lemma NoAcceptedTaskIsLost(s: System, rogue: set<Node>, node: Node, task: Task)
    requires Reachable(s, rogue) && task in AgentOf(s, node).past.accepted
    ensures
      var a := AgentOf(s, node);
      InQueue(a, task) || ResultEmitted(a, task.id) || task in a.past.spoiled
  {
    ReachableInv(s, rogue);
    assert Inv(AgentOf(s, node));
  }

  /** However often a task is delivered, its handler starts at most once more than it was interrupted or forgotten. */
  lemma BoundedReexecution(s: System, rogue: set<Node>, node: Node, id: TaskId)
    requires Reachable(s, rogue)
    ensures
      var past := AgentOf(s, node).past;
      past.runs[id] <= 1 + past.interruptions[id] + past.losses[id]
  {
    ReachableInv(s, rogue);
    assert Inv(AgentOf(s, node));
  }

  /** Within the journal's retention, every result a node ever sends for a task is the same one. */
  lemma AllResultsAgree(s: System, rogue: set<Node>, node: Node, f: Frame, g: Frame)
    requires Reachable(s, rogue) && f.Result? && g.Result? && f.id == g.id
    requires Emitted(AgentOf(s, node), f) && Emitted(AgentOf(s, node), g)
    requires AgentOf(s, node).past.losses[f.id] == 0
    ensures f.outcome == g.outcome
  {
    ReachableInv(s, rogue);
    assert Inv(AgentOf(s, node));
  }

  /** A receipt in the task log means the node holds, or held, the very task on disk. */
  lemma ReceiptsAreTruthful(s: System, rogue: set<Node>, id: TaskId)
    requires Reachable(s, rogue) && id in s.control.rows
    requires s.control.rows[id].node !in rogue && s.control.rows[id].received
    ensures s.control.rows[id].task in AgentOf(s, s.control.rows[id].node).past.accepted
  {
    ReachableInv(s, rogue);
    assert Earned(s.control.rows[id], AgentOf(s, s.control.rows[id].node));
  }

  /** One frame changes no row but those of its sender's tasks. */
  lemma ForeignRowsAreSafe(c: Controller, node: Node, frame: Frame, handled: bool, id: TaskId)
    requires id in c.rows && c.rows[id].node != node
    ensures var d := Received(c, node, frame, handled);
            id in d.rows && d.rows[id] == c.rows[id] && d.effects[id] == c.effects[id]
  {
    ReceivedShape(c, node, frame, handled);
  }

  /** Whatever the nodes of a set do, and whatever frames they send. */
  ghost predicate DoneBy(nodes: set<Node>, e: Event) {
    match e
    case AtController(act) => act.Receive? && act.node in nodes
    case AtNode(node, _) => node in nodes
  }

  /**
   * However many frames a set of rogue nodes forges, and whatever happens on those nodes, no row and no
   * effect of another node's task changes, no queue changes, and no other agent notices.
   */
  lemma {:induction false} RogueNodesHarmOnlyThemselves(s: System, rogue: set<Node>, events: seq<Event>, id: TaskId, node: Node)
    requires Run(s, rogue, events) && forall e :: e in events ==> DoneBy(rogue, e)
    requires id in s.control.rows && s.control.rows[id].node == node && node !in rogue
    ensures
      var t := End(s, rogue, events);
      && id in t.control.rows && t.control.rows[id] == s.control.rows[id]
      && t.control.effects[id] == s.control.effects[id]
      && t.control.jobs == s.control.jobs && t.control.pushed == s.control.pushed
      && AgentOf(t, node) == AgentOf(s, node)
    decreases |events|
  {
    if events != [] {
      var e := events[0];
      assert DoneBy(rogue, e);
      var t := After(s, rogue, e);
      if e.AtController? {
        ForeignRowsAreSafe(s.control, e.control.node, e.control.frame, e.control.handled, id);
        ReceivedShape(s.control, e.control.node, e.control.frame, e.control.handled);
      }
      hide Received, Apply;
      RogueNodesHarmOnlyThemselves(t, rogue, events[1..], id, node);
    }
  }

  // ------------------------------------------------------------------ deleting a node

  /** The frames that the controller puts on the wire during a run. */
  ghost function Wired(s: System, rogue: set<Node>, events: seq<Event>): set<Pushed>
    requires Run(s, rogue, events)
    decreases |events|
  {
    if events == [] then {}
    else WiredBy(s.control, events[0]) + Wired(After(s, rogue, events[0]), rogue, events[1..])
  }

  function WiredBy(c: Controller, e: Event): set<Pushed> {
    if e.AtController? && e.control.Drain? && e.control.stop.sent && e.control.job in c.jobs then {c.jobs[e.control.job]} else {}
  }

  predicate NoJobsOf(c: Controller, node: Node) {
    forall job :: job in c.jobs ==> c.jobs[job].node != node
  }

  /** No job of the node carries one of these task ids, and the ids stay issued. */
  ghost predicate OldTasksGone(c: Controller, node: Node, earlier: set<TaskId>) {
    && earlier <= c.issued.Keys
    && forall job :: job in c.jobs && c.jobs[job].node == node ==> c.jobs[job].task.id !in earlier
  }

  lemma OldTasksStayGone(c: Controller, act: Control, node: Node, earlier: set<TaskId>)
    requires ControlEnabled(c, act) && OldTasksGone(c, node, earlier)
    ensures OldTasksGone(ControlApply(c, act), node, earlier)
  {
    hide Drained, Received;
    match act {
      case Drain(job, stop) => DrainedShape(c, job, stop);
      case Receive(from, frame, handled) => ReceivedShape(c, from, frame, handled);
      case _ =>
    }
  }

  lemma {:induction false} OldTasksAreNotWired(s: System, rogue: set<Node>, events: seq<Event>, node: Node, earlier: set<TaskId>)
    requires Run(s, rogue, events) && OldTasksGone(s.control, node, earlier)
    ensures forall p :: p in Wired(s, rogue, events) && p.node == node ==> p.task.id !in earlier
    decreases |events|
  {
    hide OldTasksGone, ControlApply, Apply;
    if events != [] {
      var t := After(s, rogue, events[0]);
      if events[0].AtController? {
        OldTasksStayGone(s.control, events[0].control, node, earlier);
        WiredIsNew(s.control, events[0].control, node, earlier);
      }
      OldTasksAreNotWired(t, rogue, events[1..], node, earlier);
    }
  }

  lemma WiredIsNew(c: Controller, act: Control, node: Node, earlier: set<TaskId>)
    requires OldTasksGone(c, node, earlier)
    ensures forall p :: p in WiredBy(c, AtController(act)) && p.node == node ==> p.task.id !in earlier
  {
  }

  /** After the node's deletion no continuation puts a task issued before it on the wire to that name. */
  ghost predicate DeletionIsClean(s: System, rogue: set<Node>, node: Node) {
    forall events, p :: DeletedRun(s, rogue, node, events) && p in Wired(Deleted(s, node), rogue, events) && p.node == node ==>
      p.task.id !in s.control.issued
  }

  function Deleted(s: System, node: Node): System {
    s.(control := Purged(s.control, node))
  }

  ghost predicate DeletedRun(s: System, rogue: set<Node>, node: Node, events: seq<Event>) {
    Run(Deleted(s, node), rogue, events)
  }

  /** Provision the name again and drain a job that was left in its queue. */
  function LeftoverRun(node: Node, job: JobId): seq<Event> {
    [AtController(Provision(node)), AtController(Drain(job, Stop(true, true, true, true)))]
  }

  lemma LeftoverIsWired(s: System, rogue: set<Node>, node: Node, job: JobId)
    requires job in s.control.jobs && s.control.jobs[job].node == node
    ensures DeletedRun(s, rogue, node, LeftoverRun(node, job))
    ensures s.control.jobs[job] in Wired(Deleted(s, node), rogue, LeftoverRun(node, job))
  {
    var events := LeftoverRun(node, job);
    var d := Deleted(s, node);
    var s1 := After(d, rogue, events[0]);
    assert Happens(s1, rogue, events[1]);
    var s2 := After(s1, rogue, events[1]);
    assert events[1..] == [events[1]] && [events[1]][1..] == [];
    assert Run(s2, rogue, []);
    assert Run(s1, rogue, [events[1]]);
    assert s.control.jobs[job] in WiredBy(s1.control, events[1]);
    assert s.control.jobs[job] in Wired(s1, rogue, [events[1]]);
    assert s.control.jobs[job] in Wired(s1, rogue, events[1..]);
  }

  /**
   * Deleting a node forgets its task rows but not its queue, although its comment promises to clear the
   * queued tasks. The promise holds if and only if the node's queue is empty when it is deleted.
   */
  lemma DeletionIsCleanIffQueueEmpty(s: System, rogue: set<Node>, node: Node)
    requires Reachable(s, rogue)
    ensures DeletionIsClean(s, rogue, node) <==> NoJobsOf(s.control, node)
  {
    ReachableInv(s, rogue);
    if NoJobsOf(s.control, node) {
      forall events, p | DeletedRun(s, rogue, node, events) && p in Wired(Deleted(s, node), rogue, events) && p.node == node
        ensures p.task.id !in s.control.issued
      {
        OldTasksAreNotWired(Deleted(s, node), rogue, events, node, s.control.issued.Keys);
      }
    } else {
      var job :| job in s.control.jobs && s.control.jobs[job].node == node;
      LeftoverIsWired(s, rogue, node, job);
      assert Issued(s.control, s.control.jobs[job]);
    }
  }

  /**
   * A frame that is on the wire when its node is deleted can still arrive: the node persists the task,
   * and no row is left to record what becomes of it.
   */
  lemma WiredFramesOutliveTheNode(s: System, rogue: set<Node>, push: Pushed)
    requires Reachable(s, rogue) && push in s.control.pushed
    ensures Happens(Deleted(s, push.node), rogue, AtNode(push.node, Accept(push.task)))
    ensures
      var t := After(Deleted(s, push.node), rogue, AtNode(push.node, Accept(push.task)));
      push.task in AgentOf(t, push.node).past.accepted && push.task.id !in t.control.rows
  {
    ReachableInv(s, rogue);
    assert Issued(s.control, push);
    if push.task.id in s.control.rows {
      assert Issued(s.control, Push(s.control.rows[push.task.id].node, s.control.rows[push.task.id].task));
    }
  }
}
