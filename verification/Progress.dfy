/**
 * The other half of the task protocol: what `Protocol` allows can also be brought to its end. From every
 * reachable state some continuation closes any open row whose task is queued for a node that may connect.
 */
module Progress {
  import opened Prelude
  import opened AgentModel
  import opened Protocol

  /** Some run of the system leads from one state to the other. */
  ghost predicate Leads(s: System, rogue: set<Node>, t: System) {
    exists events :: Run(s, rogue, events) && End(s, rogue, events) == t
  }

  lemma LeadsToItself(s: System, rogue: set<Node>)
    ensures Leads(s, rogue, s)
  {
    assert Run(s, rogue, []) && End(s, rogue, []) == s;
  }

  lemma {:induction false} RunThenOne(s: System, rogue: set<Node>, events: seq<Event>, e: Event)
    requires Run(s, rogue, events) && Happens(End(s, rogue, events), rogue, e)
    ensures Run(s, rogue, events + [e])
    ensures End(s, rogue, events + [e]) == After(End(s, rogue, events), rogue, e)
    decreases |events|
  {
    hide Happens, After;
    var all := events + [e];
    if events == [] {
      assert all[1..] == [];
      assert Run(After(s, rogue, e), rogue, []);
    } else {
      assert all[1..] == events[1..] + [e];
      RunThenOne(After(s, rogue, events[0]), rogue, events[1..], e);
    }
  }

  lemma LeadsThenOne(s: System, rogue: set<Node>, t: System, e: Event)
    requires Leads(s, rogue, t) && Happens(t, rogue, e)
    ensures Leads(s, rogue, After(t, rogue, e))
  {
    hide Run, End, Happens, After;
    var events :| Run(s, rogue, events) && End(s, rogue, events) == t;
    RunThenOne(s, rogue, events, e);
  }

  lemma {:induction false} RunTwice(s: System, rogue: set<Node>, first: seq<Event>, more: seq<Event>)
    requires Run(s, rogue, first) && Run(End(s, rogue, first), rogue, more)
    ensures Run(s, rogue, first + more) && End(s, rogue, first + more) == End(End(s, rogue, first), rogue, more)
    decreases |more|
  {
    hide Happens, After;
    if more == [] {
      assert first + more == first;
    } else {
      RunThenOne(s, rogue, first, more[0]);
      assert first + more == (first + [more[0]]) + more[1..];
      RunTwice(s, rogue, first + [more[0]], more[1..]);
    }
  }

  /** What a reachable state leads to is reachable. */
  lemma LeadsKeepsReachable(s: System, rogue: set<Node>, t: System)
    requires Reachable(s, rogue) && Leads(s, rogue, t)
    ensures Reachable(t, rogue)
  {
    hide Run, End;
    var first :| Run(START, rogue, first) && End(START, rogue, first) == s;
    var more :| Run(s, rogue, more) && End(s, rogue, more) == t;
    RunTwice(START, rogue, first, more);
  }

  // ------------------------------------------------------------------ delivering a result

  /**
   * Whenever a result for an open row of its node is delivered, the row is closed with that outcome and
   * the effects begin, unless the controller crashes in between; nothing else in the system changes.
   */
  lemma DeliveredResultClosesRow(s: System, rogue: set<Node>, node: Node, frame: Frame, handled: bool)
    requires frame.Result? && Happens(s, rogue, AtController(Receive(node, frame, handled)))
    requires frame.id in s.control.rows && s.control.rows[frame.id].node == node && !s.control.rows[frame.id].state.Done?
    ensures
      var c := s.control;
      After(s, rogue, AtController(Receive(node, frame, handled)))
      == System(Controller(c.rows[frame.id := c.rows[frame.id].(state := Done(frame.outcome, frame.cached))],
                           c.jobs, c.next, c.known, c.issued, c.pushed,
                           if handled then c.effects + multiset{frame.id} else c.effects), s.agents)
  {
  }

  // ------------------------------------------------------------------ the agent answers

  function With(s: System, node: Node, a: Agent): System {
    s.(agents := s.agents[node := a])
  }

  lemma NodeStep(s: System, rogue: set<Node>, t: System, node: Node, a: Agent, act: Action)
    requires Leads(s, rogue, With(t, node, a)) && Enabled(a, act)
    requires act.Accept? ==> Push(node, act.task) in t.control.pushed
    ensures Leads(s, rogue, With(t, node, Apply(a, act)))
  {
    hide Leads, Enabled, Apply;
    LeadsThenOne(s, rogue, With(t, node, a), AtNode(node, act));
    assert After(With(t, node, a), rogue, AtNode(node, act)) == With(t, node, Apply(a, act));
  }

  /** After a restart, persist the task and claim it. */
  function Claimed(a: Agent, task: Task): Agent {
    a.(tasks := a.tasks[JobId(a.next) := Good(task)], next := a.next + 1, sender := Resting,
       worker := Busy(JobId(a.next), task, Phase.Claimed),
       past := Interrupted(a).past.(accepted := a.past.accepted + {task}))
  }

  lemma AgentClaims(s: System, rogue: set<Node>, t: System, node: Node, a: Agent, task: Task)
    requires Leads(s, rogue, With(t, node, a)) && Push(node, task) in t.control.pushed
    ensures Leads(s, rogue, With(t, node, Claimed(a, task)))
  {
    hide Leads, With;
    NodeStep(s, rogue, t, node, a, Crash);
    var a1 := Apply(a, Crash);
    NodeStep(s, rogue, t, node, a1, Accept(task));
    var a2 := Apply(a1, Accept(task));
    NodeStep(s, rogue, t, node, a2, Claim(JobId(a.next)));
    assert Apply(a2, Claim(JobId(a.next))) == Claimed(a, task);
  }

  /** The worker holds a claimed task and ends with a result for it in the outbox. */
  lemma AgentAnswers(s: System, rogue: set<Node>, t: System, node: Node, a: Agent, made: Outcome) returns (b: Agent, frame: Frame)
    requires Leads(s, rogue, With(t, node, a)) && InPhase(a, Phase.Claimed) && a.sender.Resting?
    ensures Leads(s, rogue, With(t, node, b)) && b.sender.Resting?
    ensures b.outbox == a.outbox[JobId(a.next) := frame]
    ensures frame.Result? && frame.id == a.worker.task.id
    ensures a.worker.task.id !in a.journal ==> frame == Result(a.worker.task.id, made, false)
    ensures a.worker.task.id in a.journal ==> frame == Result(a.worker.task.id, a.journal[a.worker.task.id], true)
  {
    hide Leads, With;
    var id := a.worker.task.id;
    if id in a.journal {
      NodeStep(s, rogue, t, node, a, Replay);
      b, frame := Apply(a, Replay), Result(id, a.journal[id], true);
    } else {
      NodeStep(s, rogue, t, node, a, Start);
      var a1 := Apply(a, Start);
      NodeStep(s, rogue, t, node, a1, Finish(made));
      var a2 := Apply(a1, Finish(made));
      NodeStep(s, rogue, t, node, a2, Commit);
      var a3 := Apply(a2, Commit);
      NodeStep(s, rogue, t, node, a3, Answer);
      b, frame := Apply(a3, Answer), Result(id, made, false);
    }
  }

  lemma AgentSends(s: System, rogue: set<Node>, t: System, node: Node, a: Agent, job: JobId) returns (b: Agent)
    requires Leads(s, rogue, With(t, node, a)) && a.sender.Resting? && job in a.outbox
    ensures Leads(s, rogue, With(t, node, b)) && a.outbox[job] in b.past.handed
  {
    hide Leads, With;
    NodeStep(s, rogue, t, node, a, Pick(job));
    var a1 := Apply(a, Pick(job));
    NodeStep(s, rogue, t, node, a1, Send);
    b := Apply(a1, Send);
  }

  // ------------------------------------------------------------------ every open task can be completed

  /** The row is still open, and its frame is on the wire. */
  ghost predicate OnWire(c: Controller, row: Row) {
    && row.task.id in c.rows && c.rows[row.task.id].node == row.node && c.rows[row.task.id].task == row.task
    && !c.rows[row.task.id].state.Done? && Push(row.node, row.task) in c.pushed
  }

  /** The task of an open row is on the wire, or still in a queue from which it can be pushed. */
  lemma WiredOrWaiting(s: System, rogue: set<Node>, id: TaskId)
    requires Reachable(s, rogue) && id in s.control.rows
    ensures
      var row := s.control.rows[id];
      && row.task.id == id
      && (row.state.Sent? ==> Push(row.node, row.task) in s.control.pushed)
      && (Push(row.node, row.task) in s.control.pushed || Waiting(s.control, Push(row.node, row.task)))
  {
    ReachableInv(s, rogue);
    hide Inv, Earned, EffectsOnce, Waiting, Reachable;
    assert Issued(s.control, Push(s.control.rows[id].node, s.control.rows[id].task));
  }

  lemma PushedStaysOpen(c: Controller, row: Row, job: JobId)
    requires row.task.id in c.rows && c.rows[row.task.id] == row && !row.state.Done?
    requires job in c.jobs && c.jobs[job] == Push(row.node, row.task)
    ensures OnWire(Drained(c, job, Stop(true, true, true, true)), row)
  {
  }

  lemma ReachesTheWire(s: System, rogue: set<Node>, id: TaskId) returns (t: System)
    requires Reachable(s, rogue) && id in s.control.rows && !s.control.rows[id].state.Done?
    requires s.control.rows[id].node in s.control.known || s.control.rows[id].state.Sent?
    ensures Leads(s, rogue, t) && OnWire(t.control, s.control.rows[id]) && t.agents == s.agents
  {
    hide Leads, Reachable, Drained;
    WiredOrWaiting(s, rogue, id);
    LeadsToItself(s, rogue);
    var row := s.control.rows[id];
    t := s;
    if Push(row.node, row.task) !in s.control.pushed {
      var job :| job in s.control.jobs && s.control.jobs[job] == Push(row.node, row.task);
      var round := AtController(Drain(job, Stop(true, true, true, true)));
      LeadsThenOne(s, rogue, s, round);
      PushedStaysOpen(s.control, row, job);
      t := After(s, rogue, round);
    }
  }

  lemma AnswersFromTheWire(s: System, rogue: set<Node>, t: System, row: Row, made: Outcome) returns (u: System, frame: Frame)
    requires Leads(s, rogue, t) && OnWire(t.control, row)
    ensures Leads(s, rogue, u) && u.control == t.control
    ensures frame.Result? && frame.id == row.task.id && frame in AgentOf(u, row.node).past.handed
    ensures row.task.id !in AgentOf(t, row.node).journal ==> frame.outcome == made
  {
    var a := AgentOf(t, row.node);
    assert Leads(s, rogue, With(t, row.node, a)) by { AgentAppears(s, rogue, t, row.node); }
    hide Leads;
    AgentClaims(s, rogue, t, row.node, a, row.task);
    var answered;
    answered, frame := AgentAnswers(s, rogue, t, row.node, Claimed(a, row.task), made);
    var sent := AgentSends(s, rogue, t, row.node, answered, JobId(Claimed(a, row.task).next));
    u := With(t, row.node, sent);
  }

  /** The node answers a frame on the wire, and its answer is delivered. */
  lemma AnsweredFromTheWire(s: System, rogue: set<Node>, t: System, row: Row, made: Outcome) returns (u: System)
    requires Leads(s, rogue, t) && OnWire(t.control, row)
    ensures Leads(s, rogue, u)
    ensures row.task.id in u.control.rows && u.control.rows[row.task.id].state.Done? && row.task.id in u.control.effects
    ensures row.task.id !in AgentOf(t, row.node).journal ==> u.control.rows[row.task.id].state.outcome == made
  {
    hide Leads, After;
    var answered, frame := AnswersFromTheWire(s, rogue, t, row, made);
    var last := AtController(Receive(row.node, frame, true));
    LeadsThenOne(s, rogue, answered, last);
    DeliveredResultClosesRow(answered, rogue, row.node, frame, true);
    u := After(answered, rogue, last);
  }

  /** A node that was never heard of behaves as one that just started. */
  lemma AgentAppears(s: System, rogue: set<Node>, t: System, node: Node)
    requires Leads(s, rogue, t)
    ensures Leads(s, rogue, With(t, node, AgentOf(t, node)))
  {
    hide Leads;
    if node in t.agents {
      assert With(t, node, AgentOf(t, node)) == t;
    } else {
      LeadsThenOne(s, rogue, t, AtNode(node, Crash));
      assert Apply(NEWBORN, Crash) == NEWBORN;
    }
  }

  /**
   * From every reachable state, whatever was lost, delayed or interrupted before, some continuation closes
   * an open row and begins its effects: of a node that may connect, or whose frame was already sent. A task
   * that the node's journal does not know ends with whatever its handler then returns.
   */
  lemma EveryOpenTaskCanClose(s: System, rogue: set<Node>, id: TaskId, made: Outcome) returns (t: System)
    requires Reachable(s, rogue) && id in s.control.rows && !s.control.rows[id].state.Done?
    requires s.control.rows[id].node in s.control.known || s.control.rows[id].state.Sent?
    ensures Leads(s, rogue, t) && Reachable(t, rogue)
    ensures id in t.control.rows && t.control.rows[id].state.Done? && t.control.effects[id] == 1
    ensures id !in AgentOf(s, s.control.rows[id].node).journal ==> t.control.rows[id].state.outcome == made
  {
    hide Leads, Reachable, After, AgentOf;
    WiredOrWaiting(s, rogue, id);
    var wired := ReachesTheWire(s, rogue, id);
    t := AnsweredFromTheWire(s, rogue, wired, s.control.rows[id], made);
    LeadsKeepsReachable(s, rogue, t);
    EffectsAtMostOnce(t, rogue, id);
    assert AgentOf(wired, s.control.rows[id].node) == AgentOf(s, s.control.rows[id].node) by { SameAgents(s, wired, s.control.rows[id].node); }
  }

  lemma SameAgents(s: System, t: System, node: Node)
    requires s.agents == t.agents
    ensures AgentOf(s, node) == AgentOf(t, node)
  {
  }
}
