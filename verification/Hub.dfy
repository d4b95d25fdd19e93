/**
 * The controller's code for the durable task protocol: the task log with its node-bound row updates,
 * the per-node queues, the drain loop and the result handler.
 */
module Hub {
  import opened Prelude
  import opened AgentModel
  import opened Protocol

  const BATCH := 20

  ghost predicate ControlRun(c: Controller, acts: seq<Control>)
    decreases |acts|
  {
    acts == [] || (ControlEnabled(c, acts[0]) && ControlRun(ControlApply(c, acts[0]), acts[1..]))
  }

  ghost function ControlEnd(c: Controller, acts: seq<Control>): Controller
    requires ControlRun(c, acts)
    decreases |acts|
  {
    if acts == [] then c else ControlEnd(ControlApply(c, acts[0]), acts[1..])
  }

  lemma {:induction false} ControlRunThenOne(c: Controller, acts: seq<Control>, act: Control)
    requires ControlRun(c, acts) && ControlEnabled(ControlEnd(c, acts), act)
    ensures ControlRun(c, acts + [act]) && ControlEnd(c, acts + [act]) == ControlApply(ControlEnd(c, acts), act)
    decreases |acts|
  {
    hide ControlEnabled, ControlApply;
    var all := acts + [act];
    if acts == [] {
      assert all[1..] == [];
      assert ControlRun(ControlApply(c, act), []);
    } else {
      assert all[1..] == acts[1..] + [act];
      ControlRunThenOne(ControlApply(c, acts[0]), acts[1..], act);
    }
  }

  /** Every round of a drain pushes a job of its node. */
  ghost predicate Rounds(jobs: map<JobId, Pushed>, node: Node, rounds: seq<Control>) {
    forall i :: 0 <= i < |rounds| ==> rounds[i].Drain? && rounds[i].job in jobs && jobs[rounds[i].job].node == node
  }

  /** These rounds pushed their job and recorded it in full. */
  ghost predicate Complete(rounds: seq<Control>) {
    forall i :: 0 <= i < |rounds| ==> rounds[i].Drain? && rounds[i].stop.sent && rounds[i].stop.marked && rounds[i].stop.counted
  }

  /** Jobs leave the queues only onto the wire, and only those of this node. */
  ghost predicate OnlyPushed(c: Controller, d: Controller, node: Node) {
    && (forall job :: job in d.jobs ==> job in c.jobs && d.jobs[job] == c.jobs[job])
    && (forall job :: job in c.jobs && job !in d.jobs ==> c.jobs[job].node == node && c.jobs[job] in d.pushed)
  }

  /** What a drain of the node's queue did, round by round. */
  ghost predicate DrainedBy(c: Controller, d: Controller, node: Node, rounds: seq<Control>) {
    ControlRun(c, rounds) && ControlEnd(c, rounds) == d && Rounds(c.jobs, node, rounds) && OnlyPushed(c, d, node)
  }

  lemma StartDrained(c: Controller, node: Node)
    ensures DrainedBy(c, c, node, []) && Complete([])
  {
    assert ControlRun(c, []) && ControlEnd(c, []) == c;
  }

  /**
   * How one round goes: whether the socket takes the frame, whether the claim is still live, and which
   * of the acknowledgement, the row update and the counter return without throwing.
   */
  datatype Wire = Wire(taken: bool, live: bool, acked: bool, marked: bool, counted: bool)

  /** What the queue hands out next, and how its round goes. */
  datatype Offer = Offer(job: JobId, wire: Wire)

  function StopOf(w: Wire): Stop {
    Stop(w.taken, w.taken && w.live, w.taken && w.acked && w.marked, w.taken && w.acked && w.marked && w.counted)
  }

  /** The rounds took the offered jobs in order, and each went as its wire says. */
  ghost predicate AsOffered(offers: seq<Offer>, rounds: seq<Control>) {
    && |rounds| <= |offers|
    && forall i :: 0 <= i < |rounds| ==> rounds[i] == Drain(offers[i].job, StopOf(offers[i].wire))
  }

  /** The queue offers each of these jobs of the node once, and nothing fails. */
  ghost predicate Healthy(jobs: map<JobId, Pushed>, node: Node, offers: seq<Offer>) {
    forall i :: 0 <= i < |offers| ==>
      && offers[i].job in jobs && jobs[offers[i].job].node == node && offers[i].wire == Wire(true, true, true, true, true)
      && forall j :: 0 <= j < i ==> offers[j].job != offers[i].job
  }

  /** The push left the queue and was put on the wire, and its row no longer waits. */
  ghost predicate Gone(c: Controller, job: JobId, push: Pushed) {
    && job !in c.jobs && push in c.pushed
    && (push.task.id in c.rows && c.rows[push.task.id].node == push.node ==> !c.rows[push.task.id].state.Queued?)
  }

  /** The task belongs to the node and has no result yet. */
  predicate ResultFor(rows: map<TaskId, Row>, node: Node, id: TaskId) {
    id in rows && rows[id].node == node && !rows[id].state.Done?
  }

  /** While all goes well, the first `i` jobs offered are gone, and the others still in the queue. */
  ghost predicate OnTrack(start: Controller, c: Controller, node: Node, offers: seq<Offer>, i: nat) {
    Healthy(start.jobs, node, offers) ==>
      && (forall j :: 0 <= j < |offers| && j < i ==> Gone(c, offers[j].job, start.jobs[offers[j].job]))
      && (forall j :: i <= j < |offers| ==> offers[j].job in c.jobs && c.jobs[offers[j].job] == start.jobs[offers[j].job])
  }

  /** What one round of the loop does to the state. */
  ghost predicate RoundOf(c: Controller, d: Controller, offer: Offer, stop: Stop) {
    && stop == StopOf(offer.wire) && OnlyForward(c, d) && offer.job in c.jobs
    && d.jobs == (if offer.wire.taken && offer.wire.live then c.jobs - {offer.job} else c.jobs)
    && (stop.counted && stop.removed ==> Gone(d, offer.job, c.jobs[offer.job]))
  }

  lemma OnTrackStep(start: Controller, c: Controller, d: Controller, node: Node, offers: seq<Offer>, i: nat, stop: Stop)
    requires i < |offers| && OnTrack(start, c, node, offers, i) && RoundOf(c, d, offers[i], stop)
    ensures OnTrack(start, d, node, offers, i + 1)
    ensures Healthy(start.jobs, node, offers) ==> stop.counted
  {
    hide Gone, OnlyForward;
    if Healthy(start.jobs, node, offers) {
      forall j | 0 <= j < i
        ensures Gone(d, offers[j].job, start.jobs[offers[j].job])
      {
        StaysGone(c, d, offers[j].job, start.jobs[offers[j].job]);
      }
    }
  }

  lemma TrackStarts(start: Controller, node: Node, offers: seq<Offer>)
    ensures OnTrack(start, start, node, offers, 0)
  {
  }

  lemma AllGone(start: Controller, c: Controller, node: Node, offers: seq<Offer>, n: nat)
    requires OnTrack(start, c, node, offers, n) && Healthy(start.jobs, node, offers)
    requires n < |offers| ==> offers[n].job !in c.jobs || c.jobs[offers[n].job].node != node
    ensures n >= |offers|
    ensures forall i :: 0 <= i < |offers| ==> Gone(c, offers[i].job, start.jobs[offers[i].job])
  {
  }

  predicate OwnRow(rows: map<TaskId, Row>, push: Pushed) {
    push.task.id in rows && rows[push.task.id].node == push.node
  }

  ghost predicate OnlyRow(before: map<TaskId, Row>, after: map<TaskId, Row>, id: TaskId) {
    before.Keys == after.Keys && forall k :: k in before && k != id ==> after[k] == before[k]
  }

  /** A row after a round that marked it, and perhaps counted the attempt. */
  function Moved(row: Row, marked: bool, counted: bool): Row {
    if !marked then row
    else row.(state := if row.state.Done? then row.state else Sent, attempts := row.attempts + if counted then 1 else 0)
  }

  /** What was put on the wire stays there, and no row goes back to waiting. */
  ghost predicate OnlyForward(c: Controller, d: Controller) {
    && c.pushed <= d.pushed && (forall job :: job in d.jobs ==> job in c.jobs)
    && (forall id :: id in d.rows ==> id in c.rows && d.rows[id].node == c.rows[id].node)
    && (forall id :: id in d.rows && d.rows[id].state.Queued? ==> c.rows[id].state.Queued?)
  }

  lemma StaysGone(c: Controller, d: Controller, job: JobId, push: Pushed)
    requires Gone(c, job, push) && OnlyForward(c, d)
    ensures Gone(d, job, push)
  {
  }

  class TaskHub {
    var rows: map<TaskId, Row>
    var jobs: map<JobId, Pushed>
    var next: nat
    var known: set<Node>

    ghost var issued: map<TaskId, Pushed>
    ghost var pushed: set<Pushed>
    ghost var effects: multiset<TaskId>

    ghost function Value(): Controller
      reads this
    {
      Controller(rows, jobs, next, known, issued, pushed, effects)
    }

    constructor ()
      ensures Value() == START.control
    {
      rows, jobs, next, known := map[], map[], 0, {};
      issued, pushed, effects := map[], {}, multiset{};
    }

    /** The queue first, then the task log: a crash between the two leaves a job without a row. */
    method EnqueueTask(node: Node, task: Task, logged: bool)
      requires task.id !in issued
      modifies this
      ensures Value() == ControlApply(old(Value()), Enqueue(Push(node, task), logged))
      ensures jobs == old(jobs)[JobId(old(next)) := Push(node, task)] && next == old(next) + 1
      ensures rows == if logged then old(rows)[task.id := Row(node, task, Queued, false, 0)] else old(rows)
    {
      jobs, next := jobs[JobId(next) := Push(node, task)], next + 1;
      issued := issued[task.id := Push(node, task)];
      if logged {
        rows := rows[task.id := Row(node, task, Queued, false, 0)];
      }
    }

    /** Updates only a row of the calling node that is not terminal, and says whether it did. */
    method MarkTaskState(node: Node, id: TaskId, state: State) returns (changed: bool)
      modifies this`rows
      ensures changed <==> id in old(rows) && old(rows)[id].node == node && !old(rows)[id].state.Done?
      ensures rows == if changed then old(rows)[id := old(rows)[id].(state := state)] else old(rows)
      ensures Value() == Mark(old(Value()), node, id, state)
    {
      changed := id in rows && rows[id].node == node && !rows[id].state.Done?;
      if changed {
        rows := rows[id := rows[id].(state := state)];
      }
    }

    method MarkTaskReceived(node: Node, id: TaskId)
      modifies this`rows
      ensures rows == if id in old(rows) && old(rows)[id].node == node then old(rows)[id := old(rows)[id].(received := true)] else old(rows)
      ensures Value() == MarkReceived(old(Value()), node, id)
    {
      if id in rows && rows[id].node == node && !rows[id].received {
        rows := rows[id := rows[id].(received := true)];
      }
      assert rows == MarkReceived(old(Value()), node, id).rows;
    }

    method BumpAttempts(node: Node, id: TaskId)
      modifies this`rows
      ensures rows == if id in old(rows) && old(rows)[id].node == node
                      then old(rows)[id := old(rows)[id].(attempts := old(rows)[id].attempts + 1)] else old(rows)
      ensures Value() == CountAttempt(old(Value()), node, id)
    {
      if id in rows && rows[id].node == node {
        rows := rows[id := rows[id].(attempts := rows[id].attempts + 1)];
      }
    }

    /** The job that the queue offers, if it offers one of the node: claimed jobs come back after their claim expires. */
    method ClaimTask(node: Node, offered: Option<JobId>) returns (claimed: Option<JobId>)
      ensures claimed == if offered.Some? && offered.value in jobs && jobs[offered.value].node == node then offered else None
    {
      claimed := if offered.Some? && offered.value in jobs && jobs[offered.value].node == node then offered else None;
    }

    /** Send one claimed job, acknowledge it and record it; any step may fail and gives the job back. */
    method PushJob(job: JobId, wire: Wire) returns (stop: Stop)
      requires job in jobs
      modifies this
      ensures Possible(stop) && stop == StopOf(wire) && Value() == Drained(old(Value()), job, stop)
      // the frame is on the wire as soon as the socket took it, and off the queue once acknowledged in time
      ensures pushed == old(pushed) + (if wire.taken then {old(jobs)[job]} else {})
      ensures jobs == if wire.taken && wire.live then old(jobs) - {job} else old(jobs)
      // then its row is marked as sent, unless it is terminal, and the attempt is counted
      ensures OnlyRow(old(rows), rows, old(jobs)[job].task.id)
      ensures OwnRow(old(rows), old(jobs)[job]) ==>
                rows[old(jobs)[job].task.id]
                == Moved(old(rows)[old(jobs)[job].task.id], wire.taken && wire.acked && wire.marked, wire.counted)
      ensures !OwnRow(old(rows), old(jobs)[job]) ==> rows == old(rows)
    {
      var push := jobs[job];
      stop := Stop(false, false, false, false);
      if !wire.taken {
        return;
      }
      pushed := pushed + {push};
      stop := stop.(sent := true);
      if wire.live {
        jobs := jobs - {job};
        stop := stop.(removed := true);
      }
      if !wire.acked || !wire.marked {
        return;
      }
      var changed := MarkTaskState(push.node, push.task.id, Sent);
      stop := stop.(marked := true);
      if !wire.counted {
        return;
      }
      BumpAttempts(push.node, push.task.id);
      stop := stop.(counted := true);
    }

    /**
     * One tick of a node's consumer: a small batch, cut short by an empty queue or a failure. `offers`
     * is what the queue hands out, claim by claim, and how each round goes.
     */
    method DrainNode(node: Node, current: bool, offers: seq<Offer>) returns (ghost rounds: seq<Control>)
      modifies this
      ensures DrainedBy(old(Value()), Value(), node, rounds) && AsOffered(offers, rounds)
      ensures |rounds| <= BATCH && (rounds != [] ==> Complete(rounds[..|rounds| - 1]))
      ensures !current || node !in old(known) ==> rounds == []
      // it stops only at the end of the batch, after a failure, or when it is offered no job of the node
      ensures current && node in old(known) && |rounds| < BATCH && |rounds| < |offers| ==>
                || (rounds != [] && !rounds[|rounds| - 1].stop.counted)
                || offers[|rounds|].job !in jobs || jobs[offers[|rounds|].job].node != node
      // a healthy tick puts everything it is offered on the wire
      ensures current && node in old(known) && |offers| <= BATCH && Healthy(old(jobs), node, offers) ==>
                |rounds| == |offers| && forall i :: 0 <= i < |offers| ==> Gone(Value(), offers[i].job, old(jobs)[offers[i].job])
    {
      rounds := [];
      if !current || node !in known {
        return;
      }
      hide DrainedBy, OnTrack, RoundOf, Healthy, StopOf, Gone;
      ghost var start := Value();
      rounds := DrainBatch(node, offers);
      if Healthy(start.jobs, node, offers) && |offers| <= BATCH {
        AllGone(start, Value(), node, offers, |rounds|);
      }
    }

    /** The rounds of one tick. */
    method DrainBatch(node: Node, offers: seq<Offer>) returns (ghost rounds: seq<Control>)
      requires node in known
      modifies this
      ensures DrainedBy(old(Value()), Value(), node, rounds) && AsOffered(offers, rounds)
      ensures |rounds| <= BATCH && (rounds != [] ==> Complete(rounds[..|rounds| - 1]))
      ensures OnTrack(old(Value()), Value(), node, offers, |rounds|)
      ensures Healthy(old(jobs), node, offers) ==> rounds == [] || rounds[|rounds| - 1].stop.counted
      ensures |rounds| < BATCH && |rounds| < |offers| ==>
                || (rounds != [] && !rounds[|rounds| - 1].stop.counted)
                || offers[|rounds|].job !in jobs || jobs[offers[|rounds|].job].node != node
    {
      hide DrainedBy, OnTrack, RoundOf, Healthy, StopOf;
      ghost var start := Value();
      rounds := [];
      StartDrained(start, node);
      TrackStarts(start, node, offers);
      for i := 0 to BATCH
        invariant |rounds| == i && AsOffered(offers, rounds)
        invariant DrainedBy(start, Value(), node, rounds) && Complete(rounds) && node in known
        invariant OnTrack(start, Value(), node, offers, i)
        invariant rounds == [] || rounds[i - 1].stop.counted
      {
        hide DrainedBy, OnTrack, RoundOf, Healthy, StopOf, Complete;
        var claimed := ClaimTask(node, if i < |offers| then Some(offers[i].job) else None);
        if claimed.None? {
          break;
        }
        ghost var earlier, before := rounds, Value();
        var stop := DrainOnce(start, node, offers[i], rounds);
        rounds := earlier + [Drain(claimed.value, stop)];
        assert rounds[..|rounds| - 1] == earlier;
        OnTrackStep(start, before, Value(), node, offers, i, stop);
        if !stop.counted {
          break;
        }
      }
    }

    /** A round of the drain loop, added to the rounds so far. */
    method DrainOnce(ghost start: Controller, node: Node, offer: Offer, ghost rounds: seq<Control>) returns (stop: Stop)
      requires offer.job in jobs && jobs[offer.job].node == node && node in known
      requires DrainedBy(start, Value(), node, rounds) && Complete(rounds)
      modifies this
      ensures Possible(stop) && stop == StopOf(offer.wire) && RoundOf(old(Value()), Value(), offer, stop)
      ensures DrainedBy(start, Value(), node, rounds + [Drain(offer.job, stop)])
      ensures stop.counted ==> Complete(rounds + [Drain(offer.job, stop)])
      ensures known == old(known)
    {
      hide ControlRun, ControlEnd, Mark, CountAttempt;
      ghost var before := Value();
      stop := PushJob(offer.job, offer.wire);
      ControlRunThenOne(start, rounds, Drain(offer.job, stop));
      DrainedShape(before, offer.job, stop);
    }

    method ProvisionNode(node: Node)
      modifies this`known
      ensures Value() == ControlApply(old(Value()), Provision(node)) && known == old(known) + {node}
    {
      known := known + {node};
    }

    /** The task side of deleting a node: its rows go, its queue stays. */
    method DeleteNode(node: Node)
      modifies this`known, this`rows
      ensures Value() == ControlApply(old(Value()), Purge(node)) && jobs == old(jobs)
      ensures known == old(known) - {node}
      ensures forall id :: id in rows <==> id in old(rows) && old(rows)[id].node != node
      ensures forall id :: id in rows ==> rows[id] == old(rows)[id]
    {
      rows := map id | id in rows && rows[id].node != node :: rows[id];
      known := known - {node};
    }

    /** A frame from an authenticated node. `alive` is false if a crash comes after the row update. */
    method Ingest(node: Node, frame: Frame, alive: bool)
      modifies this
      ensures Value() == Received(old(Value()), node, frame, alive)
      ensures frame.Receipt? && frame.id in old(rows) && old(rows)[frame.id].node == node ==>
                rows == old(rows)[frame.id := old(rows)[frame.id].(received := true)]
      ensures frame.Result? && ResultFor(old(rows), node, frame.id) ==>
                rows == old(rows)[frame.id := old(rows)[frame.id].(state := Done(frame.outcome, frame.cached))]
      ensures !(frame.id in old(rows) && old(rows)[frame.id].node == node) ==> rows == old(rows)
    {
      match frame {
        case Receipt(id) => MarkTaskReceived(node, id);
        case Result(_, _, _) => HandleResult(node, frame, alive);
      }
    }

    /** A result that changes no row is dropped; otherwise its lifecycle effects follow. */
    method HandleResult(node: Node, frame: Frame, alive: bool)
      requires frame.Result?
      modifies this
      ensures Value() == Received(old(Value()), node, frame, alive)
      // an open row of the node is closed with this outcome, and its effects begin
      ensures ResultFor(old(rows), node, frame.id) ==>
                rows == old(rows)[frame.id := old(rows)[frame.id].(state := Done(frame.outcome, frame.cached))]
      ensures ResultFor(old(rows), node, frame.id) && alive ==> effects == old(effects) + multiset{frame.id}
      ensures ResultFor(old(rows), node, frame.id) && !alive ==> effects == old(effects)
      // any other result changes nothing
      ensures !ResultFor(old(rows), node, frame.id) ==> rows == old(rows) && effects == old(effects)
    {
      var changed := MarkTaskState(node, frame.id, Done(frame.outcome, frame.cached));
      if changed && alive {
        effects := effects + multiset{frame.id};
      }
    }
  }
}
