/**
 * Shared cold data is cleaned up exactly once: no cleanup is queued while an account removal of the same
 * roster removal is unfinished or failed, and exactly one for each owner node once all of them succeeded.
 */
module LabCold {
  import opened Prelude
  import opened RosterPlan
  import opened LabState
  import opened LabInvariants
  import opened LabTeardown
  import opened LabOwners

  ghost function Parts(s: State, removal: RemovalId): set<TaskId> {
    set id | id in s.tasks && PartOf(s.tasks[id], removal)
  }

  ghost function Cleanups(s: State, node: NodeName, removal: RemovalId): set<TaskId> {
    set id | id in s.tasks && Cleans(s.tasks[id], node, removal)
  }

  /** All account removals of the roster removal exist and succeeded. */
  ghost predicate AllSucceeded(s: State, removal: RemovalId) {
    Parts(s, removal) != {} && RemovalComplete(s, removal)
  }

  ghost predicate Agree(s: State, removal: RemovalId) {
    forall a, b :: a in Parts(s, removal) && b in Parts(s, removal) ==>
      s.tasks[a].kind.removal.value.nodes == s.tasks[b].kind.removal.value.nodes
  }

  /** The number of cleanups for one removal: none, or one for each of its owner nodes. */
  ghost predicate CleanedOnce(s: State, removal: RemovalId) {
    && Agree(s, removal)
    && (!AllSucceeded(s, removal) ==> forall node :: Cleanups(s, node, removal) == {})
    && (AllSucceeded(s, removal) ==>
          forall id :: id in Parts(s, removal) ==> OneEach(s, removal, s.tasks[id].kind.removal.value.nodes))
  }

  ghost predicate OneEach(s: State, removal: RemovalId, nodes: seq<NodeName>) {
    forall node :: |Cleanups(s, node, removal)| == if node in nodes then 1 else 0
  }

  ghost predicate Numbered(s: State) {
    forall id, removal :: id in s.tasks && (PartOf(s.tasks[id], removal) || Cleans(s.tasks[id], s.tasks[id].node, removal)) ==>
      removal.n < s.next
  }

  ghost predicate ColdOnce(s: State) {
    Numbered(s) && forall removal :: CleanedOnce(s, removal)
  }

  /** The account removals and the cleanups of this removal are the same tasks in both states. */
  ghost predicate SameFor(s: State, t: State, removal: RemovalId) {
    && Parts(t, removal) == Parts(s, removal)
    && (forall id :: id in Parts(s, removal) ==> t.tasks[id] == s.tasks[id])
    && (forall node :: Cleanups(t, node, removal) == Cleanups(s, node, removal))
  }

  lemma SameForKeeps(s: State, t: State, removal: RemovalId)
    requires SameFor(s, t, removal) && CleanedOnce(s, removal)
    ensures CleanedOnce(t, removal)
  {
    assert RemovalComplete(s, removal) <==> forall id :: id in Parts(s, removal) ==> s.tasks[id].progress.Succeeded?;
    assert RemovalComplete(t, removal) <==> forall id :: id in Parts(t, removal) ==> t.tasks[id].progress.Succeeded?;
    if AllSucceeded(s, removal) {
      forall id | id in Parts(t, removal)
        ensures OneEach(t, removal, t.tasks[id].kind.removal.value.nodes)
      {
        assert OneEach(s, removal, s.tasks[id].kind.removal.value.nodes);
      }
    }
  }

  lemma GrowsKeepsCold(s: State, t: State)
    requires ColdOnce(s) && Grows(s, t)
    ensures ColdOnce(t)
  {
    forall removal
      ensures CleanedOnce(t, removal)
    {
      assert SameFor(s, t, removal);
      SameForKeeps(s, t, removal);
    }
  }

  /** A new removal starts with open tasks only, under a number never used before. */
  lemma RemovalKeepsCold(s: State, t: State, lab: LabName, hosts: set<NodeName>, student: StudentId, removal: Option<Removal>)
    requires ColdOnce(s) && s.next < t.next
    requires removal.Some? ==> removal.value.id == RemovalId(s.next) && hosts != {}
    requires RemovalTasks(s.(next := s.next + 1), t, lab, hosts, student, removal)
    ensures ColdOnce(t)
  {
    forall r | removal.None? || r != removal.value.id
      ensures CleanedOnce(t, r)
    {
      assert SameFor(s, t, r);
      SameForKeeps(s, t, r);
    }
    if removal.Some? {
      NewRemovalIsOpen(s, t, lab, hosts, student, removal.value);
    }
  }

  lemma NewRemovalIsOpen(s: State, t: State, lab: LabName, hosts: set<NodeName>, student: StudentId, removal: Removal)
    requires Numbered(s) && removal.id == RemovalId(s.next) && hosts != {}
    requires RemovalTasks(s.(next := s.next + 1), t, lab, hosts, student, Some(removal))
    ensures CleanedOnce(t, removal.id)
  {
    var node := Any(hosts);
    assert RemovalQueued(t, s.next + 1, lab, node, student, Some(removal));
    var id :| id in t.tasks && s.next + 1 <= id.n && t.tasks[id] == Task(node, lab, AccountRemove(student, Some(removal)), Open);
    assert !RemovalComplete(t, removal.id);
    forall n
      ensures Cleanups(t, n, removal.id) == {}
    {
    }
  }

  lemma DismissedCold(s: State, lab: LabName, student: StudentId, removal: Option<Removal>, hosts: seq<NodeName>)
    requires FreshIds(s) && ColdOnce(s) && lab in s.labs
    requires removal.Some? ==> removal.value.id == RemovalId(s.next) && hosts != []
    ensures ColdOnce(DeprovisionAll(Leave(s.(next := s.next + 1), lab, student), lab, student, removal, hosts))
  {
    var t := Leave(s.(next := s.next + 1), lab, student);
    var u := DeprovisionAll(t, lab, student, removal, hosts);
    assert FreshIds(t);
    assert hosts != [] ==> hosts[0] in Elements(hosts);
    hide ColdOnce, FreshIds, DeprovisionAll, Dismisses, RemovalTasks;
    DeprovisionAllDismisses(t, lab, student, removal, hosts);
    SameTasksRemoval(s, t, u, lab, Elements(hosts), student, removal);
    RemovalKeepsCold(s, u, lab, Elements(hosts), student, removal);
  }

  lemma RemoveStudentCold(s: State, lab: LabName, student: StudentId, deleteData: bool, hosts: seq<NodeName>)
    requires FreshIds(s) && ColdOnce(s)
    ensures ColdOnce(RemoveStudent(s, lab, student, deleteData, hosts).state)
  {
    var removal := RemovalFor(s, deleteData, hosts);
    assert removal.Some? ==> removal.value.id == RemovalId(s.next) && hosts != [];
    hide ColdOnce, FreshIds, DeprovisionAll, Leave, RemovalFor;
    if lab in s.labs {
      DismissedCold(s, lab, student, removal, hosts);
    }
  }

  /**
   * Removing a student queues an account removal on every placement of the lab; when data is deleted
   * they share a removal whose cleanup nodes are exactly the hosts with cold storage of their own.
   */
  lemma RemovalReachesEveryPlacement(s: State, lab: LabName, student: StudentId, deleteData: bool, hosts: seq<NodeName>, node: NodeName)
    requires Good(s) && Listing(hosts, HostsOf(s, lab)) && RemoveStudent(s, lab, student, deleteData, hosts).ok
    requires Site(lab, node) in s.placements
    ensures
      var removal := RemovalFor(s, deleteData, hosts);
      && RemovalQueued(RemoveStudent(s, lab, student, deleteData, hosts).state, s.next + 1, lab, node, student, removal)
      && (removal.Some? <==> deleteData)
      && (deleteData ==> forall n :: n in removal.value.nodes <==> Site(lab, n) in s.placements && On(s, n, LocalZfs))
  {
    GoodIsFresh(s);
    hide Good, FreshIds, HostsOf, DeprovisionAll, OnBackend, RemovalQueued;
    HostsArePlaced(s, lab, hosts);
    OnBackendPicks(s, hosts, LocalZfs);
    RemovalQueuedAt(s, lab, student, RemovalFor(s, deleteData, hosts), hosts, node);
  }

  lemma GoodIsFresh(s: State)
    requires Good(s)
    ensures FreshIds(s)
  {
  }

  lemma RemovalQueuedAt(s: State, lab: LabName, student: StudentId, removal: Option<Removal>, hosts: seq<NodeName>, node: NodeName)
    requires FreshIds(s) && lab in s.labs && node in hosts
    ensures RemovalQueued(DeprovisionAll(Leave(s.(next := s.next + 1), lab, student), lab, student, removal, hosts),
                          s.next + 1, lab, node, student, removal)
  {
    var t := Leave(s.(next := s.next + 1), lab, student);
    assert FreshIds(t);
    hide FreshIds, Dismisses, DeprovisionAll, RemovalQueued;
    DeprovisionAllDismisses(t, lab, student, removal, hosts);
    assert node in Elements(hosts);
  }

  lemma HostsArePlaced(s: State, lab: LabName, hosts: seq<NodeName>)
    requires Listing(hosts, HostsOf(s, lab))
    ensures forall n :: n in hosts <==> Site(lab, n) in s.placements
  {
    forall n
      ensures n in hosts <==> Site(lab, n) in s.placements
    {
      assert n in hosts <==> n in HostsOf(s, lab);
      if n in HostsOf(s, lab) {
        var site :| site in s.placements && site.lab == lab && site.node == n;
        assert site == Site(lab, n);
      }
    }
  }

  lemma SameTasksRemoval(s: State, t: State, u: State, lab: LabName, hosts: set<NodeName>, student: StudentId, removal: Option<Removal>)
    requires t.tasks == s.tasks && t.next == s.next + 1 && RemovalTasks(t, u, lab, hosts, student, removal)
    ensures RemovalTasks(s.(next := s.next + 1), u, lab, hosts, student, removal) && s.next < u.next
  {
  }

  // ------------------------------------------------------------------ results

  /** Cleaning up adds one cleanup for each node that has none, and nothing else. */
  lemma {:induction false} CleanUpOnce(s: State, task: Task, nodes: seq<NodeName>)
    requires FreshIds(s) && task.kind.AccountRemove? && task.kind.removal.Some?
    requires forall node :: Cleanups(s, node, task.kind.removal.value.id) == {}
    ensures
      var removal := task.kind.removal.value.id;
      var t := CleanUp(s, task, nodes);
      && FreshIds(t) && s.next <= t.next && OneEach(t, removal, nodes)
      && (forall id :: id in s.tasks ==> id in t.tasks && t.tasks[id] == s.tasks[id])
      && (forall id :: id in t.tasks && id !in s.tasks ==> Cleans(t.tasks[id], t.tasks[id].node, removal))
    decreases |nodes|
  {
    var removal := task.kind.removal.value.id;
    if nodes == [] {
      assert forall node :: |Cleanups(s, node, removal)| == 0;
    } else {
      var n := |nodes| - 1;
      var t := CleanUp(s, task, nodes[..n]);
      CleanUpOnce(s, task, nodes[..n]);
      assert nodes == nodes[..n] + [nodes[n]];
      CleanOneMore(t, task, nodes[..n], nodes[n]);
    }
  }

  /** The new tasks are cleanups of this student's data in this lab, on nodes of the removal, each once. */
  ghost predicate CleanedUp(s: State, t: State, task: Task)
    requires task.kind.AccountRemove?
  {
    var due := task.kind.removal.Some? && NoPartOpenOrFailed(s, task.kind.removal.value.id);
    && t == s.(tasks := t.tasks, next := t.next) && (!due ==> t == s)
    && (FreshIds(s) ==> forall id :: id in s.tasks ==> id in t.tasks && t.tasks[id] == s.tasks[id])
    && (FreshIds(s) && due ==> forall id :: id in t.tasks && id !in s.tasks ==> NewCleanup(t.tasks[id], task))
    && (FreshIds(s) && due ==> forall node :: node in task.kind.removal.value.nodes ==> CleanupQueued(t, node, task.kind.removal.value.id))
  }

  ghost predicate NoPartOpenOrFailed(s: State, removal: RemovalId) {
    forall id :: id in s.tasks && s.tasks[id].progress != Succeeded ==>
      match s.tasks[id].kind
      case AccountRemove(_, Some(other)) => other.id != removal
      case _ => true
  }

  predicate NewCleanup(cleanup: Task, task: Task)
    requires task.kind.AccountRemove? && task.kind.removal.Some?
  {
    && cleanup.node in task.kind.removal.value.nodes && cleanup.lab == task.lab && cleanup.progress == Open
    && cleanup.kind == ColdDelete(task.kind.student, task.kind.removal.value.id)
  }

  lemma CompletionCleansUp(s: State, task: Task)
    requires task.kind.AccountRemove?
    ensures CleanedUp(s, CompleteRemoval(s, task), task)
  {
    if task.kind.removal.Some? {
      assert RemovalComplete(s, task.kind.removal.value.id) <==> NoPartOpenOrFailed(s, task.kind.removal.value.id);
      CleanUpTouchesTasks(s, task, task.kind.removal.value.nodes);
      if FreshIds(s) {
        CleanUpIsForTheTask(s, task, task.kind.removal.value.nodes);
      }
    }
  }

  lemma {:induction false} CleanUpTouchesTasks(s: State, task: Task, nodes: seq<NodeName>)
    requires task.kind.AccountRemove? && task.kind.removal.Some?
    ensures var t := CleanUp(s, task, nodes); t == s.(tasks := t.tasks, next := t.next)
    decreases |nodes|
  {
    if nodes != [] {
      CleanUpTouchesTasks(s, task, nodes[..|nodes| - 1]);
    }
  }

  lemma {:induction false} CleanUpIsForTheTask(s: State, task: Task, nodes: seq<NodeName>)
    requires FreshIds(s) && task.kind.AccountRemove? && task.kind.removal.Some?
    requires forall node :: node in nodes ==> node in task.kind.removal.value.nodes
    ensures
      var t := CleanUp(s, task, nodes);
      && FreshIds(t) && (forall id :: id in s.tasks ==> id in t.tasks && t.tasks[id] == s.tasks[id])
      && (forall id :: id in t.tasks && id !in s.tasks ==> NewCleanup(t.tasks[id], task))
      && (forall node :: node in nodes ==> CleanupQueued(t, node, task.kind.removal.value.id))
    decreases |nodes|
  {
    if nodes != [] {
      var n := |nodes| - 1;
      var removal := task.kind.removal.value.id;
      var t, u := CleanUp(s, task, nodes[..n]), CleanUp(s, task, nodes);
      CleanUpIsForTheTask(s, task, nodes[..n]);
      assert u == t || u.tasks[TaskId(t.next)] == Task(nodes[n], task.lab, ColdDelete(task.kind.student, removal), Open);
      forall node | node in nodes
        ensures CleanupQueued(u, node, removal)
      {
        if node in nodes[..n] {
          var id :| id in t.tasks && Cleans(t.tasks[id], node, removal);
          assert id in u.tasks && u.tasks[id] == t.tasks[id];
        } else if u != t {
          assert Cleans(u.tasks[TaskId(t.next)], node, removal);
        }
      }
    }
  }

  lemma CleanOneMore(t: State, task: Task, nodes: seq<NodeName>, node: NodeName)
    requires FreshIds(t) && task.kind.AccountRemove? && task.kind.removal.Some?
    requires OneEach(t, task.kind.removal.value.id, nodes)
    ensures
      var removal := task.kind.removal.value.id;
      var u := if CleanupQueued(t, node, removal) then t else Enqueue(t, node, task.lab, ColdDelete(task.kind.student, removal));
      OneEach(u, removal, nodes + [node])
  {
    var removal := task.kind.removal.value.id;
    var u := if CleanupQueued(t, node, removal) then t else Enqueue(t, node, task.lab, ColdDelete(task.kind.student, removal));
    assert CleanupQueued(t, node, removal) <==> Cleanups(t, node, removal) != {} by {
      assert forall id :: id in t.tasks && Cleans(t.tasks[id], node, removal) ==> id in Cleanups(t, node, removal);
    }
    forall other
      ensures |Cleanups(u, other, removal)| == if other in nodes + [node] then 1 else 0
    {
      assert |Cleanups(t, other, removal)| == if other in nodes then 1 else 0;
      if other == node && u != t {
        assert Cleanups(u, other, removal) == Cleanups(t, other, removal) + {TaskId(t.next)};
      } else {
        assert Cleanups(u, other, removal) == Cleanups(t, other, removal);
      }
    }
  }

  /** The state after a result's row changed, before its effect. */
  function Recorded(s: State, id: TaskId, ok: bool): State
    requires id in s.tasks
  {
    s.(tasks := s.tasks[id := s.tasks[id].(progress := if ok then Succeeded else Failing)])
  }

  lemma RecordedParts(s: State, id: TaskId, ok: bool, removal: RemovalId)
    requires id in s.tasks
    ensures Parts(Recorded(s, id, ok), removal) == Parts(s, removal)
    ensures forall node :: Cleanups(Recorded(s, id, ok), node, removal) == Cleanups(s, node, removal)
  {
  }

  lemma RecordedOther(s: State, id: TaskId, ok: bool, removal: RemovalId)
    requires id in s.tasks && CleanedOnce(s, removal) && !PartOf(s.tasks[id], removal)
    ensures CleanedOnce(Recorded(s, id, ok), removal)
  {
    RecordedParts(s, id, ok, removal);
    assert SameFor(s, Recorded(s, id, ok), removal);
    SameForKeeps(s, Recorded(s, id, ok), removal);
  }

  /** As long as the open task was part of the removal, no cleanup is queued; unless it was the last, none follows. */
  lemma RecordedPart(s: State, id: TaskId, ok: bool, removal: RemovalId)
    requires id in s.tasks && s.tasks[id].progress.Open? && CleanedOnce(s, removal) && PartOf(s.tasks[id], removal)
    ensures forall node :: Cleanups(Recorded(s, id, ok), node, removal) == {}
    ensures !RemovalComplete(Recorded(s, id, ok), removal) ==> CleanedOnce(Recorded(s, id, ok), removal)
    ensures !ok ==> !RemovalComplete(Recorded(s, id, ok), removal)
    ensures Agree(Recorded(s, id, ok), removal)
  {
    var t := Recorded(s, id, ok);
    RecordedParts(s, id, ok, removal);
    assert id in Parts(s, removal) && !RemovalComplete(s, removal);
    assert id in t.tasks && PartOf(t.tasks[id], removal);
    forall a, b | a in Parts(t, removal) && b in Parts(t, removal)
      ensures t.tasks[a].kind.removal.value.nodes == t.tasks[b].kind.removal.value.nodes
    {
      assert a in Parts(s, removal) && b in Parts(s, removal);
      assert t.tasks[a].kind == s.tasks[a].kind && t.tasks[b].kind == s.tasks[b].kind;
    }
  }

  /** The last successful account removal queues the cleanups. */
  lemma CompletedIsCleanedOnce(t: State, id: TaskId, removal: RemovalId)
    requires FreshIds(t) && id in t.tasks && PartOf(t.tasks[id], removal) && RemovalComplete(t, removal)
    requires Agree(t, removal) && forall node :: Cleanups(t, node, removal) == {}
    ensures CleanedOnce(CompleteRemoval(t, t.tasks[id]), removal)
  {
    var nodes := t.tasks[id].kind.removal.value.nodes;
    var u := CleanUp(t, t.tasks[id], nodes);
    CleanUpOnce(t, t.tasks[id], nodes);
    assert Parts(u, removal) == Parts(t, removal);
    assert id in Parts(t, removal);
    forall part | part in Parts(u, removal)
      ensures OneEach(u, removal, u.tasks[part].kind.removal.value.nodes)
    {
      assert part in Parts(t, removal) && u.tasks[part] == t.tasks[part];
    }
    assert forall a, b :: a in Parts(u, removal) && b in Parts(u, removal) ==> a in Parts(t, removal) && b in Parts(t, removal);
    assert RemovalComplete(u, removal);
  }

  lemma CompletionKeepsOthers(t: State, task: Task, removal: RemovalId)
    requires FreshIds(t) && task.kind.AccountRemove? && task.kind.removal.Some? && task.kind.removal.value.id != removal
    requires CleanedOnce(t, removal) && forall node :: Cleanups(t, node, task.kind.removal.value.id) == {}
    ensures CleanedOnce(CompleteRemoval(t, task), removal)
  {
    var u := CompleteRemoval(t, task);
    CleanUpOnce(t, task, task.kind.removal.value.nodes);
    assert SameFor(t, u, removal);
    SameForKeeps(t, u, removal);
  }

  lemma RemovalResultCold(s: State, id: TaskId, ok: bool)
    requires FreshIds(s) && ColdOnce(s) && id in s.tasks && s.tasks[id].progress.Open? && s.tasks[id].kind.AccountRemove?
    ensures ColdOnce(if ok then CompleteRemoval(Recorded(s, id, ok), Recorded(s, id, ok).tasks[id]) else Recorded(s, id, ok))
  {
    var t := Recorded(s, id, ok);
    var task := t.tasks[id];
    var u := if ok then CompleteRemoval(t, task) else t;
    assert Numbered(t);
    if task.kind.removal.None? {
      forall r
        ensures CleanedOnce(u, r)
      {
        RecordedOther(s, id, ok, r);
      }
    } else {
      var own := task.kind.removal.value.id;
      assert PartOf(s.tasks[id], own) && PartOf(task, own);
      RecordedPart(s, id, ok, own);
      forall r
        ensures CleanedOnce(u, r)
      {
        if r != own {
          RecordedOther(s, id, ok, r);
          CompletionKeepsOthers(t, task, r);
        } else if RemovalComplete(t, own) {
          CompletedIsCleanedOnce(t, id, own);
        }
      }
      CleanUpOnce(t, task, task.kind.removal.value.nodes);
    }
  }

  /**
   * The result that would complete a removal names a blank lab: the row closes, but the handler stops
   * before the cleanup.
   */
  predicate Suppressed(s: State, id: TaskId, ok: bool, named: Option<LabName>) {
    && id in s.tasks && s.tasks[id].progress.Open? && ok && ResultSite(s.tasks[id], named).lab == ""
    && Completes(s, id)
  }

  /** Closing this account removal leaves its whole removal succeeded, with nodes to clean up. */
  predicate Completes(s: State, id: TaskId)
    requires id in s.tasks
  {
    && s.tasks[id].kind.AccountRemove? && s.tasks[id].kind.removal.Some? && s.tasks[id].kind.removal.value.nodes != []
    && RemovalComplete(Recorded(s, id, true), s.tasks[id].kind.removal.value.id)
  }

  /** Recording the last success without cleaning up is wrong exactly when there is something to clean up. */
  lemma RecordedWithoutCleanup(s: State, id: TaskId, ok: bool)
    requires ColdOnce(s) && id in s.tasks && s.tasks[id].progress.Open?
    ensures ColdOnce(Recorded(s, id, ok)) <==> !(ok && Completes(s, id))
  {
    var t := Recorded(s, id, ok);
    assert Numbered(t);
    forall r | !PartOf(s.tasks[id], r)
      ensures CleanedOnce(t, r)
    {
      RecordedOther(s, id, ok, r);
    }
    if s.tasks[id].kind.AccountRemove? && s.tasks[id].kind.removal.Some? {
      var own := s.tasks[id].kind.removal.value.id;
      RecordedPart(s, id, ok, own);
      if RemovalComplete(t, own) {
        NoCleanupYet(t, id, own);
      }
    }
  }

  /** A complete removal without cleanups is in order exactly when it has no nodes to clean up. */
  lemma NoCleanupYet(t: State, id: TaskId, removal: RemovalId)
    requires id in t.tasks && PartOf(t.tasks[id], removal) && RemovalComplete(t, removal) && Agree(t, removal)
    requires forall node :: Cleanups(t, node, removal) == {}
    ensures CleanedOnce(t, removal) <==> t.tasks[id].kind.removal.value.nodes == []
  {
    var nodes := t.tasks[id].kind.removal.value.nodes;
    assert id in Parts(t, removal);
    if nodes == [] {
      forall part | part in Parts(t, removal)
        ensures OneEach(t, removal, t.tasks[part].kind.removal.value.nodes)
      {
        assert t.tasks[part].kind.removal.value.nodes == nodes;
      }
    } else {
      assert nodes[0] in nodes && |Cleanups(t, nodes[0], removal)| == 0;
      assert !OneEach(t, removal, nodes);
    }
  }

  /** What a result of an open task does to the task rows, besides closing its own. */
  lemma ResultTasks(s: State, id: TaskId, ok: bool, named: Option<LabName>)
    requires id in s.tasks && s.tasks[id].progress.Open?
    ensures
      var (t, u) := (Recorded(s, id, ok), HandleResult(s, id, ok, named));
      if ResultSite(s.tasks[id], named).lab == "" then u == t
      else if s.tasks[id].kind.AccountRemove? then u == if ok then CompleteRemoval(t, t.tasks[id]) else t
      else u.tasks == t.tasks && u.next == t.next
  {
    hide CompleteRemoval;
  }

  /** Every result, repeated and cached ones included, keeps the count of cleanups right unless it is suppressed. */
  lemma HandleResultKeepsColdIffNotSuppressed(s: State, id: TaskId, ok: bool, named: Option<LabName>)
    requires FreshIds(s) && ColdOnce(s)
    ensures ColdOnce(HandleResult(s, id, ok, named)) <==> !Suppressed(s, id, ok, named)
  {
    hide ColdOnce, FreshIds, Effect, Completes, Recorded;
    if id in s.tasks && s.tasks[id].progress.Open? {
      hide HandleResult;
      ResultTasks(s, id, ok, named);
      if ResultSite(s.tasks[id], named).lab == "" {
        RecordedWithoutCleanup(s, id, ok);
      } else if s.tasks[id].kind.AccountRemove? {
        RemovalResultCold(s, id, ok);
      } else {
        OtherResultCold(s, id, ok);
        SameTasksCold(Recorded(s, id, ok), HandleResult(s, id, ok, named));
      }
    }
  }

  lemma OtherResultCold(s: State, id: TaskId, ok: bool)
    requires ColdOnce(s) && id in s.tasks && !s.tasks[id].kind.AccountRemove?
    ensures ColdOnce(Recorded(s, id, ok))
  {
    forall r
      ensures CleanedOnce(Recorded(s, id, ok), r)
    {
      RecordedOther(s, id, ok, r);
    }
  }

  lemma SameTasksCold(s: State, t: State)
    requires ColdOnce(s) && t.tasks == s.tasks && t.next >= s.next
    ensures ColdOnce(t)
  {
    forall r
      ensures CleanedOnce(t, r)
    {
      assert SameFor(s, t, r);
      SameForKeeps(s, t, r);
    }
  }
}
