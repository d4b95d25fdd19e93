/**
 * Whole runs of the controller: any sequence of operations, failing ones included, and results in any
 * order, starting from the empty database.
 */
module LabRuns {
  import opened Prelude
  import opened RosterPlan
  import RosterImport
  import opened LabState
  import opened LabInvariants
  import opened LabTeardown
  import opened LabOwners
  import opened LabCold

  /** An operation with its arguments and the listings its queries return. */
  datatype Op =
    | NewLab(lab: LabName, valid: bool, piName: Option<string>, piEmail: Option<string>)
    | SetPi(lab: LabName, input: Input, hosts: seq<NodeName>)
    | Add(lab: LabName, input: Input, hosts: seq<NodeName>)
    | Copy(from: LabName, lab: LabName, roster: seq<StudentId>, hosts: seq<NodeName>)
    | Remove(lab: LabName, student: StudentId, deleteData: bool, hosts: seq<NodeName>)
    | Import(lower: string -> string, lab: LabName, text: string, index: Index, joined: seq<StudentId>, hosts: seq<NodeName>)
    | Grant(site: Site, request: Request, roster: seq<StudentId>)
    | Revoke(site: Site)
    | Purge(site: Site)
    | Retry(site: Site)
    | DeleteLab(lab: LabName, force: bool, hosts: seq<NodeName>, roster: seq<StudentId>)
    | NewNode(node: NodeName, valid: bool)
    | SetCold(node: NodeName, backend: Backend, owner: Option<NodeName>)
    | DropNode(node: NodeName, force: bool)
    | Heartbeat(node: NodeName, online: bool, ready: bool, mapping: Option<string>)
    | Result(id: TaskId, ok: bool, named: Option<LabName>)

  /** The listings are what the database would return. */
  ghost predicate Legal(s: State, op: Op) {
    match op
    case SetPi(lab, _, hosts) => Listing(hosts, HostsOf(s, lab))
    case Add(lab, _, hosts) => Listing(hosts, HostsOf(s, lab))
    case Copy(from, lab, roster, hosts) =>
      Listing(hosts, HostsOf(s, lab)) && Listing(roster, if from in s.labs then s.labs[from].members else {})
    case Remove(lab, _, _, hosts) => Listing(hosts, HostsOf(s, lab))
    case Import(lower, lab, text, index, joined, hosts) =>
      && Listing(hosts, HostsOf(s, lab)) && Indexes(index, s.students) && Grounded(index)
      && (lab in s.labs && ImportPlan(s, lower, lab, text, index).Some? ==>
            NewlyJoined(s, lab, ImportPlan(s, lower, lab, text, index).value, joined))
    case Grant(site, _, roster) => site.lab in s.labs ==> Listing(roster, s.labs[site.lab].members)
    case DeleteLab(lab, _, hosts, roster) =>
      Listing(hosts, HostsOf(s, lab)) && (lab in s.labs ==> Listing(roster, s.labs[lab].members))
    case _ => true
  }

  ghost function After(s: State, op: Op): State
    requires Legal(s, op)
  {
    match op
    case NewLab(lab, valid, piName, piEmail) => CreateLab(s, lab, valid, piName, piEmail).state
    case SetPi(lab, input, hosts) => EnsurePi(s, lab, input, hosts).state
    case Add(lab, input, hosts) => AddStudent(s, lab, input, hosts).state
    case Copy(_, lab, roster, hosts) => CopyMembers(s, lab, roster, hosts).state
    case Remove(lab, student, deleteData, hosts) => RemoveStudent(s, lab, student, deleteData, hosts).state
    case Import(lower, lab, text, index, joined, hosts) => ImportRoster(s, lower, lab, text, index, joined, hosts).state
    case Grant(site, request, roster) => CreatePlacement(s, site, request, roster).state
    case Revoke(site) => DestroyPlacement(s, site).state
    case Purge(site) => ForceDelete(s, site).state
    case Retry(site) => LabState.Retry(s, site).state
    case DeleteLab(lab, force, hosts, roster) => DestroyLab(s, lab, force, hosts, roster).state
    case NewNode(node, valid) => ProvisionNode(s, node, valid).state
    case SetCold(node, backend, owner) => SetColdStorage(s, node, backend, owner).state
    case DropNode(node, force) => DeleteNode(s, node, force).state
    case Heartbeat(node, online, ready, mapping) => Report(s, node, online, ready, mapping)
    case Result(id, ok, named) => HandleResult(s, id, ok, named)
  }

  ghost predicate Run(s: State, ops: seq<Op>)
    decreases |ops|
  {
    ops == [] || (Legal(s, ops[0]) && Run(After(s, ops[0]), ops[1..]))
  }

  ghost function End(s: State, ops: seq<Op>): State
    requires Run(s, ops)
    decreases |ops|
  {
    if ops == [] then s else End(After(s, ops[0]), ops[1..])
  }

  // ------------------------------------------------------------------ one step

  lemma PlacementStepsKeepGood(s: State, site: Site)
    requires Good(s)
    ensures Good(DestroyPlacement(s, site).state) && Good(ForceDelete(s, site).state) && Good(LabState.Retry(s, site).state)
  {
    hide Good, Blocked;
    WithPhaseKeepsGood(s, site, Deleting);
    EnqueueKeepsGood(WithPhase(s, site, Deleting), site.node, site.lab, LabDestroy);
    EnqueueKeepsGood(s, site.node, site.lab, LabDestroy);
    WithoutPlacementKeepsGood(Enqueue(s, site.node, site.lab, LabDestroy), site);
    WithPhaseKeepsGood(s, site, Provisioning);
    EnqueueKeepsGood(WithPhase(s, site, Provisioning), site.node, site.lab, LabCreate);
  }

  /** Every operation keeps rosters, accounts, foreign keys and the ownership graph in order. */
  lemma StepKeepsGood(s: State, op: Op)
    requires Good(s) && Legal(s, op)
    ensures Good(After(s, op))
  {
    hide Good, HostsOf, Listing, PhasesKept, Undisturbed, CreateLab, EnsurePi, AddStudent, CopyMembers, RemoveStudent, ImportRoster,
      CreatePlacement, DestroyPlacement, ForceDelete, LabState.Retry, ProvisionNode, SetColdStorage, DeleteNode, Report,
      HandleResult, Purged;
    match op {
      case NewLab(lab, valid, piName, piEmail) => CreateLabKeeps(s, lab, valid, piName, piEmail);
      case SetPi(lab, input, hosts) => EnsurePiKeeps(s, lab, input, hosts);
      case Add(lab, input, hosts) => AddStudentKeeps(s, lab, input, hosts);
      case Copy(_, lab, roster, hosts) => CopyMembersKeeps(s, lab, roster, hosts);
      case Remove(lab, student, deleteData, hosts) => RemoveStudentKeeps(s, lab, student, deleteData, hosts);
      case Import(lower, lab, text, index, joined, hosts) => ImportRosterKeeps(s, lower, lab, text, index, joined, hosts);
      case Grant(site, request, roster) => CreatePlacementKeeps(s, site, request, roster);
      case Revoke(site) => PlacementStepsKeepGood(s, site);
      case Purge(site) => PlacementStepsKeepGood(s, site);
      case Retry(site) => PlacementStepsKeepGood(s, site);
      case DeleteLab(lab, force, hosts, roster) =>
        if lab in s.labs {
          DestroyLabTearsDownEverything(s, lab, force, hosts, roster);
        }
      case NewNode(node, valid) => ProvisionNodeKeeps(s, node, valid);
      case SetCold(node, backend, owner) => SetColdStorageKeeps(s, node, backend, owner);
      case DropNode(node, force) => DeleteNodeKeepsGood(s, node, force);
      case Heartbeat(node, online, ready, mapping) => ReportKeeps(s, node, online, ready, mapping);
      case Result(id, ok, named) => HandleResultKeepsGood(s, id, ok, named);
    }
  }

  predicate StaleStep(s: State, op: Op) {
    op.Result? && Stale(s, op.id, op.ok, op.named)
  }

  /** An operation keeps owners outliving their clients exactly when it is not a stale result. */
  lemma StepKeepsOwnersIffNotStale(s: State, op: Op)
    requires Good(s) && OwnersOutlive(s) && Legal(s, op)
    ensures OwnersOutlive(After(s, op)) <==> !StaleStep(s, op)
  {
    hide OwnersOutlive, Good, PhasesKept;
    match op {
      case NewLab(lab, valid, piName, piEmail) =>
        CreateLabKeeps(s, lab, valid, piName, piEmail);
        PhasesKeptOwners(s, After(s, op));
      case SetPi(lab, input, hosts) =>
        EnsurePiKeeps(s, lab, input, hosts);
        PhasesKeptOwners(s, After(s, op));
      case Add(lab, input, hosts) =>
        AddStudentKeeps(s, lab, input, hosts);
        PhasesKeptOwners(s, After(s, op));
      case Copy(_, lab, roster, hosts) =>
        CopyMembersKeeps(s, lab, roster, hosts);
        PhasesKeptOwners(s, After(s, op));
      case Remove(lab, student, deleteData, hosts) =>
        RemoveStudentKeeps(s, lab, student, deleteData, hosts);
        PhasesKeptOwners(s, After(s, op));
      case Import(lower, lab, text, index, joined, hosts) =>
        ImportRosterKeeps(s, lower, lab, text, index, joined, hosts);
        PhasesKeptOwners(s, After(s, op));
      case Grant(site, request, roster) => CreatePlacementOwners(s, site, request, roster);
      case Revoke(site) =>
        GoodOwnersAreLocal(s);
        DestroyPlacementOwners(s, site);
      case Purge(site) =>
        GoodOwnersAreLocal(s);
        DestroyPlacementOwners(s, site);
      case Retry(site) => RetryOwners(s, site);
      case DeleteLab(lab, force, hosts, roster) => DestroyLabOwners(s, lab, force, hosts, roster);
      case NewNode(node, valid) => ProvisionNodeKeeps(s, node, valid);
      case SetCold(node, backend, owner) => SetColdStorageKeeps(s, node, backend, owner);
      case DropNode(node, force) => DeleteNodeOwners(s, node, force);
      case Heartbeat(node, online, ready, mapping) => ReportKeeps(s, node, online, ready, mapping);
      case Result(id, ok, named) => ResultKeepsOwnersIffNotStale(s, id, ok, named);
    }
  }

  lemma GoodOwnersAreLocal(s: State)
    requires Good(s)
    ensures OwnersAreLocal(s) && FreshIds(s)
  {
  }

  predicate SuppressedStep(s: State, op: Op) {
    op.Result? && Suppressed(s, op.id, op.ok, op.named)
  }

  /** Among the operations that delete no node, exactly the suppressed results break the count of cleanups. */
  lemma StepKeepsColdIffNotSuppressed(s: State, op: Op)
    requires Good(s) && ColdOnce(s) && Legal(s, op) && !op.DropNode?
    ensures ColdOnce(After(s, op)) <==> !SuppressedStep(s, op)
  {
    hide Good, ColdOnce, Suppressed, HostsOf;
    GoodOwnersAreLocal(s);
    if op.Remove? {
      RemoveStudentCold(s, op.lab, op.student, op.deleteData, op.hosts);
    } else if op.Result? {
      HandleResultKeepsColdIffNotSuppressed(s, op.id, op.ok, op.named);
    } else {
      OtherStepsGrow(s, op);
      GrowsKeepsCold(s, After(s, op));
    }
  }

  /** Every other operation enqueues plain tasks only. */
  lemma OtherStepsGrow(s: State, op: Op)
    requires Good(s) && Legal(s, op) && !op.Remove? && !op.Result? && !op.DropNode?
    ensures Grows(s, After(s, op))
  {
    hide Good, Grows, FreshIds, After, Legal, PhasesKept;
    assert FreshIds(s) by { GoodOwnersAreLocal(s); }
    if op.NewNode? || op.SetCold? || op.Heartbeat? {
      NodeStepsKeepTasks(s, op);
      SameTasksGrow(s, After(s, op));
    } else if op.Grant? || op.Revoke? || op.Purge? || op.Retry? || op.DeleteLab? {
      HostingStepsGrow(s, op);
    } else {
      RosterStepsGrow(s, op);
    }
  }

  lemma RosterStepsGrow(s: State, op: Op)
    requires Good(s) && Legal(s, op) && (op.NewLab? || op.SetPi? || op.Add? || op.Copy? || op.Import?)
    ensures Grows(s, After(s, op))
  {
    hide Good, Grows, FreshIds, HostsOf, PhasesKept, CreateLab, EnsurePi, AddStudent, CopyMembers, ImportRoster;
    match op {
      case NewLab(lab, valid, piName, piEmail) => CreateLabKeeps(s, lab, valid, piName, piEmail);
      case SetPi(lab, input, hosts) => EnsurePiKeeps(s, lab, input, hosts);
      case Add(lab, input, hosts) => AddStudentKeeps(s, lab, input, hosts);
      case Copy(_, lab, roster, hosts) => CopyMembersKeeps(s, lab, roster, hosts);
      case Import(lower, lab, text, index, joined, hosts) => ImportRosterKeeps(s, lower, lab, text, index, joined, hosts);
    }
  }

  lemma HostingStepsGrow(s: State, op: Op)
    requires FreshIds(s) && Legal(s, op) && (op.Grant? || op.Revoke? || op.Purge? || op.Retry? || op.DeleteLab?)
    ensures Grows(s, After(s, op))
  {
    hide Grows, FreshIds, CreatePlacement, DestroyPlacement, ForceDelete, LabState.Retry, DestroyLab;
    match op {
      case Grant(site, request, roster) => GrantGrows(s, site, request, roster);
      case Revoke(site) => PlacementStepsGrow(s, site);
      case Purge(site) => PlacementStepsGrow(s, site);
      case Retry(site) => PlacementStepsGrow(s, site);
      case DeleteLab(lab, force, hosts, roster) => DeleteLabGrows(s, lab, force, hosts, roster);
    }
  }

  lemma SameTasksGrow(s: State, t: State)
    requires t.tasks == s.tasks && t.next == s.next
    ensures Grows(s, t)
  {
  }

  lemma NodeStepsKeepTasks(s: State, op: Op)
    requires op.NewNode? || op.SetCold? || op.Heartbeat?
    ensures After(s, op).tasks == s.tasks && After(s, op).next == s.next
  {
  }

  lemma EnqueueGrows(s: State, t: State, node: NodeName, lab: LabName, kind: Kind)
    requires FreshIds(s) && !kind.AccountRemove? && !kind.ColdDelete?
    requires t.tasks == Enqueue(s, node, lab, kind).tasks && t.next == Enqueue(s, node, lab, kind).next
    ensures Grows(s, t)
  {
  }

  lemma PlacementStepsGrow(s: State, site: Site)
    requires FreshIds(s)
    ensures Grows(s, DestroyPlacement(s, site).state) && Grows(s, ForceDelete(s, site).state)
    ensures Grows(s, LabState.Retry(s, site).state)
  {
    hide Blocked, Grows, FreshIds;
    SameTasksGrow(s, s);
    if site in s.placements {
      EnqueueGrows(s, Enqueue(WithPhase(s, site, Deleting), site.node, site.lab, LabDestroy), site.node, site.lab, LabDestroy);
      EnqueueGrows(s, WithoutPlacement(Enqueue(s, site.node, site.lab, LabDestroy), site), site.node, site.lab, LabDestroy);
      EnqueueGrows(s, Enqueue(WithPhase(s, site, Provisioning), site.node, site.lab, LabCreate), site.node, site.lab, LabCreate);
    }
  }

  lemma GrantGrows(s: State, site: Site, request: Request, roster: seq<StudentId>)
    requires FreshIds(s)
    ensures Grows(s, CreatePlacement(s, site, request, roster).state)
  {
    hide MayHost, PortTaken, ProvisionRoster;
    var born := s.(placements := s.placements[site := Placement(Provisioning, request.port, {})]);
    var t := Enqueue(born, site.node, site.lab, LabCreate);
    assert FreshIds(t);
    ProvisionRosterEnrolls(t, site, roster);
  }

  lemma DeleteLabGrows(s: State, lab: LabName, force: bool, hosts: seq<NodeName>, roster: seq<StudentId>)
    requires FreshIds(s)
    ensures Grows(s, DestroyLab(s, lab, force, hosts, roster).state)
  {
    var order := TearDownOrder(s, hosts);
    TearDownFresh(s, lab, force, order);
    DropOrphansKeepsNodes(DropLab(TearDown(s, lab, force, order).state, lab), roster);
  }

  // ------------------------------------------------------------------ runs

  lemma {:induction false} RunKeepsGood(s: State, ops: seq<Op>)
    requires Good(s) && Run(s, ops)
    ensures Good(End(s, ops))
    decreases |ops|
  {
    hide Good, Legal, After;
    if ops != [] {
      StepKeepsGood(s, ops[0]);
      RunKeepsGood(After(s, ops[0]), ops[1..]);
    }
  }

  lemma EmptyIsGood()
    ensures Good(EMPTY) && OwnersOutlive(EMPTY) && ColdOnce(EMPTY)
  {
    forall r
      ensures CleanedOnce(EMPTY, r)
    {
      assert Parts(EMPTY, r) == {};
      assert forall node :: Cleanups(EMPTY, node, r) == {};
    }
  }

  /**
   * After every completed operation of every run, each placement carries exactly the accounts of its
   * lab's roster, each lab's PI is on that roster, and each SMB node's owner is a local-ZFS node.
   */
  lemma RostersStayInSync(ops: seq<Op>)
    requires Run(EMPTY, ops)
    ensures
      var s := End(EMPTY, ops);
      && (forall site :: site in s.placements ==>
            site.lab in s.labs && s.placements[site].members == s.labs[site.lab].members)
      && (forall lab :: lab in s.labs && s.labs[lab].pi.Some? ==> s.labs[lab].pi.value in s.labs[lab].members)
      && (forall lab :: lab in s.labs ==> s.labs[lab].members <= s.students.Keys)
  {
    EmptyIsGood();
    RunKeepsGood(EMPTY, ops);
    assert Synced(End(EMPTY, ops));
    forall lab | lab in End(EMPTY, ops).labs
      ensures LabSound(End(EMPTY, ops).labs[lab], End(EMPTY, ops).students)
    {
    }
  }

  /** In every reachable state no owner of cold storage is itself a client. */
  lemma OwnersAreNeverClients(ops: seq<Op>, node: NodeName)
    requires Run(EMPTY, ops)
    requires node in End(EMPTY, ops).nodes && End(EMPTY, ops).nodes[node].owner.Some?
    ensures
      var nodes := End(EMPTY, ops).nodes;
      var owner := nodes[node].owner.value;
      && nodes[node].backend.Smb? && owner in nodes && owner != node
      && nodes[owner].backend.LocalZfs? && nodes[owner].owner.None?
  {
    EmptyIsGood();
    RunKeepsGood(EMPTY, ops);
    GoodOwnersAreLocal(End(EMPTY, ops));
  }

  /** In every reachable state one call tears a lab down completely, with or without force. */
  lemma ReachableLabsTearDown(ops: seq<Op>, lab: LabName, force: bool, hosts: seq<NodeName>, roster: seq<StudentId>)
    requires Run(EMPTY, ops) && lab in End(EMPTY, ops).labs
    requires Legal(End(EMPTY, ops), DeleteLab(lab, force, hosts, roster))
    ensures
      var d := DestroyLab(End(EMPTY, ops), lab, force, hosts, roster);
      d.ok && forall node :: !Alive(d.state, Site(lab, node))
  {
    EmptyIsGood();
    RunKeepsGood(EMPTY, ops);
    DestroyLabTearsDownEverything(End(EMPTY, ops), lab, force, hosts, roster);
  }

  ghost predicate NoStale(s: State, ops: seq<Op>)
    requires Run(s, ops)
    decreases |ops|
  {
    ops == [] || (!StaleStep(s, ops[0]) && NoStale(After(s, ops[0]), ops[1..]))
  }

  /** Without stale results, owners outlive their clients in every reachable state. */
  lemma {:induction false} OwnersOutliveTheirClients(s: State, ops: seq<Op>)
    requires Good(s) && OwnersOutlive(s) && Run(s, ops) && NoStale(s, ops)
    ensures OwnersOutlive(End(s, ops))
    decreases |ops|
  {
    hide Good, Legal, After, OwnersOutlive, StaleStep;
    if ops != [] {
      StepKeepsGood(s, ops[0]);
      StepKeepsOwnersIffNotStale(s, ops[0]);
      OwnersOutliveTheirClients(After(s, ops[0]), ops[1..]);
    }
  }

  ghost predicate NoneSuppressed(s: State, ops: seq<Op>)
    requires Run(s, ops)
    decreases |ops|
  {
    ops == [] || (!SuppressedStep(s, ops[0]) && NoneSuppressed(After(s, ops[0]), ops[1..]))
  }

  lemma {:induction false} RunKeepsCold(s: State, ops: seq<Op>)
    requires Good(s) && ColdOnce(s) && Run(s, ops) && NoneSuppressed(s, ops)
    requires forall op :: op in ops ==> !op.DropNode?
    ensures ColdOnce(End(s, ops))
    decreases |ops|
  {
    hide Good, Legal, After, ColdOnce, SuppressedStep;
    if ops != [] {
      assert ops[0] in ops;
      StepKeepsGood(s, ops[0]);
      StepKeepsColdIffNotSuppressed(s, ops[0]);
      RunKeepsCold(After(s, ops[0]), ops[1..]);
    }
  }

  /**
   * In runs without node deletion and without suppressed results, for every roster removal: while one of
   * its account removals has not succeeded no cold cleanup is queued; once all have, exactly one is
   * queued for each owner node.
   */
  lemma ColdDataIsCleanedOnce(ops: seq<Op>, removal: RemovalId, part: TaskId, node: NodeName)
    requires Run(EMPTY, ops) && NoneSuppressed(EMPTY, ops) && forall op :: op in ops ==> !op.DropNode?
    requires part in End(EMPTY, ops).tasks && PartOf(End(EMPTY, ops).tasks[part], removal)
    ensures
      var s := End(EMPTY, ops);
      |Cleanups(s, node, removal)|
        == if RemovalComplete(s, removal) && node in s.tasks[part].kind.removal.value.nodes then 1 else 0
  {
    EmptyIsGood();
    RunKeepsCold(EMPTY, ops);
    CountOf(End(EMPTY, ops), removal, part, node);
  }

  lemma CountOf(s: State, removal: RemovalId, part: TaskId, node: NodeName)
    requires ColdOnce(s) && part in s.tasks && PartOf(s.tasks[part], removal)
    ensures |Cleanups(s, node, removal)|
         == if RemovalComplete(s, removal) && node in s.tasks[part].kind.removal.value.nodes then 1 else 0
  {
    assert CleanedOnce(s, removal) && part in Parts(s, removal);
    if RemovalComplete(s, removal) {
      assert OneEach(s, removal, s.tasks[part].kind.removal.value.nodes);
    }
  }

  // ------------------------------------------------------------------ a stale result

  lemma {:induction false} RunThenOne(s: State, ops: seq<Op>, op: Op)
    requires Run(s, ops) && Legal(End(s, ops), op)
    ensures Run(s, ops + [op]) && End(s, ops + [op]) == After(End(s, ops), op)
    decreases |ops|
  {
    hide Legal, After;
    var all := ops + [op];
    if ops == [] {
      assert all[1..] == [];
      assert Run(After(s, op), []);
    } else {
      assert all[1..] == ops[1..] + [op];
      RunThenOne(After(s, ops[0]), ops[1..], op);
    }
  }

  ghost predicate Reached(s: State) {
    exists ops :: Run(EMPTY, ops) && End(EMPTY, ops) == s
  }

  lemma ReachedThen(s: State, op: Op, t: State)
    requires Reached(s) && Leads(s, op, t)
    ensures Reached(t)
  {
    hide Legal, After;
    var ops :| Run(EMPTY, ops) && End(EMPTY, ops) == s;
    RunThenOne(EMPTY, ops, op);
  }

  ghost predicate Leads(s: State, op: Op, t: State) {
    Legal(s, op) && After(s, op) == t
  }

  lemma EmptyIsReached()
    ensures Reached(EMPTY)
  {
    assert Run(EMPTY, []) && End(EMPTY, []) == EMPTY;
  }

  const A: NodeName := "a"
  const B: NodeName := "b"
  const LAB: LabName := "lab"
  const PLAIN := Node(LocalZfs, None, false, false, None)
  const OWNER := Node(LocalZfs, None, false, false, Some("0:65536"))
  const CLIENT := Node(Smb, Some(A), false, false, None)
  const MOUNTED := Node(Smb, Some(A), true, false, Some("0:65536"))
  const AT_A := Site(LAB, A)
  const AT_B := Site(LAB, B)
  const REQUEST := Request(1, true, Some(1))

  /** One lab and one plain node. */
  function OneNode(): State {
    EMPTY.(labs := map[LAB := Lab(None, None, None, {})], nodes := map[A := PLAIN])
  }

  lemma OneNodeIsReached()
    ensures Reached(OneNode())
  {
    hide Reached;
    EmptyIsReached();
    var s := EMPTY.(labs := map[LAB := Lab(None, None, None, {})]);
    assert Leads(EMPTY, NewLab(LAB, true, None, None), s);
    assert Leads(s, NewNode(A, true), OneNode());
    ReachedThen(EMPTY, NewLab(LAB, true, None, None), s);
    ReachedThen(s, NewNode(A, true), OneNode());
  }

  /** The owner `A`, and the node `B` in three stages of becoming its client. */
  function Nodes(owner: Node, client: Node): State {
    OneNode().(nodes := map[A := owner, B := client])
  }

  lemma TwoNodesIsReached()
    ensures Reached(Nodes(PLAIN, PLAIN))
  {
    hide Reached;
    OneNodeIsReached();
    assert Leads(OneNode(), NewNode(B, true), Nodes(PLAIN, PLAIN));
    ReachedThen(OneNode(), NewNode(B, true), Nodes(PLAIN, PLAIN));
  }

  lemma BecomesClient()
    ensures Leads(Nodes(PLAIN, PLAIN), SetCold(B, Smb, Some(A)), Nodes(PLAIN, CLIENT))
  {
    assert A != B;
  }

  lemma OwnerReports()
    ensures Leads(Nodes(PLAIN, CLIENT), Heartbeat(A, false, false, Some("0:65536")), Nodes(OWNER, CLIENT))
  {
    assert A != B;
  }

  lemma ClientReports()
    ensures Leads(Nodes(OWNER, CLIENT), Heartbeat(B, false, true, Some("0:65536")), Nodes(OWNER, MOUNTED))
  {
    assert A != B;
  }

  lemma MountedIsReached()
    ensures Reached(Nodes(OWNER, MOUNTED))
  {
    hide Reached, Leads, Nodes;
    TwoNodesIsReached();
    BecomesClient();
    OwnerReports();
    ClientReports();
    ReachedThen(Nodes(PLAIN, PLAIN), SetCold(B, Smb, Some(A)), Nodes(PLAIN, CLIENT));
    ReachedThen(Nodes(PLAIN, CLIENT), Heartbeat(A, false, false, Some("0:65536")), Nodes(OWNER, CLIENT));
    ReachedThen(Nodes(OWNER, CLIENT), Heartbeat(B, false, true, Some("0:65536")), Nodes(OWNER, MOUNTED));
  }

  function Placed(placements: map<Site, Phase>, tasks: map<TaskId, Task>, next: nat): State {
    Nodes(OWNER, MOUNTED).(placements := map site | site in placements :: Placement(placements[site], 1, {}),
                           tasks := tasks, next := next)
  }

  /** The owner's placement is being created. */
  function OwnerCreating(): State {
    Placed(map[AT_A := Provisioning], map[TaskId(0) := Task(A, LAB, LabCreate, Open)], 1)
  }

  function OwnerActive(): State {
    Placed(map[AT_A := Active], map[TaskId(0) := Task(A, LAB, LabCreate, Succeeded)], 1)
  }

  /** The client's placement is being created, too. */
  function ClientCreating(): State {
    Placed(map[AT_A := Active, AT_B := Provisioning],
           map[TaskId(0) := Task(A, LAB, LabCreate, Succeeded), TaskId(1) := Task(B, LAB, LabCreate, Open)], 2)
  }

  function ClientLeaving(): State {
    Placed(map[AT_A := Active, AT_B := Deleting],
           map[TaskId(0) := Task(A, LAB, LabCreate, Succeeded), TaskId(1) := Task(B, LAB, LabCreate, Open),
               TaskId(2) := Task(B, LAB, LabDestroy, Open)], 3)
  }

  /** Both placements were told to tear down while the client's creation was still running. */
  function Leaving(): State {
    Placed(map[AT_A := Deleting, AT_B := Deleting],
           map[TaskId(0) := Task(A, LAB, LabCreate, Succeeded), TaskId(1) := Task(B, LAB, LabCreate, Open),
               TaskId(2) := Task(B, LAB, LabDestroy, Open), TaskId(3) := Task(A, LAB, LabDestroy, Open)], 4)
  }

  lemma OwnerIsGranted()
    ensures Leads(Nodes(OWNER, MOUNTED), Grant(AT_A, REQUEST, []), OwnerCreating())
  {
    assert A != B;
  }

  lemma OwnerAnswers()
    ensures Leads(OwnerCreating(), Result(TaskId(0), true, None), OwnerActive())
  {
    assert A != B;
  }

  lemma ClientIsGranted()
    ensures Leads(OwnerActive(), Grant(AT_B, REQUEST, []), ClientCreating())
  {
    assert A != B && LAB != "";
  }

  lemma ClientIsRevoked()
    ensures Leads(ClientCreating(), Revoke(AT_B), ClientLeaving())
  {
    assert A != B;
    assert !Blocked(ClientCreating(), AT_B);
  }

  lemma OwnerIsRevoked()
    ensures Leads(ClientLeaving(), Revoke(AT_A), Leaving())
  {
    assert A != B;
    assert !Blocked(ClientLeaving(), AT_A);
  }

  lemma LeavingIsReached()
    ensures Reached(Leaving())
  {
    hide Reached, Leads, Nodes, OwnerCreating, OwnerActive, ClientCreating, ClientLeaving, Leaving;
    MountedIsReached();
    OwnerIsGranted();
    OwnerAnswers();
    ClientIsGranted();
    ClientIsRevoked();
    OwnerIsRevoked();
    ReachedThen(Nodes(OWNER, MOUNTED), Grant(AT_A, REQUEST, []), OwnerCreating());
    ReachedThen(OwnerCreating(), Result(TaskId(0), true, None), OwnerActive());
    ReachedThen(OwnerActive(), Grant(AT_B, REQUEST, []), ClientCreating());
    ReachedThen(ClientCreating(), Revoke(AT_B), ClientLeaving());
    ReachedThen(ClientLeaving(), Revoke(AT_A), Leaving());
  }

  /** A create result that arrives for a row already told to tear down. */
  ghost predicate LateCreateResult(s: State, id: TaskId, client: Site) {
    && id in s.tasks && s.tasks[id].progress.Open? && s.tasks[id].kind == LabCreate
    && ResultSite(s.tasks[id], None) == client
    && client in s.placements && s.placements[client].phase.Deleting?
  }

  /**
   * The hypothesis is needed: a run of the code exists in which the late result of a client's creation
   * makes the client active although its owner is being torn down.
   */
  lemma LateCreateResultBreaksOwners() returns (s: State, id: TaskId, client: Site)
    ensures Reached(s) && OwnersOutlive(s) && LateCreateResult(s, id, client)
    ensures
      var t := HandleResult(s, id, true, None);
      && Reached(t) && client in t.placements && t.placements[client].phase.Active?
      && client.node in t.nodes && t.nodes[client.node].owner.Some?
      && !Alive(t, Site(client.lab, t.nodes[client.node].owner.value)) && !OwnersOutlive(t)
  {
    s, id, client := Leaving(), TaskId(1), AT_B;
    var t := HandleResult(s, id, true, None);
    assert A != B;
    LeavingIsReached();
    assert Leads(s, Result(id, true, None), t);
    ReachedThen(s, Result(id, true, None), t);
    assert !Sheltered(t, client);
  }

  // ------------------------------------------------------------------ a suppressed result

  const ADA := StudentId(0)
  const ADA_ROW := Student("ada", None, None, None, Uid(10_000))
  const REMOVAL := Removal(RemovalId(2), [A])

  /** One lab with one placement; `members` are its roster and its accounts. */
  function Hosted(members: set<StudentId>, students: Students, nextStudent: nat, tasks: map<TaskId, Task>, next: nat): State {
    OneNode().(labs := map[LAB := Lab(None, None, None, members)], students := students, nextStudent := nextStudent,
               placements := map[AT_A := Placement(Provisioning, 1, members)], tasks := tasks, next := next)
  }

  function Granted(): State {
    Hosted({}, map[], 0, map[TaskId(0) := Task(A, LAB, LabCreate, Open)], 1)
  }

  function WithAda(): State {
    Hosted({ADA}, map[ADA := ADA_ROW], 1,
           map[TaskId(0) := Task(A, LAB, LabCreate, Open), TaskId(1) := Task(A, LAB, AccountAdd(ADA), Open)], 2)
  }

  function Removing(progress: Progress): State {
    Hosted({}, map[ADA := ADA_ROW], 1,
           map[TaskId(0) := Task(A, LAB, LabCreate, Open), TaskId(1) := Task(A, LAB, AccountAdd(ADA), Open),
               TaskId(3) := Task(A, LAB, AccountRemove(ADA, Some(REMOVAL)), progress)], 4)
  }

  lemma HostsAre(s: State)
    requires s.placements.Keys == {AT_A}
    ensures Listing([A], HostsOf(s, LAB))
  {
    assert HostsOf(s, LAB) == {A};
    assert Elements([A]) == {A};
  }

  lemma IsGranted()
    ensures Leads(OneNode(), Grant(AT_A, REQUEST, []), Granted())
  {
    assert Elements<StudentId>([]) == {};
  }

  lemma AdaIsCreated()
    ensures FindOrCreate(Granted(), Input("ada", None, None, None)) == (Granted().(students := map[ADA := ADA_ROW], nextStudent := 1), Some(ADA))
  {
    assert RosterImport.UidsOf(Granted().students) == {};
    assert RosterImport.LeastFree({}, RosterImport.FIRST_UID) == Some(Uid(10_000));
  }

  lemma IsEnrolled()
    ensures Leads(Granted(), Add(LAB, Input("ada", None, None, None), [A]), WithAda())
  {
    HostsAre(Granted());
    AdaIsCreated();
    var joined := Join(Granted().(students := map[ADA := ADA_ROW], nextStudent := 1), LAB, ADA);
    assert [A][..0] == [] && ProvisionAll(joined, LAB, ADA, []) == joined;
    assert {} + {ADA} == {ADA};
    assert ProvisionAll(joined, LAB, ADA, [A]) == Provision(joined, AT_A, ADA);
    assert Provision(joined, AT_A, ADA) == WithAda();
  }

  lemma RemovalIsShared()
    ensures RemovalFor(WithAda(), true, [A]) == Some(REMOVAL)
  {
    var s := WithAda();
    assert [A][..0] == [] && OnBackend(s, [], LocalZfs) == [] && OnBackend(s, [A], LocalZfs) == [A];
  }

  /** The state in which the accounts are removed: the student is off the roster already. */
  function AdaLeft(): State {
    WithAda().(labs := map[LAB := Lab(None, None, None, {})], next := 3)
  }

  lemma AccountIsRemoved()
    ensures DeprovisionAll(AdaLeft(), LAB, ADA, Some(REMOVAL), [A]) == Removing(Open)
  {
    assert [A][..0] == [] && DeprovisionAll(AdaLeft(), LAB, ADA, Some(REMOVAL), []) == AdaLeft();
    assert {ADA} - {ADA} == {};
    assert Deprovision(AdaLeft(), AT_A, ADA, Some(REMOVAL)) == Removing(Open);
  }

  lemma IsRemoved()
    ensures Leads(WithAda(), Remove(LAB, ADA, true, [A]), Removing(Open))
  {
    hide DeprovisionAll, RemovalFor, Removing, HostsOf, Listing;
    HostsAre(WithAda());
    RemovalIsShared();
    AccountIsRemoved();
    assert {ADA} - {ADA} == {};
    assert Leave(WithAda().(next := 3), LAB, ADA) == AdaLeft();
  }

  lemma RemovingIsReached()
    ensures Reached(Removing(Open))
  {
    hide Reached, Leads, OneNode, Granted, WithAda, Removing;
    OneNodeIsReached();
    IsGranted();
    IsEnrolled();
    IsRemoved();
    ReachedThen(OneNode(), Grant(AT_A, REQUEST, []), Granted());
    ReachedThen(Granted(), Add(LAB, Input("ada", None, None, None), [A]), WithAda());
    ReachedThen(WithAda(), Remove(LAB, ADA, true, [A]), Removing(Open));
  }

  /** A run of the code in which a successful removal that names a blank lab leaves the cold data behind for good. */
  lemma SuppressedResultLosesTheCleanup() returns (s: State, id: TaskId, node: NodeName)
    ensures Reached(s) && Suppressed(s, id, true, Some("")) && node in s.tasks[id].kind.removal.value.nodes
    ensures
      var t := HandleResult(s, id, true, Some(""));
      var removal := s.tasks[id].kind.removal.value.id;
      && Reached(t) && RemovalComplete(t, removal) && Cleanups(t, node, removal) == {} && !ColdOnce(t)
  {
    s, id, node := Removing(Open), TaskId(3), A;
    var t := Removing(Succeeded);
    RemovingIsReached();
    assert Recorded(s, id, true) == t && HandleResult(s, id, true, Some("")) == t;
    assert Leads(s, Result(id, true, Some("")), t);
    ReachedThen(s, Result(id, true, Some("")), t);
    assert RemovalComplete(t, RemovalId(2));
    assert Cleanups(t, A, RemovalId(2)) == {};
    assert !ColdOnce(t) by {
      if ColdOnce(t) {
        CountOf(t, RemovalId(2), id, A);
        assert false;
      }
    }
  }
}
