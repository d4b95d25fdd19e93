/**
 * The controller's relational state of labs, nodes, students, placements and tasks, and its operations
 * as functions on that state. Each operation runs to completion or throws; what it wrote before it
 * threw stays. A listing argument is the order in which a query returned its rows.
 */
module LabState {
  import opened Prelude
  import opened RosterPlan
  import RosterImport

  type LabName = string
  type NodeName = string

  datatype Site = Site(lab: LabName, node: NodeName)

  datatype Backend = LocalZfs | Smb

  /** `owner` is the node whose cold storage an SMB node mounts, `ready` that the mount is live. */
  datatype Node = Node(backend: Backend, owner: Option<NodeName>, ready: bool, online: bool, mapping: Option<string>)

  datatype Phase = Provisioning | Active | Failed | Deleting

  datatype Placement = Placement(phase: Phase, port: nat, members: set<StudentId>)

  datatype TaskId = TaskId(n: nat)

  datatype RemovalId = RemovalId(n: nat)

  /** Shared by all the account removals of one roster removal, with the nodes to clean up afterwards. */
  datatype Removal = Removal(id: RemovalId, nodes: seq<NodeName>)

  datatype Kind =
    | LabCreate
    | LabDestroy
    | AccountAdd(student: StudentId)
    | AccountRemove(student: StudentId, removal: Option<Removal>)
    | ColdDelete(student: StudentId, removalId: RemovalId)

  datatype Progress = Open | Succeeded | Failing

  datatype Task = Task(node: NodeName, lab: LabName, kind: Kind, progress: Progress)

  datatype State = State(
    labs: map<LabName, Lab>, nodes: map<NodeName, Node>, students: Students, placements: map<Site, Placement>,
    tasks: map<TaskId, Task>, next: nat, nextStudent: nat)

  const EMPTY := State(map[], map[], map[], map[], map[], 0, 0)

  /** How an operation ended: `ok` is false when it threw. */
  datatype Done = Done(state: State, ok: bool)

  function Enqueue(s: State, node: NodeName, lab: LabName, kind: Kind): State {
    s.(tasks := s.tasks[TaskId(s.next) := Task(node, lab, kind, Open)], next := s.next + 1)
  }

  function WithPhase(s: State, site: Site, phase: Phase): State {
    if site in s.placements then s.(placements := s.placements[site := s.placements[site].(phase := phase)]) else s
  }

  function WithoutPlacement(s: State, site: Site): State {
    s.(placements := s.placements - {site})
  }

  /** The nodes that host a placement of the lab. */
  function HostsOf(s: State, lab: LabName): set<NodeName> {
    set site | site in s.placements && site.lab == lab :: site.node
  }

  // ------------------------------------------------------------------ accounts on placements

  /** Idempotent: an account that exists already is skipped. */
  function Provision(s: State, site: Site, student: StudentId): State {
    if site !in s.placements || student in s.placements[site].members then s
    else
      var p := s.placements[site];
      Enqueue(s.(placements := s.placements[site := p.(members := p.members + {student})]),
              site.node, site.lab, AccountAdd(student))
  }

  function ProvisionAll(s: State, lab: LabName, student: StudentId, hosts: seq<NodeName>): State {
    if hosts == [] then s
    else
      var n := |hosts| - 1;
      Provision(ProvisionAll(s, lab, student, hosts[..n]), Site(lab, hosts[n]), student)
  }

  function ProvisionRoster(s: State, site: Site, roster: seq<StudentId>): State {
    if roster == [] then s
    else
      var n := |roster| - 1;
      Provision(ProvisionRoster(s, site, roster[..n]), site, roster[n])
  }

  function Deprovision(s: State, site: Site, student: StudentId, removal: Option<Removal>): State {
    var t := Enqueue(s, site.node, site.lab, AccountRemove(student, removal));
    if site !in s.placements then t
    else
      var p := s.placements[site];
      t.(placements := t.placements[site := p.(members := p.members - {student})])
  }

  function DeprovisionAll(s: State, lab: LabName, student: StudentId, removal: Option<Removal>, hosts: seq<NodeName>): State {
    if hosts == [] then s
    else
      var n := |hosts| - 1;
      Deprovision(DeprovisionAll(s, lab, student, removal, hosts[..n]), Site(lab, hosts[n]), student, removal)
  }

  // ------------------------------------------------------------------ labs and rosters

  datatype Input = Input(user: string, sid: Option<string>, name: Option<string>, email: Option<string>)

  predicate Known(students: Students, sid: Option<string>) {
    Present(sid) && exists id :: id in students && students[id].sid == sid
  }

  ghost function BySid(students: Students, sid: Option<string>): (id: StudentId)
    requires Known(students, sid)
    ensures id in students && students[id].sid == sid
  {
    var id :| id in students && students[id].sid == sid; id
  }

  /** The student by student id, else by username, else a new one; `None` when no user id is free. */
  ghost function FindOrCreate(s: State, input: Input): (State, Option<StudentId>) {
    if Known(s.students, input.sid) then (s, Some(BySid(s.students, input.sid)))
    else if RosterImport.Has(s.students, input.user) then (s, Some(RosterImport.IdOf(s.students, input.user)))
    else
      var created := RosterImport.Created(s.students, s.nextStudent, Entry(input.user, input.sid, input.name, input.email, 0));
      if created.None? then (s, None)
      else (s.(students := created.value, nextStudent := s.nextStudent + 1), Some(StudentId(s.nextStudent)))
  }

  function Join(s: State, lab: LabName, student: StudentId): State
    requires lab in s.labs
  {
    s.(labs := s.labs[lab := s.labs[lab].(members := s.labs[lab].members + {student})])
  }

  function CreateLab(s: State, lab: LabName, valid: bool, piName: Option<string>, piEmail: Option<string>): Done {
    if !valid || lab in s.labs then Done(s, false)
    else Done(s.(labs := s.labs[lab := Lab(None, piName, piEmail, {})]), true)
  }

  /** The PI's contact details are copied to the student and to the lab. */
  function Designate(s: State, lab: LabName, pi: StudentId, input: Input): State
    requires lab in s.labs && pi in s.students
  {
    s.(students := s.students[pi := s.students[pi].(name := input.name, email := input.email)],
       labs := s.labs[lab := s.labs[lab].(pi := Some(pi), piName := input.name, piEmail := input.email)])
  }

  ghost function EnsurePi(s: State, lab: LabName, input: Input, hosts: seq<NodeName>): Done {
    if lab !in s.labs || input.user == "" then Done(s, false)
    else
      var (t, found) := FindOrCreate(s, input);
      if found.None? || (t.labs[lab].pi.Some? && t.labs[lab].pi != found) then Done(t, false)
      else Done(ProvisionAll(Join(Designate(t, lab, found.value, input), lab, found.value), lab, found.value, hosts), true)
  }

  ghost function AddStudent(s: State, lab: LabName, input: Input, hosts: seq<NodeName>): Done {
    if lab !in s.labs then Done(s, false)
    else
      var (t, found) := FindOrCreate(s, input);
      if found.None? || found.value in t.labs[lab].members then Done(t, false)
      else Done(ProvisionAll(Join(t, lab, found.value), lab, found.value, hosts), true)
  }

  /** Enroll one listed member in another lab, unless it is enrolled already. */
  ghost function CopyMember(s: State, lab: LabName, student: StudentId, hosts: seq<NodeName>): Done {
    if lab in s.labs && student in s.labs[lab].members then Done(s, true)
    else if student !in s.students then Done(s, false)
    else
      var row := s.students[student];
      AddStudent(s, lab, Input(row.username, row.sid, row.name, row.email), hosts)
  }

  ghost function CopyMembers(s: State, lab: LabName, roster: seq<StudentId>, hosts: seq<NodeName>): Done {
    if roster == [] then Done(s, true)
    else
      var n := |roster| - 1;
      var before := CopyMembers(s, lab, roster[..n], hosts);
      if before.ok then CopyMember(before.state, lab, roster[n], hosts) else before
  }

  function OnBackend(s: State, hosts: seq<NodeName>, backend: Backend): seq<NodeName> {
    if hosts == [] then []
    else
      var n := |hosts| - 1;
      OnBackend(s, hosts[..n], backend)
      + (if hosts[n] in s.nodes && s.nodes[hosts[n]].backend == backend then [hosts[n]] else [])
  }

  function Leave(s: State, lab: LabName, student: StudentId): State
    requires lab in s.labs
  {
    s.(labs := s.labs[lab := s.labs[lab].(members := s.labs[lab].members - {student})])
  }

  /** Only a removal that deletes data, from at least one placement, carries a removal id. */
  function RemovalFor(s: State, deleteData: bool, hosts: seq<NodeName>): Option<Removal> {
    if deleteData && hosts != [] then Some(Removal(RemovalId(s.next), OnBackend(s, hosts, LocalZfs))) else None
  }

  function RemoveStudent(s: State, lab: LabName, student: StudentId, deleteData: bool, hosts: seq<NodeName>): Done {
    if lab !in s.labs || s.labs[lab].pi == Some(student) || student !in s.labs[lab].members then Done(s, false)
    else
      var removal := RemovalFor(s, deleteData, hosts);
      var t := s.(next := s.next + 1);
      Done(DeprovisionAll(Leave(t, lab, student), lab, student, removal, hosts), true)
  }

  ghost function ImportPlan(s: State, lower: string -> string, lab: LabName, text: string, index: Index): Option<RosterImport.Roster>
    requires lab in s.labs && Grounded(index)
  {
    var plan := PlanText(lower, index, s.labs[lab], text);
    if !plan.Committable() then None
    else RosterImport.Applied(RosterImport.Roster(s.students, s.labs[lab], s.nextStudent), plan)
  }

  function ProvisionJoined(s: State, lab: LabName, joined: seq<StudentId>, hosts: seq<NodeName>): State {
    if joined == [] then s
    else
      var n := |joined| - 1;
      ProvisionAll(ProvisionJoined(s, lab, joined[..n], hosts), lab, joined[n], hosts)
  }

  /** The transaction, then the accounts of the new members on every placement. */
  ghost function ImportRoster(s: State, lower: string -> string, lab: LabName, text: string, index: Index,
                              joined: seq<StudentId>, hosts: seq<NodeName>): Done
    requires Grounded(index)
  {
    if lab !in s.labs then Done(s, false)
    else
      var after := ImportPlan(s, lower, lab, text, index);
      if after.None? then Done(s, false)
      else
        var t := s.(students := after.value.students, labs := s.labs[lab := after.value.lab], nextStudent := after.value.next);
        Done(ProvisionJoined(t, lab, joined, hosts), true)
  }

  // ------------------------------------------------------------------ placements

  /** `valid` covers image, options and quotas, which depend on the request alone. */
  datatype Request = Request(port: nat, valid: bool, coldQuota: Option<nat>)

  /** What an SMB node needs before it may host the lab; a local node needs a cold quota instead. */
  predicate MayHost(s: State, site: Site, request: Request)
    requires site.node in s.nodes
  {
    var node := s.nodes[site.node];
    if node.backend.LocalZfs? then request.coldQuota.Some?
    else
      && node.owner.Some? && node.owner.value in s.nodes
      && Site(site.lab, node.owner.value) in s.placements
      && s.placements[Site(site.lab, node.owner.value)].phase.Active?
      && node.ready && node.mapping.Some? && node.mapping == s.nodes[node.owner.value].mapping
  }

  predicate PortTaken(s: State, node: NodeName, port: nat) {
    exists site :: site in s.placements && site.node == node && s.placements[site].port == port
  }

  function CreatePlacement(s: State, site: Site, request: Request, roster: seq<StudentId>): Done {
    if site.node !in s.nodes || !request.valid || !MayHost(s, site, request) then Done(s, false)
    else if site.lab !in s.labs || site in s.placements || PortTaken(s, site.node, request.port) then Done(s, false)
    else
      var t := s.(placements := s.placements[site := Placement(Provisioning, request.port, {})]);
      Done(ProvisionRoster(Enqueue(t, site.node, site.lab, LabCreate), site, roster), true)
  }

  /** A placement on an SMB client of the node that is not being torn down. */
  predicate LiveClient(s: State, owner: Site, node: NodeName) {
    && node in s.nodes && s.nodes[node].owner == Some(owner.node)
    && Site(owner.lab, node) in s.placements && !s.placements[Site(owner.lab, node)].phase.Deleting?
  }

  /** Cold storage that live clients of the lab still mount may not be torn down. */
  predicate Blocked(s: State, site: Site) {
    && site.node in s.nodes && s.nodes[site.node].backend.LocalZfs?
    && exists node :: node in s.nodes && LiveClient(s, site, node)
  }

  function DestroyPlacement(s: State, site: Site): Done {
    if site !in s.placements then Done(s, true)
    else if Blocked(s, site) then Done(s, false)
    else Done(Enqueue(WithPhase(s, site, Deleting), site.node, site.lab, LabDestroy), true)
  }

  function ForceDelete(s: State, site: Site): Done {
    if site !in s.placements then Done(s, true)
    else if (site.node in s.nodes && s.nodes[site.node].online) || Blocked(s, site) then Done(s, false)
    else Done(WithoutPlacement(Enqueue(s, site.node, site.lab, LabDestroy), site), true)
  }

  function Retry(s: State, site: Site): Done {
    if site !in s.placements || !s.placements[site].phase.Failed? then Done(s, false)
    else Done(Enqueue(WithPhase(s, site, Provisioning), site.node, site.lab, LabCreate), true)
  }

  // ------------------------------------------------------------------ deleting a lab

  datatype Torn = Torn(state: State, ok: bool, started: nat)

  function TearDownOne(t: Torn, lab: LabName, force: bool, node: NodeName): Torn {
    if !t.ok then t
    else if force && !(node in t.state.nodes && t.state.nodes[node].online) then
      var d := ForceDelete(t.state, Site(lab, node));
      Torn(d.state, d.ok, t.started)
    else
      var d := DestroyPlacement(t.state, Site(lab, node));
      Torn(d.state, d.ok, if d.ok then t.started + 1 else t.started)
  }

  function TearDown(s: State, lab: LabName, force: bool, hosts: seq<NodeName>): Torn {
    if hosts == [] then Torn(s, true, 0)
    else TearDownOne(TearDown(s, lab, force, hosts[..|hosts| - 1]), lab, force, hosts[|hosts| - 1])
  }

  /** SMB clients first. */
  function TearDownOrder(s: State, hosts: seq<NodeName>): seq<NodeName> {
    OnBackend(s, hosts, Smb) + OnBackend(s, hosts, LocalZfs)
  }

  /** Deleting the row takes the lab's memberships and placements with it. */
  function DropLab(s: State, lab: LabName): State {
    s.(labs := s.labs - {lab}, placements := map site | site in s.placements && site.lab != lab :: s.placements[site])
  }

  predicate Enrolled(s: State, student: StudentId) {
    exists lab :: lab in s.labs && student in s.labs[lab].members
  }

  /** The foreign key of a lab's PI forbids deleting that student. */
  predicate Restricted(s: State, student: StudentId) {
    exists lab :: lab in s.labs && s.labs[lab].pi == Some(student)
  }

  /** Deleting a student takes its memberships and accounts with it. */
  function DropStudent(s: State, student: StudentId): State {
    s.(students := s.students - {student},
       labs := map lab | lab in s.labs :: s.labs[lab].(members := s.labs[lab].members - {student}),
       placements := map site | site in s.placements :: s.placements[site].(members := s.placements[site].members - {student}))
  }

  function DropOrphan(d: Done, student: StudentId): Done {
    if !d.ok || Enrolled(d.state, student) then d
    else if Restricted(d.state, student) then Done(d.state, false)
    else Done(DropStudent(d.state, student), true)
  }

  function DropOrphans(s: State, roster: seq<StudentId>): Done {
    if roster == [] then Done(s, true)
    else DropOrphan(DropOrphans(s, roster[..|roster| - 1]), roster[|roster| - 1])
  }

  function DestroyLab(s: State, lab: LabName, force: bool, hosts: seq<NodeName>, roster: seq<StudentId>): Done {
    if lab !in s.labs then Done(s, true)
    else
      var torn := TearDown(s, lab, force, TearDownOrder(s, hosts));
      if !torn.ok || torn.started > 0 then Done(torn.state, torn.ok)
      else DropOrphans(DropLab(torn.state, lab), roster)
  }

  // ------------------------------------------------------------------ nodes

  function ProvisionNode(s: State, node: NodeName, valid: bool): Done {
    if !valid then Done(s, false)
    else if node in s.nodes then Done(s, true)
    else Done(s.(nodes := s.nodes[node := Node(LocalZfs, None, false, false, None)]), true)
  }

  predicate Hosting(s: State, node: NodeName) {
    exists site :: site in s.placements && site.node == node
  }

  predicate Owning(s: State, node: NodeName) {
    exists n :: n in s.nodes && s.nodes[n].owner == Some(node)
  }

  function SetColdStorage(s: State, node: NodeName, backend: Backend, owner: Option<NodeName>): Done {
    if node !in s.nodes || Hosting(s, node) then Done(s, false)
    else if backend.Smb? && (owner.None? || owner.value !in s.nodes || owner.value == node) then Done(s, false)
    else if backend.Smb? && (!s.nodes[owner.value].backend.LocalZfs? || Owning(s, node)) then Done(s, false)
    else Done(s.(nodes := s.nodes[node := s.nodes[node].(backend := backend, owner := if backend.Smb? then owner else None)]), true)
  }

  function DeleteNode(s: State, node: NodeName, force: bool): Done {
    if node !in s.nodes || (force && s.nodes[node].online) then Done(s, false)
    else if !force && (Hosting(s, node) || Owning(s, node)) then Done(s, false)
    else
      Done(s.(placements := map site | site in s.placements && site.node != node :: s.placements[site],
              nodes := map n | n in s.nodes && n != node ::
                if s.nodes[n].owner == Some(node) then s.nodes[n].(owner := None, ready := false) else s.nodes[n],
              tasks := map id | id in s.tasks && s.tasks[id].node != node :: s.tasks[id]), true)
  }

  /** What a node reports about itself; a node the controller does not know is ignored. */
  function Report(s: State, node: NodeName, online: bool, ready: bool, mapping: Option<string>): State {
    if node !in s.nodes then s
    else s.(nodes := s.nodes[node := s.nodes[node].(online := online, ready := ready, mapping := mapping)])
  }

  // ------------------------------------------------------------------ results

  /** Every account removal of this removal id succeeded. */
  predicate RemovalComplete(s: State, removal: RemovalId) {
    forall id :: id in s.tasks && PartOf(s.tasks[id], removal) ==> s.tasks[id].progress.Succeeded?
  }

  predicate PartOf(task: Task, removal: RemovalId) {
    task.kind.AccountRemove? && task.kind.removal.Some? && task.kind.removal.value.id == removal
  }

  predicate Cleans(task: Task, node: NodeName, removal: RemovalId) {
    task.kind.ColdDelete? && task.kind.removalId == removal && task.node == node
  }

  predicate CleanupQueued(s: State, node: NodeName, removal: RemovalId) {
    exists id :: id in s.tasks && Cleans(s.tasks[id], node, removal)
  }

  function CleanUp(s: State, task: Task, nodes: seq<NodeName>): State
    requires task.kind.AccountRemove? && task.kind.removal.Some?
  {
    if nodes == [] then s
    else
      var n := |nodes| - 1;
      var t := CleanUp(s, task, nodes[..n]);
      var removal := task.kind.removal.value.id;
      if CleanupQueued(t, nodes[n], removal) then t
      else Enqueue(t, nodes[n], task.lab, ColdDelete(task.kind.student, removal))
  }

  function CompleteRemoval(s: State, task: Task): State
    requires task.kind.AccountRemove?
  {
    if task.kind.removal.None? || !RemovalComplete(s, task.kind.removal.value.id) then s
    else CleanUp(s, task, task.kind.removal.value.nodes)
  }

  /** The placement that a lab-level result is about: the result's own lab name wins over the task's. */
  function ResultSite(task: Task, named: Option<LabName>): Site {
    Site(if named.Some? then named.value else task.lab, task.node)
  }

  /** The lifecycle effect of a result, after its row changed. A blank lab name suppresses it. */
  function Effect(s: State, task: Task, ok: bool, named: Option<LabName>): State {
    var site := ResultSite(task, named);
    if site.lab == "" then s else
    match task.kind
    case LabCreate => WithPhase(s, site, if ok then Active else Failed)
    case LabDestroy =>
      if !ok then WithPhase(s, site, Deleting)
      else if site in s.placements && s.placements[site].phase.Deleting? then WithoutPlacement(s, site)
      else s
    case AccountRemove(_, _) => if ok then CompleteRemoval(s, task) else s
    case _ => s
  }

  /** A result changes only an open task, and then has its effect once. */
  function HandleResult(s: State, id: TaskId, ok: bool, named: Option<LabName>): State {
    if id !in s.tasks || !s.tasks[id].progress.Open? then s
    else
      var task := s.tasks[id].(progress := if ok then Succeeded else Failing);
      Effect(s.(tasks := s.tasks[id := task]), task, ok, named)
  }
}
