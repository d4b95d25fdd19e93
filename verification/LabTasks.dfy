/**
 * The nodes are told: whatever an operation changes about placements and accounts, it queues the task
 * that makes the node do the same.
 */
module LabTasks {
  import opened Prelude
  import opened RosterPlan
  import RosterImport
  import opened LabState
  import opened LabInvariants
  import opened LabTeardown
  import opened LabOwners
  import opened LabCold
  import opened LabRuns

  /** An open task of this kind was queued for the placement since `s`. */
  ghost predicate Told(s: State, t: State, site: Site, kind: Kind) {
    exists id :: id in t.tasks && id !in s.tasks && t.tasks[id] == Task(site.node, site.lab, kind, Open)
  }

  ghost predicate ToldToRemove(s: State, t: State, site: Site, student: StudentId) {
    exists removal :: Told(s, t, site, AccountRemove(student, removal))
  }

  /** The placement is new, or starts provisioning again. */
  predicate Starts(s: State, t: State, site: Site) {
    site in t.placements && (site !in s.placements || (t.placements[site].phase.Provisioning? && !s.placements[site].phase.Provisioning?))
  }

  ghost predicate PlacementTold(s: State, t: State, site: Site) {
    && (Starts(s, t, site) ==> Told(s, t, site, LabCreate))
    && (Alive(s, site) && !Alive(t, site) ==> Told(s, t, site, LabDestroy))
  }

  /** One account of one placement that stands before and after, or is new. */
  ghost predicate AccountTold(s: State, t: State, site: Site, student: StudentId) {
    && (HasAccount(t, site, student) && !HasAccount(s, site, student) ==> Told(s, t, site, AccountAdd(student)))
    && (HasAccount(s, site, student) && site in t.placements && !HasAccount(t, site, student) ==> ToldToRemove(s, t, site, student))
  }

  predicate HasAccount(s: State, site: Site, student: StudentId) {
    site in s.placements && student in s.placements[site].members
  }

  ghost predicate NodesTold(s: State, t: State) {
    && (forall site :: PlacementTold(s, t, site))
    && (forall site, student :: AccountTold(s, t, site, student))
  }

  /** Queued tasks stay, and new ones get new numbers. */
  ghost predicate TasksKept(s: State, t: State) {
    && FreshIds(s) && FreshIds(t) && s.next <= t.next
    && (forall id :: id in s.tasks ==> id in t.tasks && t.tasks[id] == s.tasks[id])
    && (forall id :: id in t.tasks && id !in s.tasks ==> s.next <= id.n)
  }

  lemma ToldLater(s: State, t: State, u: State, site: Site, kind: Kind)
    requires TasksKept(s, t) && TasksKept(t, u)
    ensures Told(s, t, site, kind) || Told(t, u, site, kind) ==> Told(s, u, site, kind)
  {
    if Told(s, t, site, kind) {
      var id :| id in t.tasks && id !in s.tasks && t.tasks[id] == Task(site.node, site.lab, kind, Open);
      assert id in u.tasks && u.tasks[id] == t.tasks[id];
    } else if Told(t, u, site, kind) {
      var id :| id in u.tasks && id !in t.tasks && u.tasks[id] == Task(site.node, site.lab, kind, Open);
      assert id !in s.tasks;
    }
  }

  lemma ToldToRemoveLater(s: State, t: State, u: State, site: Site, student: StudentId)
    requires TasksKept(s, t) && TasksKept(t, u)
    ensures ToldToRemove(s, t, site, student) || ToldToRemove(t, u, site, student) ==> ToldToRemove(s, u, site, student)
  {
    hide TasksKept, Told;
    if ToldToRemove(s, t, site, student) {
      var removal :| Told(s, t, site, AccountRemove(student, removal));
      ToldLater(s, t, u, site, AccountRemove(student, removal));
    } else if ToldToRemove(t, u, site, student) {
      var removal :| Told(t, u, site, AccountRemove(student, removal));
      ToldLater(s, t, u, site, AccountRemove(student, removal));
    }
  }

  /** No placement comes back after it went. */
  ghost predicate NoneReturns(s: State, t: State, u: State) {
    forall site :: site in s.placements && site in u.placements ==> site in t.placements
  }

  lemma ToldTwice(s: State, t: State, u: State)
    requires NodesTold(s, t) && NodesTold(t, u) && TasksKept(s, t) && TasksKept(t, u) && NoneReturns(s, t, u)
    ensures NodesTold(s, u) && TasksKept(s, u)
  {
    hide Told, ToldToRemove, FreshIds;
    forall site
      ensures PlacementTold(s, u, site)
    {
      assert PlacementTold(s, t, site) && PlacementTold(t, u, site);
      ToldLater(s, t, u, site, LabCreate);
      ToldLater(s, t, u, site, LabDestroy);
    }
    forall site, student
      ensures AccountTold(s, u, site, student)
    {
      assert AccountTold(s, t, site, student) && AccountTold(t, u, site, student);
      ToldLater(s, t, u, site, AccountAdd(student));
      ToldToRemoveLater(s, t, u, site, student);
    }
  }

  /** Nothing to tell while placements stay. */
  lemma NothingToTell(s: State, t: State)
    requires t.placements == s.placements && t.tasks == s.tasks && t.next >= s.next && FreshIds(s)
    ensures NodesTold(s, t) && TasksKept(s, t)
  {
  }

  lemma ProvisionTells(s: State, site: Site, student: StudentId)
    requires FreshIds(s)
    ensures NodesTold(s, Provision(s, site, student)) && TasksKept(s, Provision(s, site, student))
    ensures Provision(s, site, student).placements.Keys == s.placements.Keys
  {
    var t := Provision(s, site, student);
    if t == s {
      NothingToTell(s, s);
    } else {
      assert t.tasks[TaskId(s.next)] == Task(site.node, site.lab, AccountAdd(student), Open);
      assert Told(s, t, site, AccountAdd(student));
    }
  }

  lemma {:induction false} ProvisionAllTells(s: State, lab: LabName, student: StudentId, hosts: seq<NodeName>)
    requires FreshIds(s)
    ensures NodesTold(s, ProvisionAll(s, lab, student, hosts)) && TasksKept(s, ProvisionAll(s, lab, student, hosts))
    ensures ProvisionAll(s, lab, student, hosts).placements.Keys == s.placements.Keys
    decreases |hosts|
  {
    hide NodesTold, Provision;
    if hosts == [] {
      NothingToTell(s, s);
    } else {
      var n := |hosts| - 1;
      var t := ProvisionAll(s, lab, student, hosts[..n]);
      ProvisionAllTells(s, lab, student, hosts[..n]);
      ProvisionTells(t, Site(lab, hosts[n]), student);
      ToldTwice(s, t, Provision(t, Site(lab, hosts[n]), student));
    }
  }

  lemma {:induction false} ProvisionRosterTells(s: State, site: Site, roster: seq<StudentId>)
    requires FreshIds(s)
    ensures NodesTold(s, ProvisionRoster(s, site, roster)) && TasksKept(s, ProvisionRoster(s, site, roster))
    ensures ProvisionRoster(s, site, roster).placements.Keys == s.placements.Keys
    decreases |roster|
  {
    hide NodesTold, Provision;
    if roster == [] {
      NothingToTell(s, s);
    } else {
      var n := |roster| - 1;
      var t := ProvisionRoster(s, site, roster[..n]);
      ProvisionRosterTells(s, site, roster[..n]);
      ProvisionTells(t, site, roster[n]);
      ToldTwice(s, t, Provision(t, site, roster[n]));
    }
  }

  lemma {:induction false} ProvisionJoinedTells(s: State, lab: LabName, joined: seq<StudentId>, hosts: seq<NodeName>)
    requires FreshIds(s)
    ensures NodesTold(s, ProvisionJoined(s, lab, joined, hosts)) && TasksKept(s, ProvisionJoined(s, lab, joined, hosts))
    ensures ProvisionJoined(s, lab, joined, hosts).placements.Keys == s.placements.Keys
    decreases |joined|
  {
    hide NodesTold, ProvisionAll;
    if joined == [] {
      NothingToTell(s, s);
    } else {
      var n := |joined| - 1;
      var t := ProvisionJoined(s, lab, joined[..n], hosts);
      ProvisionJoinedTells(s, lab, joined[..n], hosts);
      ProvisionAllTells(t, lab, joined[n], hosts);
      ToldTwice(s, t, ProvisionAll(t, lab, joined[n], hosts));
    }
  }

  lemma DeprovisionTells(s: State, site: Site, student: StudentId, removal: Option<Removal>)
    requires FreshIds(s)
    ensures NodesTold(s, Deprovision(s, site, student, removal)) && TasksKept(s, Deprovision(s, site, student, removal))
    ensures Deprovision(s, site, student, removal).placements.Keys == s.placements.Keys
  {
    hide Told, ToldToRemove;
    var t := Deprovision(s, site, student, removal);
    RemovalTold(s, site, student, removal);
  }

  lemma RemovalTold(s: State, site: Site, student: StudentId, removal: Option<Removal>)
    requires FreshIds(s)
    ensures ToldToRemove(s, Deprovision(s, site, student, removal), site, student)
  {
    var t := Deprovision(s, site, student, removal);
    assert t.tasks[TaskId(s.next)] == Task(site.node, site.lab, AccountRemove(student, removal), Open);
    assert Told(s, t, site, AccountRemove(student, removal));
  }

  lemma {:induction false} DeprovisionAllTells(s: State, lab: LabName, student: StudentId, removal: Option<Removal>, hosts: seq<NodeName>)
    requires FreshIds(s)
    ensures NodesTold(s, DeprovisionAll(s, lab, student, removal, hosts)) && TasksKept(s, DeprovisionAll(s, lab, student, removal, hosts))
    ensures DeprovisionAll(s, lab, student, removal, hosts).placements.Keys == s.placements.Keys
    decreases |hosts|
  {
    hide NodesTold, Deprovision;
    if hosts == [] {
      NothingToTell(s, s);
    } else {
      var n := |hosts| - 1;
      var t := DeprovisionAll(s, lab, student, removal, hosts[..n]);
      DeprovisionAllTells(s, lab, student, removal, hosts[..n]);
      DeprovisionTells(t, Site(lab, hosts[n]), student, removal);
      ToldTwice(s, t, Deprovision(t, Site(lab, hosts[n]), student, removal));
    }
  }

  // ------------------------------------------------------------------ rosters

  /** After a change of rosters and students alone. */
  lemma ThenProvisionAll(s: State, t: State, lab: LabName, student: StudentId, hosts: seq<NodeName>)
    requires FreshIds(s) && t == s.(labs := t.labs, students := t.students, nextStudent := t.nextStudent)
    ensures NodesTold(s, ProvisionAll(t, lab, student, hosts)) && TasksKept(s, ProvisionAll(t, lab, student, hosts))
    ensures ProvisionAll(t, lab, student, hosts).placements.Keys == s.placements.Keys
  {
    assert FreshIds(t);
    hide NodesTold, ProvisionAll;
    NothingToTell(s, t);
    ProvisionAllTells(t, lab, student, hosts);
    ToldTwice(s, t, ProvisionAll(t, lab, student, hosts));
  }

  lemma EnsurePiTells(s: State, lab: LabName, input: Input, hosts: seq<NodeName>)
    requires FreshIds(s) && People(s)
    ensures NodesTold(s, EnsurePi(s, lab, input, hosts).state)
  {
    hide NodesTold, ProvisionAll, FindOrCreate, FreshIds, People, LookedUp;
    FoundOrCreated(s, input);
    var (t, found) := FindOrCreate(s, input);
    NothingToTell(s, s);
    NothingToTell(s, t);
    if lab in s.labs && found.Some? {
      ThenProvisionAll(s, Join(Designate(t, lab, found.value, input), lab, found.value), lab, found.value, hosts);
    }
  }

  lemma AddStudentTells(s: State, lab: LabName, input: Input, hosts: seq<NodeName>)
    requires FreshIds(s) && People(s)
    ensures
      var t := AddStudent(s, lab, input, hosts).state;
      NodesTold(s, t) && TasksKept(s, t) && t.placements.Keys == s.placements.Keys
  {
    hide NodesTold, ProvisionAll, FindOrCreate, FreshIds, People, LookedUp;
    FoundOrCreated(s, input);
    var (t, found) := FindOrCreate(s, input);
    NothingToTell(s, s);
    NothingToTell(s, t);
    if lab in s.labs && found.Some? {
      ThenProvisionAll(s, Join(t, lab, found.value), lab, found.value, hosts);
    }
  }

  lemma CopyMemberTells(s: State, lab: LabName, student: StudentId, hosts: seq<NodeName>)
    requires FreshIds(s) && People(s)
    ensures
      var t := CopyMember(s, lab, student, hosts).state;
      NodesTold(s, t) && TasksKept(s, t) && t.placements.Keys == s.placements.Keys
  {
    hide NodesTold, AddStudent, FreshIds, People;
    NothingToTell(s, s);
    if student in s.students {
      var row := s.students[student];
      AddStudentTells(s, lab, Input(row.username, row.sid, row.name, row.email), hosts);
    }
  }

  lemma {:induction false} CopyMembersTells(s: State, lab: LabName, roster: seq<StudentId>, hosts: seq<NodeName>)
    requires Good(s) && Listing(hosts, HostsOf(s, lab))
    ensures
      var t := CopyMembers(s, lab, roster, hosts).state;
      NodesTold(s, t) && TasksKept(s, t) && t.placements.Keys == s.placements.Keys
    decreases |roster|
  {
    assert FreshIds(s) && People(s);
    if roster == [] {
      NothingToTell(s, s);
    } else {
      var n := |roster| - 1;
      var t := CopyMembers(s, lab, roster[..n], hosts).state;
      CopyMembersTells(s, lab, roster[..n], hosts);
      CopyMembersKeeps(s, lab, roster[..n], hosts);
      assert FreshIds(t) && People(t);
      hide NodesTold, CopyMember, FreshIds, People, Good, Undisturbed, HostsOf;
      CopyMemberTells(t, lab, roster[n], hosts);
      if CopyMembers(s, lab, roster[..n], hosts).ok {
        ToldTwice(s, t, CopyMember(t, lab, roster[n], hosts).state);
      }
    }
  }

  lemma RemoveStudentTells(s: State, lab: LabName, student: StudentId, deleteData: bool, hosts: seq<NodeName>)
    requires FreshIds(s)
    ensures NodesTold(s, RemoveStudent(s, lab, student, deleteData, hosts).state)
  {
    hide NodesTold, DeprovisionAll, OnBackend;
    var removal := RemovalFor(s, deleteData, hosts);
    NothingToTell(s, s);
    if RemoveStudent(s, lab, student, deleteData, hosts).ok {
      var t := Leave(s.(next := s.next + 1), lab, student);
      assert FreshIds(t);
      hide NodesTold, DeprovisionAll, FreshIds;
      NothingToTell(s, t);
      DeprovisionAllTells(t, lab, student, removal, hosts);
      ToldTwice(s, t, DeprovisionAll(t, lab, student, removal, hosts));
    }
  }

  lemma ImportRosterTells(s: State, lower: string -> string, lab: LabName, text: string, index: Index,
                          joined: seq<StudentId>, hosts: seq<NodeName>)
    requires FreshIds(s) && Grounded(index)
    ensures NodesTold(s, ImportRoster(s, lower, lab, text, index, joined, hosts).state)
  {
    NothingToTell(s, s);
    if lab in s.labs && ImportPlan(s, lower, lab, text, index).Some? {
      var after := ImportPlan(s, lower, lab, text, index).value;
      var t := s.(students := after.students, labs := s.labs[lab := after.lab], nextStudent := after.next);
      NothingToTell(s, t);
      assert FreshIds(t);
      hide NodesTold, ProvisionJoined, FreshIds;
      ProvisionJoinedTells(t, lab, joined, hosts);
      ToldTwice(s, t, ProvisionJoined(t, lab, joined, hosts));
    }
  }

  // ------------------------------------------------------------------ placements

  lemma CreatePlacementTells(s: State, site: Site, request: Request, roster: seq<StudentId>)
    requires FreshIds(s)
    ensures NodesTold(s, CreatePlacement(s, site, request, roster).state)
  {
    NothingToTell(s, s);
    if CreatePlacement(s, site, request, roster).ok {
      var born := s.(placements := s.placements[site := Placement(Provisioning, request.port, {})]);
      var t := Enqueue(born, site.node, site.lab, LabCreate);
      assert t.tasks[TaskId(s.next)] == Task(site.node, site.lab, LabCreate, Open);
      assert Told(s, t, site, LabCreate);
      assert FreshIds(t);
      assert NodesTold(s, t) && TasksKept(s, t);
      hide NodesTold, ProvisionRoster, FreshIds;
      ProvisionRosterTells(t, site, roster);
      ToldTwice(s, t, ProvisionRoster(t, site, roster));
    }
  }

  /** One placement's phase changes, or the placement goes, with this task queued. */
  lemma OneTold(s: State, t: State, site: Site, kind: Kind)
    requires FreshIds(s) && site in s.placements && t.next == s.next + 1
    requires t.tasks == s.tasks[TaskId(s.next) := Task(site.node, site.lab, kind, Open)]
    requires forall other :: other in t.placements ==> other in s.placements
    requires forall other :: other in s.placements && other != site ==> other in t.placements && t.placements[other] == s.placements[other]
    requires site in t.placements ==> t.placements[site].members == s.placements[site].members
    requires Alive(t, site) ==> kind == LabCreate
    requires !Alive(t, site) ==> kind == LabDestroy
    ensures NodesTold(s, t) && TasksKept(s, t)
  {
    assert t.tasks[TaskId(s.next)] == Task(site.node, site.lab, kind, Open);
    assert Told(s, t, site, kind);
  }

  lemma PlacementStepsTell(s: State, site: Site)
    requires FreshIds(s)
    ensures NodesTold(s, DestroyPlacement(s, site).state) && TasksKept(s, DestroyPlacement(s, site).state)
    ensures NodesTold(s, ForceDelete(s, site).state) && TasksKept(s, ForceDelete(s, site).state)
    ensures NodesTold(s, LabState.Retry(s, site).state)
  {
    hide NodesTold, TasksKept, FreshIds, Blocked;
    NothingToTell(s, s);
    if site in s.placements {
      OneTold(s, Enqueue(WithPhase(s, site, Deleting), site.node, site.lab, LabDestroy), site, LabDestroy);
      OneTold(s, WithoutPlacement(Enqueue(s, site.node, site.lab, LabDestroy), site), site, LabDestroy);
      OneTold(s, Enqueue(WithPhase(s, site, Provisioning), site.node, site.lab, LabCreate), site, LabCreate);
    }
  }

  lemma TearDownOneTells(t: Torn, lab: LabName, force: bool, node: NodeName)
    requires FreshIds(t.state)
    ensures
      var u := TearDownOne(t, lab, force, node).state;
      && NodesTold(t.state, u) && TasksKept(t.state, u)
      && (forall site :: site in u.placements ==> site in t.state.placements)
  {
    hide NodesTold, TasksKept, FreshIds, Blocked;
    NothingToTell(t.state, t.state);
    PlacementStepsTell(t.state, Site(lab, node));
  }

  lemma {:induction false} TearDownTells(s: State, lab: LabName, force: bool, hosts: seq<NodeName>)
    requires FreshIds(s)
    ensures
      var t := TearDown(s, lab, force, hosts).state;
      && NodesTold(s, t) && TasksKept(s, t)
      && (forall site :: site in t.placements ==> site in s.placements)
    decreases |hosts|
  {
    hide NodesTold, TearDownOne;
    if hosts == [] {
      NothingToTell(s, s);
    } else {
      var before := TearDown(s, lab, force, hosts[..|hosts| - 1]);
      TearDownTells(s, lab, force, hosts[..|hosts| - 1]);
      TearDownOneTells(before, lab, force, hosts[|hosts| - 1]);
      ToldTwice(s, before.state, TearDownOne(before, lab, force, hosts[|hosts| - 1]).state);
    }
  }

  lemma DestroyLabTells(s: State, lab: LabName, force: bool, hosts: seq<NodeName>, roster: seq<StudentId>)
    requires Good(s) && Listing(hosts, HostsOf(s, lab))
    ensures NodesTold(s, DestroyLab(s, lab, force, hosts, roster).state)
  {
    assert FreshIds(s);
    NothingToTell(s, s);
    if lab in s.labs {
      var order := TearDownOrder(s, hosts);
      var torn := TearDown(s, lab, force, order);
      TearDownTells(s, lab, force, order);
      TornToNothing(s, lab, force, hosts);
      hide NodesTold, Good, TearDown, TearDownOrder, HostsOf;
      if torn.started == 0 {
        assert Good(torn.state) by { TornDownKeepsGood(s, lab, force, hosts); }
        var dropped := DropLab(torn.state, lab);
        DropLabKeeps(torn.state, lab);
        DroppingOrphansIsSafe(dropped, roster);
        DropOrphansKeepsNodes(dropped, roster);
        SameToTell(s, torn.state, DropOrphans(dropped, roster).state);
      }
    }
  }

  lemma TornDownKeepsGood(s: State, lab: LabName, force: bool, hosts: seq<NodeName>)
    requires Good(s) && Listing(hosts, HostsOf(s, lab))
    ensures Good(TearDown(s, lab, force, TearDownOrder(s, hosts)).state)
  {
    var order := TearDownOrder(s, hosts);
    TearDownOrderIsClientsFirst(s, lab, hosts);
    TearDownTears(s, lab, force, order, |order|);
    assert order[..|order|] == order;
    TearDownFresh(s, lab, force, order);
    TornDownIsGood(s, TearDown(s, lab, force, order).state, lab, force, order);
  }

  /** When no placement had to be told, all of the lab's placements are purged already. */
  lemma TornToNothing(s: State, lab: LabName, force: bool, hosts: seq<NodeName>)
    requires Good(s) && Listing(hosts, HostsOf(s, lab))
    ensures
      var torn := TearDown(s, lab, force, TearDownOrder(s, hosts));
      && torn.ok && (torn.started == 0 ==> DropLab(torn.state, lab).placements == torn.state.placements)
  {
    var order := TearDownOrder(s, hosts);
    var torn := TearDown(s, lab, force, order);
    TearDownOrderIsClientsFirst(s, lab, hosts);
    TearDownTears(s, lab, force, order, |order|);
    assert order[..|order|] == order;
    hide TearDown, TearDownOrder, Good;
    if torn.started == 0 {
      forall site | site in torn.state.placements
        ensures site.lab != lab
      {
        if site.lab == lab {
          LeftIsNotPurged(s, torn.state, lab, force, order, site);
          assert false;
        }
      }
    }
  }

  lemma LeftIsNotPurged(s: State, t: State, lab: LabName, force: bool, order: seq<NodeName>, site: Site)
    requires ClientsFirst(s, lab, order) && TornDown(s, t, lab, force, order) && site in t.placements && site.lab == lab
    ensures exists i :: 0 <= i < |order| && !Purged(s, force, order[i])
  {
    assert site.node in HostsOf(s, lab);
    assert site.node in Elements(order);
    var i :| 0 <= i < |order| && order[i] == site.node;
    assert !Purged(s, force, order[i]);
  }

  lemma SameToTell(s: State, t: State, u: State)
    requires NodesTold(s, t) && u.placements == t.placements && u.tasks == t.tasks
    ensures NodesTold(s, u)
  {
    forall site
      ensures PlacementTold(s, u, site)
    {
      assert PlacementTold(s, t, site);
      assert forall kind :: Told(s, t, site, kind) ==> Told(s, u, site, kind);
    }
    forall site, student
      ensures AccountTold(s, u, site, student)
    {
      assert AccountTold(s, t, site, student);
      assert forall kind :: Told(s, t, site, kind) ==> Told(s, u, site, kind);
      assert ToldToRemove(s, t, site, student) ==> ToldToRemove(s, u, site, student);
    }
  }

  // ------------------------------------------------------------------ every operation

  /**
   * Every operation queues what it changes: a node learns of each placement that is created, retried or
   * torn down and of each account that comes or goes. Only a node's own answers, and the deletion of a
   * node with everything on it, change placements without telling.
   */
  lemma StepTellsNodes(s: State, op: Op)
    requires Good(s) && Legal(s, op) && !op.Result? && !op.DropNode?
    ensures NodesTold(s, After(s, op))
  {
    assert FreshIds(s) && People(s);
    hide Good, NodesTold, TasksKept, FreshIds, People, HostsOf, CreateLab, EnsurePi, AddStudent, CopyMembers, ImportRoster,
      RemoveStudent, CreatePlacement, DestroyPlacement, ForceDelete, LabState.Retry, DestroyLab, ProvisionNode, SetColdStorage, Report;
    match op {
      case NewLab(lab, valid, piName, piEmail) => PlacementsStay(s, op);
      case SetPi(lab, input, hosts) => EnsurePiTells(s, lab, input, hosts);
      case Add(lab, input, hosts) => AddStudentTells(s, lab, input, hosts);
      case Copy(_, lab, roster, hosts) => CopyMembersTells(s, lab, roster, hosts);
      case Remove(lab, student, deleteData, hosts) => RemoveStudentTells(s, lab, student, deleteData, hosts);
      case Import(lower, lab, text, index, joined, hosts) => ImportRosterTells(s, lower, lab, text, index, joined, hosts);
      case Grant(site, request, roster) => CreatePlacementTells(s, site, request, roster);
      case Revoke(site) => PlacementStepsTell(s, site);
      case Purge(site) => PlacementStepsTell(s, site);
      case Retry(site) => PlacementStepsTell(s, site);
      case DeleteLab(lab, force, hosts, roster) => DestroyLabTells(s, lab, force, hosts, roster);
      case _ => PlacementsStay(s, op);
    }
  }

  lemma PlacementsStay(s: State, op: Op)
    requires FreshIds(s) && (op.NewLab? || op.NewNode? || op.SetCold? || op.Heartbeat?)
    ensures NodesTold(s, After(s, op))
  {
    assert After(s, op).placements == s.placements && After(s, op).tasks == s.tasks && After(s, op).next == s.next;
    NothingToTell(s, After(s, op));
  }
}
