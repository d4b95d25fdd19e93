/**
 * The controller's code over its tables: each operation runs its queries and loops over their rows, and
 * is proved to do what the function of the same operation says.
 */
module LabController {
  import opened Prelude
  import opened RosterPlan
  import RosterImport
  import opened LabState
  import opened LabInvariants
  import opened LabTeardown
  import opened LabOwners
  import opened LabCold

  /** The rows of a set in some order. */
  method ListRows<T(==)>(rows: set<T>) returns (order: seq<T>)
    ensures Listing(order, rows)
  {
    order := [];
    var rest := rows;
    assert Elements(order) == {};
    while rest != {}
      invariant rest <= rows && Distinct(order) && Elements(order) == rows - rest
      decreases |rest|
    {
      var x :| x in rest;
      assert x !in Elements(order);
      assert Elements(order + [x]) == Elements(order) + {x};
      order := order + [x];
      rest := rest - {x};
    }
  }

  /**
   * What a result does to placements: the one it is about becomes active or failed after a creation, and
   * after a teardown keeps deleting or goes, unless it has come back meanwhile. A blank lab, an unknown
   * placement and every other task leave all placements alone.
   */
  ghost predicate Answered(before: map<Site, Placement>, after: map<Site, Placement>, kind: Kind, succeeded: bool, site: Site) {
    && (kind.LabCreate? && site.lab != "" && site in before ==>
          after == before[site := before[site].(phase := if succeeded then Active else Failed)])
    && (kind.LabDestroy? && !succeeded && site.lab != "" && site in before ==> after == before[site := before[site].(phase := Deleting)])
    && (kind.LabDestroy? && succeeded && site.lab != "" && site in before && before[site].phase == Deleting ==> after == before - {site})
    && (kind.LabDestroy? && succeeded && site.lab != "" && site in before && before[site].phase != Deleting ==> after == before)
    && ((kind != LabCreate && kind != LabDestroy) || site.lab == "" || site !in before ==> after == before)
  }

  class Controller {
    var labs: map<LabName, Lab>
    var nodes: map<NodeName, Node>
    var students: Students
    var placements: map<Site, Placement>
    var tasks: map<TaskId, Task>
    var next: nat
    var nextStudent: nat

    function Value(): State
      reads this
    {
      State(labs, nodes, students, placements, tasks, next, nextStudent)
    }

    constructor ()
      ensures Value() == EMPTY
    {
      labs, nodes, students, placements, tasks := map[], map[], map[], map[], map[];
      next, nextStudent := 0, 0;
    }

    method EnqueueTask(node: NodeName, lab: LabName, kind: Kind)
      modifies this`tasks, this`next
      ensures Value() == Enqueue(old(Value()), node, lab, kind)
      ensures tasks == old(tasks)[TaskId(old(next)) := Task(node, lab, kind, Open)] && next == old(next) + 1
    {
      tasks, next := tasks[TaskId(next) := Task(node, lab, kind, Open)], next + 1;
    }

    method ListHosts(lab: LabName) returns (hosts: seq<NodeName>)
      ensures Listing(hosts, HostsOf(Value(), lab))
    {
      hosts := ListRows(set site | site in placements && site.lab == lab :: site.node);
    }

    method ProvisionMember(site: Site, student: StudentId)
      requires site in placements
      modifies this`placements, this`tasks, this`next
      ensures Value() == Provision(old(Value()), site, student)
      // an account that is missing is added, and its node told to create it
      ensures student !in old(placements)[site].members ==>
                && placements == old(placements)[site := old(placements)[site].(members := old(placements)[site].members + {student})]
                && tasks == old(tasks)[TaskId(old(next)) := Task(site.node, site.lab, AccountAdd(student), Open)]
      ensures student in old(placements)[site].members ==> Value() == old(Value())
    {
      var p := placements[site];
      if student in p.members {
        return;
      }
      placements := placements[site := p.(members := p.members + {student})];
      EnqueueTask(site.node, site.lab, AccountAdd(student));
    }

    method ProvisionOnHosts(lab: LabName, student: StudentId, hosts: seq<NodeName>)
      requires forall i :: 0 <= i < |hosts| ==> Site(lab, hosts[i]) in placements
      modifies this`placements, this`tasks, this`next
      ensures Value() == ProvisionAll(old(Value()), lab, student, hosts)
      ensures placements.Keys == old(placements).Keys
    {
      for i := 0 to |hosts|
        invariant Value() == ProvisionAll(old(Value()), lab, student, hosts[..i])
        invariant placements.Keys == old(placements).Keys
      {
        assert hosts[..i + 1][..i] == hosts[..i];
        assert Site(lab, hosts[i]) in old(placements).Keys;
        ProvisionMember(Site(lab, hosts[i]), student);
      }
      assert hosts[..|hosts|] == hosts;
    }

    // ---------------------------------------------------------------- students and rosters

    method FindOrCreateStudent(input: Input) returns (student: Option<StudentId>)
      requires Good(Value())
      modifies this`students, this`nextStudent
      ensures (Value(), student) == FindOrCreate(old(Value()), input)
      // by a non-blank student id, else by username, else a new row with the least free user id
      ensures LookedUp(old(Value()), Value(), student, input)
    {
      assert LookedUp(Value(), FindOrCreate(Value(), input).0, FindOrCreate(Value(), input).1, input) by {
        FoundOrCreated(Value(), input);
      }
      hide LookedUp;
      if Present(input.sid) {
        if id :| id in students && students[id].sid == input.sid {
          SameSid(students, id, BySid(students, input.sid));
          return Some(id);
        }
      }
      assert !Known(students, input.sid);
      if id :| id in students && students[id].username == input.user {
        RosterImport.SameName(students, id, RosterImport.IdOf(students, input.user));
        return Some(id);
      }
      var uid := RosterImport.TakeUid(RosterImport.UidsOf(students));
      if uid.None? || RosterImport.Taken(students, input.user, input.sid) {
        return None;
      }
      var e := Entry(input.user, input.sid, input.name, input.email, 0);
      student := Some(StudentId(nextStudent));
      students := students[StudentId(nextStudent) := RosterImport.NewStudent(e, uid.value)];
      nextStudent := nextStudent + 1;
    }

    method CreateLabRow(lab: LabName, valid: bool, piName: Option<string>, piEmail: Option<string>) returns (ok: bool)
      modifies this`labs
      ensures Done(Value(), ok) == CreateLab(old(Value()), lab, valid, piName, piEmail)
      ensures ok <==> valid && lab !in old(labs)
      ensures labs == if ok then old(labs)[lab := Lab(None, piName, piEmail, {})] else old(labs)
    {
      if !valid || lab in labs {
        return false;
      }
      labs := labs[lab := Lab(None, piName, piEmail, {})];
      return true;
    }

    method EnsurePiAccess(lab: LabName, input: Input) returns (ok: bool, ghost hosts: seq<NodeName>)
      requires Good(Value())
      modifies this
      ensures Listing(hosts, HostsOf(old(Value()), lab))
      ensures Done(Value(), ok) == EnsurePi(old(Value()), lab, input, hosts)
      ensures ok <==> MayDesignate(old(Value()), lab, input)
      ensures ok ==> PiEverywhere(Value(), lab, FindOrCreate(old(Value()), input).1, input)
      ensures Good(Value())
    {
      var listed := ListHosts(lab);
      hosts := listed;
      EnsurePiKeeps(Value(), lab, input, hosts);
      FoundOrCreated(Value(), input);
      hide Good, Join, Designate, ProvisionAll, People, HostsOf, LookedUp, MayDesignate, PiEverywhere;
      if lab !in labs || input.user == "" {
        return false, hosts;
      }
      var student := FindOrCreateStudent(input);
      if student.None? || (labs[lab].pi.Some? && labs[lab].pi != student) {
        return false, hosts;
      }
      DesignatePi(lab, student.value, input);
      HostsPlaced(Value(), lab, listed);
      ProvisionOnHosts(lab, student.value, listed);
      return true, hosts;
    }

    /** Align the account's contact details with the lab's, and put the PI on the roster. */
    method DesignatePi(lab: LabName, pi: StudentId, input: Input)
      requires lab in labs && pi in students
      modifies this`students, this`labs
      ensures Value() == Join(Designate(old(Value()), lab, pi, input), lab, pi)
      ensures students == old(students)[pi := old(students)[pi].(name := input.name, email := input.email)]
      ensures labs == old(labs)[lab := Lab(Some(pi), input.name, input.email, old(labs)[lab].members + {pi})]
    {
      students := students[pi := students[pi].(name := input.name, email := input.email)];
      labs := labs[lab := labs[lab].(pi := Some(pi), piName := input.name, piEmail := input.email)];
      if pi !in labs[lab].members {
        labs := labs[lab := labs[lab].(members := labs[lab].members + {pi})];
      } else {
        JoinedAlready(labs, lab, pi);
      }
    }

    method AddStudentToLab(lab: LabName, input: Input) returns (ok: bool, ghost hosts: seq<NodeName>)
      requires Good(Value())
      modifies this
      ensures Listing(hosts, HostsOf(old(Value()), lab))
      ensures Done(Value(), ok) == AddStudent(old(Value()), lab, input, hosts)
      ensures Good(Value())
      // it joins this roster alone, and has an account wherever the lab is placed
      ensures
        var found := FindOrCreate(old(Value()), input).1;
        && (ok <==> lab in old(labs) && found.Some? && found.value !in old(labs)[lab].members)
        && (ok ==> labs == old(labs)[lab := old(labs)[lab].(members := old(labs)[lab].members + {found.value})])
        && (ok ==> forall site :: site in placements && site.lab == lab ==> found.value in placements[site].members)
    {
      var listed := ListHosts(lab);
      hosts := listed;
      AddStudentKeeps(Value(), lab, input, hosts);
      AddStudentEnrolls(Value(), lab, input, hosts);
      hide Good, AddStudent, FindOrCreate;
      ok := EnrollOn(lab, input, listed);
    }

    method EnrollOn(lab: LabName, input: Input, listed: seq<NodeName>) returns (ok: bool)
      requires Good(Value()) && Listing(listed, HostsOf(Value(), lab))
      modifies this
      ensures Done(Value(), ok) == AddStudent(old(Value()), lab, input, listed)
    {
      if lab !in labs {
        return false;
      }
      var student := FindOrCreateStudent(input);
      if student.None? || student.value in labs[lab].members {
        return false;
      }
      labs := labs[lab := labs[lab].(members := labs[lab].members + {student.value})];
      HostsPlaced(Value(), lab, listed);
      ProvisionOnHosts(lab, student.value, listed);
      return true;
    }

    /** Enroll every listed member of one lab in another. */
    method CopyMembersTo(from: LabName, lab: LabName) returns (ok: bool, ghost roster: seq<StudentId>, ghost hosts: seq<NodeName>)
      requires Good(Value())
      modifies this
      ensures Listing(hosts, HostsOf(old(Value()), lab))
      ensures Listing(roster, if from in old(labs) then old(labs)[from].members else {})
      ensures Done(Value(), ok) == CopyMembers(old(Value()), lab, roster, hosts)
      ensures Good(Value())
    {
      var listed := ListRows(if from in labs then labs[from].members else {});
      var listedHosts := ListHosts(lab);
      roster, hosts := listed, listedHosts;
      ok := true;
      for i := 0 to |listed|
        invariant Done(Value(), ok) == CopyMembers(old(Value()), lab, listed[..i], listedHosts)
        invariant Good(Value()) && HostsOf(Value(), lab) == HostsOf(old(Value()), lab)
      {
        assert listed[..i + 1][..i] == listed[..i];
        if ok {
          ok := CopyOne(lab, listed[i], listedHosts);
        }
      }
      assert listed[..|listed|] == listed;
    }

    method CopyOne(lab: LabName, student: StudentId, listed: seq<NodeName>) returns (ok: bool)
      requires Good(Value()) && Listing(listed, HostsOf(Value(), lab))
      modifies this
      ensures Done(Value(), ok) == CopyMember(old(Value()), lab, student, listed)
      ensures Good(Value()) && HostsOf(Value(), lab) == HostsOf(old(Value()), lab)
    {
      CopyMemberKeeps(Value(), lab, student, listed);
      HostsKept(Value(), CopyMember(Value(), lab, student, listed).state, lab);
      if lab in labs && student in labs[lab].members {
        return true;
      }
      if student !in students {
        return false;
      }
      var row := students[student];
      ok := EnrollOn(lab, Input(row.username, row.sid, row.name, row.email), listed);
    }

    /** Import a roster file, then create the accounts of the new members on every placement. */
    method ImportRosterFile(lower: string -> string, lab: LabName, text: string)
      returns (ok: bool, ghost index: Index, ghost joined: seq<StudentId>, ghost hosts: seq<NodeName>)
      requires Good(Value())
      modifies this
      ensures Indexes(index, old(students)) && Grounded(index) && Listing(hosts, HostsOf(old(Value()), lab))
      ensures Done(Value(), ok) == ImportRoster(old(Value()), lower, lab, text, index, joined, hosts)
      ensures ok ==> NewlyJoined(old(Value()), lab, ImportPlan(old(Value()), lower, lab, text, index).value, joined)
      ensures Good(Value())
    {
      hide Good, Indexes, Grounded, PlanText, RosterImport.Applied, RosterImport.Sound, ProvisionJoined, HostsOf;
      ghost var before := Value();
      GoodIsUnique(before);
      var listedHosts := ListHosts(lab);
      HostsPlaced(before, lab, listedHosts);
      hosts, joined := listedHosts, [];
      if lab !in labs {
        var _, found := PlanRosterImport(lower, students, Lab(None, None, None, {}), text);
        index := found;
        return false, index, [], hosts;
      }
      LabIsSound(before, lab);
      var store := new RosterImport.RosterStore(students, labs[lab], nextStudent);
      var summary, found := store.ApplyRosterImport(lower, text);
      index := found;
      if summary.Err? {
        return false, index, [], hosts;
      }
      var listed := ListRows(store.lab.members - labs[lab].members);
      joined := listed;
      ImportRosterKeeps(before, lower, lab, text, index, joined, hosts);
      students, labs, nextStudent := store.students, labs[lab := store.lab], store.next;
      ProvisionNewMembers(lab, listed, listedHosts);
      return true, index, joined, hosts;
    }

    method ProvisionNewMembers(lab: LabName, listed: seq<StudentId>, listedHosts: seq<NodeName>)
      requires forall i :: 0 <= i < |listedHosts| ==> Site(lab, listedHosts[i]) in placements
      modifies this`placements, this`tasks, this`next
      ensures Value() == ProvisionJoined(old(Value()), lab, listed, listedHosts)
    {
      for i := 0 to |listed|
        invariant Value() == ProvisionJoined(old(Value()), lab, listed[..i], listedHosts)
        invariant placements.Keys == old(placements).Keys
      {
        assert listed[..i + 1][..i] == listed[..i];
        forall k | 0 <= k < |listedHosts|
          ensures Site(lab, listedHosts[k]) in placements
        {
          assert Site(lab, listedHosts[k]) in old(placements).Keys;
        }
        ProvisionOnHosts(lab, listed[i], listedHosts);
      }
      assert listed[..|listed|] == listed;
    }

    method RemoveStudentFromLab(lab: LabName, student: StudentId, deleteData: bool) returns (ok: bool, ghost hosts: seq<NodeName>)
      requires Good(Value())
      modifies this
      ensures Listing(hosts, HostsOf(old(Value()), lab))
      ensures Done(Value(), ok) == RemoveStudent(old(Value()), lab, student, deleteData, hosts)
      ensures Good(Value())
    {
      hide Good, HostsOf, Listing, OnBackend, Deprovision;
      var listed := ListHosts(lab);
      hosts := listed;
      RemoveStudentKeeps(Value(), lab, student, deleteData, hosts);
      if lab !in labs || labs[lab].pi == Some(student) || student !in labs[lab].members {
        return false, hosts;
      }
      var removal := None;
      if deleteData && listed != [] {
        var owners := ListBackend(listed, LocalZfs);
        removal := Some(Removal(RemovalId(next), owners));
      }
      assert removal == RemovalFor(Value(), deleteData, listed);
      next := next + 1;
      labs := labs[lab := labs[lab].(members := labs[lab].members - {student})];
      ghost var start := Value();
      for i := 0 to |listed|
        invariant Value() == DeprovisionAll(start, lab, student, removal, listed[..i])
      {
        assert listed[..i + 1][..i] == listed[..i];
        RemoveMember(Site(lab, listed[i]), student, removal);
      }
      assert listed[..|listed|] == listed;
      return true, hosts;
    }

    method RemoveMember(site: Site, student: StudentId, removal: Option<Removal>)
      modifies this`placements, this`tasks, this`next
      ensures Value() == Deprovision(old(Value()), site, student, removal)
      ensures tasks == old(tasks)[TaskId(old(next)) := Task(site.node, site.lab, AccountRemove(student, removal), Open)]
      ensures site in old(placements) ==>
                placements == old(placements)[site := old(placements)[site].(members := old(placements)[site].members - {student})]
      ensures site !in old(placements) ==> placements == old(placements)
    {
      EnqueueTask(site.node, site.lab, AccountRemove(student, removal));
      if site in placements {
        placements := placements[site := placements[site].(members := placements[site].members - {student})];
      }
    }

    method ListBackend(hosts: seq<NodeName>, backend: Backend) returns (picked: seq<NodeName>)
      ensures picked == OnBackend(Value(), hosts, backend)
    {
      picked := [];
      for i := 0 to |hosts|
        invariant picked == OnBackend(Value(), hosts[..i], backend)
      {
        assert hosts[..i + 1][..i] == hosts[..i];
        if hosts[i] in nodes && nodes[hosts[i]].backend == backend {
          picked := picked + [hosts[i]];
        }
      }
      assert hosts[..|hosts|] == hosts;
    }

    // ---------------------------------------------------------------- placements

    /** The least port of the range that no placement on the node uses, if there is one. */
    method NextSshPort(node: NodeName, first: nat, last: nat) returns (port: Option<nat>)
      ensures port.Some? ==> first <= port.value <= last
      ensures port.Some? ==> forall site :: site in placements && site.node == node ==> placements[site].port != port.value
      ensures port.Some? ==> forall p: nat :: first <= p < port.value ==> PortTaken(Value(), node, p)
      ensures port.None? ==> forall p: nat :: first <= p <= last ==> PortTaken(Value(), node, p)
      ensures forall p: nat :: PortTaken(Value(), node, p) <==> exists site :: site in placements && site.node == node && placements[site].port == p
    {
      var p := first;
      while p <= last
        invariant first <= p
        invariant forall q: nat :: first <= q < p ==> PortTaken(Value(), node, q)
        decreases last + 1 - p
      {
        if !(exists site :: site in placements && site.node == node && placements[site].port == p) {
          return Some(p);
        }
        p := p + 1;
      }
      return None;
    }

    method GrantPlacement(site: Site, request: Request) returns (ok: bool, ghost roster: seq<StudentId>)
      requires Good(Value())
      modifies this
      ensures site.lab in old(labs) ==> Listing(roster, old(labs)[site.lab].members)
      ensures Done(Value(), ok) == CreatePlacement(old(Value()), site, request, roster)
      ensures Good(Value())
      // granted exactly when the request is valid, the node fits, and neither the pair nor the port is taken
      ensures ok <==> Grantable(old(Value()), site, request)
      ensures !ok ==> Value() == old(Value())
      ensures ok ==> placements == old(placements)[site := Placement(Provisioning, request.port, old(labs)[site.lab].members)]
      ensures ok ==> TaskId(old(next)) in tasks && tasks[TaskId(old(next))] == Task(site.node, site.lab, LabCreate, Open)
    {
      var listed := ListRows(if site.lab in labs then labs[site.lab].members else {});
      roster := listed;
      CreatePlacementKeeps(Value(), site, request, roster);
      GrantedIffGrantable(Value(), site, request, roster);
      if Grantable(Value(), site, request) {
        GoodHasFreshIds(Value());
        CreatedPlacementIs(Value(), site, request, roster);
      }
      hide Good, ProvisionRoster, Grantable;
      if site.node !in nodes || !request.valid || !MayHost(Value(), site, request) {
        return false, roster;
      }
      if site.lab !in labs || site in placements || PortTaken(Value(), site.node, request.port) {
        return false, roster;
      }
      placements := placements[site := Placement(Provisioning, request.port, {})];
      EnqueueTask(site.node, site.lab, LabCreate);
      ghost var start := Value();
      for i := 0 to |listed|
        invariant Value() == ProvisionRoster(start, site, listed[..i])
        invariant site in placements
      {
        assert listed[..i + 1][..i] == listed[..i];
        ProvisionMember(site, listed[i]);
      }
      assert listed[..|listed|] == listed;
      return true, roster;
    }

    method SetPhase(site: Site, phase: Phase)
      modifies this`placements
      ensures Value() == WithPhase(old(Value()), site, phase)
      ensures placements == if site in old(placements) then old(placements)[site := old(placements)[site].(phase := phase)] else old(placements)
    {
      if site in placements {
        placements := placements[site := placements[site].(phase := phase)];
      }
    }

    method RevokePlacement(site: Site) returns (ok: bool)
      modifies this`placements, this`tasks, this`next
      ensures Done(Value(), ok) == DestroyPlacement(old(Value()), site)
      // refused exactly while live clients mount its cold storage, and then nothing changes
      ensures !ok <==> site in old(placements) && Blocked(old(Value()), site)
      ensures if ok then !Alive(Value(), site) else Value() == old(Value())
      // otherwise the placement is marked and its node told; without a placement there is nothing to do
      ensures ok && site in old(placements) ==>
                && placements == old(placements)[site := old(placements)[site].(phase := Deleting)]
                && tasks == old(tasks)[TaskId(old(next)) := Task(site.node, site.lab, LabDestroy, Open)]
      ensures site !in old(placements) ==> Value() == old(Value())
      ensures OwnersAreLocal(old(Value())) && OwnersOutlive(old(Value())) ==> OwnersOutlive(Value())
    {
      ghost var before := Value();
      if OwnersAreLocal(before) && OwnersOutlive(before) {
        DestroyPlacementOwners(before, site);
      }
      hide OwnersOutlive, OwnersAreLocal, Blocked;
      if site !in placements {
        return true;
      }
      if Blocked(Value(), site) {
        return false;
      }
      SetPhase(site, Deleting);
      EnqueueTask(site.node, site.lab, LabDestroy);
      return true;
    }

    method PurgePlacement(site: Site) returns (ok: bool)
      modifies this`placements, this`tasks, this`next
      ensures Done(Value(), ok) == ForceDelete(old(Value()), site)
      // only a placement on an offline node that no live client depends on goes, and it goes at once
      ensures !ok <==> site in old(placements) && ((site.node in nodes && nodes[site.node].online) || Blocked(old(Value()), site))
      ensures if ok then site !in placements else Value() == old(Value())
      ensures ok && site in old(placements) ==>
                && placements == old(placements) - {site}
                && tasks == old(tasks)[TaskId(old(next)) := Task(site.node, site.lab, LabDestroy, Open)]
      ensures site !in old(placements) ==> Value() == old(Value())
      ensures OwnersAreLocal(old(Value())) && OwnersOutlive(old(Value())) ==> OwnersOutlive(Value())
    {
      ghost var before := Value();
      if OwnersAreLocal(before) && OwnersOutlive(before) {
        DestroyPlacementOwners(before, site);
      }
      hide OwnersOutlive, OwnersAreLocal, Blocked;
      if site !in placements {
        return true;
      }
      if (site.node in nodes && nodes[site.node].online) || Blocked(Value(), site) {
        return false;
      }
      EnqueueTask(site.node, site.lab, LabDestroy);
      placements := placements - {site};
      return true;
    }

    method RetryPlacement(site: Site) returns (ok: bool)
      modifies this`placements, this`tasks, this`next
      ensures Done(Value(), ok) == LabState.Retry(old(Value()), site)
      ensures ok <==> site in old(placements) && old(placements)[site].phase.Failed?
      ensures ok ==> placements == old(placements)[site := old(placements)[site].(phase := Provisioning)]
                     && tasks == old(tasks)[TaskId(old(next)) := Task(site.node, site.lab, LabCreate, Open)]
      ensures !ok ==> Value() == old(Value())
      ensures OwnersOutlive(old(Value())) ==> OwnersOutlive(Value())
    {
      ghost var before := Value();
      if OwnersOutlive(before) {
        RetryOwners(before, site);
      }
      hide OwnersOutlive;
      if site !in placements || !placements[site].phase.Failed? {
        return false;
      }
      SetPhase(site, Provisioning);
      EnqueueTask(site.node, site.lab, LabCreate);
      return true;
    }

    // ---------------------------------------------------------------- deleting a lab

    method TearDownHosts(lab: LabName, force: bool, order: seq<NodeName>) returns (ok: bool, started: nat)
      modifies this`placements, this`tasks, this`next
      ensures Torn(Value(), ok, started) == TearDown(old(Value()), lab, force, order)
    {
      ok, started := true, 0;
      for i := 0 to |order|
        invariant Torn(Value(), ok, started) == TearDown(old(Value()), lab, force, order[..i])
      {
        assert order[..i + 1][..i] == order[..i];
        if ok {
          if force && !(order[i] in nodes && nodes[order[i]].online) {
            ok := PurgePlacement(Site(lab, order[i]));
          } else {
            ok := RevokePlacement(Site(lab, order[i]));
            started := if ok then started + 1 else started;
          }
        }
      }
      assert order[..|order|] == order;
    }

    method DropOrphanRows(roster: seq<StudentId>) returns (ok: bool)
      modifies this`students, this`labs, this`placements
      ensures Done(Value(), ok) == DropOrphans(old(Value()), roster)
    {
      ok := true;
      for i := 0 to |roster|
        invariant Done(Value(), ok) == DropOrphans(old(Value()), roster[..i])
      {
        assert roster[..i + 1][..i] == roster[..i];
        if ok && !Enrolled(Value(), roster[i]) {
          if Restricted(Value(), roster[i]) {
            ok := false;
          } else {
            students := students - {roster[i]};
            labs := map lab | lab in labs :: labs[lab].(members := labs[lab].members - {roster[i]});
            placements := map site | site in placements :: placements[site].(members := placements[site].members - {roster[i]});
          }
        }
      }
      assert roster[..|roster|] == roster;
    }

    /** Deleting a lab: it never throws, and tears down every placement of the lab. */
    method DeleteLab(lab: LabName, force: bool) returns (ok: bool, deleted: bool, ghost hosts: seq<NodeName>, ghost roster: seq<StudentId>)
      requires Good(Value())
      modifies this
      ensures Listing(hosts, HostsOf(old(Value()), lab))
      ensures lab in old(labs) ==> Listing(roster, old(labs)[lab].members)
      ensures Done(Value(), ok) == DestroyLab(old(Value()), lab, force, hosts, roster)
      ensures ok && Good(Value()) && (deleted ==> lab !in labs)
      ensures lab in old(labs) ==> forall node :: !Alive(Value(), Site(lab, node))
      // it goes at once exactly when each of its nodes is purged, and with it the students of no other lab
      ensures lab in old(labs) ==> (deleted <==> forall node :: Site(lab, node) in old(placements) ==>
                                                   force && !(node in old(nodes) && old(nodes)[node].online))
      ensures lab in old(labs) && deleted ==> labs == old(labs) - {lab}
      ensures lab in old(labs) && deleted ==> Orphaned(old(Value()), students, lab)
      ensures lab in old(labs) && !deleted ==> students == old(students) && labs == old(labs)
      ensures lab !in old(labs) ==> Value() == old(Value()) && !deleted
    {
      hide Good, TearDown, DropOrphans, OnBackend, HostsOf, Listing, Purged;
      var listed := ListHosts(lab);
      var members := ListRows(if lab in labs then labs[lab].members else {});
      hosts, roster := listed, members;
      if lab !in labs {
        return true, false, hosts, roster;
      }
      DestroyLabTearsDownEverything(Value(), lab, force, hosts, roster);
      DestroyLabDropsOrphans(Value(), lab, force, hosts, roster);
      AllPurged(Value(), lab, force, hosts);
      hide Orphaned, DestroyLab;
      var clients := ListBackend(listed, Smb);
      var owners := ListBackend(listed, LocalZfs);
      var torn, started := TearDownHosts(lab, force, clients + owners);
      if !torn || started > 0 {
        return torn, false, hosts, roster;
      }
      labs := labs - {lab};
      placements := map site | site in placements && site.lab != lab :: placements[site];
      ok := DropOrphanRows(members);
      deleted := ok && lab !in labs;
    }

    // ---------------------------------------------------------------- results

    method CompleteStudentRemoval(task: Task)
      requires task.kind.AccountRemove?
      modifies this`tasks, this`next
      ensures Value() == CompleteRemoval(old(Value()), task)
      // one cleanup on each of the removal's nodes that has none, once every part of the removal succeeded
      ensures CleanedUp(old(Value()), Value(), task)
    {
      hide CleanedUp;
      CompletionCleansUp(Value(), task);
      if task.kind.removal.None? || !RemovalComplete(Value(), task.kind.removal.value.id) {
        return;
      }
      var removal := task.kind.removal.value;
      for i := 0 to |removal.nodes|
        invariant Value() == CleanUp(old(Value()), task, removal.nodes[..i])
      {
        assert removal.nodes[..i + 1][..i] == removal.nodes[..i];
        if !CleanupQueued(Value(), removal.nodes[i], removal.id) {
          EnqueueTask(removal.nodes[i], task.lab, ColdDelete(task.kind.student, removal.id));
        }
      }
      assert removal.nodes[..|removal.nodes|] == removal.nodes;
    }

    method HandleTaskResult(id: TaskId, succeeded: bool, named: Option<LabName>) returns (changed: bool)
      modifies this
      ensures changed == (id in old(tasks) && old(tasks)[id].progress.Open?)
      ensures Value() == HandleResult(old(Value()), id, succeeded, named)
      ensures !changed ==> Value() == old(Value())
      ensures changed ==>
                var task := old(tasks)[id];
                Answered(old(placements), placements, task.kind, succeeded, Site(if named.Some? then named.value else task.lab, task.node))
      ensures labs == old(labs) && nodes == old(nodes) && students == old(students)
      ensures changed && Good(old(Value())) ==> id in tasks && tasks[id] == old(tasks)[id].(progress := if succeeded then Succeeded else Failing)
      ensures Good(old(Value())) ==> Good(Value())
      // owners outlive their clients unless the result is stale; cleanups stay counted unless it is suppressed
      ensures Good(old(Value())) && OwnersOutlive(old(Value())) ==>
                (OwnersOutlive(Value()) <==> !Stale(old(Value()), id, succeeded, named))
      ensures Good(old(Value())) && ColdOnce(old(Value())) ==>
                (ColdOnce(Value()) <==> !Suppressed(old(Value()), id, succeeded, named))
    {
      hide Good, OwnersOutlive, ColdOnce, Stale, Suppressed, Effect, CompleteRemoval, Answered;
      ghost var before := Value();
      if Good(before) {
        ResultKeepsWhatItMust(before, id, succeeded, named);
        hide HandleResult;
      }
      changed := id in tasks && tasks[id].progress.Open?;
      if !changed {
        return;
      }
      var task := tasks[id].(progress := if succeeded then Succeeded else Failing);
      tasks := tasks[id := task];
      ghost var recorded := Value();
      ApplyEffect(task, succeeded, named);
      if Good(before) {
        IdsAreFresh(before, id);
        EffectKeepsTask(recorded, id, task, succeeded, named);
      }
    }

    method ApplyEffect(task: Task, succeeded: bool, named: Option<LabName>)
      modifies this
      ensures Value() == Effect(old(Value()), task, succeeded, named)
      ensures labs == old(labs) && nodes == old(nodes) && students == old(students)
      ensures Answered(old(placements), placements, task.kind, succeeded, Site(if named.Some? then named.value else task.lab, task.node))
    {
      var site := ResultSite(task, named);
      if site.lab == "" {
        return;
      }
      match task.kind {
        case LabCreate => SetPhase(site, if succeeded then Active else Failed);
        case LabDestroy =>
          if !succeeded {
            SetPhase(site, Deleting);
          } else if site in placements && placements[site].phase.Deleting? {
            placements := placements - {site};
          }
        case AccountRemove(_, _) =>
          if succeeded {
            CompleteStudentRemoval(task);
          }
        case _ =>
      }
    }

    // ---------------------------------------------------------------- nodes

    method SetNodeColdStorage(node: NodeName, backend: Backend, owner: Option<NodeName>) returns (ok: bool)
      modifies this`nodes
      ensures Done(Value(), ok) == SetColdStorage(old(Value()), node, backend, owner)
      ensures Good(old(Value())) ==> Good(Value())
      // an SMB node mounts another, local node; no placement exists whose storage could change
      ensures ok <==>
                && node in old(nodes) && (forall site :: site in placements ==> site.node != node)
                && (backend.Smb? ==>
                      && owner.Some? && owner.value in old(nodes) && owner.value != node && old(nodes)[owner.value].backend.LocalZfs?
                      && (forall n :: n in old(nodes) ==> old(nodes)[n].owner != Some(node)))
      ensures nodes == if ok then old(nodes)[node := old(nodes)[node].(backend := backend, owner := if backend.Smb? then owner else None)]
                       else old(nodes)
      ensures Good(old(Value())) && OwnersOutlive(old(Value())) ==> OwnersOutlive(Value())
    {
      ghost var before := Value();
      if Good(before) {
        SetColdStorageKeeps(before, node, backend, owner);
      }
      hide Good, OwnersOutlive;
      if node !in nodes || Hosting(Value(), node) {
        return false;
      }
      var ownerNode := None;
      if backend.Smb? {
        if owner.None? || owner.value !in nodes || owner.value == node || !nodes[owner.value].backend.LocalZfs? {
          return false;
        }
        if Owning(Value(), node) {
          return false;
        }
        ownerNode := owner;
      }
      nodes := nodes[node := nodes[node].(backend := backend, owner := ownerNode)];
      return true;
    }

    method RemoveNode(node: NodeName, force: bool) returns (ok: bool)
      modifies this`nodes, this`placements, this`tasks
      ensures Done(Value(), ok) == DeleteNode(old(Value()), node, force)
      // a busy node goes only by force, and by force only while it is offline
      ensures ok <==> (node in old(nodes)
                       && if force then !old(nodes)[node].online
                          else (forall site :: site in old(placements) ==> site.node != node)
                               && (forall n :: n in old(nodes) ==> old(nodes)[n].owner != Some(node)))
      ensures !ok ==> Value() == old(Value())
      // with it go its placements and its task rows, and no others
      ensures ok ==> (forall n :: n in nodes <==> n in old(nodes) && n != node)
      ensures ok ==> (forall site :: site in placements <==> site in old(placements) && site.node != node)
      ensures ok ==> (forall id :: id in tasks <==> id in old(tasks) && old(tasks)[id].node != node)
      // its clients lose their owner and must be provisioned anew
      ensures ok ==> (forall n :: n in nodes ==> nodes[n].owner != Some(node)
                                                 && (old(nodes)[n].owner == Some(node) ==> nodes[n].owner.None? && !nodes[n].ready))
      ensures Good(old(Value())) ==> Good(Value())
      ensures OwnersOutlive(old(Value())) ==> OwnersOutlive(Value())
    {
      ghost var before := Value();
      if Good(before) {
        DeleteNodeKeepsGood(before, node, force);
      }
      if OwnersOutlive(before) {
        DeleteNodeOwners(before, node, force);
      }
      hide Good, OwnersOutlive;
      if node !in nodes || (force && nodes[node].online) {
        return false;
      }
      if !force && (Hosting(Value(), node) || Owning(Value(), node)) {
        return false;
      }
      DeleteNodeRows(node, force);
      return true;
    }

    method DeleteNodeRows(node: NodeName, force: bool)
      requires node in nodes && !(force && nodes[node].online)
      requires !force ==> !Hosting(Value(), node) && !Owning(Value(), node)
      modifies this`nodes, this`placements, this`tasks
      ensures Done(Value(), true) == DeleteNode(old(Value()), node, force)
    {
      hide DeleteNode, Hosting, Owning;
      ghost var before := Value();
      if force {
        DetachNode(node);
      }
      DropNodeRow(node);
      SameAfterDeletion(before, Value(), node, force);
    }

    /** The node's row goes, and its task rows with it. */
    method DropNodeRow(node: NodeName)
      modifies this`nodes, this`tasks
      ensures tasks == map id | id in old(tasks) && old(tasks)[id].node != node :: old(tasks)[id]
      ensures nodes == map n | n in old(nodes) && n != node :: old(nodes)[n]
    {
      tasks := map id | id in tasks && tasks[id].node != node :: tasks[id];
      nodes := map n | n in nodes && n != node :: nodes[n];
    }

    /** Purge the node's placements, and leave its SMB clients without an owner. */
    method DetachNode(node: NodeName)
      modifies this`nodes, this`placements
      ensures placements == map site | site in old(placements) && site.node != node :: old(placements)[site]
      ensures forall n :: n in nodes <==> n in old(nodes)
      ensures forall n :: n in nodes ==>
        nodes[n] == if old(nodes)[n].owner == Some(node) then old(nodes)[n].(owner := None, ready := false) else old(nodes)[n]
    {
      placements := map site | site in placements && site.node != node :: placements[site];
      nodes := map n | n in nodes :: if nodes[n].owner == Some(node) then nodes[n].(owner := None, ready := false) else nodes[n];
    }
  }

  lemma GoodHasFreshIds(s: State)
    requires Good(s)
    ensures FreshIds(s)
  {
  }

  lemma GoodIsUnique(s: State)
    requires Good(s)
    ensures Unique(s.students)
  {
  }

  lemma LabIsSound(s: State, lab: LabName)
    requires Good(s) && lab in s.labs
    ensures RosterImport.Sound(RosterImport.Roster(s.students, s.labs[lab], s.nextStudent))
  {
    assert LabSound(s.labs[lab], s.students);
  }

  lemma IdsAreFresh(s: State, id: TaskId)
    requires Good(s) && id in s.tasks
    ensures id.n < s.next
  {
  }

  lemma ResultKeepsWhatItMust(s: State, id: TaskId, ok: bool, named: Option<LabName>)
    requires Good(s)
    ensures Good(HandleResult(s, id, ok, named))
    ensures OwnersOutlive(s) ==> (OwnersOutlive(HandleResult(s, id, ok, named)) <==> !Stale(s, id, ok, named))
    ensures ColdOnce(s) ==> (ColdOnce(HandleResult(s, id, ok, named)) <==> !Suppressed(s, id, ok, named))
  {
    GoodIsFresh(s);
    hide Good, FreshIds, OwnersOutlive, ColdOnce, Stale, Suppressed, HandleResult;
    HandleResultKeepsGood(s, id, ok, named);
    if OwnersOutlive(s) {
      ResultKeepsOwnersIffNotStale(s, id, ok, named);
    }
    if ColdOnce(s) {
      HandleResultKeepsColdIffNotSuppressed(s, id, ok, named);
    }
  }

  /** No effect touches a task that exists already. */
  lemma EffectKeepsTask(s: State, id: TaskId, task: Task, ok: bool, named: Option<LabName>)
    requires id in s.tasks && id.n < s.next
    ensures id in Effect(s, task, ok, named).tasks && Effect(s, task, ok, named).tasks[id] == s.tasks[id]
  {
    if task.kind.AccountRemove? && task.kind.removal.Some? {
      CleanUpKeepsTask(s, id, task, task.kind.removal.value.nodes);
    }
  }

  lemma {:induction false} CleanUpKeepsTask(s: State, id: TaskId, task: Task, nodes: seq<NodeName>)
    requires id in s.tasks && id.n < s.next && task.kind.AccountRemove? && task.kind.removal.Some?
    ensures var t := CleanUp(s, task, nodes); s.next <= t.next && id in t.tasks && t.tasks[id] == s.tasks[id]
    decreases |nodes|
  {
    if nodes != [] {
      CleanUpKeepsTask(s, id, task, nodes[..|nodes| - 1]);
    }
  }

  lemma JoinedAlready(labs: map<LabName, Lab>, lab: LabName, pi: StudentId)
    requires lab in labs && pi in labs[lab].members
    ensures labs[lab].members + {pi} == labs[lab].members
  {
  }

  lemma HostsPlaced(s: State, lab: LabName, hosts: seq<NodeName>)
    requires Elements(hosts) == HostsOf(s, lab)
    ensures forall i :: 0 <= i < |hosts| ==> Site(lab, hosts[i]) in s.placements
  {
    forall i | 0 <= i < |hosts|
      ensures Site(lab, hosts[i]) in s.placements
    {
      assert hosts[i] in Elements(hosts);
      var site :| site in s.placements && site.lab == lab && site.node == hosts[i];
      assert site == Site(lab, hosts[i]);
    }
  }

  lemma SameAfterDeletion(s: State, t: State, node: NodeName, force: bool)
    requires node in s.nodes && (!force ==> !Hosting(s, node) && !Owning(s, node)) && !(force && s.nodes[node].online)
    requires t == s.(nodes := t.nodes, placements := t.placements, tasks := t.tasks)
    requires t.tasks == map id | id in s.tasks && s.tasks[id].node != node :: s.tasks[id]
    requires t.placements == if force then map site | site in s.placements && site.node != node :: s.placements[site] else s.placements
    requires forall n :: n in t.nodes <==> n in s.nodes && n != node
    requires forall n :: n in t.nodes ==>
      t.nodes[n] == if force && s.nodes[n].owner == Some(node) then s.nodes[n].(owner := None, ready := false) else s.nodes[n]
    ensures Done(t, true) == DeleteNode(s, node, force)
  {
    var u := DeleteNode(s, node, force).state;
    assert t.nodes == u.nodes;
    assert t.placements == u.placements;
  }
}
