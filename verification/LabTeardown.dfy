/**
 * Placements and nodes: what tearing down keeps, why deleting a lab never throws, why deleting its
 * orphaned students never meets the PI's foreign key, and when an owner outlives its SMB clients.
 */
module LabTeardown {
  import opened Prelude
  import opened RosterPlan
  import RosterImport
  import opened LabState
  import opened LabInvariants

  // ------------------------------------------------------------------ small changes

  lemma EnqueueKeepsGood(s: State, node: NodeName, lab: LabName, kind: Kind)
    requires Good(s)
    ensures Good(Enqueue(s, node, lab, kind))
  {
    assert Enqueue(s, node, lab, kind).placements == s.placements;
  }

  lemma WithPhaseKeepsGood(s: State, site: Site, phase: Phase)
    requires Good(s)
    ensures Good(WithPhase(s, site, phase))
  {
    hide LabSound, Unique, RosterImport.Numbered;
  }

  lemma WithoutPlacementKeepsGood(s: State, site: Site)
    requires Good(s)
    ensures Good(WithoutPlacement(s, site))
  {
    hide LabSound, Unique, RosterImport.Numbered;
  }

  lemma CreateLabKeeps(s: State, lab: LabName, valid: bool, piName: Option<string>, piEmail: Option<string>)
    requires Good(s)
    ensures Good(CreateLab(s, lab, valid, piName, piEmail).state)
    ensures Undisturbed(s, CreateLab(s, lab, valid, piName, piEmail).state)
  {
    hide Unique, RosterImport.Numbered;
  }

  /** A placement is born with the whole roster, which makes it agree with its lab. */
  lemma CreatePlacementKeeps(s: State, site: Site, request: Request, roster: seq<StudentId>)
    requires Good(s) && (site.lab in s.labs ==> Listing(roster, s.labs[site.lab].members))
    ensures Good(CreatePlacement(s, site, request, roster).state)
  {
    var d := CreatePlacement(s, site, request, roster);
    if d.ok {
      var born := s.(placements := s.placements[site := Placement(Provisioning, request.port, {})]);
      var t := Enqueue(born, site.node, site.lab, LabCreate);
      assert FreshIds(t);
      hide LabSound, Unique, RosterImport.Numbered;
      ProvisionRosterEnrolls(t, site, roster);
      assert {} + Elements(roster) == s.labs[site.lab].members;
      BornIsSynced(s, t, d.state, site, Elements(roster));
    }
  }

  /** What a placement needs: a valid request, a node that fits, and a free place and port. */
  ghost predicate Grantable(s: State, site: Site, request: Request) {
    && request.valid && site.lab in s.labs && site.node in s.nodes && site !in s.placements
    && (forall other :: other in s.placements && other.node == site.node ==> s.placements[other].port != request.port)
    && Suitable(s, site, request)
  }

  /**
   * A local node needs a cold quota. An SMB node needs a live mount, the owner's placement of the same
   * lab active, and the same mapping of user ids as its owner.
   */
  ghost predicate Suitable(s: State, site: Site, request: Request)
    requires site.node in s.nodes
  {
    match s.nodes[site.node]
    case Node(LocalZfs, _, _, _, _) => request.coldQuota.Some?
    case Node(Smb, None, _, _, _) => false
    case Node(Smb, Some(owner), ready, _, mapping) =>
      && ready && mapping.Some? && owner in s.nodes && s.nodes[owner].mapping == mapping
      && Site(site.lab, owner) in s.placements && s.placements[Site(site.lab, owner)].phase == Active
  }

  lemma GrantedIffGrantable(s: State, site: Site, request: Request, roster: seq<StudentId>)
    ensures CreatePlacement(s, site, request, roster).ok <==> Grantable(s, site, request)
    ensures !Grantable(s, site, request) ==> CreatePlacement(s, site, request, roster).state == s
  {
    hide ProvisionRoster;
  }

  /** A granted placement starts provisioning with the whole roster, and its node is told to create the lab. */
  lemma CreatedPlacementIs(s: State, site: Site, request: Request, roster: seq<StudentId>)
    requires FreshIds(s) && Grantable(s, site, request) && Listing(roster, s.labs[site.lab].members)
    ensures
      var t := CreatePlacement(s, site, request, roster).state;
      && t.placements == s.placements[site := Placement(Provisioning, request.port, s.labs[site.lab].members)]
      && TaskId(s.next) in t.tasks && t.tasks[TaskId(s.next)] == Task(site.node, site.lab, LabCreate, Open)
  {
    GrantedIffGrantable(s, site, request, roster);
    var born := s.(placements := s.placements[site := Placement(Provisioning, request.port, {})]);
    var t := Enqueue(born, site.node, site.lab, LabCreate);
    assert FreshIds(t);
    hide Grantable, FreshIds, ProvisionRoster, MayHost, PortTaken;
    ProvisionRosterEnrolls(t, site, roster);
    ProvisionRosterKeepsPort(t, site, roster, site);
    assert {} + Elements(roster) == s.labs[site.lab].members;
    BornWith(s, t, ProvisionRoster(t, site, roster), site, s.labs[site.lab].members, request.port);
    assert t.tasks[TaskId(s.next)] == Task(site.node, site.lab, LabCreate, Open);
  }

  lemma BornWith(s: State, t: State, u: State, site: Site, members: set<StudentId>, port: nat)
    requires t.placements == s.placements[site := Placement(Provisioning, port, {})] && Enrolls(t, u, site.lab, {site.node}, members)
    requires site in u.placements && u.placements[site].port == port && {} + members == members
    ensures u.placements == s.placements[site := Placement(Provisioning, port, members)]
  {
    hide Grows;
    forall other | other in t.placements && other != site
      ensures u.placements[other] == s.placements[other]
    {
      assert !(other.lab == site.lab && other.node in {site.node});
    }
  }

  lemma {:induction false} ProvisionRosterKeepsPort(s: State, site: Site, roster: seq<StudentId>, other: Site)
    requires other in s.placements
    ensures var t := ProvisionRoster(s, site, roster); other in t.placements && t.placements[other].port == s.placements[other].port
    decreases |roster|
  {
    if roster != [] {
      ProvisionRosterKeepsPort(s, site, roster[..|roster| - 1], other);
    }
  }

  lemma BornIsSynced(s: State, t: State, u: State, site: Site, members: set<StudentId>)
    requires Synced(s) && site.lab in s.labs && site.node in s.nodes && site !in s.placements
    requires t.labs == s.labs && t.students == s.students && t.nodes == s.nodes
    requires site in t.placements && t.placements[site].members == {} && t.placements.Keys == s.placements.Keys + {site}
    requires forall other :: other in s.placements ==> t.placements[other] == s.placements[other]
    requires Enrolls(t, u, site.lab, {site.node}, members) && members == s.labs[site.lab].members
    ensures Synced(u)
  {
    hide LabSound, Grows;
    assert {} + members == members;
    forall other | other in u.placements
      ensures other.lab in u.labs && other.node in u.nodes && u.placements[other].members == u.labs[other.lab].members
    {
      if other != site {
        assert other in s.placements;
      }
    }
  }

  // ------------------------------------------------------------------ tearing down a lab

  /** A placement that is not being torn down. */
  predicate Alive(s: State, site: Site) {
    site in s.placements && !s.placements[site].phase.Deleting?
  }

  /** Whether a node of the lab is purged at once instead of being told to tear down. */
  predicate Purged(s: State, force: bool, node: NodeName) {
    force && !(node in s.nodes && s.nodes[node].online)
  }

  /** The listed nodes of the lab are torn down or purged, and nothing else was touched. */
  ghost predicate TornDown(s: State, t: State, lab: LabName, force: bool, nodes: seq<NodeName>) {
    && t == s.(placements := t.placements, tasks := t.tasks, next := t.next)
    && (forall site :: site in t.placements ==> site in s.placements)
    && (forall site :: site in s.placements && site.lab == lab && site.node in nodes ==>
          (if Purged(s, force, site.node) then site !in t.placements
           else site in t.placements && t.placements[site] == s.placements[site].(phase := Deleting)))
    && (forall site :: site in s.placements && !(site.lab == lab && site.node in nodes) ==>
          site in t.placements && t.placements[site] == s.placements[site])
  }

  lemma DestroyOneTears(s: State, t: State, lab: LabName, force: bool, nodes: seq<NodeName>, node: NodeName)
    requires TornDown(s, t, lab, force, nodes) && node !in nodes && Site(lab, node) in s.placements
    requires !Blocked(t, Site(lab, node))
    ensures TearDownOne(Torn(t, true, 0), lab, force, node).ok
    ensures TornDown(s, TearDownOne(Torn(t, true, 0), lab, force, node).state, lab, force, nodes + [node])
    ensures TearDownOne(Torn(t, true, 0), lab, force, node).started == (if Purged(s, force, node) then 0 else 1)
  {
    assert Site(lab, node) in t.placements;
  }

  /** Every SMB host of the lab comes before its local ones. */
  ghost predicate ClientsFirst(s: State, lab: LabName, order: seq<NodeName>) {
    && Distinct(order) && Elements(order) == HostsOf(s, lab)
    && forall i, n :: 0 <= i < |order| && n in HostsOf(s, lab) && On(s, n, Smb) && On(s, order[i], LocalZfs) ==> n in order[..i]
  }

  predicate On(s: State, node: NodeName, backend: Backend) {
    node in s.nodes && s.nodes[node].backend == backend
  }

  /** In this order nothing blocks: a live client of the next node would be a host torn down before it. */
  lemma NeverBlocked(s: State, t: State, lab: LabName, force: bool, order: seq<NodeName>, k: nat)
    requires OwnersAreLocal(s) && ClientsFirst(s, lab, order) && k < |order|
    requires TornDown(s, t, lab, force, order[..k])
    ensures !Blocked(t, Site(lab, order[k]))
  {
    var site := Site(lab, order[k]);
    forall node | node in s.nodes && s.nodes[node].owner == Some(site.node) && On(s, site.node, LocalZfs)
      ensures !Alive(t, Site(lab, node))
    {
      if Site(lab, node) in s.placements {
        assert node in HostsOf(s, lab) && On(s, node, Smb);
        assert node in order[..k];
      }
    }
  }

  lemma {:induction false} TearDownTears(s: State, lab: LabName, force: bool, order: seq<NodeName>, k: nat)
    requires OwnersAreLocal(s) && ClientsFirst(s, lab, order) && k <= |order|
    ensures
      var torn := TearDown(s, lab, force, order[..k]);
      && torn.ok && TornDown(s, torn.state, lab, force, order[..k])
      && (torn.started == 0 <==> forall i :: 0 <= i < k ==> Purged(s, force, order[i]))
    decreases k
  {
    if k > 0 {
      var prefix := order[..k - 1];
      assert order[..k][..k - 1] == prefix && order[..k] == prefix + [order[k - 1]];
      TearDownTears(s, lab, force, order, k - 1);
      var torn := TearDown(s, lab, force, prefix);
      NeverBlocked(s, torn.state, lab, force, order, k - 1);
      HostIsPlaced(s, lab, order, k - 1);
      DestroyOneTears(s, torn.state, lab, force, prefix, order[k - 1]);
      hide TornDown, ClientsFirst;
      StartedAddsUp(torn, lab, force, order[k - 1]);
    }
  }

  lemma StartedAddsUp(torn: Torn, lab: LabName, force: bool, node: NodeName)
    requires torn.ok
    ensures
      var one := TearDownOne(Torn(torn.state, true, 0), lab, force, node);
      TearDownOne(torn, lab, force, node) == Torn(one.state, one.ok, torn.started + one.started)
  {
  }

  lemma HostIsPlaced(s: State, lab: LabName, order: seq<NodeName>, k: nat)
    requires ClientsFirst(s, lab, order) && k < |order|
    ensures Site(lab, order[k]) in s.placements && order[k] !in order[..k]
  {
    assert order[k] in Elements(order);
    var site :| site in s.placements && site.lab == lab && site.node == order[k];
    assert site == Site(lab, order[k]);
  }

  lemma DistinctConcat<T>(a: seq<T>, b: seq<T>)
    requires Distinct(a) && Distinct(b) && forall x :: x in a ==> x !in b
    ensures Distinct(a + b)
  {
    forall i, j | 0 <= i < j < |a + b|
      ensures (a + b)[i] != (a + b)[j]
    {
      assert i < |a| <= j ==> a[i] in a && b[j - |a|] in b;
    }
  }

  lemma {:induction false} OnBackendPicks(s: State, hosts: seq<NodeName>, backend: Backend)
    ensures forall n :: n in OnBackend(s, hosts, backend) <==> n in hosts && On(s, n, backend)
    ensures Distinct(hosts) ==> Distinct(OnBackend(s, hosts, backend))
    decreases |hosts|
  {
    if hosts != [] {
      var n := |hosts| - 1;
      assert hosts == hosts[..n] + [hosts[n]];
      OnBackendPicks(s, hosts[..n], backend);
      if Distinct(hosts) && On(s, hosts[n], backend) {
        assert hosts[n] !in hosts[..n];
        DistinctConcat(OnBackend(s, hosts[..n], backend), [hosts[n]]);
      }
    }
  }

  /** The order in which a lab is torn down covers its hosts, clients first. */
  lemma TearDownOrderIsClientsFirst(s: State, lab: LabName, hosts: seq<NodeName>)
    requires Synced(s) && Listing(hosts, HostsOf(s, lab))
    ensures ClientsFirst(s, lab, TearDownOrder(s, hosts))
    ensures forall n :: n in TearDownOrder(s, hosts) <==> n in hosts
  {
    var clients, owners := OnBackend(s, hosts, Smb), OnBackend(s, hosts, LocalZfs);
    var order := TearDownOrder(s, hosts);
    OnBackendPicks(s, hosts, Smb);
    OnBackendPicks(s, hosts, LocalZfs);
    forall n
      ensures n in order <==> n in hosts
    {
      if n in hosts {
        assert n in HostsOf(s, lab);
      }
    }
    DistinctConcat(clients, owners);
    assert Elements(order) == HostsOf(s, lab);
    assert forall k :: 0 <= k < |clients| ==> order[k] == clients[k] && clients[k] in clients;
    forall i, n | 0 <= i < |order| && n in HostsOf(s, lab) && On(s, n, Smb) && On(s, order[i], LocalZfs)
      ensures n in order[..i]
    {
      assert n in hosts && n in clients;
      assert order[..i][..|clients|] == clients;
    }
  }

  // ------------------------------------------------------------------ orphans

  lemma DropLabKeeps(s: State, lab: LabName)
    requires Good(s)
    ensures Good(DropLab(s, lab))
  {
    hide LabSound, Unique, RosterImport.Numbered;
  }

  /** Rosters agree with foreign keys: a student on no roster is no lab's PI, and has no account. */
  lemma OrphansAreFree(s: State, student: StudentId)
    requires Synced(s) && !Enrolled(s, student)
    ensures !Restricted(s, student)
    ensures DropStudent(s, student).labs == s.labs && DropStudent(s, student).placements == s.placements
  {
    forall lab | lab in s.labs
      ensures s.labs[lab].pi != Some(student) && s.labs[lab].members - {student} == s.labs[lab].members
    {
      assert LabSound(s.labs[lab], s.students);
    }
    forall site | site in s.placements
      ensures s.placements[site].members - {student} == s.placements[site].members
    {
      assert s.placements[site].members == s.labs[site.lab].members;
    }
  }

  lemma DropStudentKeeps(s: State, student: StudentId)
    requires Good(s) && !Enrolled(s, student)
    ensures Good(DropStudent(s, student))
  {
    var t := DropStudent(s, student);
    OrphansAreFree(s, student);
    hide DropStudent;
    assert t == s.(students := s.students - {student}) by {
      DropStudentIs(s, student);
    }
    forall lab | lab in s.labs
      ensures LabSound(s.labs[lab], t.students)
    {
      assert LabSound(s.labs[lab], s.students) && student !in s.labs[lab].members;
    }
  }

  lemma DropStudentIs(s: State, student: StudentId)
    requires DropStudent(s, student).labs == s.labs && DropStudent(s, student).placements == s.placements
    ensures DropStudent(s, student) == s.(students := s.students - {student})
  {
  }

  /**
   * Deleting the orphans never throws on the RESTRICT key, deletes exactly the listed students that
   * are on no other roster, and touches neither labs nor placements.
   */
  lemma {:induction false} DroppingOrphansIsSafe(s: State, roster: seq<StudentId>)
    requires Good(s)
    ensures
      var d := DropOrphans(s, roster);
      && d.ok && Good(d.state) && d.state == s.(students := d.state.students)
      && (forall id :: id in d.state.students <==> id in s.students && (id !in roster || Enrolled(s, id)))
      && (forall id :: id in d.state.students ==> d.state.students[id] == s.students[id])
    decreases |roster|
  {
    if roster != [] {
      var n := |roster| - 1;
      assert roster == roster[..n] + [roster[n]];
      DroppingOrphansIsSafe(s, roster[..n]);
      var t := DropOrphans(s, roster[..n]).state;
      assert Enrolled(t, roster[n]) == Enrolled(s, roster[n]);
      if !Enrolled(t, roster[n]) {
        OrphansAreFree(t, roster[n]);
        DropStudentIs(t, roster[n]);
        DropStudentKeeps(t, roster[n]);
      }
    }
  }

  // ------------------------------------------------------------------ deleting a lab

  lemma TornDownIsGood(s: State, t: State, lab: LabName, force: bool, nodes: seq<NodeName>)
    requires Good(s) && TornDown(s, t, lab, force, nodes) && FreshIds(t)
    ensures Good(t)
  {
    hide LabSound, Unique, RosterImport.Numbered, FreshIds;
    assert People(t) && OwnersAreLocal(t);
    forall site | site in t.placements
      ensures site.lab in t.labs && site.node in t.nodes && t.placements[site].members == t.labs[site.lab].members
    {
      assert site in s.placements;
    }
  }

  lemma OneTearDownGrows(t: Torn, lab: LabName, force: bool, node: NodeName)
    requires FreshIds(t.state)
    ensures
      var u := TearDownOne(t, lab, force, node).state;
      FreshIds(u) && Grows(t.state, u)
  {
    hide Blocked;
  }

  lemma GrowsTwice(s: State, t: State, u: State)
    requires Grows(s, t) && Grows(t, u)
    ensures Grows(s, u)
  {
  }

  lemma {:induction false} TearDownFresh(s: State, lab: LabName, force: bool, hosts: seq<NodeName>)
    requires FreshIds(s)
    ensures FreshIds(TearDown(s, lab, force, hosts).state) && Grows(s, TearDown(s, lab, force, hosts).state)
    decreases |hosts|
  {
    hide Blocked;
    if hosts != [] {
      TearDownFresh(s, lab, force, hosts[..|hosts| - 1]);
      var before := TearDown(s, lab, force, hosts[..|hosts| - 1]);
      OneTearDownGrows(before, lab, force, hosts[|hosts| - 1]);
      hide TearDownOne, FreshIds;
      GrowsTwice(s, before.state, TearDownOne(before, lab, force, hosts[|hosts| - 1]).state);
    }
  }

  /**
   * One call tears the whole lab down, with or without force: it never throws, every placement of the
   * lab is afterwards deleting or gone, other labs' placements are untouched, and the lab itself goes
   * exactly when no placement had to be told.
   */
  lemma DestroyLabTearsDownEverything(s: State, lab: LabName, force: bool, hosts: seq<NodeName>, roster: seq<StudentId>)
    requires Good(s) && Listing(hosts, HostsOf(s, lab)) && lab in s.labs
    ensures
      var d := DestroyLab(s, lab, force, hosts, roster);
      && d.ok && Good(d.state)
      && (forall node :: !Alive(d.state, Site(lab, node)))
      && (forall site: Site :: site.lab != lab ==>
            (site in d.state.placements <==> site in s.placements) && (site in s.placements ==> d.state.placements[site] == s.placements[site]))
      && (lab !in d.state.labs <==> forall node :: node in hosts ==> Purged(s, force, node))
      && (lab !in d.state.labs ==> d.state.labs == s.labs - {lab})
  {
    var order := TearDownOrder(s, hosts);
    var torn := TearDown(s, lab, force, order);
    TearDownOrderIsClientsFirst(s, lab, hosts);
    TearDownTears(s, lab, force, order, |order|);
    assert order[..|order|] == order;
    TearDownFresh(s, lab, force, order);
    TornDownIsGood(s, torn.state, lab, force, order);
    EveryHostTorn(s, torn.state, lab, force, order);
    hide Good, TearDown, ClientsFirst;
    if torn.started == 0 {
      var dropped := DropLab(torn.state, lab);
      DropLabKeeps(torn.state, lab);
      DroppingOrphansIsSafe(dropped, roster);
    }
  }

  lemma AllPurged(s: State, lab: LabName, force: bool, hosts: seq<NodeName>)
    requires Listing(hosts, HostsOf(s, lab))
    ensures (forall node :: node in hosts ==> Purged(s, force, node))
       <==> forall node :: Site(lab, node) in s.placements ==> force && !(node in s.nodes && s.nodes[node].online)
  {
    forall node
      ensures node in hosts <==> Site(lab, node) in s.placements
    {
      assert node in hosts <==> node in HostsOf(s, lab);
      if node in HostsOf(s, lab) {
        var site :| site in s.placements && site.lab == lab && site.node == node;
        assert site == Site(lab, node);
      }
    }
  }

  lemma EveryHostTorn(s: State, t: State, lab: LabName, force: bool, order: seq<NodeName>)
    requires ClientsFirst(s, lab, order) && TornDown(s, t, lab, force, order)
    ensures forall node :: !Alive(t, Site(lab, node))
    ensures forall site: Site :: site.lab != lab ==> (site in t.placements <==> site in s.placements)
    ensures forall site: Site :: site.lab != lab && site in s.placements ==> t.placements[site] == s.placements[site]
  {
    forall node
      ensures !Alive(t, Site(lab, node))
    {
      if Site(lab, node) in s.placements {
        assert node in HostsOf(s, lab);
        assert node in order;
      }
    }
  }

  /** The students who were on no other lab's roster are gone with the lab, and nobody else. */
  ghost predicate Orphaned(s: State, left: Students, lab: LabName)
    requires lab in s.labs
  {
    && (forall id :: id in left <==> id in s.students && (id in s.labs[lab].members ==> ElsewhereEnrolled(s, lab, id)))
    && (forall id :: id in left ==> left[id] == s.students[id])
  }

  predicate ElsewhereEnrolled(s: State, lab: LabName, student: StudentId) {
    exists other :: other in s.labs && other != lab && student in s.labs[other].members
  }

  /** Deleting a lab at once deletes exactly the students of its roster who are on no other. */
  lemma DestroyLabDropsOrphans(s: State, lab: LabName, force: bool, hosts: seq<NodeName>, roster: seq<StudentId>)
    requires Good(s) && Listing(hosts, HostsOf(s, lab)) && lab in s.labs && Listing(roster, s.labs[lab].members)
    ensures
      var t := DestroyLab(s, lab, force, hosts, roster).state;
      && (lab !in t.labs ==> Orphaned(s, t.students, lab))
      && (lab in t.labs ==> t.students == s.students && t.labs == s.labs)
  {
    var order := TearDownOrder(s, hosts);
    var torn := TearDown(s, lab, force, order);
    assert torn.ok && torn.state.labs == s.labs && torn.state.students == s.students && Good(torn.state) by {
      TearDownOrderIsClientsFirst(s, lab, hosts);
      TearDownTears(s, lab, force, order, |order|);
      assert order[..|order|] == order;
      TearDownFresh(s, lab, force, order);
      TornDownIsGood(s, torn.state, lab, force, order);
    }
    hide Good, TearDown, TearDownOrder, HostsOf, DropOrphans, Orphaned;
    if torn.started == 0 {
      DropLabKeeps(torn.state, lab);
      DroppingOrphansIsSafe(DropLab(torn.state, lab), roster);
      DroppedAreOrphans(s, torn.state, lab, roster, DropOrphans(DropLab(torn.state, lab), roster).state.students);
    }
  }

  lemma DroppedAreOrphans(s: State, t: State, lab: LabName, roster: seq<StudentId>, left: Students)
    requires lab in s.labs && t.labs == s.labs && t.students == s.students && Elements(roster) == s.labs[lab].members
    requires forall id :: id in left <==> id in t.students && (id !in roster || Enrolled(DropLab(t, lab), id))
    requires forall id :: id in left ==> left[id] == t.students[id]
    ensures Orphaned(s, left, lab)
  {
    var dropped := DropLab(t, lab);
    forall id
      ensures id in roster <==> id in s.labs[lab].members
      ensures Enrolled(dropped, id) <==> ElsewhereEnrolled(s, lab, id)
    {
      assert id in roster <==> id in Elements(roster);
      if ElsewhereEnrolled(s, lab, id) {
        var other :| other in s.labs && other != lab && id in s.labs[other].members;
        assert other in dropped.labs && id in dropped.labs[other].members;
      }
    }
  }

  /** Deleting a lab deletes no student who is on another lab's roster or its PI. */
  lemma DestroyLabSparesOtherLabs(s: State, lab: LabName, force: bool, hosts: seq<NodeName>, roster: seq<StudentId>, other: LabName)
    requires Good(s) && Listing(hosts, HostsOf(s, lab)) && lab in s.labs && other in s.labs && other != lab
    ensures
      var t := DestroyLab(s, lab, force, hosts, roster).state;
      && other in t.labs && t.labs[other] == s.labs[other]
      && (forall id :: id in s.labs[other].members ==> id in t.students)
      && (s.labs[other].pi.Some? ==> s.labs[other].pi.value in t.students)
  {
    DestroyLabTearsDownEverything(s, lab, force, hosts, roster);
    var order := TearDownOrder(s, hosts);
    var torn := TearDown(s, lab, force, order);
    TearDownOrderIsClientsFirst(s, lab, hosts);
    TearDownTears(s, lab, force, order, |order|);
    assert order[..|order|] == order;
    var t := DestroyLab(s, lab, force, hosts, roster).state;
    assert t.labs == s.labs || t.labs == s.labs - {lab};
    assert LabSound(t.labs[other], t.students);
  }
}
