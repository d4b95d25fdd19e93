/**
 * What every operation on labs, students, placements and nodes keeps: rosters and accounts agree, a
 * lab's PI is one of its members, the cold storage owner of an SMB node is a local node.
 */
module LabInvariants {
  import opened Prelude
  import opened RosterPlan
  import RosterImport
  import opened LabState

  /** Every placement carries exactly the accounts of its lab's roster, and the PI is on the roster. */
  ghost predicate Synced(s: State) {
    && (forall site :: site in s.placements ==>
          site.lab in s.labs && site.node in s.nodes && s.placements[site].members == s.labs[site.lab].members)
    && (forall lab :: lab in s.labs ==> LabSound(s.labs[lab], s.students))
  }

  ghost predicate LabSound(lab: Lab, students: Students) {
    lab.members <= students.Keys && (lab.pi.Some? ==> lab.pi.value in lab.members)
  }

  ghost predicate People(s: State) {
    Unique(s.students) && RosterImport.Numbered(s.students, s.nextStudent)
  }

  /** An SMB node's owner is a local node, so no owner is itself a client. */
  ghost predicate OwnersAreLocal(s: State) {
    forall node :: node in s.nodes && s.nodes[node].owner.Some? ==>
      && s.nodes[node].backend.Smb?
      && s.nodes[node].owner.value in s.nodes && s.nodes[s.nodes[node].owner.value].backend.LocalZfs?
  }

  ghost predicate FreshIds(s: State) {
    forall id :: id in s.tasks ==> id.n < s.next
  }

  ghost predicate Good(s: State) {
    Synced(s) && People(s) && OwnersAreLocal(s) && FreshIds(s)
  }

  // ------------------------------------------------------------------ shapes of changes

  /** Account removals and cold cleanups are the tasks that the cleanup protocol counts. */
  predicate Plain(task: Task) {
    task.progress.Open? && !task.kind.AccountRemove? && !task.kind.ColdDelete?
  }

  /** Only new plain tasks were enqueued. */
  ghost predicate Grows(s: State, t: State) {
    && s.next <= t.next
    && (forall id :: id in s.tasks ==> id in t.tasks && t.tasks[id] == s.tasks[id])
    && (forall id :: id in t.tasks && id !in s.tasks ==> s.next <= id.n < t.next && Plain(t.tasks[id]))
  }

  /** Exactly these accounts were added on exactly these hosts of the lab. */
  ghost predicate Enrolls(s: State, t: State, lab: LabName, hosts: set<NodeName>, added: set<StudentId>) {
    && t == s.(placements := t.placements, tasks := t.tasks, next := t.next)
    && (forall site :: site in t.placements <==> site in s.placements)
    && (forall site :: site in s.placements ==> t.placements[site].phase == s.placements[site].phase)
    && (forall site :: site in s.placements && site.lab == lab && site.node in hosts ==>
          t.placements[site].members == s.placements[site].members + added)
    && (forall site :: site in s.placements && !(site.lab == lab && site.node in hosts) ==>
          t.placements[site] == s.placements[site])
    && Grows(s, t)
  }

  /** Placements, their phases and the nodes stayed; tasks only grew by plain ones. */
  ghost predicate Undisturbed(s: State, t: State) {
    PhasesKept(s, t) && Grows(s, t)
  }

  ghost predicate PhasesKept(s: State, t: State) {
    && t.nodes == s.nodes && (forall site :: site in t.placements <==> site in s.placements)
    && (forall site :: site in s.placements ==> t.placements[site].phase == s.placements[site].phase)
  }

  lemma ProvisionEnrolls(s: State, site: Site, student: StudentId)
    requires FreshIds(s)
    ensures Enrolls(s, Provision(s, site, student), site.lab, {site.node}, {student}) && FreshIds(Provision(s, site, student))
  {
    if site !in s.placements || student in s.placements[site].members {
      EnrolledAlready(s, site, student);
    } else {
      hide Grows;
      EnqueueIsPlain(s, s.placements[site := Provision(s, site, student).placements[site]], site, AccountAdd(student));
    }
  }

  lemma EnrolledAlready(s: State, site: Site, student: StudentId)
    requires site in s.placements ==> student in s.placements[site].members
    ensures Enrolls(s, s, site.lab, {site.node}, {student})
  {
    assert site in s.placements ==> s.placements[site].members == s.placements[site].members + {student};
  }

  lemma EnqueueIsPlain(s: State, placements: map<Site, Placement>, site: Site, kind: Kind)
    requires FreshIds(s) && !kind.AccountRemove? && !kind.ColdDelete?
    ensures
      var t := Enqueue(s.(placements := placements), site.node, site.lab, kind);
      Grows(s, t) && FreshIds(t)
  {
  }

  lemma EnrollsMoreHosts(s: State, t: State, u: State, lab: LabName, hosts: set<NodeName>, node: NodeName, student: StudentId)
    requires Enrolls(s, t, lab, hosts, {student}) && Enrolls(t, u, lab, {node}, {student})
    ensures Enrolls(s, u, lab, hosts + {node}, {student})
  {
    forall site | site in s.placements && site.lab == lab && site.node in hosts + {node}
      ensures u.placements[site].members == s.placements[site].members + {student}
    {
      assert s.placements[site].members + {student} + {student} == s.placements[site].members + {student};
    }
  }

  lemma EnrollsMoreStudents(s: State, t: State, u: State, lab: LabName, hosts: set<NodeName>, a: set<StudentId>, b: set<StudentId>)
    requires Enrolls(s, t, lab, hosts, a) && Enrolls(t, u, lab, hosts, b)
    ensures Enrolls(s, u, lab, hosts, a + b)
  {
    forall site | site in s.placements && site.lab == lab && site.node in hosts
      ensures u.placements[site].members == s.placements[site].members + (a + b)
    {
      assert s.placements[site].members + a + b == s.placements[site].members + (a + b);
    }
  }

  lemma {:induction false} ProvisionAllEnrolls(s: State, lab: LabName, student: StudentId, hosts: seq<NodeName>)
    requires FreshIds(s)
    ensures Enrolls(s, ProvisionAll(s, lab, student, hosts), lab, Elements(hosts), {student})
    ensures FreshIds(ProvisionAll(s, lab, student, hosts))
    decreases |hosts|
  {
    if hosts != [] {
      var n := |hosts| - 1;
      var t := ProvisionAll(s, lab, student, hosts[..n]);
      ProvisionAllEnrolls(s, lab, student, hosts[..n]);
      hide Enrolls, Provision, FreshIds;
      ProvisionEnrolls(t, Site(lab, hosts[n]), student);
      EnrollsMoreHosts(s, t, Provision(t, Site(lab, hosts[n]), student), lab, Elements(hosts[..n]), hosts[n], student);
      assert hosts == hosts[..n] + [hosts[n]];
      assert Elements(hosts) == Elements(hosts[..n]) + {hosts[n]};
    }
  }

  lemma EnrollsNobody(s: State, lab: LabName, hosts: set<NodeName>)
    ensures Enrolls(s, s, lab, hosts, {})
  {
    assert forall site :: site in s.placements ==> s.placements[site].members == s.placements[site].members + {};
  }

  lemma {:induction false} ProvisionRosterEnrolls(s: State, site: Site, roster: seq<StudentId>)
    requires FreshIds(s)
    ensures Enrolls(s, ProvisionRoster(s, site, roster), site.lab, {site.node}, Elements(roster))
    ensures FreshIds(ProvisionRoster(s, site, roster))
    decreases |roster|
  {
    if roster == [] {
      EnrollsNobody(s, site.lab, {site.node});
      assert Elements(roster) == {};
    } else {
      var n := |roster| - 1;
      var t := ProvisionRoster(s, site, roster[..n]);
      ProvisionRosterEnrolls(s, site, roster[..n]);
      hide Enrolls, Provision, FreshIds;
      ProvisionEnrolls(t, site, roster[n]);
      EnrollsMoreStudents(s, t, Provision(t, site, roster[n]), site.lab, {site.node}, Elements(roster[..n]), {roster[n]});
      assert roster == roster[..n] + [roster[n]];
      assert Elements(roster) == Elements(roster[..n]) + {roster[n]};
    }
  }

  lemma {:induction false} ProvisionJoinedEnrolls(s: State, lab: LabName, joined: seq<StudentId>, hosts: seq<NodeName>)
    requires FreshIds(s)
    ensures Enrolls(s, ProvisionJoined(s, lab, joined, hosts), lab, Elements(hosts), Elements(joined))
    ensures FreshIds(ProvisionJoined(s, lab, joined, hosts))
    decreases |joined|
  {
    if joined == [] {
      EnrollsNobody(s, lab, Elements(hosts));
      assert Elements(joined) == {};
    } else {
      var n := |joined| - 1;
      var t := ProvisionJoined(s, lab, joined[..n], hosts);
      ProvisionJoinedEnrolls(s, lab, joined[..n], hosts);
      hide Enrolls, ProvisionAll, FreshIds;
      ProvisionAllEnrolls(t, lab, joined[n], hosts);
      EnrollsMoreStudents(s, t, ProvisionAll(t, lab, joined[n], hosts), lab, Elements(hosts), Elements(joined[..n]), {joined[n]});
      assert joined == joined[..n] + [joined[n]];
      assert Elements(joined) == Elements(joined[..n]) + {joined[n]};
    }
  }

  // ------------------------------------------------------------------ rosters

  /** One lab's roster grew, perhaps with new students, and nothing else happened yet. */
  ghost predicate RosterGrew(s: State, t: State, lab: LabName, added: set<StudentId>) {
    && t == s.(labs := t.labs, students := t.students, nextStudent := t.nextStudent) && People(t)
    && lab in s.labs && (forall l :: l in s.labs <==> l in t.labs)
    && (forall l :: l in s.labs && l != lab ==> t.labs[l] == s.labs[l])
    && t.labs[lab].members == s.labs[lab].members + added
    && (forall l :: l in t.labs ==> LabSound(t.labs[l], t.students))
  }

  /** When the accounts on all of the lab's hosts grow with it, the state is in order again. */
  lemma EnrolledIsSynced(s: State, t: State, u: State, lab: LabName, hosts: set<NodeName>, added: set<StudentId>)
    requires Synced(s) && RosterGrew(s, t, lab, added)
    requires hosts == HostsOf(s, lab) && Enrolls(t, u, lab, hosts, added)
    ensures Synced(u)
  {
    hide LabSound, People, Grows;
    forall site | site in u.placements
      ensures site.lab in u.labs && site.node in u.nodes && u.placements[site].members == u.labs[site.lab].members
    {
      assert site.lab == lab ==> site.node in HostsOf(s, lab);
    }
  }

  lemma EnrolledIsGood(s: State, t: State, u: State, lab: LabName, hosts: set<NodeName>, added: set<StudentId>)
    requires Good(s) && RosterGrew(s, t, lab, added) && FreshIds(u)
    requires hosts == HostsOf(s, lab) && Enrolls(t, u, lab, hosts, added)
    ensures Good(u) && Undisturbed(s, u)
  {
    EnrolledIsSynced(s, t, u, lab, hosts, added);
    hide Synced, LabSound, HostsOf;
    assert People(u);
  }

  lemma ProvisionedIsGood(s: State, t: State, lab: LabName, student: StudentId, hosts: seq<NodeName>)
    requires Good(s) && RosterGrew(s, t, lab, {student}) && Listing(hosts, HostsOf(s, lab))
    ensures Good(ProvisionAll(t, lab, student, hosts)) && Undisturbed(s, ProvisionAll(t, lab, student, hosts))
  {
    assert FreshIds(t);
    hide Good, Enrolls, RosterGrew, HostsOf, Undisturbed;
    ProvisionAllEnrolls(t, lab, student, hosts);
    EnrolledIsGood(s, t, ProvisionAll(t, lab, student, hosts), lab, Elements(hosts), {student});
  }

  lemma TakenIsBlank(s: State, input: Input)
    requires !Known(s.students, input.sid) && !RosterImport.Has(s.students, input.user)
    ensures RosterImport.Taken(s.students, input.user, input.sid)
       <==> input.sid == Some("") && exists id :: id in s.students && s.students[id].sid == Some("")
  {
  }

  /** The student has the student id that was asked for, or else the username. */
  predicate Matches(row: Student, input: Input) {
    (Present(input.sid) && row.sid == input.sid) || row.username == input.user
  }

  /** A new student is refused when no user id is free, or when its blank student id is taken. */
  predicate Refused(s: State, input: Input) {
    && !Known(s.students, input.sid) && !RosterImport.Has(s.students, input.user)
    && (|s.students| >= RosterImport.UIDS || (input.sid == Some("") && exists id :: id in s.students && s.students[id].sid == Some("")))
  }

  /** A row under the next number, with what was asked for and the least user id that is free. */
  ghost predicate NewRow(s: State, t: State, input: Input) {
    exists uid: Uid ::
      && t.students == s.students[StudentId(s.nextStudent) := Student(input.user, input.sid, input.name, input.email, uid)]
      && LeastFreeUid(s.students, uid)
  }

  ghost predicate LeastFreeUid(students: Students, uid: Uid) {
    && 10000 <= uid.n <= 59999 && (forall id :: id in students ==> students[id].uid != uid)
    && forall n: nat :: 10000 <= n < uid.n ==> UidUsed(students, n)
  }

  predicate UidUsed(students: Students, n: nat) {
    exists id :: id in students && students[id].uid.n == n
  }

  predicate SidIn(students: Students, sid: string) {
    exists id :: id in students && students[id].sid == Some(sid)
  }

  predicate NameIn(students: Students, user: string) {
    exists id :: id in students && students[id].username == user
  }

  /** The lookup: by a non-blank student id, else by username, else a new row. */
  ghost predicate LookedUp(s: State, t: State, found: Option<StudentId>, input: Input) {
    if input.sid.Some? && input.sid.value != "" && SidIn(s.students, input.sid.value) then
      t == s && found.Some? && found.value in s.students && s.students[found.value].sid == input.sid
    else if NameIn(s.students, input.user) then
      t == s && found.Some? && found.value in s.students && s.students[found.value].username == input.user
    else if found.Some? then found == Some(StudentId(s.nextStudent)) && t.nextStudent == s.nextStudent + 1 && NewRow(s, t, input)
    else t == s
  }

  /** What finding or creating a student does to the tables, and when it refuses. */
  lemma FoundOrCreated(s: State, input: Input)
    requires People(s)
    ensures LookedUp(s, FindOrCreate(s, input).0, FindOrCreate(s, input).1, input)
    ensures
      var (t, found) := FindOrCreate(s, input);
      && t == s.(students := t.students, nextStudent := t.nextStudent) && People(t)
      && s.students.Keys <= t.students.Keys && (forall id :: id in s.students ==> t.students[id] == s.students[id])
      && (found.Some? ==> found.value in t.students && Matches(t.students[found.value], input))
      && (found.None? ==> t == s)
      && (found.None? <==> Refused(s, input))
  {
    hide RosterImport.Created, RosterImport.Has, Unique, RosterImport.Numbered, NewRow, LookedUp;
    LookupOrder(s, input);
    if !Known(s.students, input.sid) && !RosterImport.Has(s.students, input.user) {
      CreatedMeans(s, input, Entry(input.user, input.sid, input.name, input.email, 0));
    }
  }

  lemma LookupOrder(s: State, input: Input)
    requires People(s)
    ensures LookedUp(s, FindOrCreate(s, input).0, FindOrCreate(s, input).1, input)
  {
    hide RosterImport.Created, Unique, RosterImport.Numbered, NewRow;
    assert Known(s.students, input.sid) <==> input.sid.Some? && input.sid.value != "" && SidIn(s.students, input.sid.value);
    assert RosterImport.Has(s.students, input.user) <==> NameIn(s.students, input.user);
    if !Known(s.students, input.sid) && !RosterImport.Has(s.students, input.user) {
      var e := Entry(input.user, input.sid, input.name, input.email, 0);
      CreatedMeans(s, input, e);
      var created := RosterImport.Created(s.students, s.nextStudent, e);
      var (t, found) := FindOrCreate(s, input);
      assert created.Some? ==> t.students == s.(students := created.value).students;
      assert created.Some? ==> NewRow(s, t, input) by { SameNewRow(s, s.(students := t.students), t, input); }
    }
  }

  lemma SameNewRow(s: State, t: State, u: State, input: Input)
    requires t.students == u.students
    ensures NewRow(s, t, input) <==> NewRow(s, u, input)
  {
  }

  lemma CreatedMeans(s: State, input: Input, e: Entry)
    requires Unique(s.students) && RosterImport.Numbered(s.students, s.nextStudent)
    requires e == Entry(input.user, input.sid, input.name, input.email, 0)
    requires !Known(s.students, input.sid) && !RosterImport.Has(s.students, input.user)
    ensures
      var created := RosterImport.Created(s.students, s.nextStudent, e);
      var id := StudentId(s.nextStudent);
      && (created.None? <==> Refused(s, input)) && id !in s.students
      && (created.Some? ==> id in created.value && Matches(created.value[id], input) && created.value == s.students[id := created.value[id]])
      && (created.Some? ==> Unique(created.value) && RosterImport.Numbered(created.value, s.nextStudent + 1))
      && (created.Some? ==> NewRow(s, s.(students := created.value), input))
  {
    hide Unique, RosterImport.Numbered, RosterImport.LeastFree, RosterImport.UidsOf, RosterImport.Taken, Known, RosterImport.Has;
    RosterImport.FreeUidIffRoom(s.students, s.nextStudent);
    TakenIsBlank(s, input);
    var used := RosterImport.UidsOf(s.students);
    RosterImport.LeastFreeIsLeast(used, RosterImport.FIRST_UID);
    var uid := RosterImport.LeastFree(used, RosterImport.FIRST_UID);
    NextIsFresh(s);
    if uid.Some? && !RosterImport.Taken(s.students, input.user, input.sid) {
      assert LeastFreeUid(s.students, uid.value) by { LeastOfUsed(s.students); }
      RosterImport.NumberedWithOneMore(s.students, s.nextStudent, RosterImport.NewStudent(e, uid.value));
      RosterImport.UniqueWithOneMore(s.students, StudentId(s.nextStudent), RosterImport.NewStudent(e, uid.value));
    }
  }

  lemma LeastOfUsed(students: Students)
    requires RosterImport.LeastFree(RosterImport.UidsOf(students), RosterImport.FIRST_UID).Some?
    ensures LeastFreeUid(students, RosterImport.LeastFree(RosterImport.UidsOf(students), RosterImport.FIRST_UID).value)
  {
    var used := RosterImport.UidsOf(students);
    RosterImport.LeastFreeIsLeast(used, RosterImport.FIRST_UID);
    var uid := RosterImport.LeastFree(used, RosterImport.FIRST_UID).value;
    assert forall id :: id in students ==> students[id].uid in used;
    forall n: nat | 10000 <= n < uid.n
      ensures UidUsed(students, n)
    {
      assert Uid(n) in used;
    }
  }

  lemma NextIsFresh(s: State)
    requires RosterImport.Numbered(s.students, s.nextStudent)
    ensures StudentId(s.nextStudent) !in s.students
  {
  }

  lemma LabsStaySound(s: State, students: Students)
    requires Synced(s) && s.students.Keys <= students.Keys
    ensures forall lab :: lab in s.labs ==> LabSound(s.labs[lab], students)
  {
  }

  /** New students without a lab disturb nothing. */
  lemma NewStudentIsGood(s: State, t: State)
    requires Good(s) && t == s.(students := t.students, nextStudent := t.nextStudent) && People(t)
    requires s.students.Keys <= t.students.Keys
    ensures Good(t) && Undisturbed(s, t)
  {
    LabsStaySound(s, t.students);
  }

  lemma JoinGrows(s: State, t: State, lab: LabName, student: StudentId)
    requires Good(s) && t == s.(students := t.students, nextStudent := t.nextStudent) && People(t)
    requires s.students.Keys <= t.students.Keys && lab in s.labs && student in t.students
    ensures RosterGrew(s, Join(t, lab, student), lab, {student})
  {
    LabsStaySound(s, t.students);
  }

  lemma AddStudentKeeps(s: State, lab: LabName, input: Input, hosts: seq<NodeName>)
    requires Good(s) && Listing(hosts, HostsOf(s, lab))
    ensures Good(AddStudent(s, lab, input, hosts).state)
    ensures Undisturbed(s, AddStudent(s, lab, input, hosts).state)
  {
    FoundOrCreated(s, input);
    var (t, found) := FindOrCreate(s, input);
    NewStudentIsGood(s, t);
    hide FindOrCreate, Good, People, Undisturbed, RosterGrew, Join, ProvisionAll, Listing, HostsOf;
    if lab in s.labs && found.Some? && found.value !in t.labs[lab].members {
      JoinGrows(s, t, lab, found.value);
      ProvisionedIsGood(s, Join(t, lab, found.value), lab, found.value, hosts);
    } else {
      NewStudentIsGood(s, s);
    }
  }

  /**
   * Enrolling succeeds exactly for a known lab and a student who is not refused and not on the roster yet.
   * Then the student joins this roster alone, and gets an account on each placement of the lab.
   */
  lemma AddStudentEnrolls(s: State, lab: LabName, input: Input, hosts: seq<NodeName>)
    requires Good(s) && Listing(hosts, HostsOf(s, lab))
    ensures
      var d := AddStudent(s, lab, input, hosts);
      var (t, found) := FindOrCreate(s, input);
      && (d.ok <==> lab in s.labs && found.Some? && found.value !in s.labs[lab].members)
      && (!d.ok ==> d.state.labs == s.labs && d.state.placements == s.placements && d.state.tasks == s.tasks)
      && (d.ok ==> d.state.students == t.students
                   && d.state.labs == s.labs[lab := s.labs[lab].(members := s.labs[lab].members + {found.value})])
      && (d.ok ==> forall site :: site in d.state.placements && site.lab == lab ==> found.value in d.state.placements[site].members)
  {
    FoundOrCreated(s, input);
    var (t, found) := FindOrCreate(s, input);
    assert FreshIds(t);
    hide FindOrCreate, Good, People, Refused, ProvisionAll, LookedUp;
    if lab in s.labs && found.Some? && found.value !in t.labs[lab].members {
      var joined := Join(t, lab, found.value);
      ProvisionAllEnrolls(joined, lab, found.value, hosts);
      forall site | site in joined.placements && site.lab == lab
        ensures site.node in Elements(hosts)
      {
        assert site.node in HostsOf(s, lab);
      }
    }
  }

  lemma DesignateGrows(s: State, t: State, lab: LabName, pi: StudentId, input: Input)
    requires Good(s) && t == s.(students := t.students, nextStudent := t.nextStudent) && People(t)
    requires s.students.Keys <= t.students.Keys && lab in s.labs && pi in t.students
    ensures RosterGrew(s, Join(Designate(t, lab, pi, input), lab, pi), lab, {pi})
  {
    DesignateKeepsPeople(t, lab, pi, input);
    LabsStaySound(s, Designate(t, lab, pi, input).students);
  }

  /** The lab exists, the username is not blank, the student is not refused, and no other PI is designated. */
  ghost predicate MayDesignate(s: State, lab: LabName, input: Input) {
    && lab in s.labs && input.user != "" && !Refused(s, input)
    && (s.labs[lab].pi.Some? ==> s.labs[lab].pi == FindOrCreate(s, input).1)
  }

  /**
   * The student is the lab's PI, on its roster, and has an account on each of its placements; the lab and
   * the student carry the contact details that were given.
   */
  ghost predicate PiEverywhere(s: State, lab: LabName, pi: Option<StudentId>, input: Input) {
    && lab in s.labs && pi.Some? && pi.value in s.students
    && s.labs[lab].piName == input.name && s.labs[lab].piEmail == input.email
    && s.students[pi.value].name == input.name && s.students[pi.value].email == input.email
    && s.labs[lab].pi == pi && pi.value in s.labs[lab].members
    && (forall site :: site in s.placements && site.lab == lab ==> pi.value in s.placements[site].members)
  }

  lemma PiIsDesignated(s: State, lab: LabName, input: Input, hosts: seq<NodeName>)
    requires Good(s) && Listing(hosts, HostsOf(s, lab))
    ensures EnsurePi(s, lab, input, hosts).ok <==> MayDesignate(s, lab, input)
    ensures EnsurePi(s, lab, input, hosts).ok ==> PiEverywhere(EnsurePi(s, lab, input, hosts).state, lab, FindOrCreate(s, input).1, input)
  {
    FoundOrCreated(s, input);
    var (t, found) := FindOrCreate(s, input);
    assert FreshIds(t);
    hide FindOrCreate, Good, People, Refused, ProvisionAll, LookedUp, Matches, PiEverywhere, Join, Designate, FreshIds, HostsOf;
    if lab in s.labs && found.Some? {
      SameHosts(s, t, lab);
      PiAppears(t, lab, found.value, input, hosts);
    }
  }

  lemma SameHosts(s: State, t: State, lab: LabName)
    requires t.placements == s.placements
    ensures HostsOf(t, lab) == HostsOf(s, lab)
  {
  }

  lemma PiAppears(t: State, lab: LabName, pi: StudentId, input: Input, hosts: seq<NodeName>)
    requires FreshIds(t) && lab in t.labs && pi in t.students && Listing(hosts, HostsOf(t, lab))
    ensures PiEverywhere(ProvisionAll(Join(Designate(t, lab, pi, input), lab, pi), lab, pi, hosts), lab, Some(pi), input)
  {
    hide ProvisionAll, Grows;
    var joined := Join(Designate(t, lab, pi, input), lab, pi);
    assert FreshIds(joined);
    ProvisionAllEnrolls(joined, lab, pi, hosts);
    forall site | site in joined.placements && site.lab == lab
      ensures site.node in Elements(hosts)
    {
      assert site.node in HostsOf(t, lab);
    }
  }

  lemma EnsurePiKeeps(s: State, lab: LabName, input: Input, hosts: seq<NodeName>)
    requires Good(s) && Listing(hosts, HostsOf(s, lab))
    ensures Good(EnsurePi(s, lab, input, hosts).state)
    ensures Undisturbed(s, EnsurePi(s, lab, input, hosts).state)
    ensures EnsurePi(s, lab, input, hosts).ok <==> MayDesignate(s, lab, input)
    ensures EnsurePi(s, lab, input, hosts).ok ==> PiEverywhere(EnsurePi(s, lab, input, hosts).state, lab, FindOrCreate(s, input).1, input)
  {
    PiIsDesignated(s, lab, input, hosts);
    FoundOrCreated(s, input);
    var (t, found) := FindOrCreate(s, input);
    NewStudentIsGood(s, t);
    NewStudentIsGood(s, s);
    hide FindOrCreate, Good, People, Undisturbed, RosterGrew, Join, Designate, ProvisionAll, Listing, HostsOf;
    if lab in s.labs && found.Some? {
      DesignateGrows(s, t, lab, found.value, input);
      ProvisionedIsGood(s, Join(Designate(t, lab, found.value, input), lab, found.value), lab, found.value, hosts);
    }
  }

  lemma DesignateKeepsPeople(s: State, lab: LabName, pi: StudentId, input: Input)
    requires People(s) && lab in s.labs && pi in s.students
    ensures People(Designate(s, lab, pi, input)) && Designate(s, lab, pi, input).students.Keys == s.students.Keys
  {
    var t := Designate(s, lab, pi, input).students;
    forall a, b | a in t && b in t && a != b
      ensures Differ(t[a], t[b])
    {
      assert Differ(s.students[a], s.students[b]);
    }
  }

  lemma UndisturbedTwice(s: State, t: State, u: State)
    requires Undisturbed(s, t) && Undisturbed(t, u)
    ensures Undisturbed(s, u)
  {
  }

  lemma HostsKept(s: State, t: State, lab: LabName)
    requires PhasesKept(s, t)
    ensures HostsOf(t, lab) == HostsOf(s, lab)
  {
    assert forall site :: site in t.placements <==> site in s.placements;
  }

  lemma CopyMemberKeeps(s: State, lab: LabName, student: StudentId, hosts: seq<NodeName>)
    requires Good(s) && Listing(hosts, HostsOf(s, lab))
    ensures Good(CopyMember(s, lab, student, hosts).state)
    ensures Undisturbed(s, CopyMember(s, lab, student, hosts).state)
  {
    NewStudentIsGood(s, s);
    hide Good, Undisturbed, AddStudent, Listing, HostsOf;
    if student in s.students {
      var row := s.students[student];
      AddStudentKeeps(s, lab, Input(row.username, row.sid, row.name, row.email), hosts);
    }
  }

  lemma {:induction false} CopyMembersKeeps(s: State, lab: LabName, roster: seq<StudentId>, hosts: seq<NodeName>)
    requires Good(s) && Listing(hosts, HostsOf(s, lab))
    ensures Good(CopyMembers(s, lab, roster, hosts).state)
    ensures Undisturbed(s, CopyMembers(s, lab, roster, hosts).state)
    decreases |roster|
  {
    if roster == [] {
      NewStudentIsGood(s, s);
    } else {
      var n := |roster| - 1;
      var before := CopyMembers(s, lab, roster[..n], hosts);
      CopyMembersKeeps(s, lab, roster[..n], hosts);
      HostsKept(s, before.state, lab);
      hide Good, Undisturbed, CopyMember, Listing, HostsOf;
      CopyMemberKeeps(before.state, lab, roster[n], hosts);
      UndisturbedTwice(s, before.state, CopyMember(before.state, lab, roster[n], hosts).state);
    }
  }

  lemma SameSid(w: Students, a: StudentId, b: StudentId)
    requires Unique(w) && a in w && b in w && w[a].sid == w[b].sid && w[a].sid.Some?
    ensures a == b
  {
  }

  /** A stored student is found again by what is stored about it. */
  lemma StoredIsFound(s: State, student: StudentId)
    requires People(s) && student in s.students
    ensures
      var row := s.students[student];
      FindOrCreate(s, Input(row.username, row.sid, row.name, row.email)) == (s, Some(student))
  {
    var row := s.students[student];
    if Known(s.students, row.sid) {
      var id := BySid(s.students, row.sid);
      SameSid(s.students, id, student);
    } else {
      RosterImport.SameName(s.students, RosterImport.IdOf(s.students, row.username), student);
    }
  }

  lemma CopyMemberJoins(s: State, lab: LabName, student: StudentId, hosts: seq<NodeName>)
    requires Good(s) && Listing(hosts, HostsOf(s, lab)) && lab in s.labs && student in s.students
    ensures
      var d := CopyMember(s, lab, student, hosts);
      && d.ok && d.state.students == s.students && lab in d.state.labs
      && d.state.labs[lab].members == s.labs[lab].members + {student}
      && (forall l :: l in s.labs && l != lab ==> l in d.state.labs && d.state.labs[l] == s.labs[l])
  {
    StoredIsFound(s, student);
    if student in s.labs[lab].members {
      assert s.labs[lab].members + {student} == s.labs[lab].members;
    } else {
      ProvisionAllEnrolls(Join(s, lab, student), lab, student, hosts);
    }
  }

  lemma UndisturbedKeepsHosts(s: State, t: State, lab: LabName)
    requires Undisturbed(s, t)
    ensures HostsOf(t, lab) == HostsOf(s, lab)
  {
    HostsKept(s, t, lab);
  }

  /** Copying a roster never throws, and enrolls everybody listed and nobody else. */
  lemma {:induction false} CopyingEnrollsTheRoster(s: State, lab: LabName, roster: seq<StudentId>, hosts: seq<NodeName>)
    requires Good(s) && Listing(hosts, HostsOf(s, lab)) && lab in s.labs
    requires forall i :: 0 <= i < |roster| ==> roster[i] in s.students
    ensures
      var d := CopyMembers(s, lab, roster, hosts);
      && d.ok && d.state.students == s.students && lab in d.state.labs
      && d.state.labs[lab].members == s.labs[lab].members + Elements(roster)
      && (forall l :: l in s.labs && l != lab ==> l in d.state.labs && d.state.labs[l] == s.labs[l])
    decreases |roster|
  {
    if roster == [] {
      assert s.labs[lab].members + Elements(roster) == s.labs[lab].members;
    } else {
      var n := |roster| - 1;
      hide Good, Undisturbed, CopyMember, Listing, HostsOf;
      var t := CopyMembers(s, lab, roster[..n], hosts).state;
      CopyingEnrollsTheRoster(s, lab, roster[..n], hosts);
      CopyMembersKeeps(s, lab, roster[..n], hosts);
      UndisturbedKeepsHosts(s, t, lab);
      CopyMemberJoins(t, lab, roster[n], hosts);
      assert roster == roster[..n] + [roster[n]];
      assert s.labs[lab].members + Elements(roster) == s.labs[lab].members + Elements(roster[..n]) + {roster[n]};
    }
  }

  // ------------------------------------------------------------------ removing a student

  /** The account was removed on exactly these hosts, with one open removal task for each. */
  ghost predicate Dismisses(s: State, t: State, lab: LabName, hosts: set<NodeName>, student: StudentId) {
    && t == s.(placements := t.placements, tasks := t.tasks, next := t.next)
    && PhasesKept(s, t) && s.next <= t.next
    && (forall site :: site in s.placements && site.lab == lab && site.node in hosts ==>
          t.placements[site].members == s.placements[site].members - {student})
    && (forall site :: site in s.placements && !(site.lab == lab && site.node in hosts) ==>
          t.placements[site] == s.placements[site])
  }

  /** The tasks of a removal: one for each host, new and open. */
  ghost predicate RemovalTasks(s: State, t: State, lab: LabName, hosts: set<NodeName>, student: StudentId, removal: Option<Removal>) {
    && s.next <= t.next
    && (forall id :: id in s.tasks ==> id in t.tasks && t.tasks[id] == s.tasks[id])
    && (forall id :: id in t.tasks && id !in s.tasks ==>
          s.next <= id.n < t.next && t.tasks[id].node in hosts
          && t.tasks[id] == Task(t.tasks[id].node, lab, AccountRemove(student, removal), Open))
    && (forall node :: node in hosts ==> RemovalQueued(t, s.next, lab, node, student, removal))
  }

  ghost predicate RemovalQueued(t: State, from: nat, lab: LabName, node: NodeName, student: StudentId, removal: Option<Removal>) {
    exists id :: id in t.tasks && from <= id.n && t.tasks[id] == Task(node, lab, AccountRemove(student, removal), Open)
  }

  lemma {:induction false} DeprovisionAllDismisses(s: State, lab: LabName, student: StudentId, removal: Option<Removal>, hosts: seq<NodeName>)
    requires FreshIds(s)
    ensures
      var t := DeprovisionAll(s, lab, student, removal, hosts);
      && FreshIds(t) && Dismisses(s, t, lab, Elements(hosts), student)
      && RemovalTasks(s, t, lab, Elements(hosts), student, removal)
    decreases |hosts|
  {
    if hosts != [] {
      var n := |hosts| - 1;
      var t := DeprovisionAll(s, lab, student, removal, hosts[..n]);
      DeprovisionAllDismisses(s, lab, student, removal, hosts[..n]);
      assert hosts == hosts[..n] + [hosts[n]];
      assert Elements(hosts) == Elements(hosts[..n]) + {hosts[n]};
      DismissesOneMore(s, t, lab, Elements(hosts[..n]), student, removal, hosts[n]);
      RemovalTasksOneMore(s, t, lab, Elements(hosts[..n]), student, removal, hosts[n]);
    }
  }

  lemma DismissesOneMore(s: State, t: State, lab: LabName, hosts: set<NodeName>, student: StudentId, removal: Option<Removal>, node: NodeName)
    requires FreshIds(t) && Dismisses(s, t, lab, hosts, student)
    ensures Dismisses(s, Deprovision(t, Site(lab, node), student, removal), lab, hosts + {node}, student)
  {
    var u := Deprovision(t, Site(lab, node), student, removal);
    var site := Site(lab, node);
    if site in s.placements && node in hosts {
      assert s.placements[site].members - {student} - {student} == s.placements[site].members - {student};
    }
  }

  lemma DeprovisionTasks(t: State, lab: LabName, node: NodeName, student: StudentId, removal: Option<Removal>)
    ensures
      var u := Deprovision(t, Site(lab, node), student, removal);
      u.tasks == t.tasks[TaskId(t.next) := Task(node, lab, AccountRemove(student, removal), Open)] && u.next == t.next + 1
  {
  }

  lemma RemovalTasksOneMore(s: State, t: State, lab: LabName, hosts: set<NodeName>, student: StudentId, removal: Option<Removal>, node: NodeName)
    requires FreshIds(t) && RemovalTasks(s, t, lab, hosts, student, removal)
    ensures RemovalTasks(s, Deprovision(t, Site(lab, node), student, removal), lab, hosts + {node}, student, removal)
    ensures FreshIds(Deprovision(t, Site(lab, node), student, removal))
  {
    hide RemovalQueued, Deprovision;
    var u := Deprovision(t, Site(lab, node), student, removal);
    DeprovisionTasks(t, lab, node, student, removal);
    forall h | h in hosts + {node}
      ensures RemovalQueued(u, s.next, lab, h, student, removal)
    {
      if h == node {
        QueuedNow(t, u, s.next, lab, node, student, removal);
      } else {
        StillQueued(t, u, s.next, lab, h, student, removal);
      }
    }
  }

  lemma QueuedNow(t: State, u: State, from: nat, lab: LabName, node: NodeName, student: StudentId, removal: Option<Removal>)
    requires from <= t.next && u.tasks == t.tasks[TaskId(t.next) := Task(node, lab, AccountRemove(student, removal), Open)]
    ensures RemovalQueued(u, from, lab, node, student, removal)
  {
    assert TaskId(t.next) in u.tasks;
  }

  lemma StillQueued(t: State, u: State, from: nat, lab: LabName, node: NodeName, student: StudentId, removal: Option<Removal>)
    requires RemovalQueued(t, from, lab, node, student, removal)
    requires forall id :: id in t.tasks ==> id in u.tasks && u.tasks[id] == t.tasks[id]
    ensures RemovalQueued(u, from, lab, node, student, removal)
  {
    var id :| id in t.tasks && from <= id.n && t.tasks[id] == Task(node, lab, AccountRemove(student, removal), Open);
    assert id in u.tasks && u.tasks[id] == t.tasks[id];
  }

  /** The student is neither on the lab's roster nor on any of its placements. */
  ghost predicate NowhereIn(s: State, lab: LabName, student: StudentId) {
    && lab in s.labs && student !in s.labs[lab].members
    && (forall site :: site in s.placements && site.lab == lab ==> student !in s.placements[site].members)
  }

  lemma RemoveStudentKeeps(s: State, lab: LabName, student: StudentId, deleteData: bool, hosts: seq<NodeName>)
    requires Good(s) && Listing(hosts, HostsOf(s, lab))
    ensures Good(RemoveStudent(s, lab, student, deleteData, hosts).state)
    ensures PhasesKept(s, RemoveStudent(s, lab, student, deleteData, hosts).state)
    ensures RemoveStudent(s, lab, student, deleteData, hosts).ok
       <==> lab in s.labs && s.labs[lab].pi != Some(student) && student in s.labs[lab].members
    ensures RemoveStudent(s, lab, student, deleteData, hosts).ok ==>
              NowhereIn(RemoveStudent(s, lab, student, deleteData, hosts).state, lab, student)
  {
    hide Good, PhasesKept, DeprovisionAll, HostsOf, Listing;
    NothingKeepsPhases(s);
    if lab in s.labs && s.labs[lab].pi != Some(student) && student in s.labs[lab].members {
      DismissedIsGood(s, lab, student, RemovalFor(s, deleteData, hosts), hosts);
    }
  }

  lemma NothingKeepsPhases(s: State)
    ensures PhasesKept(s, s)
  {
  }

  lemma DismissedIsGood(s: State, lab: LabName, student: StudentId, removal: Option<Removal>, hosts: seq<NodeName>)
    requires Good(s) && Listing(hosts, HostsOf(s, lab)) && lab in s.labs && s.labs[lab].pi != Some(student)
    ensures
      var u := DeprovisionAll(Leave(s.(next := s.next + 1), lab, student), lab, student, removal, hosts);
      Good(u) && PhasesKept(s, u) && NowhereIn(u, lab, student)
  {
    var t := Leave(s.(next := s.next + 1), lab, student);
    var u := DeprovisionAll(t, lab, student, removal, hosts);
    assert FreshIds(t);
    hide DeprovisionAll, RemovalTasks, LabSound, Unique, RosterImport.Numbered, HostsOf;
    DeprovisionAllDismisses(t, lab, student, removal, hosts);
    DismissedIsSynced(s, t, u, lab, Elements(hosts), student);
    assert NowhereIn(u, lab, student);
    hide Synced, FreshIds;
    assert u.students == s.students && u.nextStudent == s.nextStudent && u.nodes == s.nodes;
  }

  lemma DismissedIsSynced(s: State, t: State, u: State, lab: LabName, hosts: set<NodeName>, student: StudentId)
    requires Synced(s) && lab in s.labs && s.labs[lab].pi != Some(student)
    requires t == Leave(s.(next := t.next), lab, student) && Dismisses(t, u, lab, hosts, student) && hosts == HostsOf(s, lab)
    ensures Synced(u)
  {
    forall site | site in u.placements
      ensures site.lab in u.labs && site.node in u.nodes && u.placements[site].members == u.labs[site.lab].members
    {
      assert site.lab == lab ==> site.node in HostsOf(s, lab);
    }
  }

  // ------------------------------------------------------------------ importing a roster

  /** `joined` lists the members that the transaction added to the lab. */
  ghost predicate NewlyJoined(s: State, lab: LabName, after: RosterImport.Roster, joined: seq<StudentId>) {
    lab in s.labs && Listing(joined, after.lab.members - s.labs[lab].members)
  }

  lemma ImportTransactionGrows(s: State, lower: string -> string, lab: LabName, text: string, index: Index)
    requires Good(s) && lab in s.labs && Indexes(index, s.students) && Grounded(index)
    requires ImportPlan(s, lower, lab, text, index).Some?
    ensures
      var after := ImportPlan(s, lower, lab, text, index).value;
      var t := s.(students := after.students, labs := s.labs[lab := after.lab], nextStudent := after.next);
      RosterGrew(s, t, lab, after.lab.members - s.labs[lab].members)
  {
    hide Good, Indexes, Grounded, PlanText, RosterImport.Applied, RosterImport.Importable, LabSound, Unique, RosterImport.Numbered;
    var r := RosterImport.Roster(s.students, s.labs[lab], s.nextStudent);
    var after := ImportPlan(s, lower, lab, text, index).value;
    ImportFits(s, lower, lab, text, index);
    RosterImport.ImportFailsOnlyForUids(lower, r, index, text);
    ImportKeepsMembers(r, lower, index, text);
    ImportedGrows(s, lab, after);
  }

  lemma ImportedGrows(s: State, lab: LabName, after: RosterImport.Roster)
    requires Good(s) && lab in s.labs && RosterImport.Sound(after)
    requires s.labs[lab].members <= after.lab.members && s.students.Keys <= after.students.Keys
    ensures
      var t := s.(students := after.students, labs := s.labs[lab := after.lab], nextStudent := after.next);
      RosterGrew(s, t, lab, after.lab.members - s.labs[lab].members)
  {
    hide Unique, RosterImport.Numbered;
    assert after.lab.members == s.labs[lab].members + (after.lab.members - s.labs[lab].members);
    LabsStaySound(s, after.students);
  }

  lemma ImportFits(s: State, lower: string -> string, lab: LabName, text: string, index: Index)
    requires Good(s) && lab in s.labs && Indexes(index, s.students) && Grounded(index)
    requires ImportPlan(s, lower, lab, text, index).Some?
    ensures RosterImport.Importable(lower, RosterImport.Roster(s.students, s.labs[lab], s.nextStudent), index, text)
  {
    hide Indexes, PlanText, Unique, RosterImport.Numbered, RosterImport.Applied;
    assert LabSound(s.labs[lab], s.students);
  }

  lemma ImportKeepsMembers(r: RosterImport.Roster, lower: string -> string, index: Index, text: string)
    requires Grounded(index) && RosterImport.Importable(lower, r, index, text)
    requires RosterImport.Applied(r, PlanText(lower, index, r.lab, text)).Some?
    ensures
      var after := RosterImport.Applied(r, PlanText(lower, index, r.lab, text)).value;
      r.lab.members <= after.lab.members && r.students.Keys <= after.students.Keys
  {
    hide RosterImport.Importable, RosterImport.Applied, PlanText;
    forall id | id in r.lab.members || id in r.students.Keys
      ensures
        var after := RosterImport.Applied(r, PlanText(lower, index, r.lab, text)).value;
        (id in r.lab.members ==> id in after.lab.members) && (id in r.students.Keys ==> id in after.students.Keys)
    {
      RosterImport.ImportTouchesOnlyTheFile(lower, r, index, text, id);
    }
  }

  lemma ImportRosterKeeps(s: State, lower: string -> string, lab: LabName, text: string, index: Index,
                          joined: seq<StudentId>, hosts: seq<NodeName>)
    requires Good(s) && Indexes(index, s.students) && Grounded(index) && Listing(hosts, HostsOf(s, lab))
    requires lab in s.labs && ImportPlan(s, lower, lab, text, index).Some? ==>
               NewlyJoined(s, lab, ImportPlan(s, lower, lab, text, index).value, joined)
    ensures Good(ImportRoster(s, lower, lab, text, index, joined, hosts).state)
    ensures Undisturbed(s, ImportRoster(s, lower, lab, text, index, joined, hosts).state)
  {
    NewStudentIsGood(s, s);
    if lab in s.labs && ImportPlan(s, lower, lab, text, index).Some? {
      var after := ImportPlan(s, lower, lab, text, index).value;
      var t := s.(students := after.students, labs := s.labs[lab := after.lab], nextStudent := after.next);
      ImportTransactionGrows(s, lower, lab, text, index);
      JoinedIsGood(s, t, lab, joined, hosts);
    }
  }

  lemma JoinedIsGood(s: State, t: State, lab: LabName, joined: seq<StudentId>, hosts: seq<NodeName>)
    requires Good(s) && RosterGrew(s, t, lab, Elements(joined)) && Listing(hosts, HostsOf(s, lab))
    ensures Good(ProvisionJoined(t, lab, joined, hosts)) && Undisturbed(s, ProvisionJoined(t, lab, joined, hosts))
  {
    assert FreshIds(t);
    hide Good, Enrolls, RosterGrew, HostsOf, Undisturbed;
    ProvisionJoinedEnrolls(t, lab, joined, hosts);
    EnrolledIsGood(s, t, ProvisionJoined(t, lab, joined, hosts), lab, Elements(hosts), Elements(joined));
  }
}
