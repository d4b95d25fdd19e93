/**
 * Applying a planned roster import in one transaction, and what a committable plan guarantees: it breaks
 * no uniqueness constraint, it fails only for want of user ids, it removes nobody and touches nobody
 * outside the file, and planning the same file again finds nothing to do.
 */
module RosterImport {
  import opened Prelude
  import Csv
  import opened RosterPlan

  const FIRST_UID := 10_000
  const LAST_UID := 59_999
  const UIDS := LAST_UID - FIRST_UID + 1

  /** The tables an import reads and writes; `next` is the next automatic student key. */
  datatype Roster = Roster(students: Students, lab: Lab, next: nat)

  ghost predicate Sound(r: Roster) {
    && Unique(r.students) && Numbered(r.students, r.next)
    && r.lab.members <= r.students.Keys && (r.lab.pi.Some? ==> r.lab.pi.value in r.lab.members)
  }

  ghost predicate Numbered(students: Students, next: nat) {
    forall id :: id in students ==> id.n < next && FIRST_UID <= students[id].uid.n <= LAST_UID
  }

  // ------------------------------------------------------------------ user ids

  function LeastFree(used: set<Uid>, from: nat): Option<Uid>
    decreases LAST_UID + 1 - from
  {
    if from > LAST_UID then None else if Uid(from) in used then LeastFree(used, from + 1) else Some(Uid(from))
  }

  /** The least free id of the range, or none exactly when all of them are taken. */
  lemma {:induction false} LeastFreeIsLeast(used: set<Uid>, from: nat)
    ensures var uid := LeastFree(used, from);
            match uid
            case Some(u) => from <= u.n <= LAST_UID && u !in used && forall n: nat :: from <= n < u.n ==> Uid(n) in used
            case None => forall n: nat :: from <= n <= LAST_UID ==> Uid(n) in used
    decreases LAST_UID + 1 - from
  {
    if from <= LAST_UID && Uid(from) in used {
      LeastFreeIsLeast(used, from + 1);
    }
  }

  method TakeUid(used: set<Uid>) returns (uid: Option<Uid>)
    ensures uid == LeastFree(used, FIRST_UID)
  {
    var n: nat := FIRST_UID;
    while n <= LAST_UID && Uid(n) in used
      invariant FIRST_UID <= n <= LAST_UID + 1
      invariant LeastFree(used, FIRST_UID) == LeastFree(used, n)
      decreases LAST_UID + 1 - n
    {
      n := n + 1;
    }
    uid := if n > LAST_UID then None else Some(Uid(n));
  }

  function UidsOf(students: Students): set<Uid> {
    set id | id in students :: students[id].uid
  }

  lemma {:induction false} UidCount(students: Students)
    requires Unique(students)
    ensures |UidsOf(students)| == |students|
    decreases |students|
  {
    if students.Keys != {} {
      var id := Any(students.Keys);
      var rest := students - {id};
      UidCount(rest);
      assert UidsOf(students) == UidsOf(rest) + {students[id].uid} by {
        forall u | u in UidsOf(students)
          ensures u in UidsOf(rest) + {students[id].uid}
        {
          var k :| k in students && students[k].uid == u;
          assert k == id || (k in rest && rest[k].uid == u);
        }
      }
      assert students[id].uid !in UidsOf(rest) by {
        assert forall k :: k in rest ==> Differ(students[id], students[k]);
      }
    } else {
      assert UidsOf(students) == {};
    }
  }

  ghost function UidRange(n: nat): set<Uid> {
    set k: nat | FIRST_UID <= k < FIRST_UID + n :: Uid(k)
  }

  lemma {:induction false} UidRangeSize(n: nat)
    ensures |UidRange(n)| == n
  {
    if n > 0 {
      UidRangeSize(n - 1);
      assert UidRange(n) == UidRange(n - 1) + {Uid(FIRST_UID + n - 1)};
    } else {
      assert UidRange(0) == {};
    }
  }

  /** The pigeonhole: a free id exists exactly while fewer than all are taken. */
  lemma FreeUidIffRoom(students: Students, next: nat)
    requires Unique(students) && Numbered(students, next)
    ensures |students| <= UIDS
    ensures LeastFree(UidsOf(students), FIRST_UID).Some? <==> |students| < UIDS
  {
    var used := UidsOf(students);
    LeastFreeIsLeast(used, FIRST_UID);
    UidCount(students);
    UidRangeSize(UIDS);
    assert used <= UidRange(UIDS);
    SubsetSize(used, UidRange(UIDS));
    var free := LeastFree(used, FIRST_UID);
    if free.Some? {
      SubsetSize(used, UidRange(UIDS) - {free.value});
    } else {
      assert used == UidRange(UIDS);
    }
  }

  // ------------------------------------------------------------------ inserting and updating students

  /** The uniqueness constraints refuse a student whose username or student id is taken. */
  predicate Taken(students: Students, user: string, sid: Option<string>) {
    exists id :: id in students && (students[id].username == user || (sid.Some? && students[id].sid == sid))
  }

  function NewStudent(e: Entry, uid: Uid): Student {
    Student(e.user, e.sid, e.name, e.email, uid)
  }

  function Created(students: Students, next: nat, e: Entry): Option<Students> {
    var uid := LeastFree(UidsOf(students), FIRST_UID);
    if uid.None? || Taken(students, e.user, e.sid) then None
    else Some(students[StudentId(next) := NewStudent(e, uid.value)])
  }

  function CreatedAll(students: Students, next: nat, creates: seq<Entry>): Option<Students> {
    if creates == [] then Some(students)
    else
      var n := |creates| - 1;
      var before := CreatedAll(students, next, creates[..n]);
      if before.None? then None else Created(before.value, next + n, creates[n])
  }

  function Touch(s: Student, u: Update): Student {
    Student(s.username, if u.sid.Some? then u.sid else s.sid, if u.name.Some? then u.name else s.name,
            if u.email.Some? then u.email else s.email, s.uid)
  }

  predicate SidTaken(students: Students, u: Update) {
    u.sid.Some? && exists id :: id in students && students[id].sid == u.sid && students[id].username != u.user
  }

  function Updated(students: Students, u: Update): Option<Students> {
    if SidTaken(students, u) then None
    else Some(map id | id in students :: if students[id].username == u.user then Touch(students[id], u) else students[id])
  }

  function UpdatedAll(students: Students, updates: seq<Update>): Option<Students> {
    if updates == [] then Some(students)
    else
      var n := |updates| - 1;
      var before := UpdatedAll(students, updates[..n]);
      if before.None? then None else Updated(before.value, updates[n])
  }

  predicate Has(students: Students, user: string) {
    exists id :: id in students && students[id].username == user
  }

  ghost function IdOf(students: Students, user: string): (id: StudentId)
    requires Has(students, user)
    ensures id in students && students[id].username == user
  {
    var id :| id in students && students[id].username == user; id
  }

  function Named(students: Students, users: seq<string>): set<StudentId> {
    set id | id in students && students[id].username in users
  }

  function Or(wanted: Option<string>, current: Option<string>): Option<string> {
    if wanted.Some? then wanted else current
  }

  /** The transaction; `None` is a rollback. */
  ghost function Applied(r: Roster, plan: Plan): Option<Roster> {
    var created := CreatedAll(r.students, r.next, plan.creates);
    var updated := if created.None? then None else UpdatedAll(created.value, plan.updates);
    if updated.None? || (plan.piUser.Some? && !Has(updated.value, plan.piUser.value))
       || exists i :: 0 <= i < |plan.joiners| && !Has(updated.value, plan.joiners[i]) then None
    else
      var students := updated.value;
      Some(Roster(students,
                  Lab(if plan.piUser.Some? then Some(IdOf(students, plan.piUser.value)) else r.lab.pi,
                      Or(plan.piName, r.lab.piName), Or(plan.piEmail, r.lab.piEmail),
                      r.lab.members + Named(students, plan.joiners)),
                  r.next + |plan.creates|))
  }

  // ------------------------------------------------------------------ entries of a file

  ghost predicate DistinctUsers(entries: seq<Entry>) {
    forall i, j :: 0 <= i < j < |entries| ==> entries[i].user != entries[j].user
  }

  ghost predicate DistinctSids(entries: seq<Entry>) {
    forall i, j :: 0 <= i < j < |entries| && entries[i].sid.Some? ==> entries[i].sid != entries[j].sid
  }

  ghost predicate NoBlankSids(entries: seq<Entry>) {
    forall i :: 0 <= i < |entries| ==> entries[i].sid != Some("")
  }

  lemma {:induction false} BatchShape(rows: seq<Row>)
    requires forall i :: 0 <= i < |rows| ==> rows[i].sid != Some("")
    ensures DistinctUsers(BatchOf(rows).entries) && NoBlankSids(BatchOf(rows).entries)
    ensures forall i :: 0 <= i < |rows| ==> UserIn(BatchOf(rows).entries, rows[i].user)
    decreases |rows|
  {
    if rows != [] {
      var n := |rows| - 1;
      BatchShape(rows[..n]);
      var b := BatchOf(rows[..n]);
      MergeShape(b, rows[n]);
      forall i | 0 <= i < |rows|
        ensures UserIn(BatchOf(rows).entries, rows[i].user)
      {
        if i < n {
          assert rows[..n][i] == rows[i];
        }
      }
    }
  }

  ghost predicate UserIn(entries: seq<Entry>, user: string) {
    exists i :: 0 <= i < |entries| && entries[i].user == user
  }

  lemma MergeShape(b: Batch, r: Row)
    requires DistinctUsers(b.entries) && NoBlankSids(b.entries) && r.sid != Some("")
    ensures DistinctUsers(Merge(b, r).entries) && NoBlankSids(Merge(b, r).entries)
    ensures forall user :: UserIn(b.entries, user) || user == r.user ==> UserIn(Merge(b, r).entries, user)
  {
    var c := Merge(b, r);
    var k := Find(b.entries, r.user);
    assert c.entries[k].user == r.user;
    forall user | UserIn(b.entries, user)
      ensures UserIn(c.entries, user)
    {
      var i :| 0 <= i < |b.entries| && b.entries[i].user == user;
      assert c.entries[i].user == user;
    }
  }

  lemma {:induction false} NoSharedSids(entries: seq<Entry>)
    requires SharedSids(entries) == []
    ensures DistinctSids(entries)
    decreases |entries|
  {
    if entries != [] {
      var n := |entries| - 1;
      NoSharedSids(entries[..n]);
      forall i | 0 <= i < n && entries[i].sid.Some?
        ensures entries[i].sid != entries[n].sid
      {
        assert entries[..n][i].sid == entries[i].sid;
        assert entries[i].sid == entries[n].sid ==> SidSeen(entries[..n], entries[n].sid.value);
      }
      assert forall i, j :: 0 <= i < j < n ==> entries[..n][i] == entries[i] && entries[..n][j] == entries[j];
    }
  }

  lemma {:induction false} ValidRowsHaveNoBlankSids(lower: string -> string, rows: seq<map<string, string>>)
    ensures forall i :: 0 <= i < |ValidRows(lower, rows)| ==> ValidRows(lower, rows)[i].sid != Some("")
    decreases |rows|
  {
    if rows != [] {
      ValidRowsHaveNoBlankSids(lower, rows[..|rows| - 1]);
    }
  }

  /** The PI that a file names is one of its rows. */
  lemma {:induction false} FilePiIsARow(rows: seq<Row>)
    ensures PiOf(rows).user.Some? ==> exists i :: 0 <= i < |rows| && rows[i].user == PiOf(rows).user.value
    decreases |rows|
  {
    if rows != [] {
      var n := |rows| - 1;
      FilePiIsARow(rows[..n]);
      if PiOf(rows[..n]).user.Some? {
        var i :| 0 <= i < n && rows[..n][i].user == PiOf(rows[..n]).user.value;
        assert rows[i].user == PiOf(rows).user.value;
      } else if PiOf(rows).user.Some? {
        assert rows[n].user == PiOf(rows).user.value;
      }
    }
  }

  // ------------------------------------------------------------------ a plan without conflicts

  /** What the planner knows about entries it found no conflict for. */
  ghost predicate Clean(index: Index, entries: seq<Entry>) {
    && Reliable(index)
    && DistinctUsers(entries) && DistinctSids(entries) && NoBlankSids(entries)
    && forall i :: 0 <= i < |entries| ==> !Resolve(index, entries[i]).Conflicting?
  }

  ghost predicate CreatesFit(students: Students, creates: seq<Entry>) {
    && DistinctUsers(creates) && DistinctSids(creates)
    && forall i :: 0 <= i < |creates| ==> !Taken(students, creates[i].user, creates[i].sid)
  }

  ghost predicate UpdatesFit(students: Students, updates: seq<Update>) {
    && (forall i, j :: 0 <= i < j < |updates| ==> updates[i].user != updates[j].user)
    && (forall i, j :: 0 <= i < j < |updates| && updates[i].sid.Some? ==> updates[i].sid != updates[j].sid)
    && (forall i :: 0 <= i < |updates| ==> SidFree(students, updates[i].sid))
  }

  ghost predicate SidFree(students: Students, sid: Option<string>) {
    sid.Some? ==> forall id :: id in students ==> students[id].sid != sid
  }

  /** The student of an entry shows everything the entry says. */
  ghost predicate Shows(s: Student, e: Entry) {
    && s.username == e.user && (e.sid.Some? ==> s.sid == e.sid)
    && (e.name.Some? ==> s.name == e.name) && (e.email.Some? ==> s.email == e.email)
  }

  ghost predicate Reliable(index: Index) {
    Grounded(index) && Indexes(index, index.students) && Unique(index.students)
  }

  lemma CreatingMeans(index: Index, e: Entry)
    requires Reliable(index) && e.sid != Some("") && Resolve(index, e).Creating?
    ensures !Taken(index.students, e.user, e.sid)
  {
    var students := index.students;
    forall id | id in students
      ensures students[id].username != e.user && (e.sid.Some? ==> students[id].sid != e.sid)
    {
      assert index.byName[students[id].username] in students;
      assert Present(students[id].sid) <==> students[id].sid.Some? && students[id].sid.value in index.bySid;
    }
  }

  lemma ExistingIsByName(index: Index, e: Entry)
    requires Reliable(index) && e.sid != Some("")
    requires Resolve(index, e).Changing? || Resolve(index, e).Unchanged?
    ensures e.user in index.byName
    ensures e.sid.Some? && e.sid.value in index.bySid ==> index.bySid[e.sid.value] == index.byName[e.user]
    ensures e.sid.Some? && e.sid.value !in index.bySid ==> SidFree(index.students, e.sid)
  {
    var students := index.students;
    if e.sid.Some? && e.sid.value in index.bySid {
      var id := index.bySid[e.sid.value];
      assert students[id].username == e.user;
      assert id == index.byName[e.user] || Differ(students[id], students[index.byName[e.user]]);
    } else if e.sid.Some? {
      forall id | id in students
        ensures students[id].sid != e.sid
      {
        assert Present(students[id].sid) ==> students[id].sid.value in index.bySid;
      }
    }
  }

  /** An update is the one that settles its entry; an unchanged entry is settled already. */
  lemma ChangingMeans(index: Index, e: Entry)
    requires Reliable(index) && e.sid != Some("")
    requires Resolve(index, e).Changing? || Resolve(index, e).Unchanged?
    ensures e.user in index.byName
    ensures var id := index.byName[e.user];
            match Resolve(index, e)
            case Changing(u) =>
              && u.user == e.user && (u.sid.Some? ==> u.sid == e.sid && SidFree(index.students, u.sid))
              && Shows(Touch(index.students[id], u), e)
            case _ => Shows(index.students[id], e)
  {
    ExistingIsByName(index, e);
    var id := index.byName[e.user];
    hide Indexes, Unique;
    if e.sid.Some? && e.sid.value in index.bySid {
      assert index.students[id].sid == e.sid by {
        BySidMeans(index, e.sid.value);
      }
    }
  }

  lemma BySidMeans(index: Index, sid: string)
    requires Reliable(index) && sid in index.bySid
    ensures index.students[index.bySid[sid]].sid == Some(sid)
  {
  }

  lemma {:induction false} CreatesSpread(index: Index, entries: seq<Entry>)
    requires Clean(index, entries)
    ensures CreatesFit(index.students, ResolvedAll(index, entries).creates)
    ensures forall c :: c in ResolvedAll(index, entries).creates <==> c in entries && Resolve(index, c).Creating?
    ensures ResolvedAll(index, entries).conflicts == []
    decreases |entries|
  {
    if entries != [] {
      GroundedIfCleanEntries(index, entries);
      hide Resolve, CreatesFit;
      var n := |entries| - 1;
      assert entries == entries[..n] + [entries[n]];
      CreatesSpread(index, entries[..n]);
      if Resolve(index, entries[n]).Creating? {
        CreateAppended(index, entries, ResolvedAll(index, entries[..n]).creates);
      }
    } else {
      assert CreatesFit(index.students, []);
    }
  }

  lemma CreateAppended(index: Index, entries: seq<Entry>, before: seq<Entry>)
    requires entries != [] && Clean(index, entries) && Resolve(index, entries[|entries| - 1]).Creating?
    requires CreatesFit(index.students, before) && forall c :: c in before ==> c in entries[..|entries| - 1]
    ensures CreatesFit(index.students, before + [entries[|entries| - 1]])
  {
    hide Resolve, Unique, Indexes, Taken;
    var n := |entries| - 1;
    CreatingMeans(index, entries[n]);
    forall i | 0 <= i < |before|
      ensures before[i].user != entries[n].user && (before[i].sid.Some? ==> before[i].sid != entries[n].sid)
    {
      assert before[i] in before && before[i] in entries[..n];
    }
  }

  /** Where an update comes from. */
  ghost predicate UpdateOf(index: Index, e: Entry, u: Update)
    requires Grounded(index)
  {
    Resolve(index, e) == Changing(u)
  }

  lemma {:induction false} UpdatesSpread(index: Index, entries: seq<Entry>)
    requires Clean(index, entries)
    ensures UpdatesFit(index.students, ResolvedAll(index, entries).updates)
    ensures forall u :: u in ResolvedAll(index, entries).updates ==> exists e :: e in entries && UpdateOf(index, e, u)
    ensures forall e :: e in entries && Resolve(index, e).Changing? ==> Resolve(index, e).update in ResolvedAll(index, entries).updates
    decreases |entries|
  {
    if entries != [] {
      var n := |entries| - 1;
      UpdatesSpread(index, entries[..n]);
      assert entries == entries[..n] + [entries[n]];
      if Resolve(index, entries[n]).Changing? {
        UpdateAppended(index, entries, ResolvedAll(index, entries[..n]).updates);
        assert UpdateOf(index, entries[n], Resolve(index, entries[n]).update);
      }
      forall u | u in ResolvedAll(index, entries[..n]).updates
        ensures exists e :: e in entries && UpdateOf(index, e, u)
      {
        var e :| e in entries[..n] && UpdateOf(index, e, u);
        assert e in entries;
      }
    }
  }

  lemma UpdateAppended(index: Index, entries: seq<Entry>, before: seq<Update>)
    requires entries != [] && Clean(index, entries) && Resolve(index, entries[|entries| - 1]).Changing?
    requires UpdatesFit(index.students, before)
    requires forall u :: u in before ==> exists e :: e in entries[..|entries| - 1] && UpdateOf(index, e, u)
    ensures UpdatesFit(index.students, before + [Resolve(index, entries[|entries| - 1]).update])
  {
    hide Resolve, Unique, Indexes;
    var n := |entries| - 1;
    var u := Resolve(index, entries[n]).update;
    ChangingMeans(index, entries[n]);
    forall i | 0 <= i < |before|
      ensures before[i].user != u.user && (before[i].sid.Some? ==> before[i].sid != u.sid)
    {
      assert before[i] in before;
      var e :| e in entries[..n] && UpdateOf(index, e, before[i]);
      var k :| 0 <= k < n && entries[..n][k] == e;
      ChangingMeans(index, entries[k]);
    }
  }

  // ------------------------------------------------------------------ the transaction succeeds

  /** The students after the creations: the old ones, and one with the next key for each creation. */
  ghost predicate CreatedShape(students: Students, t: Students, next: nat, creates: seq<Entry>) {
    && Unique(t) && Numbered(t, next + |creates|) && |t| == |students| + |creates|
    && Extends(students, t, next, |creates|) && AllCreated(t, next, creates)
  }

  ghost predicate Extends(students: Students, t: Students, next: nat, n: nat) {
    && (forall id :: id in students ==> id in t && t[id] == students[id])
    && (forall id :: id in t && id !in students ==> next <= id.n < next + n)
  }

  ghost predicate AllCreated(t: Students, next: nat, creates: seq<Entry>) {
    forall i :: 0 <= i < |creates| ==> CreatedAs(t, StudentId(next + i), creates[i])
  }

  ghost predicate CreatedAs(t: Students, id: StudentId, e: Entry) {
    id in t && t[id] == NewStudent(e, t[id].uid)
  }

  lemma NotTakenLater(students: Students, t: Students, next: nat, creates: seq<Entry>, n: nat)
    requires n < |creates| && CreatesFit(students, creates) && CreatedShape(students, t, next, creates[..n])
    ensures !Taken(t, creates[n].user, creates[n].sid)
  {
    forall id | id in t
      ensures t[id].username != creates[n].user && (creates[n].sid.Some? ==> t[id].sid != creates[n].sid)
    {
      if id in students {
        assert !Taken(students, creates[n].user, creates[n].sid);
      } else {
        var i := id.n - next;
        assert CreatedAs(t, StudentId(next + i), creates[..n][i]);
        assert creates[..n][i] == creates[i];
      }
    }
  }

  lemma AllCreatedOne(t: Students, next: nat, before: seq<Entry>, e: Entry, uid: Uid)
    requires AllCreated(t, next, before) && StudentId(next + |before|) !in t
    ensures AllCreated(t[StudentId(next + |before|) := NewStudent(e, uid)], next, before + [e])
  {
    var d := t[StudentId(next + |before|) := NewStudent(e, uid)];
    forall i | 0 <= i < |before| + 1
      ensures CreatedAs(d, StudentId(next + i), (before + [e])[i])
    {
      assert i < |before| ==> CreatedAs(t, StudentId(next + i), before[i]);
    }
  }

  lemma ExtendsByOne(students: Students, t: Students, next: nat, n: nat, s: Student)
    requires Numbered(students, next) && Numbered(t, next + n) && Extends(students, t, next, n)
    ensures Extends(students, t[StudentId(next + n) := s], next, n + 1)
    ensures StudentId(next + n) !in t && |t[StudentId(next + n) := s]| == |t| + 1
  {
  }

  lemma CreatedOne(students: Students, t: Students, next: nat, before: seq<Entry>, e: Entry, uid: Uid)
    requires Numbered(students, next) && CreatedShape(students, t, next, before) && !Taken(t, e.user, e.sid)
    requires FIRST_UID <= uid.n <= LAST_UID && uid !in UidsOf(t)
    ensures CreatedShape(students, t[StudentId(next + |before|) := NewStudent(e, uid)], next, before + [e])
  {
    hide Unique, Taken, UidsOf, Numbered, AllCreated, Extends;
    ExtendsByOne(students, t, next, |before|, NewStudent(e, uid));
    NumberedWithOneMore(t, next + |before|, NewStudent(e, uid));
    UniqueWithOneMore(t, StudentId(next + |before|), NewStudent(e, uid));
    AllCreatedOne(t, next, before, e, uid);
  }

  lemma NumberedWithOneMore(t: Students, next: nat, s: Student)
    requires Numbered(t, next) && FIRST_UID <= s.uid.n <= LAST_UID
    ensures StudentId(next) !in t && Numbered(t[StudentId(next) := s], next + 1)
  {
  }

  lemma UniqueWithOneMore(t: Students, id: StudentId, s: Student)
    requires Unique(t) && id !in t && !Taken(t, s.username, s.sid) && s.uid !in UidsOf(t)
    ensures Unique(t[id := s])
  {
    forall k | k in t
      ensures Differ(t[k], s) && Differ(s, t[k])
    {
      assert t[k].uid in UidsOf(t);
    }
  }

  /** Any shape has room for a user id exactly while fewer than all are taken. */
  lemma RoomInShape(students: Students, t: Students, next: nat, before: seq<Entry>)
    requires CreatedShape(students, t, next, before)
    ensures LeastFree(UidsOf(t), FIRST_UID).Some? <==> |students| + |before| < UIDS
    ensures var uid := LeastFree(UidsOf(t), FIRST_UID);
            uid.Some? ==> FIRST_UID <= uid.value.n <= LAST_UID && uid.value !in UidsOf(t)
  {
    hide UidsOf;
    FreeUidIffRoom(t, next + |before|);
    LeastFreeIsLeast(UidsOf(t), FIRST_UID);
  }

  lemma CreationStep(students: Students, t: Students, next: nat, before: seq<Entry>, e: Entry)
    requires Numbered(students, next) && CreatedShape(students, t, next, before) && !Taken(t, e.user, e.sid)
    ensures var d := Created(t, next + |before|, e);
            && (d.Some? <==> |students| + |before| < UIDS)
            && (d.Some? ==> CreatedShape(students, d.value, next, before + [e]))
  {
    hide CreatedShape, Taken, Numbered, UidsOf, LeastFree;
    RoomInShape(students, t, next, before);
    var uid := LeastFree(UidsOf(t), FIRST_UID);
    if uid.Some? {
      CreatedOne(students, t, next, before, e, uid.value);
    }
  }

  lemma NothingCreatedYet(students: Students, next: nat)
    requires Unique(students) && Numbered(students, next)
    ensures CreatedShape(students, students, next, []) && |students| <= UIDS
  {
    FreeUidIffRoom(students, next);
  }

  lemma FitsShorter(students: Students, creates: seq<Entry>)
    requires creates != [] && CreatesFit(students, creates)
    ensures CreatesFit(students, creates[..|creates| - 1])
  {
  }

  lemma {:induction false} CreationsSucceed(students: Students, next: nat, creates: seq<Entry>)
    requires Unique(students) && Numbered(students, next) && CreatesFit(students, creates)
    ensures CreatedAll(students, next, creates).Some? <==> |students| + |creates| <= UIDS
    ensures CreatedAll(students, next, creates).Some? ==> CreatedShape(students, CreatedAll(students, next, creates).value, next, creates)
    decreases |creates|
  {
    hide CreatesFit, CreatedShape, Created, Unique, Numbered, Taken;
    NothingCreatedYet(students, next);
    if creates != [] {
      var n := |creates| - 1;
      FitsShorter(students, creates);
      CreationsSucceed(students, next, creates[..n]);
      var before := CreatedAll(students, next, creates[..n]);
      if before.Some? {
        NotTakenLater(students, before.value, next, creates, n);
        CreationStep(students, before.value, next, creates[..n], creates[n]);
        assert creates == creates[..n] + [creates[n]];
      }
    }
  }

  /** The students after the updates: each is touched by the update of its username, if there is one. */
  ghost predicate UpdatedShape(t: Students, w: Students, updates: seq<Update>) {
    && w.Keys == t.Keys
    && (forall id :: id in t ==> w[id].username == t[id].username && w[id].uid == t[id].uid)
    && (forall id :: id in t && Untouched(t[id].username, updates) ==> w[id] == t[id])
    && (forall i, id :: 0 <= i < |updates| && id in t && t[id].username == updates[i].user ==> w[id] == Touch(t[id], updates[i]))
  }

  ghost predicate Untouched(user: string, updates: seq<Update>) {
    forall i :: 0 <= i < |updates| ==> updates[i].user != user
  }

  lemma SidNotTakenLater(t: Students, w: Students, updates: seq<Update>, n: nat)
    requires n < |updates| && UpdatesFit(t, updates) && UpdatedShape(t, w, updates[..n])
    ensures !SidTaken(w, updates[n])
  {
    if updates[n].sid.Some? {
      forall id | id in w
        ensures w[id].sid != updates[n].sid
      {
        assert SidFree(t, updates[n].sid);
        if !Untouched(t[id].username, updates[..n]) {
          var i :| 0 <= i < n && updates[..n][i].user == t[id].username;
          assert w[id] == Touch(t[id], updates[..n][i]);
          assert updates[..n][i] == updates[i];
        }
      }
    }
  }

  lemma NothingUpdatedYet(t: Students)
    ensures UpdatedShape(t, t, [])
  {
  }

  lemma {:induction false} UpdatesSucceed(t: Students, updates: seq<Update>)
    requires UpdatesFit(t, updates)
    ensures UpdatedAll(t, updates).Some? && UpdatedShape(t, UpdatedAll(t, updates).value, updates)
    decreases |updates|
  {
    if updates == [] {
      NothingUpdatedYet(t);
    } else {
      hide UpdatedShape, SidTaken, SidFree;
      var n := |updates| - 1;
      UpdatesSucceed(t, updates[..n]);
      var w := UpdatedAll(t, updates[..n]).value;
      SidNotTakenLater(t, w, updates, n);
      UpdatedOne(t, w, updates, n);
    }
  }

  lemma UpdatedOne(t: Students, w: Students, updates: seq<Update>, n: nat)
    requires n == |updates| - 1 && UpdatesFit(t, updates) && UpdatedShape(t, w, updates[..n]) && !SidTaken(w, updates[n])
    ensures UpdatedShape(t, Updated(w, updates[n]).value, updates)
  {
    var d := Updated(w, updates[n]).value;
    forall id | id in t
      ensures t[id].username == updates[n].user ==> d[id] == Touch(t[id], updates[n])
      ensures Untouched(t[id].username, updates) ==> d[id] == t[id]
      ensures forall i :: 0 <= i < n && t[id].username == updates[i].user ==> d[id] == Touch(t[id], updates[i])
    {
      forall i | 0 <= i < n
        ensures updates[..n][i] == updates[i] && updates[i].user != updates[n].user
      {
      }
      if t[id].username == updates[n].user || Untouched(t[id].username, updates) {
        assert Untouched(t[id].username, updates[..n]);
      }
    }
  }

  /** Touching students in this way keeps them unique. */
  lemma UpdatedUnique(t: Students, w: Students, updates: seq<Update>)
    requires Unique(t) && UpdatesFit(t, updates) && UpdatedShape(t, w, updates)
    ensures Unique(w)
  {
    forall a, b | a in w && b in w && a != b
      ensures Differ(w[a], w[b])
    {
      assert Differ(t[a], t[b]) && Differ(t[b], t[a]);
      SidAfter(t, w, updates, a);
      SidAfter(t, w, updates, b);
    }
  }

  /** After the updates a student id is the old one or the new one of the student's own update. */
  lemma SidAfter(t: Students, w: Students, updates: seq<Update>, id: StudentId)
    requires UpdatedShape(t, w, updates) && id in t
    ensures w[id].sid == t[id].sid
         || exists i :: 0 <= i < |updates| && updates[i].user == t[id].username && updates[i].sid.Some? && w[id].sid == updates[i].sid
  {
    if !Untouched(t[id].username, updates) {
      var i :| 0 <= i < |updates| && updates[i].user == t[id].username;
      assert w[id] == Touch(t[id], updates[i]);
    }
  }

  // ------------------------------------------------------------------ what the transaction leaves behind

  lemma {:induction false} NoConflictNoneConflicting(index: Index, entries: seq<Entry>)
    requires Grounded(index) && ResolvedAll(index, entries).conflicts == []
    ensures forall i :: 0 <= i < |entries| ==> !Resolve(index, entries[i]).Conflicting?
    decreases |entries|
  {
    if entries != [] {
      var n := |entries| - 1;
      NoConflictNoneConflicting(index, entries[..n]);
      assert forall i :: 0 <= i < n ==> entries[..n][i] == entries[i];
    }
  }

  lemma CommittableIsClean(index: Index, lab: Lab, rows: seq<Row>, invalid: seq<Issue>)
    requires Reliable(index) && PlanRows(index, lab, rows, invalid).Committable()
    requires forall i :: 0 <= i < |rows| ==> rows[i].sid != Some("")
    ensures Clean(index, BatchOf(rows).entries)
  {
    var entries := BatchOf(rows).entries;
    BatchShape(rows);
    assert SharedSids(entries) == [] && ResolvedAll(index, entries).conflicts == [];
    NoSharedSids(entries);
    NoConflictNoneConflicting(index, entries);
  }

  /** A student after the creations is an old one or one of them. */
  lemma OldOrCreated(students: Students, t: Students, next: nat, creates: seq<Entry>, id: StudentId) returns (k: nat)
    requires CreatedShape(students, t, next, creates) && id in t
    ensures id in students ==> t[id] == students[id]
    ensures id !in students ==> k < |creates| && creates[k] in creates && CreatedAs(t, id, creates[k])
  {
    hide Unique, Numbered;
    k := 0;
    if id !in students {
      k := id.n - next;
      assert CreatedAs(t, StudentId(next + k), creates[k]);
    }
  }

  /** Creations take no student id that an update brings. */
  lemma UpdatesStillFit(index: Index, entries: seq<Entry>, t: Students, next: nat)
    requires Clean(index, entries) && CreatedShape(index.students, t, next, ResolvedAll(index, entries).creates)
    ensures UpdatesFit(t, ResolvedAll(index, entries).updates)
  {
    GroundedIfCleanEntries(index, entries);
    hide Clean, ResolvedAll, CreatedShape, SidFree;
    var updates := ResolvedAll(index, entries).updates;
    UpdatesSpread(index, entries);
    forall i | 0 <= i < |updates|
      ensures SidFree(t, updates[i].sid)
    {
      assert updates[i] in updates;
      UpdateSidFree(index, entries, t, next, updates[i]);
    }
  }

  lemma UpdateSidFree(index: Index, entries: seq<Entry>, t: Students, next: nat, u: Update)
    requires Grounded(index) && Clean(index, entries) && u in ResolvedAll(index, entries).updates
    requires CreatedShape(index.students, t, next, ResolvedAll(index, entries).creates) && SidFree(index.students, u.sid)
    ensures SidFree(t, u.sid)
  {
    hide Clean, ResolvedAll, CreatedShape, Resolve;
    var creates := ResolvedAll(index, entries).creates;
    CreatesSpread(index, entries);
    UpdatesSpread(index, entries);
    var e :| e in entries && UpdateOf(index, e, u);
    forall id | id in t && u.sid.Some?
      ensures t[id].sid != u.sid
    {
      var k := OldOrCreated(index.students, t, next, creates, id);
      if id !in index.students {
        SidsApart(index, entries, e, creates[k]);
      }
    }
  }

  lemma GroundedIfCleanEntries(index: Index, entries: seq<Entry>)
    requires Clean(index, entries)
    ensures Grounded(index)
  {
  }

  lemma SidsApart(index: Index, entries: seq<Entry>, e: Entry, c: Entry)
    requires Clean(index, entries) && e in entries && c in entries && Resolve(index, e).Changing? && Resolve(index, c).Creating?
    ensures Resolve(index, e).update.sid.Some? ==> Resolve(index, e).update.sid != c.sid
    ensures Resolve(index, e).update.user != c.user
  {
    var i :| 0 <= i < |entries| && entries[i] == e;
    var k :| 0 <= k < |entries| && entries[k] == c;
    ChangingMeans(index, entries[i]);
    assert i != k;
  }

  ghost predicate Settled(w: Students, e: Entry) {
    exists id :: id in w && Shows(w[id], e)
  }

  /** What the transaction leaves of the student table. */
  ghost predicate Left(students: Students, w: Students, entries: seq<Entry>) {
    AllSettled(w, entries) && AllExact(students, w, entries) && SameIdentities(students, w) && OthersKept(students, w, entries) && NewcomersNamed(students, w, entries)
  }

  ghost predicate AllSettled(w: Students, entries: seq<Entry>) {
    forall i :: 0 <= i < |entries| ==> Settled(w, entries[i])
  }

  ghost predicate AllExact(students: Students, w: Students, entries: seq<Entry>) {
    forall i :: 0 <= i < |entries| ==> Exact(students, w, entries[i])
  }

  /**
   * A student of the entry's username: an old one with the entry's values over its own, save that a
   * student id once set stays, or a new one with the entry's values alone.
   */
  ghost predicate Exact(students: Students, w: Students, e: Entry) {
    exists id :: id in w && w[id].username == e.user && IsExact(students, w, id, e)
  }

  ghost predicate IsExact(students: Students, w: Students, id: StudentId, e: Entry)
    requires id in w
  {
    if id in students then
      && students[id].username == e.user && w[id].uid == students[id].uid
      && w[id].sid == (if Present(students[id].sid) then students[id].sid else Or(e.sid, students[id].sid))
      && w[id].name == Or(e.name, students[id].name) && w[id].email == Or(e.email, students[id].email)
    else w[id].sid == e.sid && w[id].name == e.name && w[id].email == e.email
  }

  lemma EntryExact(index: Index, entries: seq<Entry>, t: Students, w: Students, next: nat, e: Entry)
    requires Clean(index, entries) && e in entries
    requires CreatedShape(index.students, t, next, ResolvedAll(index, entries).creates)
    requires UpdatedShape(t, w, ResolvedAll(index, entries).updates)
    ensures Exact(index.students, w, e)
  {
    var creates, updates := ResolvedAll(index, entries).creates, ResolvedAll(index, entries).updates;
    CreatesSpread(index, entries);
    UpdatesSpread(index, entries);
    if Resolve(index, e).Creating? {
      var i :| 0 <= i < |creates| && creates[i] == e;
      var id := StudentId(next + i);
      assert CreatedAs(t, id, e);
      OwnUpdateOnly(index, entries, e);
      assert w[id] == t[id];
      CreatingMeans(index, e);
      assert id !in index.students;
      assert IsExact(index.students, w, id, e);
    } else {
      ChangingMeans(index, e);
      ChangeIsExact(index, e);
      var id := index.byName[e.user];
      NameMeans(index, e.user);
      assert t[id] == index.students[id];
      if Resolve(index, e).Changing? {
        var u := Resolve(index, e).update;
        var i :| 0 <= i < |updates| && updates[i] == u;
        assert w[id] == Touch(t[id], updates[i]);
      } else {
        OwnUpdateOnly(index, entries, e);
        assert w[id] == t[id];
      }
      assert IsExact(index.students, w, id, e);
    }
  }

  /** An update brings exactly what the stored student lacks or shows differently. */
  lemma ChangeIsExact(index: Index, e: Entry)
    requires Reliable(index) && e.sid != Some("")
    requires Resolve(index, e).Changing? || Resolve(index, e).Unchanged?
    ensures e.user in index.byName
    ensures
      var s := index.students[index.byName[e.user]];
      var after := if Resolve(index, e).Changing? then Touch(s, Resolve(index, e).update) else s;
      && after.sid == (if Present(s.sid) then s.sid else Or(e.sid, s.sid))
      && after.name == Or(e.name, s.name) && after.email == Or(e.email, s.email)
  {
    ExistingIsByName(index, e);
    hide Indexes, Unique;
  }

  ghost predicate SameIdentities(students: Students, w: Students) {
    forall id :: id in students ==> id in w && w[id].username == students[id].username && w[id].uid == students[id].uid
  }

  ghost predicate OthersKept(students: Students, w: Students, entries: seq<Entry>) {
    forall id :: id in students && !UserIn(entries, students[id].username) ==> id in w && w[id] == students[id]
  }

  ghost predicate NewcomersNamed(students: Students, w: Students, entries: seq<Entry>) {
    forall id :: id in w && id !in students ==> UserIn(entries, w[id].username)
  }

  lemma EntrySettled(index: Index, entries: seq<Entry>, t: Students, w: Students, next: nat, e: Entry)
    requires Clean(index, entries) && e in entries
    requires CreatedShape(index.students, t, next, ResolvedAll(index, entries).creates)
    requires UpdatedShape(t, w, ResolvedAll(index, entries).updates)
    ensures Settled(w, e)
  {
    var creates, updates := ResolvedAll(index, entries).creates, ResolvedAll(index, entries).updates;
    CreatesSpread(index, entries);
    UpdatesSpread(index, entries);
    if Resolve(index, e).Creating? {
      var i :| 0 <= i < |creates| && creates[i] == e;
      var id := StudentId(next + i);
      assert CreatedAs(t, id, e);
      OwnUpdateOnly(index, entries, e);
      assert w[id] == t[id];
      assert Shows(w[id], e);
    } else {
      ChangingMeans(index, e);
      var id := index.byName[e.user];
      NameMeans(index, e.user);
      assert t[id] == index.students[id];
      if Resolve(index, e).Changing? {
        var u := Resolve(index, e).update;
        var i :| 0 <= i < |updates| && updates[i] == u;
        assert w[id] == Touch(t[id], updates[i]);
        assert Shows(w[id], e);
      } else {
        OwnUpdateOnly(index, entries, e);
        assert w[id] == t[id];
        assert Shows(w[id], e);
      }
    }
  }

  lemma NameMeans(index: Index, user: string)
    requires Reliable(index) && user in index.byName
    ensures index.byName[user] in index.students && index.students[index.byName[user]].username == user
  {
  }

  /** An entry that resolves to no update is touched by none. */
  lemma OwnUpdateOnly(index: Index, entries: seq<Entry>, e: Entry)
    requires Clean(index, entries) && e in entries && !Resolve(index, e).Changing?
    ensures Untouched(e.user, ResolvedAll(index, entries).updates)
  {
    var updates := ResolvedAll(index, entries).updates;
    UpdatesSpread(index, entries);
    forall i | 0 <= i < |updates|
      ensures updates[i].user != e.user
    {
      assert updates[i] in updates;
      var d :| d in entries && UpdateOf(index, d, updates[i]);
      var j :| 0 <= j < |entries| && entries[j] == d;
      var k :| 0 <= k < |entries| && entries[k] == e;
      ChangingMeans(index, d);
      assert j != k;
    }
  }

  lemma TransactionLeaves(index: Index, entries: seq<Entry>, t: Students, w: Students, next: nat)
    requires Grounded(index) && Clean(index, entries)
    requires CreatedShape(index.students, t, next, ResolvedAll(index, entries).creates)
    requires UpdatedShape(t, w, ResolvedAll(index, entries).updates)
    ensures Left(index.students, w, entries)
  {
    hide Clean, ResolvedAll, CreatedShape, UpdatedShape, SameIdentities, OthersKept, NewcomersNamed, Settled, Exact;
    forall i | 0 <= i < |entries|
      ensures Settled(w, entries[i])
    {
      EntrySettled(index, entries, t, w, next, entries[i]);
    }
    forall i | 0 <= i < |entries|
      ensures Exact(index.students, w, entries[i])
    {
      EntryExact(index, entries, t, w, next, entries[i]);
    }
    IdentitiesStay(index.students, t, w, next, ResolvedAll(index, entries).creates, ResolvedAll(index, entries).updates);
    OthersStay(index, entries, t, w, next);
    NewcomersAreNamed(index, entries, t, w, next);
  }

  lemma IdentitiesStay(students: Students, t: Students, w: Students, next: nat, creates: seq<Entry>, updates: seq<Update>)
    requires CreatedShape(students, t, next, creates) && UpdatedShape(t, w, updates)
    ensures SameIdentities(students, w)
  {
    hide Unique, Numbered, AllCreated;
  }

  lemma OthersStay(index: Index, entries: seq<Entry>, t: Students, w: Students, next: nat)
    requires Grounded(index) && Clean(index, entries)
    requires CreatedShape(index.students, t, next, ResolvedAll(index, entries).creates)
    requires UpdatedShape(t, w, ResolvedAll(index, entries).updates)
    ensures OthersKept(index.students, w, entries)
  {
    hide Clean, ResolvedAll, Unique, Numbered, AllCreated, Untouched, UserIn;
    forall id | id in index.students && !UserIn(entries, index.students[id].username)
      ensures id in w && w[id] == index.students[id]
    {
      OutsideUntouched(index, entries, index.students[id].username);
    }
  }

  lemma NewcomersAreNamed(index: Index, entries: seq<Entry>, t: Students, w: Students, next: nat)
    requires Grounded(index) && Clean(index, entries)
    requires CreatedShape(index.students, t, next, ResolvedAll(index, entries).creates)
    requires UpdatedShape(t, w, ResolvedAll(index, entries).updates)
    ensures NewcomersNamed(index.students, w, entries)
  {
    hide Clean, ResolvedAll, CreatedShape, Untouched, UserIn;
    forall id | id in w && id !in index.students
      ensures UserIn(entries, w[id].username)
    {
      NewcomerIsInFile(index, entries, t, next, id);
    }
  }

  lemma NewcomerIsInFile(index: Index, entries: seq<Entry>, t: Students, next: nat, id: StudentId)
    requires Grounded(index) && Clean(index, entries)
    requires CreatedShape(index.students, t, next, ResolvedAll(index, entries).creates)
    requires id in t && id !in index.students
    ensures UserIn(entries, t[id].username)
  {
    hide Clean, ResolvedAll, CreatedShape, Resolve;
    var creates := ResolvedAll(index, entries).creates;
    CreatesSpread(index, entries);
    var k := OldOrCreated(index.students, t, next, creates, id);
    var i :| 0 <= i < |entries| && entries[i] == creates[k];
  }

  lemma OutsideUntouched(index: Index, entries: seq<Entry>, user: string)
    requires Clean(index, entries) && !UserIn(entries, user)
    ensures Untouched(user, ResolvedAll(index, entries).updates)
  {
    var updates := ResolvedAll(index, entries).updates;
    UpdatesSpread(index, entries);
    forall i | 0 <= i < |updates|
      ensures updates[i].user != user
    {
      assert updates[i] in updates;
      var d :| d in entries && UpdateOf(index, d, updates[i]);
      var j :| 0 <= j < |entries| && entries[j] == d;
      ChangingMeans(index, d);
    }
  }

  // ------------------------------------------------------------------ the roster

  ghost predicate NoBlankSidRows(rows: seq<Row>) {
    forall i :: 0 <= i < |rows| ==> rows[i].sid != Some("")
  }

  /** A committable plan of these rows against this roster. */
  ghost predicate PlansCleanly(r: Roster, index: Index, rows: seq<Row>, invalid: seq<Issue>) {
    && Sound(r) && index.students == r.students && Reliable(index) && NoBlankSidRows(rows)
    && PlanRows(index, r.lab, rows, invalid).Committable()
  }

  lemma SettledMeansHas(w: Students, entries: seq<Entry>, user: string)
    requires forall i :: 0 <= i < |entries| ==> Settled(w, entries[i])
    requires UserIn(entries, user)
    ensures Has(w, user)
  {
    var i :| 0 <= i < |entries| && entries[i].user == user;
    assert Settled(w, entries[i]);
  }

  lemma {:induction false} JoinersAreEntries(index: Index, lab: Lab, entries: seq<Entry>)
    ensures forall i :: 0 <= i < |Joiners(index, lab, entries)| ==> UserIn(entries, Joiners(index, lab, entries)[i])
    ensures forall i :: 0 <= i < |entries| && Joining(index, lab, entries[i]) ==> entries[i].user in Joiners(index, lab, entries)
    decreases |entries|
  {
    if entries != [] {
      var n := |entries| - 1;
      JoinersAreEntries(index, lab, entries[..n]);
      forall i | 0 <= i < |Joiners(index, lab, entries)|
        ensures UserIn(entries, Joiners(index, lab, entries)[i])
      {
        if i < |Joiners(index, lab, entries[..n])| {
          var k :| 0 <= k < n && entries[..n][k].user == Joiners(index, lab, entries[..n])[i];
          assert entries[k].user == Joiners(index, lab, entries)[i];
        } else {
          assert entries[n].user == Joiners(index, lab, entries)[i];
        }
      }
      forall i | 0 <= i < |entries| && Joining(index, lab, entries[i])
        ensures entries[i].user in Joiners(index, lab, entries)
      {
        if i < n {
          assert entries[..n][i] == entries[i];
        }
      }
    }
  }

  lemma PiIsAnEntry(rows: seq<Row>)
    requires NoBlankSidRows(rows)
    ensures PiOf(rows).user.Some? ==> UserIn(BatchOf(rows).entries, PiOf(rows).user.value)
  {
    FilePiIsARow(rows);
    BatchShape(rows);
  }

  lemma SameName(w: Students, a: StudentId, b: StudentId)
    requires Unique(w) && a in w && b in w && w[a].username == w[b].username
    ensures a == b
  {
  }

  /** Everybody in the file is on the roster afterwards. */
  lemma EntryIsMember(index: Index, lab: Lab, entries: seq<Entry>, w: Students, id: StudentId)
    requires Clean(index, entries) && Left(index.students, w, entries) && Unique(w)
    requires id in w && UserIn(entries, w[id].username)
    ensures id in lab.members + Named(w, Joiners(index, lab, entries))
  {
    var i :| 0 <= i < |entries| && entries[i].user == w[id].username;
    JoinersAreEntries(index, lab, entries);
    if !Joining(index, lab, entries[i]) {
      var existing := MemberAlready(index, lab, entries[i]);
      SameName(w, existing, id);
    }
  }

  lemma MemberAlready(index: Index, lab: Lab, e: Entry) returns (id: StudentId)
    requires Reliable(index) && !Resolve(index, e).Conflicting? && !Joining(index, lab, e)
    ensures id in lab.members && id in index.students && index.students[id].username == e.user
  {
    id := if e.user in index.byName then index.byName[e.user] else index.bySid[e.sid.value];
  }

  lemma CreatedFacts(students: Students, t: Students, next: nat, creates: seq<Entry>)
    requires CreatedShape(students, t, next, creates)
    ensures Unique(t) && Numbered(t, next + |creates|)
  {
  }

  lemma NumberedAfter(t: Students, w: Students, updates: seq<Update>, next: nat)
    requires Numbered(t, next) && UpdatedShape(t, w, updates)
    ensures Numbered(w, next)
  {
  }

  lemma WritesRun(index: Index, entries: seq<Entry>, t: Students, next: nat)
    requires Grounded(index) && Clean(index, entries)
    requires CreatedShape(index.students, t, next, ResolvedAll(index, entries).creates)
    ensures
      var resolved := ResolvedAll(index, entries);
      var w := UpdatedAll(t, resolved.updates);
      && w.Some? && Left(index.students, w.value, entries) && Unique(w.value)
      && Numbered(w.value, next + |resolved.creates|)
  {
    hide *;
    var resolved := ResolvedAll(index, entries);
    UpdatesStillFit(index, entries, t, next);
    UpdatesSucceed(t, resolved.updates);
    var w := UpdatedAll(t, resolved.updates).value;
    CreatedFacts(index.students, t, next, resolved.creates);
    UpdatedUnique(t, w, resolved.updates);
    NumberedAfter(t, w, resolved.updates, next + |resolved.creates|);
    TransactionLeaves(index, entries, t, w, next);
  }

  ghost function ImportStudents(r: Roster, plan: Plan): Option<Students> {
    var created := CreatedAll(r.students, r.next, plan.creates);
    if created.None? then None else UpdatedAll(created.value, plan.updates)
  }

  lemma GroundedIfClean(r: Roster, index: Index, rows: seq<Row>, invalid: seq<Issue>)
    requires PlansCleanly(r, index, rows, invalid)
    ensures Grounded(index)
  {
  }

  lemma PlanFacts(r: Roster, index: Index, rows: seq<Row>, invalid: seq<Issue>)
    requires Grounded(index) && PlansCleanly(r, index, rows, invalid)
    ensures Clean(index, BatchOf(rows).entries) && index.students == r.students
    ensures Unique(r.students) && Numbered(r.students, r.next)
    ensures PlanRows(index, r.lab, rows, invalid).creates == ResolvedAll(index, BatchOf(rows).entries).creates
    ensures PlanRows(index, r.lab, rows, invalid).updates == ResolvedAll(index, BatchOf(rows).entries).updates
  {
    hide BatchOf, ResolvedAll, Unique, Numbered, Indexes, NoBlankSids, SharedSids, PiOf, Joiners;
    CommittableIsClean(index, r.lab, rows, invalid);
  }

  /** The two write phases on a committable plan. */
  lemma WritesSucceed(r: Roster, index: Index, rows: seq<Row>, invalid: seq<Issue>)
    requires Grounded(index) && PlansCleanly(r, index, rows, invalid)
    ensures
      var plan := PlanRows(index, r.lab, rows, invalid);
      var w := ImportStudents(r, plan);
      && (w.Some? <==> |r.students| + |plan.creates| <= UIDS)
      && (w.Some? ==> Left(r.students, w.value, BatchOf(rows).entries))
      && (w.Some? ==> Unique(w.value) && Numbered(w.value, r.next + |plan.creates|))
  {
    hide *;
    var entries := BatchOf(rows).entries;
    var plan := PlanRows(index, r.lab, rows, invalid);
    PlanFacts(r, index, rows, invalid);
    CreatesSpread(index, entries);
    CreationsSucceed(r.students, r.next, plan.creates);
    var created := CreatedAll(r.students, r.next, plan.creates);
    if created.Some? {
      WritesRun(index, entries, created.value, r.next);
    }
    ImportStudentsMeans(r, plan);
  }

  lemma ImportStudentsMeans(r: Roster, plan: Plan)
    ensures
      var created := CreatedAll(r.students, r.next, plan.creates);
      ImportStudents(r, plan) == if created.None? then None else UpdatedAll(created.value, plan.updates)
  {
  }

  /** How the transaction runs on a committable plan. */
  lemma TransactionRuns(r: Roster, index: Index, rows: seq<Row>, invalid: seq<Issue>)
    requires PlansCleanly(r, index, rows, invalid)
    ensures
      var plan := PlanRows(index, r.lab, rows, invalid);
      var after := Applied(r, plan);
      && (after.Some? <==> |r.students| + |plan.creates| <= UIDS)
      && (after.Some? ==> Left(r.students, after.value.students, BatchOf(rows).entries))
      && (after.Some? ==> Unique(after.value.students) && Numbered(after.value.students, after.value.next))
  {
    GroundedIfClean(r, index, rows, invalid);
    hide CreatedAll, UpdatedAll, Left, Unique, Numbered, PlanRows, BatchOf, Reliable;
    var plan := PlanRows(index, r.lab, rows, invalid);
    WritesSucceed(r, index, rows, invalid);
    var w := ImportStudents(r, plan);
    if w.Some? {
      EveryoneIsThere(r, index, rows, invalid, w.value);
    }
  }

  lemma EveryoneIsThere(r: Roster, index: Index, rows: seq<Row>, invalid: seq<Issue>, w: Students)
    requires NoBlankSidRows(rows) && Left(index.students, w, BatchOf(rows).entries)
    requires Grounded(index)
    ensures
      var plan := PlanRows(index, r.lab, rows, invalid);
      && (plan.piUser.Some? ==> Has(w, plan.piUser.value))
      && (forall i :: 0 <= i < |plan.joiners| ==> Has(w, plan.joiners[i]))
  {
    var entries := BatchOf(rows).entries;
    var plan := PlanRows(index, r.lab, rows, invalid);
    PiIsAnEntry(rows);
    JoinersAreEntries(index, r.lab, entries);
    if plan.piUser.Some? {
      SettledMeansHas(w, entries, plan.piUser.value);
    }
    forall i | 0 <= i < |plan.joiners|
      ensures Has(w, plan.joiners[i])
    {
      SettledMeansHas(w, entries, plan.joiners[i]);
    }
  }

  /** A committable plan applies unless the user ids run out, and leaves the tables sound. */
  lemma PlannedImportIsSound(r: Roster, index: Index, rows: seq<Row>, invalid: seq<Issue>)
    requires PlansCleanly(r, index, rows, invalid)
    ensures
      var plan := PlanRows(index, r.lab, rows, invalid);
      var after := Applied(r, plan);
      && (after.Some? <==> |r.students| + |plan.creates| <= UIDS)
      && (after.Some? ==> Sound(after.value))
  {
    var entries := BatchOf(rows).entries;
    var plan := PlanRows(index, r.lab, rows, invalid);
    var after := Applied(r, plan);
    TransactionRuns(r, index, rows, invalid);
    CommittableIsClean(index, r.lab, rows, invalid);
    PiIsAnEntry(rows);
    hide Unique, Numbered, Clean, CreatedAll, UpdatedAll;
    if after.Some? && plan.piUser.Some? {
      EntryIsMember(index, r.lab, entries, after.value.students, after.value.lab.pi.value);
    }
  }

  /** Planning the same rows again, after the import, finds nothing to do. */
  lemma PlannedImportIsIdempotent(r: Roster, index: Index, again: Index, rows: seq<Row>, invalid: seq<Issue>)
    requires PlansCleanly(r, index, rows, invalid)
    requires Applied(r, PlanRows(index, r.lab, rows, invalid)).Some?
    requires
      var after := Applied(r, PlanRows(index, r.lab, rows, invalid)).value;
      Reliable(again) && again.students == after.students
    ensures
      var after := Applied(r, PlanRows(index, r.lab, rows, invalid)).value;
      var plan := PlanRows(again, after.lab, rows, invalid);
      plan.Committable() && plan.Empty()
  {
    GroundedIfClean(r, index, rows, invalid);
    var plan := PlanRows(index, r.lab, rows, invalid);
    var after := Applied(r, plan).value;
    var entries := BatchOf(rows).entries;
    assert after.lab.members == r.lab.members + Named(after.students, Joiners(index, r.lab, entries));
    assert Grounded(again);
    hide Applied, PlansCleanly, Reliable, Grounded;
    TransactionRuns(r, index, rows, invalid);
    PlanFacts(r, index, rows, invalid);
    EveryoneSettled(index, again, r.lab, after.lab, entries);
    NothingToDo(again, after.lab, entries);
    PiStays(r, index, rows, invalid);
    NoConflictParts(r, index, rows, invalid);
  }

  lemma NoConflictParts(r: Roster, index: Index, rows: seq<Row>, invalid: seq<Issue>)
    requires PlansCleanly(r, index, rows, invalid)
    ensures PiOf(rows).conflicts == [] && BatchOf(rows).conflicts == [] && SharedSids(BatchOf(rows).entries) == [] && invalid == []
  {
    hide PiOf, BatchOf, SharedSids, ResolvedAll, Joiners, Sound, NoBlankSidRows;
  }

  lemma EntryFacts(index: Index, entries: seq<Entry>, w: Students, i: nat)
    requires i < |entries| && Clean(index, entries) && Left(index.students, w, entries)
    ensures entries[i].sid != Some("") && Settled(w, entries[i]) && UserIn(entries, entries[i].user)
  {
  }

  lemma ReliableIsUnique(index: Index)
    requires Reliable(index)
    ensures Unique(index.students)
  {
  }

  lemma EveryoneSettled(index: Index, again: Index, before: Lab, after: Lab, entries: seq<Entry>)
    requires Clean(index, entries) && Reliable(again) && Left(index.students, again.students, entries)
    requires after.members == before.members + Named(again.students, Joiners(index, before, entries))
    requires Grounded(again)
    ensures forall i :: 0 <= i < |entries| ==> Resolve(again, entries[i]).Unchanged? && !Joining(again, after, entries[i])
  {
    hide Joiners, Named, Resolve, Clean, Left, Reliable, Settled;
    ReliableIsUnique(again);
    forall i | 0 <= i < |entries|
      ensures Resolve(again, entries[i]).Unchanged? && !Joining(again, after, entries[i])
    {
      EntryFacts(index, entries, again.students, i);
      SettledIsUnchanged(again, entries[i]);
      EntryIsMember(index, before, entries, again.students, again.byName[entries[i].user]);
    }
  }

  lemma SettledIsUnchanged(index: Index, e: Entry)
    requires Reliable(index) && e.sid != Some("") && Settled(index.students, e)
    ensures Resolve(index, e).Unchanged? && e.user in index.byName
    ensures index.byName[e.user] in index.students && index.students[index.byName[e.user]].username == e.user
  {
    hide Indexes, Unique;
    var id :| id in index.students && Shows(index.students[id], e);
    FoundByName(index, id);
    if e.sid.Some? {
      FoundBySid(index, id);
    }
  }

  lemma FoundByName(index: Index, id: StudentId)
    requires Reliable(index) && id in index.students
    ensures index.students[id].username in index.byName && index.byName[index.students[id].username] == id
  {
    var named := index.byName[index.students[id].username];
    SameName(index.students, named, id);
  }

  lemma FoundBySid(index: Index, id: StudentId)
    requires Reliable(index) && id in index.students && Present(index.students[id].sid)
    ensures index.students[id].sid.value in index.bySid && index.bySid[index.students[id].sid.value] == id
  {
    var owner := index.bySid[index.students[id].sid.value];
    assert owner == id || !Differ(index.students[owner], index.students[id]);
  }

  lemma {:induction false} NothingToDo(index: Index, lab: Lab, entries: seq<Entry>)
    requires Grounded(index)
    requires forall i :: 0 <= i < |entries| ==> Resolve(index, entries[i]).Unchanged? && !Joining(index, lab, entries[i])
    ensures ResolvedAll(index, entries) == Resolved([], [], []) && Joiners(index, lab, entries) == []
    decreases |entries|
  {
    if entries != [] {
      var n := |entries| - 1;
      assert forall i :: 0 <= i < n ==> entries[..n][i] == entries[i];
      NothingToDo(index, lab, entries[..n]);
    }
  }

  /** After the import the lab shows the file's PI. */
  lemma PiStays(r: Roster, index: Index, rows: seq<Row>, invalid: seq<Issue>)
    requires PlansCleanly(r, index, rows, invalid)
    requires Applied(r, PlanRows(index, r.lab, rows, invalid)).Some?
    ensures
      var after := Applied(r, PlanRows(index, r.lab, rows, invalid)).value;
      && Changed(PiOf(rows).user, CurrentPi(after.students, after.lab)).None?
      && Changed(PiOf(rows).name, after.lab.piName).None?
      && Changed(PiOf(rows).email, after.lab.piEmail).None?
  {
    hide Unique, Numbered, CreatedAll, UpdatedAll, ResolvedAll, BatchOf, Joiners, SharedSids, PiOf, Indexes;
    TransactionRuns(r, index, rows, invalid);
    var plan := PlanRows(index, r.lab, rows, invalid);
    var after := Applied(r, plan).value;
    if plan.piUser.None? && r.lab.pi.Some? {
      assert r.lab.pi.value in r.students;
      assert CurrentPi(after.students, after.lab) == CurrentPi(r.students, r.lab);
    }
  }

  // ------------------------------------------------------------------ what importing a file guarantees

  function FileRows(lower: string -> string, text: string): seq<Row> {
    ValidRows(lower, Csv.Parse(text).rows)
  }

  ghost predicate InFile(lower: string -> string, text: string, user: string) {
    exists i :: 0 <= i < |FileRows(lower, text)| && FileRows(lower, text)[i].user == user
  }

  /** A roster, its index, and a committable plan of the file. */
  ghost predicate Importable(lower: string -> string, r: Roster, index: Index, text: string) {
    && Sound(r) && Indexes(index, r.students) && Grounded(index) && PlanText(lower, index, r.lab, text).Committable()
  }

  lemma ImportablePlansCleanly(lower: string -> string, r: Roster, index: Index, text: string)
    requires Grounded(index) && Importable(lower, r, index, text)
    ensures
      var rows, invalid := FileRows(lower, text), InvalidRows(lower, Csv.Parse(text).rows);
      && PlanText(lower, index, r.lab, text) == PlanRows(index, r.lab, rows, invalid)
      && PlansCleanly(r, index, rows, invalid)
  {
    hide PlanRows, ValidRows, InvalidRows, Csv.Parse;
    ValidRowsHaveNoBlankSids(lower, Csv.Parse(text).rows);
  }

  /**
   * A committable file breaks no uniqueness constraint: it applies exactly when the 50 000 user ids
   * suffice, and the tables are sound again afterwards.
   */
  lemma ImportFailsOnlyForUids(lower: string -> string, r: Roster, index: Index, text: string)
    requires Grounded(index) && Importable(lower, r, index, text)
    ensures
      var plan := PlanText(lower, index, r.lab, text);
      var after := Applied(r, plan);
      && (after.Some? <==> |r.students| + |plan.creates| <= 50_000)
      && (after.Some? ==> Sound(after.value))
  {
    assert UIDS == 50_000;
    hide *;
    ImportablePlansCleanly(lower, r, index, text);
    PlannedImportIsSound(r, index, FileRows(lower, text), InvalidRows(lower, Csv.Parse(text).rows));
  }

  lemma ImportWritesUnique(lower: string -> string, r: Roster, index: Index, text: string)
    requires Grounded(index) && Importable(lower, r, index, text)
    ensures forall w :: ImportStudents(r, PlanText(lower, index, r.lab, text)) == Some(w) ==> Unique(w)
  {
    hide *;
    ImportablePlansCleanly(lower, r, index, text);
    WritesSucceed(r, index, FileRows(lower, text), InvalidRows(lower, Csv.Parse(text).rows));
  }

  /** Importing the same file again is committable and changes nothing. */
  lemma ImportIsIdempotent(lower: string -> string, r: Roster, index: Index, again: Index, text: string)
    requires Grounded(index) && Importable(lower, r, index, text)
    requires Applied(r, PlanText(lower, index, r.lab, text)).Some?
    requires Indexes(again, Applied(r, PlanText(lower, index, r.lab, text)).value.students) && Grounded(again)
    ensures
      var after := Applied(r, PlanText(lower, index, r.lab, text)).value;
      var plan := PlanText(lower, again, after.lab, text);
      plan.Committable() && plan.Empty()
  {
    var after := Applied(r, PlanText(lower, index, r.lab, text)).value;
    ImportFailsOnlyForUids(lower, r, index, text);
    ImportablePlansCleanly(lower, r, index, text);
    assert Reliable(again) && again.students == after.students;
    assert NotRejected(text) by {
      RejectedIsNotCommittable(lower, index, r.lab, text);
    }
    hide PlanRows, ValidRows, InvalidRows, Csv.Parse, Applied, Indexes, Unique;
    PlannedImportIsIdempotent(r, index, again, FileRows(lower, text), InvalidRows(lower, Csv.Parse(text).rows));
  }

  /** The checks that come before the rows. */
  predicate NotRejected(text: string) {
    && |text| <= MAX_IMPORT_CHARS && "username" in Csv.Parse(text).headers
    && |Csv.Parse(text).rows| <= MAX_IMPORT_ROWS
  }

  lemma RejectedIsNotCommittable(lower: string -> string, index: Index, lab: Lab, text: string)
    requires Grounded(index) && PlanText(lower, index, lab, text).Committable()
    ensures NotRejected(text)
  {
    hide PlanRows, ValidRows, InvalidRows, Csv.Parse;
  }

  lemma {:induction false} BatchUsersAreRows(rows: seq<Row>, user: string)
    requires UserIn(BatchOf(rows).entries, user)
    ensures exists i :: 0 <= i < |rows| && rows[i].user == user
    decreases |rows|
  {
    if rows != [] {
      var n := |rows| - 1;
      if rows[n].user != user {
        var b := BatchOf(rows[..n]);
        var k := Find(b.entries, rows[n].user);
        var i :| 0 <= i < |BatchOf(rows).entries| && BatchOf(rows).entries[i].user == user;
        assert b.entries[i].user == user;
        BatchUsersAreRows(rows[..n], user);
        var j :| 0 <= j < n && rows[..n][j].user == user;
        assert rows[j].user == user;
      }
    }
  }

  /**
   * An import removes no member, adds only members the file names, deletes no student, changes no
   * username or user id, and leaves every student the file does not name exactly as it was.
   */
  lemma ImportTouchesOnlyTheFile(lower: string -> string, r: Roster, index: Index, text: string, id: StudentId)
    requires Grounded(index) && Importable(lower, r, index, text)
    requires Applied(r, PlanText(lower, index, r.lab, text)).Some?
    ensures
      var after := Applied(r, PlanText(lower, index, r.lab, text)).value;
      && (id in r.lab.members ==> id in after.lab.members)
      && (id in after.lab.members && id !in r.lab.members ==>
            id in after.students && InFile(lower, text, after.students[id].username))
      && (id in r.students ==> id in after.students && after.students[id].username == r.students[id].username
                               && after.students[id].uid == r.students[id].uid)
      && (id in r.students && !InFile(lower, text, r.students[id].username) ==> after.students[id] == r.students[id])
      && (id in after.students && id !in r.students ==> InFile(lower, text, after.students[id].username))
  {
    var rows, invalid := FileRows(lower, text), InvalidRows(lower, Csv.Parse(text).rows);
    var plan := PlanText(lower, index, r.lab, text);
    var after := Applied(r, plan).value;
    var entries := BatchOf(rows).entries;
    ImportablePlansCleanly(lower, r, index, text);
    TransactionRuns(r, index, rows, invalid);
    JoinersAreEntries(index, r.lab, entries);
    assert after.lab.members == r.lab.members + Named(after.students, Joiners(index, r.lab, entries));
    hide PlanText, PlanRows, Applied, Joiners, BatchOf, PlansCleanly, Importable, FileRows, ValidRows, Unique, Numbered;
    forall user | UserIn(entries, user)
      ensures InFile(lower, text, user)
    {
      BatchUsersAreRows(rows, user);
    }
  }

  /** A file that holds only its header is importable into any sound roster, and plans nothing. */
  lemma HeaderOnlyFileIsImportable(lower: string -> string, r: Roster, index: Index) returns (text: string)
    requires Sound(r) && Indexes(index, r.students) && Grounded(index)
    ensures Importable(lower, r, index, text) && PlanText(lower, index, r.lab, text).Empty()
  {
    hide Unique, Numbered, Indexes;
    text := HeaderOnlyText();
    var rows: seq<Row> := [];
    assert PiOf(rows) == FilePi(None, None, None, []) && BatchOf(rows) == Batch([], []);
    assert PlanText(lower, index, r.lab, text) == PlanRows(index, r.lab, [], []);
  }

  lemma HeaderOnlyText() returns (text: string)
    ensures Csv.Parse(text) == Csv.Parsed(["username"], []) && |text| <= MAX_IMPORT_CHARS
  {
    var header := Csv.Line([Csv.Cell("username", false)], Csv.LF);
    var doc := Csv.Document([header], None);
    text := Csv.Write(doc);
    Csv.ReadingInvertsWriting(doc);
    var records := Csv.Records(text);
    assert Csv.Values(header.cells) == ["username"];
    assert records == [["username"]];
    assert Csv.Trim("username") == "username";
    assert Csv.NonEmpty(records[0]) by {
      assert Csv.Trim(records[0][0]) != "";
    }
    assert Csv.DropEmpty(records) == records;
    assert Csv.TrimAll(records[0]) == ["username"];
  }

  // ------------------------------------------------------------------ the import's loops

  lemma {:induction false} CreationNoneStays(students: Students, next: nat, creates: seq<Entry>, n: nat)
    requires n <= |creates| && CreatedAll(students, next, creates[..n]).None?
    ensures CreatedAll(students, next, creates).None?
    decreases |creates| - n
  {
    if n < |creates| {
      assert creates[..n + 1][..n] == creates[..n];
      CreationNoneStays(students, next, creates, n + 1);
    } else {
      assert creates[..n] == creates;
    }
  }

  lemma {:induction false} UpdateNoneStays(students: Students, updates: seq<Update>, n: nat)
    requires n <= |updates| && UpdatedAll(students, updates[..n]).None?
    ensures UpdatedAll(students, updates).None?
    decreases |updates| - n
  {
    if n < |updates| {
      assert updates[..n + 1][..n] == updates[..n];
      UpdateNoneStays(students, updates, n + 1);
    } else {
      assert updates[..n] == updates;
    }
  }

  datatype Failure = NotCommittable(first: Issue) | Aborted

  datatype Summary = Summary(piUpdated: bool, created: nat, updated: nat, joined: nat)

  /** The student table and one lab's roster. */
  class RosterStore {
    var students: Students
    var lab: Lab
    var next: nat

    constructor (students: Students, lab: Lab, next: nat)
      ensures Value() == Roster(students, lab, next)
    {
      this.students, this.lab, this.next := students, lab, next;
    }

    ghost function Value(): Roster
      reads this
    {
      Roster(students, lab, next)
    }

    method CreateStudents(creates: seq<Entry>) returns (ok: bool)
      modifies this`students, this`next
      ensures ok == CreatedAll(old(students), old(next), creates).Some?
      ensures ok ==> Some(students) == CreatedAll(old(students), old(next), creates) && next == old(next) + |creates|
    {
      for i := 0 to |creates|
        invariant next == old(next) + i
        invariant Some(students) == CreatedAll(old(students), old(next), creates[..i])
      {
        assert creates[..i + 1][..i] == creates[..i];
        var uid := TakeUid(UidsOf(students));
        if uid.None? || Taken(students, creates[i].user, creates[i].sid) {
          CreationNoneStays(old(students), old(next), creates, i + 1);
          return false;
        }
        students := students[StudentId(next) := NewStudent(creates[i], uid.value)];
        next := next + 1;
      }
      assert creates[..|creates|] == creates;
      return true;
    }

    method UpdateStudents(updates: seq<Update>) returns (ok: bool)
      modifies this`students
      ensures ok == UpdatedAll(old(students), updates).Some?
      ensures ok ==> Some(students) == UpdatedAll(old(students), updates)
    {
      for i := 0 to |updates|
        invariant Some(students) == UpdatedAll(old(students), updates[..i])
      {
        assert updates[..i + 1][..i] == updates[..i];
        var written := Updated(students, updates[i]);
        if written.None? {
          UpdateNoneStays(old(students), updates, i + 1);
          return false;
        }
        students := written.value;
      }
      assert updates[..|updates|] == updates;
      return true;
    }

    /** The account of a username, if there is one. */
    method FindStudent(user: string) returns (id: Option<StudentId>)
      ensures id.Some? <==> Has(students, user)
      ensures id.Some? ==> id.value in students && students[id.value].username == user
    {
      if k :| k in students && students[k].username == user {
        return Some(k);
      } else {
        return None;
      }
    }

    /** Add everybody named to the roster; an unknown name aborts. */
    method JoinStudents(users: seq<string>) returns (ok: bool)
      requires Unique(students)
      modifies this`lab
      ensures ok <==> forall i :: 0 <= i < |users| ==> Has(students, users[i])
      ensures ok ==> lab == old(lab).(members := old(lab).members + Named(students, users))
    {
      assert Named(students, []) == {};
      assert old(lab).members + {} == lab.members;
      for i := 0 to |users|
        invariant forall k :: 0 <= k < i ==> Has(students, users[k])
        invariant lab == old(lab).(members := old(lab).members + Named(students, users[..i]))
      {
        var id := FindStudent(users[i]);
        if id.None? {
          return false;
        }
        NamedOneMore(students, users[..i], users[i], id.value);
        assert users[..i + 1] == users[..i] + [users[i]];
        lab := lab.(members := lab.members + {id.value});
        assert lab.members == old(lab).members + Named(students, users[..i + 1]);
      }
      assert users[..|users|] == users;
      return true;
    }

    /** Re-derive the plan and commit it in one transaction; any failure leaves the tables as they were. */
    method ApplyRosterImport(lower: string -> string, text: string) returns (result: Result<Summary, Failure>, ghost index: Index)
      requires Sound(Value())
      modifies this
      ensures Indexes(index, old(students)) && Grounded(index)
      ensures
        var plan := PlanText(lower, index, old(lab), text);
        && (result.Ok? <==> plan.Committable() && Applied(old(Value()), plan).Some?)
        && (result.Ok? ==> Some(Value()) == Applied(old(Value()), plan))
        && (result.Ok? ==> result.value.created == |plan.creates| && result.value.updated == |plan.updates|)
        && (result.Ok? ==> result.value.joined == |plan.joiners|)
      ensures result.Err? ==> Value() == old(Value())
      ensures Sound(Value())
    {
      var plan, found := PlanRosterImport(lower, students, lab, text);
      index := found;
      if !plan.Committable() {
        var issues := plan.invalid + plan.conflicts;
        return Err(NotCommittable(issues[0])), index;
      }
      assert Importable(lower, Value(), index, text);
      hide PlanText, Applied, Importable, Indexes, Grounded, Sound, ImportStudents;
      ImportFailsOnlyForUids(lower, Value(), index, text);
      ImportWritesUnique(lower, Value(), index, text);
      var students0, lab0, next0 := students, lab, next;
      var ok := Transact(plan);
      if !ok {
        students, lab, next := students0, lab0, next0;
        return Err(Aborted), index;
      }
      var piUpdated := plan.piUser.Some? || plan.piName.Some? || plan.piEmail.Some?;
      return Ok(Summary(piUpdated, |plan.creates|, |plan.updates|, |plan.joiners|)), index;
    }

    /** The writes of the transaction; after a failure the caller rolls back. */
    method Transact(plan: Plan) returns (ok: bool)
      requires forall w :: ImportStudents(Value(), plan) == Some(w) ==> Unique(w)
      modifies this
      ensures ok <==> Applied(old(Value()), plan).Some?
      ensures ok ==> Some(Value()) == Applied(old(Value()), plan)
    {
      lab := lab.(piName := Or(plan.piName, lab.piName), piEmail := Or(plan.piEmail, lab.piEmail));
      ok := CreateStudents(plan.creates);
      if !ok {
        return;
      }
      ok := UpdateStudents(plan.updates);
      if !ok {
        return;
      }
      if plan.piUser.Some? {
        var pi := FindStudent(plan.piUser.value);
        if pi.None? {
          return false;
        }
        SameName(students, pi.value, IdOf(students, plan.piUser.value));
        lab := lab.(pi := pi);
      }
      ok := JoinStudents(plan.joiners);
    }
  }

  lemma NamedOneMore(students: Students, users: seq<string>, user: string, id: StudentId)
    requires Unique(students) && id in students && students[id].username == user
    ensures Named(students, users + [user]) == Named(students, users) + {id}
  {
    forall k | k in Named(students, users + [user])
      ensures k in Named(students, users) + {id}
    {
      if students[k].username == user {
        SameName(students, k, id);
      }
    }
  }
}
