/**
 * Planning a roster import: field validation, the PI of the file, merging rows by username, resolving
 * each merged student against the database, and the memberships to add. Nothing is written.
 */
module RosterPlan {
  import opened Prelude
  import Csv

  const MAX_IMPORT_CHARS := 1_000_000
  const MAX_IMPORT_ROWS := 5_000

  datatype StudentId = StudentId(n: nat)

  datatype Uid = Uid(n: nat)

  datatype Student = Student(
    username: string, sid: Option<string>, name: Option<string>, email: Option<string>, uid: Uid)

  type Students = map<StudentId, Student>

  datatype Lab = Lab(pi: Option<StudentId>, piName: Option<string>, piEmail: Option<string>, members: set<StudentId>)

  /** A stored student id can be blank; a blank one counts as missing. */
  predicate Present(v: Option<string>) {
    v.Some? && v.value != ""
  }

  /** The table's uniqueness constraints. */
  ghost predicate Unique(students: Students) {
    forall a, b :: a in students && b in students && a != b ==> Differ(students[a], students[b])
  }

  ghost predicate Differ(s: Student, t: Student) {
    s.username != t.username && s.uid != t.uid && (s.sid.Some? ==> s.sid != t.sid)
  }

  // ------------------------------------------------------------------ rows

  datatype Role = Pi | Member

  datatype Row = Row(line: nat, role: Role, user: string, sid: Option<string>, name: Option<string>, email: Option<string>)

  datatype Problem =
    | UnknownLab | TooLarge | EmptyFile | NoUsernameColumn | TooManyRows
    | UnknownRole | UsernameMissing | UsernameInvalid | EmailMissing | EmailInvalid | StudentIdInvalid
    | PiUsernames | PiNames | PiEmails | TwoStudentIds | SharedStudentId | StudentIdTaken | OtherStudentId

  datatype Issue = Issue(line: nat, problem: Problem)

  predicate IsLower(c: char) { 'a' <= c <= 'z' }

  predicate IsDigit(c: char) { '0' <= c <= '9' }

  predicate IsAlnum(c: char) { IsLower(c) || 'A' <= c <= 'Z' || IsDigit(c) }

  predicate ValidUsername(s: string) {
    && 1 <= |s| <= 32 && (IsLower(s[0]) || s[0] == '_')
    && (forall i :: 1 <= i < |s| ==> IsLower(s[i]) || IsDigit(s[i]) || s[i] == '_' || s[i] == '-')
  }

  predicate ValidStudentId(s: string) {
    && 1 <= |s| <= 64 && IsAlnum(s[0])
    && (forall i :: 1 <= i < |s| ==> IsAlnum(s[i]) || s[i] == '.' || s[i] == '_' || s[i] == '-')
  }

  /** One `@` with something before it, and after it a dot that is neither first nor last. */
  predicate ValidEmail(s: string) {
    exists at, dot :: 0 < at < |s| && at + 1 < dot < |s| - 1 && s[at] == '@' && s[dot] == '.' && OneAt(s, at)
  }

  predicate OneAt(s: string, at: int) {
    forall i :: 0 <= i < |s| ==> !Csv.IsSpace(s[i]) && (s[i] == '@' ==> i == at)
  }

  function Field(row: map<string, string>, column: string): string {
    Csv.Trim(if column in row then row[column] else "")
  }

  function NonBlank(s: string): Option<string> {
    if s == "" then None else Some(s)
  }

  /** Phase A for one row; `lower` is the case folding of the platform. */
  function ReadRow(lower: string -> string, row: map<string, string>, line: nat): Result<Row, Issue> {
    var role := lower(Field(row, "role"));
    var user := lower(Field(row, "username"));
    var sid := NonBlank(Field(row, "student_id"));
    var email := NonBlank(lower(Field(row, "email")));
    if role !in {"", "student", "pi"} then Err(Issue(line, UnknownRole))
    else if user == "" then Err(Issue(line, UsernameMissing))
    else if !ValidUsername(user) then Err(Issue(line, UsernameInvalid))
    else if role == "pi" && email.None? then Err(Issue(line, EmailMissing))
    else if role == "pi" && !ValidEmail(email.value) then Err(Issue(line, EmailInvalid))
    else if sid.Some? && !ValidStudentId(sid.value) then Err(Issue(line, StudentIdInvalid))
    else if email.Some? && !ValidEmail(email.value) then Err(Issue(line, EmailInvalid))
    else Ok(Row(line, if role == "pi" then Pi else Member, user, sid, NonBlank(Field(row, "name")), email))
  }

  function ValidRows(lower: string -> string, rows: seq<map<string, string>>): seq<Row> {
    if rows == [] then []
    else
      var n := |rows| - 1;
      var read := ReadRow(lower, rows[n], n + 2);
      ValidRows(lower, rows[..n]) + (if read.Ok? then [read.value] else [])
  }

  function InvalidRows(lower: string -> string, rows: seq<map<string, string>>): seq<Issue> {
    if rows == [] then []
    else
      var n := |rows| - 1;
      var read := ReadRow(lower, rows[n], n + 2);
      InvalidRows(lower, rows[..n]) + (if read.Err? then [read.error] else [])
  }

  // ------------------------------------------------------------------ the PI of the file

  datatype FilePi = FilePi(user: Option<string>, name: Option<string>, email: Option<string>, conflicts: seq<Issue>)

  predicate Clash(a: Option<string>, b: Option<string>) {
    a.Some? && b.Some? && a != b
  }

  /** A value of the row replaces a missing one; a different one is a conflict. */
  function Settle(known: Option<string>, found: Option<string>): Option<string> {
    if found.Some? && known.None? then found else known
  }

  function Clashes(line: nat, clash: bool, problem: Problem): seq<Issue> {
    if clash then [Issue(line, problem)] else []
  }

  function AddPi(pi: FilePi, r: Row): FilePi {
    if r.role.Member? then pi
    else
      FilePi(Settle(pi.user, Some(r.user)), Settle(pi.name, r.name), Settle(pi.email, r.email),
             pi.conflicts + Clashes(r.line, Clash(pi.user, Some(r.user)), PiUsernames)
             + Clashes(r.line, Clash(pi.name, r.name), PiNames) + Clashes(r.line, Clash(pi.email, r.email), PiEmails))
  }

  function PiOf(rows: seq<Row>): FilePi {
    if rows == [] then FilePi(None, None, None, []) else AddPi(PiOf(rows[..|rows| - 1]), rows[|rows| - 1])
  }

  // ------------------------------------------------------------------ merging by username

  datatype Entry = Entry(user: string, sid: Option<string>, name: Option<string>, email: Option<string>, line: nat)

  datatype Batch = Batch(entries: seq<Entry>, conflicts: seq<Issue>)

  function Find(entries: seq<Entry>, user: string): (k: nat)
    ensures k <= |entries| && (k < |entries| ==> entries[k].user == user)
    ensures forall i :: 0 <= i < k ==> entries[i].user != user
  {
    if entries == [] then 0 else if entries[0].user == user then 0 else 1 + Find(entries[1..], user)
  }

  /** The first row of a username decides its line; later rows fill in what is missing. */
  function Merge(b: Batch, r: Row): Batch {
    var k := Find(b.entries, r.user);
    if k == |b.entries| then b.(entries := b.entries + [Entry(r.user, r.sid, r.name, r.email, r.line)])
    else
      var e := b.entries[k];
      Batch(b.entries[k := e.(sid := Settle(e.sid, r.sid), name := Settle(e.name, r.name), email := Settle(e.email, r.email))],
            b.conflicts + Clashes(r.line, Clash(e.sid, r.sid), TwoStudentIds))
  }

  function BatchOf(rows: seq<Row>): Batch {
    if rows == [] then Batch([], []) else Merge(BatchOf(rows[..|rows| - 1]), rows[|rows| - 1])
  }

  function SidSeen(entries: seq<Entry>, sid: string): bool {
    exists i :: 0 <= i < |entries| && entries[i].sid == Some(sid)
  }

  /** Two usernames with one student id. */
  function SharedSids(entries: seq<Entry>): seq<Issue> {
    if entries == [] then []
    else
      var n := |entries| - 1;
      SharedSids(entries[..n])
      + Clashes(entries[n].line, entries[n].sid.Some? && SidSeen(entries[..n], entries[n].sid.value), SharedStudentId)
  }

  // ------------------------------------------------------------------ resolving against the database

  /** What the planner reads: rows by id, by username and by non-blank student id. */
  datatype Index = Index(students: Students, byName: map<string, StudentId>, bySid: map<string, StudentId>)

  ghost predicate Indexes(index: Index, students: Students) {
    && index.students == students
    && (forall u :: u in index.byName ==> index.byName[u] in students && students[index.byName[u]].username == u)
    && (forall id :: id in students ==> students[id].username in index.byName)
    && (forall x :: x in index.bySid ==> x != "" && index.bySid[x] in students && students[index.bySid[x]].sid == Some(x))
    && (forall id :: id in students && Present(students[id].sid) ==> students[id].sid.value in index.bySid)
  }

  datatype Update = Update(user: string, sid: Option<string>, name: Option<string>, email: Option<string>)

  datatype Resolution = Conflicting(problem: Problem) | Creating | Changing(update: Update) | Unchanged

  function Changed(wanted: Option<string>, current: Option<string>): Option<string> {
    if wanted.Some? && wanted != current then wanted else None
  }

  ghost predicate Grounded(index: Index) {
    && (forall u :: u in index.byName ==> index.byName[u] in index.students)
    && (forall x :: x in index.bySid ==> index.bySid[x] in index.students)
  }

  function Lookup(m: map<string, StudentId>, key: Option<string>): Option<StudentId> {
    if key.Some? && key.value in m then Some(m[key.value]) else None
  }

  function Resolve(index: Index, e: Entry): Resolution
    requires Grounded(index)
  {
    var bySid := Lookup(index.bySid, e.sid);
    var byName := Lookup(index.byName, Some(e.user));
    if bySid.Some? && index.students[bySid.value].username != e.user then Conflicting(StudentIdTaken)
    else if byName.Some? && Present(index.students[byName.value].sid) && Clash(index.students[byName.value].sid, e.sid) then
      Conflicting(OtherStudentId)
    else if bySid.None? && byName.None? then Creating
    else
      var s := index.students[if bySid.Some? then bySid.value else byName.value];
      var u := Update(e.user, if Present(s.sid) then None else e.sid, Changed(e.name, s.name), Changed(e.email, s.email));
      if u == Update(e.user, None, None, None) then Unchanged else Changing(u)
  }

  datatype Resolved = Resolved(creates: seq<Entry>, updates: seq<Update>, conflicts: seq<Issue>)

  function AddResolution(index: Index, r: Resolved, e: Entry): Resolved
    requires Grounded(index)
  {
    match Resolve(index, e)
    case Conflicting(problem) => r.(conflicts := r.conflicts + [Issue(e.line, problem)])
    case Creating => r.(creates := r.creates + [e])
    case Changing(u) => r.(updates := r.updates + [u])
    case Unchanged => r
  }

  function ResolvedAll(index: Index, entries: seq<Entry>): Resolved
    requires Grounded(index)
  {
    if entries == [] then Resolved([], [], [])
    else AddResolution(index, ResolvedAll(index, entries[..|entries| - 1]), entries[|entries| - 1])
  }

  /** The usernames that are not on the lab's roster yet. */
  predicate Joining(index: Index, lab: Lab, e: Entry) {
    var byName := Lookup(index.byName, Some(e.user));
    var existing := if byName.Some? then byName else Lookup(index.bySid, e.sid);
    !(existing.Some? && existing.value in lab.members)
  }

  function Joiners(index: Index, lab: Lab, entries: seq<Entry>): seq<string> {
    if entries == [] then []
    else
      var e := entries[|entries| - 1];
      Joiners(index, lab, entries[..|entries| - 1]) + (if Joining(index, lab, e) then [e.user] else [])
  }

  // ------------------------------------------------------------------ the plan

  /** The fields that are present change; `piUser` names the new PI account. */
  datatype Plan = Plan(
    piUser: Option<string>, piName: Option<string>, piEmail: Option<string>,
    creates: seq<Entry>, updates: seq<Update>, joiners: seq<string>,
    conflicts: seq<Issue>, invalid: seq<Issue>)
  {
    predicate Committable() {
      conflicts == [] && invalid == []
    }

    predicate Empty() {
      piUser.None? && piName.None? && piEmail.None? && creates == [] && updates == [] && joiners == []
    }
  }

  function Rejected(line: nat, problem: Problem): Plan {
    Plan(None, None, None, [], [], [], [], [Issue(line, problem)])
  }

  function CurrentPi(students: Students, lab: Lab): Option<string> {
    if lab.pi.Some? && lab.pi.value in students then Some(students[lab.pi.value].username) else None
  }

  /** Phases B to C2 on the rows that survived phase A. */
  function PlanRows(index: Index, lab: Lab, rows: seq<Row>, invalid: seq<Issue>): Plan
    requires Grounded(index)
  {
    var pi := PiOf(rows);
    var batch := BatchOf(rows);
    var resolved := ResolvedAll(index, batch.entries);
    Plan(Changed(pi.user, CurrentPi(index.students, lab)), Changed(pi.name, lab.piName), Changed(pi.email, lab.piEmail),
         resolved.creates, resolved.updates, Joiners(index, lab, batch.entries),
         pi.conflicts + batch.conflicts + SharedSids(batch.entries) + resolved.conflicts, invalid)
  }

  function PlanText(lower: string -> string, index: Index, lab: Lab, text: string): Plan
    requires Grounded(index)
  {
    var parsed := Csv.Parse(text);
    if |text| > MAX_IMPORT_CHARS then Rejected(0, TooLarge)
    else if parsed.headers == [] then Rejected(0, EmptyFile)
    else if "username" !in parsed.headers then Rejected(1, NoUsernameColumn)
    else if |parsed.rows| > MAX_IMPORT_ROWS then Rejected(0, TooManyRows)
    else PlanRows(index, lab, ValidRows(lower, parsed.rows), InvalidRows(lower, parsed.rows))
  }

  // ------------------------------------------------------------------ the planner's loops

  function Indexed(index: Index, id: StudentId, s: Student): Index {
    Index(index.students[id := s], index.byName[s.username := id],
          if Present(s.sid) then index.bySid[s.sid.value := id] else index.bySid)
  }

  lemma IndexedOne(index: Index, id: StudentId, s: Student)
    requires Indexes(index, index.students) && id !in index.students
    requires forall other :: other in index.students ==> Differ(index.students[other], s)
    ensures Indexes(Indexed(index, id, s), index.students[id := s])
  {
  }

  /** The index covers the students except `rest`. */
  ghost predicate Covers(index: Index, students: Students, rest: set<StudentId>) {
    && rest <= students.Keys && index.students == students - rest && Indexes(index, index.students)
  }

  lemma CoversOneMore(index: Index, students: Students, rest: set<StudentId>, id: StudentId)
    requires Unique(students) && Covers(index, students, rest) && id in rest
    ensures Covers(Indexed(index, id, students[id]), students, rest - {id})
  {
    hide Indexes;
    assert forall other :: other in index.students ==> Differ(students[other], students[id]);
    IndexedOne(index, id, students[id]);
    assert index.students[id := students[id]] == students - (rest - {id});
  }

  lemma CoversAll(index: Index, students: Students)
    requires Covers(index, students, {})
    ensures Indexes(index, students) && Grounded(index)
  {
    assert students - {} == students;
  }

  method IndexStudents(students: Students) returns (index: Index)
    requires Unique(students)
    ensures Indexes(index, students) && Grounded(index)
  {
    index := Index(map[], map[], map[]);
    var rest := students.Keys;
    assert students - rest == map[];
    assert Covers(index, students, rest);
    hide Indexes, Covers, Grounded, Indexed;
    while rest != {}
      invariant rest <= students.Keys && Covers(index, students, rest)
      decreases |rest|
    {
      var id :| id in rest;
      CoversOneMore(index, students, rest, id);
      index := Indexed(index, id, students[id]);
      rest := rest - {id};
    }
    CoversAll(index, students);
  }

  method ValidateRows(lower: string -> string, rows: seq<map<string, string>>) returns (valid: seq<Row>, invalid: seq<Issue>)
    ensures valid == ValidRows(lower, rows) && invalid == InvalidRows(lower, rows)
  {
    valid, invalid := [], [];
    for i := 0 to |rows|
      invariant valid == ValidRows(lower, rows[..i]) && invalid == InvalidRows(lower, rows[..i])
    {
      assert rows[..i + 1][..i] == rows[..i];
      match ReadRow(lower, rows[i], i + 2) {
        case Ok(row) => valid := valid + [row];
        case Err(issue) => invalid := invalid + [issue];
      }
    }
    assert rows[..|rows|] == rows;
  }

  method FindPi(rows: seq<Row>) returns (pi: FilePi)
    ensures pi == PiOf(rows)
  {
    pi := FilePi(None, None, None, []);
    for i := 0 to |rows|
      invariant pi == PiOf(rows[..i])
    {
      assert rows[..i + 1][..i] == rows[..i];
      pi := AddPi(pi, rows[i]);
    }
    assert rows[..|rows|] == rows;
  }

  method MergeRows(rows: seq<Row>) returns (batch: Batch)
    ensures batch == BatchOf(rows)
  {
    batch := Batch([], []);
    for i := 0 to |rows|
      invariant batch == BatchOf(rows[..i])
    {
      assert rows[..i + 1][..i] == rows[..i];
      batch := Merge(batch, rows[i]);
    }
    assert rows[..|rows|] == rows;
  }

  method CheckSids(entries: seq<Entry>) returns (conflicts: seq<Issue>)
    ensures conflicts == SharedSids(entries)
  {
    conflicts := [];
    var seen: map<string, string> := map[];
    for i := 0 to |entries|
      invariant conflicts == SharedSids(entries[..i])
      invariant forall sid :: sid in seen <==> SidSeen(entries[..i], sid)
    {
      assert entries[..i + 1][..i] == entries[..i];
      var e := entries[i];
      assert forall sid :: SidSeen(entries[..i + 1], sid) <==> SidSeen(entries[..i], sid) || e.sid == Some(sid) by {
        forall sid | SidSeen(entries[..i], sid) || e.sid == Some(sid)
          ensures SidSeen(entries[..i + 1], sid)
        {
          if e.sid == Some(sid) {
            assert entries[..i + 1][i].sid == Some(sid);
          } else {
            var k :| 0 <= k < i && entries[..i][k].sid == Some(sid);
            assert entries[..i + 1][k].sid == Some(sid);
          }
        }
      }
      if e.sid.Some? {
        if e.sid.value in seen {
          conflicts := conflicts + [Issue(e.line, SharedStudentId)];
        } else {
          seen := seen[e.sid.value := e.user];
        }
      }
    }
    assert entries[..|entries|] == entries;
  }

  method ResolveEntries(index: Index, lab: Lab, entries: seq<Entry>) returns (resolved: Resolved, joiners: seq<string>)
    requires Grounded(index)
    ensures resolved == ResolvedAll(index, entries) && joiners == Joiners(index, lab, entries)
  {
    resolved, joiners := Resolved([], [], []), [];
    for i := 0 to |entries|
      invariant resolved == ResolvedAll(index, entries[..i]) && joiners == Joiners(index, lab, entries[..i])
    {
      assert entries[..i + 1][..i] == entries[..i];
      resolved := AddResolution(index, resolved, entries[i]);
      if Joining(index, lab, entries[i]) {
        joiners := joiners + [entries[i].user];
      }
    }
    assert entries[..|entries|] == entries;
  }

  method PlanRosterImport(lower: string -> string, students: Students, lab: Lab, text: string) returns (plan: Plan, index: Index)
    requires Unique(students)
    ensures Indexes(index, students) && Grounded(index)
    ensures plan == PlanText(lower, index, lab, text)
  {
    index := IndexStudents(students);
    if |text| > MAX_IMPORT_CHARS {
      return Rejected(0, TooLarge), index;
    }
    var parsed := Csv.ParseCsv(text);
    if parsed.headers == [] {
      return Rejected(0, EmptyFile), index;
    }
    if "username" !in parsed.headers {
      return Rejected(1, NoUsernameColumn), index;
    }
    if |parsed.rows| > MAX_IMPORT_ROWS {
      return Rejected(0, TooManyRows), index;
    }
    var rows, invalid := ValidateRows(lower, parsed.rows);
    var pi := FindPi(rows);
    var batch := MergeRows(rows);
    var shared := CheckSids(batch.entries);
    var resolved, joiners := ResolveEntries(index, lab, batch.entries);
    plan := Plan(Changed(pi.user, CurrentPi(students, lab)), Changed(pi.name, lab.piName), Changed(pi.email, lab.piEmail),
                 resolved.creates, resolved.updates, joiners,
                 pi.conflicts + batch.conflicts + shared + resolved.conflicts, invalid);
  }
}
