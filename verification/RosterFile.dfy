/**
 * What an import does in terms of the cells of its file: which rows are refused and why, which cell of
 * which row a plan carries, and what the tables show afterwards. Nothing here speaks of the planner's phases.
 */
module RosterFile {
  import opened Prelude
  import Csv
  import opened RosterPlan
  import opened RosterImport

  type Cells = map<string, string>

  // ------------------------------------------------------------------ what a file says

  /** A trimmed cell; the columns that identify somebody, and the role, are folded. */
  function Says(lower: string -> string, row: Cells, column: string): string {
    var cell := if column in row then Csv.Trim(row[column]) else "";
    if column == "role" || column == "username" || column == "email" then lower(cell) else cell
  }

  /** The first row among those picked that does not leave the column blank decides. */
  function First(lower: string -> string, rows: seq<Cells>, picks: Cells -> bool, column: string): Option<string> {
    if rows == [] then None
    else if picks(rows[0]) && Says(lower, rows[0], column) != "" then Some(Says(lower, rows[0], column))
    else First(lower, rows[1..], picks, column)
  }

  function RowsOf(lower: string -> string, user: string): Cells -> bool {
    row => Says(lower, row, "username") == user
  }

  function PiRows(lower: string -> string): Cells -> bool {
    row => Says(lower, row, "role") == "pi"
  }

  function FileSays(lower: string -> string, text: string, user: string, column: string): Option<string> {
    First(lower, Csv.Parse(text).rows, RowsOf(lower, user), column)
  }

  function FileSaysOfPi(lower: string -> string, text: string, column: string): Option<string> {
    First(lower, Csv.Parse(text).rows, PiRows(lower), column)
  }

  ghost predicate Mentions(lower: string -> string, text: string, user: string) {
    exists i :: 0 <= i < |Csv.Parse(text).rows| && Says(lower, Csv.Parse(text).rows[i], "username") == user
  }

  // ------------------------------------------------------------------ which rows are refused

  predicate NamesSomebody(lower: string -> string, row: Cells) {
    Says(lower, row, "role") in {"", "student", "pi"} && ValidUsername(Says(lower, row, "username"))
  }

  predicate GoodSid(lower: string -> string, row: Cells) {
    Says(lower, row, "student_id") == "" || ValidStudentId(Says(lower, row, "student_id"))
  }

  predicate GoodEmail(lower: string -> string, row: Cells) {
    Says(lower, row, "email") == "" || ValidEmail(Says(lower, row, "email"))
  }

  predicate HasEmail(lower: string -> string, row: Cells) {
    Says(lower, row, "email") != ""
  }

  predicate OfPi(lower: string -> string, row: Cells) {
    Says(lower, row, "role") == "pi"
  }

  /** Only a PI's row needs an email; every cell that is not blank must be well-formed. */
  predicate Acceptable(lower: string -> string, row: Cells) {
    NamesSomebody(lower, row) && GoodSid(lower, row) && GoodEmail(lower, row) && (OfPi(lower, row) ==> HasEmail(lower, row))
  }

  /** The first thing wrong with a row; a PI's email is looked at before the student id, a student's after it. */
  predicate Blames(lower: string -> string, row: Cells, problem: Problem) {
    match problem
    case UnknownRole => Says(lower, row, "role") !in {"", "student", "pi"}
    case UsernameMissing => Says(lower, row, "role") in {"", "student", "pi"} && Says(lower, row, "username") == ""
    case UsernameInvalid =>
      && Says(lower, row, "role") in {"", "student", "pi"} && Says(lower, row, "username") != ""
      && !ValidUsername(Says(lower, row, "username"))
    case EmailMissing => NamesSomebody(lower, row) && OfPi(lower, row) && !HasEmail(lower, row)
    case EmailInvalid => NamesSomebody(lower, row) && !GoodEmail(lower, row) && (OfPi(lower, row) || GoodSid(lower, row))
    case StudentIdInvalid =>
      NamesSomebody(lower, row) && !GoodSid(lower, row) && (OfPi(lower, row) ==> HasEmail(lower, row) && GoodEmail(lower, row))
    case _ => false
  }

  lemma RowRefusedIff(lower: string -> string, row: Cells, line: nat)
    ensures ReadRow(lower, row, line).Err? <==> !Acceptable(lower, row)
    ensures ReadRow(lower, row, line).Err? ==>
              ReadRow(lower, row, line).error.line == line && Blames(lower, row, ReadRow(lower, row, line).error.problem)
    ensures ReadRow(lower, row, line).Ok? ==> ReadRow(lower, row, line).value == RowFor(lower, row, line)
  {
    hide ValidUsername, ValidStudentId, ValidEmail, Csv.Trim;
    CellsAreFields(lower, row);
    BlankIsNoUsername();
    hide Says, Field;
  }

  lemma CellsAreFields(lower: string -> string, row: Cells)
    ensures Says(lower, row, "role") == lower(Field(row, "role")) && Says(lower, row, "username") == lower(Field(row, "username"))
    ensures Says(lower, row, "email") == lower(Field(row, "email"))
    ensures Says(lower, row, "name") == Field(row, "name") && Says(lower, row, "student_id") == Field(row, "student_id")
  {
  }

  lemma BlankIsNoUsername()
    ensures !ValidUsername("")
  {
  }

  function Value(s: string): Option<string> {
    if s == "" then None else Some(s)
  }

  function RowFor(lower: string -> string, row: Cells, line: nat): Row {
    Row(line, if Says(lower, row, "role") == "pi" then Pi else Member, Says(lower, row, "username"),
        Value(Says(lower, row, "student_id")), Value(Says(lower, row, "name")), Value(Says(lower, row, "email")))
  }

  ghost predicate IssuesFit(lower: string -> string, rows: seq<Cells>, invalid: seq<Issue>) {
    && (forall k :: 0 <= k < |invalid| ==> 2 <= invalid[k].line < |rows| + 2 && Blames(lower, rows[invalid[k].line - 2], invalid[k].problem))
    && (forall j, k :: 0 <= j < k < |invalid| ==> invalid[j].line < invalid[k].line)
    && (forall i :: 0 <= i < |rows| ==> (Acceptable(lower, rows[i]) <==> !Refused(invalid, i + 2)))
  }

  predicate Refused(invalid: seq<Issue>, line: nat) {
    exists k :: 0 <= k < |invalid| && invalid[k].line == line
  }

  lemma {:induction false} InvalidRowsFit(lower: string -> string, rows: seq<Cells>)
    ensures IssuesFit(lower, rows, InvalidRows(lower, rows))
    decreases |rows|
  {
    if rows != [] {
      var n := |rows| - 1;
      InvalidRowsFit(lower, rows[..n]);
      RowRefusedIff(lower, rows[n], n + 2);
      OneMoreRow(lower, rows, InvalidRows(lower, rows[..n]), ReadRow(lower, rows[n], n + 2));
    }
  }

  lemma OneMoreRow(lower: string -> string, rows: seq<Cells>, before: seq<Issue>, read: Result<Row, Issue>)
    requires rows != [] && IssuesFit(lower, rows[..|rows| - 1], before)
    requires read.Err? <==> !Acceptable(lower, rows[|rows| - 1])
    requires read.Err? ==> read.error.line == |rows| + 1 && Blames(lower, rows[|rows| - 1], read.error.problem)
    ensures IssuesFit(lower, rows, before + if read.Err? then [read.error] else [])
  {
    hide Acceptable, Blames, Refused;
    var n := |rows| - 1;
    var after := before + if read.Err? then [read.error] else [];
    assert forall i :: 0 <= i < n ==> rows[..n][i] == rows[i];
    forall k | 0 <= k < |after|
      ensures 2 <= after[k].line < |rows| + 2 && Blames(lower, rows[after[k].line - 2], after[k].problem)
    {
      if k < |before| {
        assert rows[..n][before[k].line - 2] == rows[before[k].line - 2];
      }
    }
    RefusedOneMore(before, n + 2, read);
    forall i | 0 <= i < |rows|
      ensures Acceptable(lower, rows[i]) <==> !Refused(after, i + 2)
    {
      assert i < n ==> (Refused(before, i + 2) <==> Refused(after, i + 2));
    }
  }

  lemma RefusedOneMore(before: seq<Issue>, last: nat, read: Result<Row, Issue>)
    requires (forall k :: 0 <= k < |before| ==> before[k].line < last) && (read.Err? ==> read.error.line == last)
    ensures
      var after := before + if read.Err? then [read.error] else [];
      && (Refused(after, last) <==> read.Err?)
      && forall line: nat :: line != last ==> (Refused(before, line) <==> Refused(after, line))
  {
    var after := before + if read.Err? then [read.error] else [];
    assert read.Err? ==> after[|before|].line == last;
    forall line: nat | line != last
      ensures Refused(before, line) <==> Refused(after, line)
    {
      RefusedEarlier(before, after, line, last);
    }
  }

  lemma RefusedEarlier(before: seq<Issue>, after: seq<Issue>, line: nat, last: nat)
    requires line != last && |before| <= |after| <= |before| + 1 && after[..|before|] == before
    requires |after| > |before| ==> after[|before|].line == last
    ensures Refused(before, line) <==> Refused(after, line)
  {
    if Refused(before, line) {
      var k :| 0 <= k < |before| && before[k].line == line;
      assert after[k] == before[k];
    }
    if Refused(after, line) {
      var k :| 0 <= k < |after| && after[k].line == line;
      assert before[k] == after[k];
    }
  }

  /**
   * Before the rows, a file is refused for its size, for being empty, for lacking the username column or
   * for its number of rows. Otherwise exactly the rows that are not acceptable are listed, each once, in
   * order, with the first thing that is wrong with it.
   */
  lemma RefusedRowsAreTheUnacceptable(lower: string -> string, index: Index, lab: Lab, text: string)
    requires Grounded(index)
    ensures
      var plan := PlanText(lower, index, lab, text);
      var parsed := Csv.Parse(text);
      if |text| > 1_000_000 then plan.invalid == [Issue(0, TooLarge)]
      else if parsed.headers == [] then plan.invalid == [Issue(0, EmptyFile)]
      else if "username" !in parsed.headers then plan.invalid == [Issue(1, NoUsernameColumn)]
      else if |parsed.rows| > 5_000 then plan.invalid == [Issue(0, TooManyRows)]
      else IssuesFit(lower, parsed.rows, plan.invalid)
  {
    hide ValidRows, InvalidRows, IssuesFit, PiOf, BatchOf, ResolvedAll, Joiners, SharedSids, Csv.Parse;
    InvalidRowsFit(lower, Csv.Parse(text).rows);
  }

  // ------------------------------------------------------------------ the rows of a file without refused ones

  lemma {:induction false} AllRowsRead(lower: string -> string, rows: seq<Cells>)
    requires InvalidRows(lower, rows) == []
    ensures |ValidRows(lower, rows)| == |rows|
    ensures forall i :: 0 <= i < |rows| ==> ValidRows(lower, rows)[i] == RowFor(lower, rows[i], i + 2)
    decreases |rows|
  {
    hide ReadRow, RowFor, Acceptable, Blames;
    if rows != [] {
      var n := |rows| - 1;
      assert ValidRows(lower, rows)
             == ValidRows(lower, rows[..n]) + if ReadRow(lower, rows[n], n + 2).Ok? then [ReadRow(lower, rows[n], n + 2).value] else [];
      AllRowsRead(lower, rows[..n]);
      RowRefusedIff(lower, rows[n], n + 2);
      assert forall i :: 0 <= i < n ==> rows[..n][i] == rows[i];
    }
  }

  datatype Column = Sid | Name | Email

  function ColumnName(c: Column): string {
    match c case Sid => "student_id" case Name => "name" case Email => "email"
  }

  function OfRow(r: Row, c: Column): Option<string> {
    match c case Sid => r.sid case Name => r.name case Email => r.email
  }

  function OfEntry(e: Entry, c: Column): Option<string> {
    match c case Sid => e.sid case Name => e.name case Email => e.email
  }

  /** The first value among the rows of a user. */
  function FirstRow(rows: seq<Row>, user: string, c: Column): Option<string> {
    if rows == [] then None
    else if FirstRow(rows[..|rows| - 1], user, c).Some? then FirstRow(rows[..|rows| - 1], user, c)
    else if rows[|rows| - 1].user == user then OfRow(rows[|rows| - 1], c) else None
  }

  lemma {:induction false} MergedIsFirst(rows: seq<Row>, k: nat, c: Column)
    requires k < |BatchOf(rows).entries| && NoBlankSidRows(rows)
    ensures OfEntry(BatchOf(rows).entries[k], c) == FirstRow(rows, BatchOf(rows).entries[k].user, c)
    decreases |rows|
  {
    var n := |rows| - 1;
    var b := BatchOf(rows[..n]);
    BatchShape(rows[..n]);
    var user := BatchOf(rows).entries[k].user;
    if k < |b.entries| {
      MergedIsFirst(rows[..n], k, c);
      assert b.entries[k].user == user;
      var f := Find(b.entries, rows[n].user);
      assert rows[n].user == user ==> f == k;
    } else {
      NoEntryNoRow(rows[..n], user, c);
    }
  }

  lemma {:induction false} NoEntryNoRow(rows: seq<Row>, user: string, c: Column)
    requires NoBlankSidRows(rows) && forall i :: 0 <= i < |BatchOf(rows).entries| ==> BatchOf(rows).entries[i].user != user
    ensures FirstRow(rows, user, c).None?
    decreases |rows|
  {
    if rows != [] {
      var n := |rows| - 1;
      var b := BatchOf(rows[..n]);
      var f := Find(b.entries, rows[n].user);
      assert BatchOf(rows).entries[f].user == rows[n].user;
      forall i | 0 <= i < |b.entries|
        ensures b.entries[i].user != user
      {
        assert BatchOf(rows).entries[i].user == b.entries[i].user;
      }
      NoEntryNoRow(rows[..n], user, c);
    }
  }

  lemma {:induction false} FirstOfMore(lower: string -> string, rows: seq<Cells>, picks: Cells -> bool, column: string)
    requires rows != []
    ensures
      var n := |rows| - 1;
      var before := First(lower, rows[..n], picks, column);
      First(lower, rows, picks, column)
      == if before.Some? then before else if picks(rows[n]) then Value(Says(lower, rows[n], column)) else None
    decreases |rows|
  {
    hide Says;
    if |rows| > 1 {
      var n := |rows| - 1;
      FirstOfMore(lower, rows[1..], picks, column);
      assert rows[1..][..n - 1] == rows[..n][1..];
      assert rows[1..][n - 1] == rows[n];
    } else {
      assert rows[..0] == [];
      assert First(lower, rows[1..], picks, column).None?;
    }
  }

  lemma {:induction false} FirstRowIsFirst(lower: string -> string, rows: seq<Cells>, valid: seq<Row>, user: string, c: Column)
    requires |valid| == |rows| && forall i :: 0 <= i < |rows| ==> valid[i] == RowFor(lower, rows[i], i + 2)
    ensures FirstRow(valid, user, c) == First(lower, rows, RowsOf(lower, user), ColumnName(c))
    decreases |rows|
  {
    hide Says;
    if rows != [] {
      var n := |rows| - 1;
      FirstRowIsFirst(lower, rows[..n], valid[..n], user, c);
      FirstOfMore(lower, rows, RowsOf(lower, user), ColumnName(c));
    }
  }

  lemma {:induction false} FilePiIsFirst(lower: string -> string, rows: seq<Cells>, valid: seq<Row>)
    requires |valid| == |rows| && forall i :: 0 <= i < |rows| ==> valid[i] == RowFor(lower, rows[i], i + 2)
    requires forall i :: 0 <= i < |rows| ==> Says(lower, rows[i], "username") != ""
    ensures PiOf(valid).user == First(lower, rows, PiRows(lower), "username")
    ensures PiOf(valid).name == First(lower, rows, PiRows(lower), "name")
    ensures PiOf(valid).email == First(lower, rows, PiRows(lower), "email")
    decreases |rows|
  {
    hide Says;
    if rows != [] {
      var n := |rows| - 1;
      FilePiIsFirst(lower, rows[..n], valid[..n]);
      FirstOfMore(lower, rows, PiRows(lower), "username");
      FirstOfMore(lower, rows, PiRows(lower), "name");
      FirstOfMore(lower, rows, PiRows(lower), "email");
    }
  }

  // ------------------------------------------------------------------ from entries to cells

  lemma AcceptableHasUsername(lower: string -> string, rows: seq<Cells>)
    requires InvalidRows(lower, rows) == []
    ensures forall i :: 0 <= i < |rows| ==> Says(lower, rows[i], "username") != ""
  {
    InvalidRowsFit(lower, rows);
    hide Says;
    BlankIsNoUsername();
    forall i | 0 <= i < |rows|
      ensures Says(lower, rows[i], "username") != ""
    {
      assert Acceptable(lower, rows[i]);
    }
  }

  /** The rows of an importable file, as read. */
  lemma FileIsRead(lower: string -> string, r: Roster, index: Index, text: string)
    requires Grounded(index) && Importable(lower, r, index, text)
    ensures
      var rows, valid := Csv.Parse(text).rows, FileRows(lower, text);
      && |valid| == |rows| && (forall i :: 0 <= i < |rows| ==> valid[i] == RowFor(lower, rows[i], i + 2))
      && (forall i :: 0 <= i < |rows| ==> Says(lower, rows[i], "username") != "")
      && PlanText(lower, index, r.lab, text) == PlanRows(index, r.lab, valid, [])
      && PlansCleanly(r, index, valid, [])
  {
    ImportablePlansCleanly(lower, r, index, text);
    var rows := Csv.Parse(text).rows;
    assert InvalidRows(lower, rows) == [] by {
      NoConflictParts(r, index, FileRows(lower, text), InvalidRows(lower, rows));
    }
    hide Importable, PlanText, PlanRows, PlansCleanly, Csv.Parse, Says, RowFor, ValidRows;
    AllRowsRead(lower, rows);
    AcceptableHasUsername(lower, rows);
    FileRowsAreValid(lower, text);
  }

  lemma FileRowsAreValid(lower: string -> string, text: string)
    ensures FileRows(lower, text) == ValidRows(lower, Csv.Parse(text).rows)
  {
  }

  /** The entry of a username carries the file's values for it. */
  ghost predicate FromFile(lower: string -> string, text: string, e: Entry) {
    && Mentions(lower, text, e.user)
    && e.sid == FileSays(lower, text, e.user, "student_id")
    && e.name == FileSays(lower, text, e.user, "name") && e.email == FileSays(lower, text, e.user, "email")
  }

  lemma EntriesAreFromFile(lower: string -> string, text: string, valid: seq<Row>)
    requires |valid| == |Csv.Parse(text).rows| && NoBlankSidRows(valid)
    requires forall i :: 0 <= i < |valid| ==> valid[i] == RowFor(lower, Csv.Parse(text).rows[i], i + 2)
    ensures forall k :: 0 <= k < |BatchOf(valid).entries| ==> FromFile(lower, text, BatchOf(valid).entries[k])
    ensures forall user :: Mentions(lower, text, user) <==> UserIn(BatchOf(valid).entries, user)
  {
    hide Csv.Parse, BatchOf, Says, First;
    var rows, entries := Csv.Parse(text).rows, BatchOf(valid).entries;
    forall k | 0 <= k < |entries|
      ensures FromFile(lower, text, entries[k])
    {
      var user := entries[k].user;
      assert Mentions(lower, text, user) by {
        assert UserIn(entries, user);
        BatchUsersAreRows(valid, user);
        var i :| 0 <= i < |valid| && valid[i].user == user;
        assert Says(lower, rows[i], "username") == user;
      }
      MergedIsFirst(valid, k, Sid);
      MergedIsFirst(valid, k, Name);
      MergedIsFirst(valid, k, Email);
      FirstRowIsFirst(lower, rows, valid, user, Sid);
      FirstRowIsFirst(lower, rows, valid, user, Name);
      FirstRowIsFirst(lower, rows, valid, user, Email);
    }
    forall user | Mentions(lower, text, user)
      ensures UserIn(entries, user)
    {
      var i :| 0 <= i < |rows| && Says(lower, rows[i], "username") == user;
      BatchShape(valid);
      assert valid[i].user == user;
    }
  }

  // ------------------------------------------------------------------ what a plan carries

  /** A value that the file has and the table does not show. */
  function Missing(said: Option<string>, stored: Option<string>): Option<string> {
    if said.Some? && said != stored then said else None
  }

  /** The student is the update's, and the update carries exactly what the file says otherwise about it. */
  ghost predicate CarriesChanges(lower: string -> string, text: string, s: Student, u: Update) {
    && s.username == u.user && Mentions(lower, text, u.user) && u != Update(u.user, None, None, None)
    && u.sid == (if s.sid.Some? && s.sid.value != "" then None else FileSays(lower, text, u.user, "student_id"))
    && u.name == Missing(FileSays(lower, text, u.user, "name"), s.name)
    && u.email == Missing(FileSays(lower, text, u.user, "email"), s.email)
  }

  predicate NothingMissing(lower: string -> string, text: string, s: Student) {
    && ((s.sid.Some? && s.sid.value != "") || FileSays(lower, text, s.username, "student_id").None?)
    && Missing(FileSays(lower, text, s.username, "name"), s.name).None?
    && Missing(FileSays(lower, text, s.username, "email"), s.email).None?
  }

  /** The usernames mentioned that nobody has yet are created, once each, with the file's values. */
  ghost predicate CreatesFile(lower: string -> string, text: string, students: Students, creates: seq<Entry>) {
    && (forall e :: e in creates ==> FromFile(lower, text, e) && !Has(students, e.user))
    && (forall i, j :: 0 <= i < j < |creates| ==> creates[i].user != creates[j].user)
    && (forall user :: Mentions(lower, text, user) && !Has(students, user) ==> UserIn(creates, user))
  }

  /** Those that somebody has are updated where the file says something else. */
  ghost predicate UpdatesFile(lower: string -> string, text: string, students: Students, updates: seq<Update>) {
    && (forall u :: u in updates ==> exists id :: id in students && CarriesChanges(lower, text, students[id], u))
    && (forall i, j :: 0 <= i < j < |updates| ==> updates[i].user != updates[j].user)
    && (forall id :: id in students && Mentions(lower, text, students[id].username) && !NothingMissing(lower, text, students[id]) ==>
          exists u :: u in updates && CarriesChanges(lower, text, students[id], u))
  }

  lemma ResolvedEntry(lower: string -> string, text: string, index: Index, e: Entry)
    requires Reliable(index) && e.sid != Some("") && FromFile(lower, text, e) && !Resolve(index, e).Conflicting?
    ensures Resolve(index, e).Creating? <==> !Has(index.students, e.user)
    ensures !Resolve(index, e).Creating? ==> e.user in index.byName
    ensures !Resolve(index, e).Creating? ==>
              var s := index.students[index.byName[e.user]];
              && s.username == e.user
              && (Resolve(index, e).Changing? ==> CarriesChanges(lower, text, s, Resolve(index, e).update))
              && (Resolve(index, e).Unchanged? ==> NothingMissing(lower, text, s))
  {
    hide Unique, Indexes, FileSays, Mentions;
    if Resolve(index, e).Creating? {
      CreatingMeans(index, e);
    } else {
      ChangingMeans(index, e);
      ExistingIsByName(index, e);
      NameMeans(index, e.user);
    }
  }

  lemma CreatesAreFromFile(lower: string -> string, text: string, index: Index, entries: seq<Entry>)
    requires Grounded(index) && Clean(index, entries) && forall k :: 0 <= k < |entries| ==> FromFile(lower, text, entries[k])
    requires forall user :: Mentions(lower, text, user) <==> UserIn(entries, user)
    ensures CreatesFile(lower, text, index.students, ResolvedAll(index, entries).creates)
  {
    CreatesSpread(index, entries);
    hide Resolve, ResolvedAll, FromFile, Mentions, Taken, Unique, Indexes, Has, UserIn;
    var creates := ResolvedAll(index, entries).creates;
    forall e | e in entries
      ensures FromFile(lower, text, e) && (Resolve(index, e).Creating? <==> !Has(index.students, e.user))
    {
      ResolvedEntry(lower, text, index, e);
    }
    EveryNewUserIsCreated(lower, text, index.students, entries, creates);
  }

  lemma EveryNewUserIsCreated(lower: string -> string, text: string, students: Students, entries: seq<Entry>, creates: seq<Entry>)
    requires forall e :: e in entries && !Has(students, e.user) ==> e in creates
    requires forall user :: Mentions(lower, text, user) <==> UserIn(entries, user)
    ensures forall user :: Mentions(lower, text, user) && !Has(students, user) ==> UserIn(creates, user)
  {
    hide Mentions, Has;
    forall user | Mentions(lower, text, user) && !Has(students, user)
      ensures UserIn(creates, user)
    {
      var i :| 0 <= i < |entries| && entries[i].user == user;
      assert entries[i] in entries && entries[i] in creates;
    }
  }

  lemma UpdatesAreFromFile(lower: string -> string, text: string, index: Index, entries: seq<Entry>)
    requires Grounded(index) && Clean(index, entries) && forall k :: 0 <= k < |entries| ==> FromFile(lower, text, entries[k])
    requires forall user :: Mentions(lower, text, user) <==> UserIn(entries, user)
    ensures UpdatesFile(lower, text, index.students, ResolvedAll(index, entries).updates)
  {
    UpdatesSpread(index, entries);
    hide Resolve, ResolvedAll, FromFile, Mentions, Unique, Indexes, Has, CarriesChanges, NothingMissing;
    var updates := ResolvedAll(index, entries).updates;
    forall u | u in updates
      ensures exists id :: id in index.students && CarriesChanges(lower, text, index.students[id], u)
    {
      var e :| e in entries && UpdateOf(index, e, u);
      ResolvedEntry(lower, text, index, e);
      assert CarriesChanges(lower, text, index.students[index.byName[e.user]], u);
    }
    forall id | id in index.students && Mentions(lower, text, index.students[id].username) && !NothingMissing(lower, text, index.students[id])
      ensures exists u :: u in updates && CarriesChanges(lower, text, index.students[id], u)
    {
      var i :| 0 <= i < |entries| && entries[i].user == index.students[id].username;
      var e := entries[i];
      assert e in entries && Has(index.students, e.user);
      ResolvedEntry(lower, text, index, e);
      SameName(index.students, id, index.byName[e.user]);
      assert CarriesChanges(lower, text, index.students[id], Resolve(index, e).update);
    }
  }

  predicate OnRoster(r: Roster, user: string) {
    exists id :: id in r.students && r.students[id].username == user && id in r.lab.members
  }

  lemma JoinersAreFromFile(lower: string -> string, text: string, r: Roster, index: Index, entries: seq<Entry>)
    requires Clean(index, entries) && index.students == r.students && r.lab.members <= r.students.Keys
    requires forall user :: Mentions(lower, text, user) <==> UserIn(entries, user)
    ensures forall user :: user in Joiners(index, r.lab, entries) <==> Mentions(lower, text, user) && !OnRoster(r, user)
  {
    JoinersAreEntries(index, r.lab, entries);
    JoinersAreJoining(index, r.lab, entries);
    hide Mentions, Joiners, Resolve, Joining;
    forall e | e in entries
      ensures Joining(index, r.lab, e) <==> !OnRoster(r, e.user)
    {
      JoiningIffAbsent(r, index, e);
    }
    forall user | Mentions(lower, text, user) && !OnRoster(r, user)
      ensures user in Joiners(index, r.lab, entries)
    {
      var i :| 0 <= i < |entries| && entries[i].user == user;
      assert entries[i] in entries;
    }
  }

  lemma JoiningIffAbsent(r: Roster, index: Index, e: Entry)
    requires Reliable(index) && index.students == r.students && !Resolve(index, e).Conflicting? && e.sid != Some("")
    ensures Joining(index, r.lab, e) <==> !OnRoster(r, e.user)
  {
    if OnRoster(r, e.user) {
      var id :| id in r.students && r.students[id].username == e.user && id in r.lab.members;
      FoundByName(index, id);
    }
    if !Joining(index, r.lab, e) {
      var id := MemberAlready(index, r.lab, e);
    }
  }

  lemma {:induction false} JoinersAreJoining(index: Index, lab: Lab, entries: seq<Entry>)
    ensures forall user :: user in Joiners(index, lab, entries) ==> exists e :: e in entries && e.user == user && Joining(index, lab, e)
    decreases |entries|
  {
    if entries != [] {
      var n := |entries| - 1;
      JoinersAreJoining(index, lab, entries[..n]);
      assert entries == entries[..n] + [entries[n]];
      forall user | user in Joiners(index, lab, entries)
        ensures exists e :: e in entries && e.user == user && Joining(index, lab, e)
      {
        if user in Joiners(index, lab, entries[..n]) {
          var e :| e in entries[..n] && e.user == user && Joining(index, lab, e);
          assert e in entries;
        } else {
          assert entries[n] in entries;
        }
      }
    }
  }

  /** The username of the lab's PI. */
  function PiName(r: Roster): Option<string> {
    if r.lab.pi.Some? && r.lab.pi.value in r.students then Some(r.students[r.lab.pi.value].username) else None
  }

  /**
   * A committable plan says what the file says, cell by cell: whom it creates and changes, and with which
   * values; who joins the roster; and what changes about the PI.
   */
  lemma PlanSaysWhatTheFileSays(lower: string -> string, r: Roster, index: Index, text: string)
    requires Grounded(index) && Importable(lower, r, index, text)
    ensures
      var plan := PlanText(lower, index, r.lab, text);
      && CreatesFile(lower, text, r.students, plan.creates) && UpdatesFile(lower, text, r.students, plan.updates)
      && (forall user :: user in plan.joiners <==> Mentions(lower, text, user) && !OnRoster(r, user))
      && plan.piUser == Missing(FileSaysOfPi(lower, text, "username"), PiName(r))
      && plan.piName == Missing(FileSaysOfPi(lower, text, "name"), r.lab.piName)
      && plan.piEmail == Missing(FileSaysOfPi(lower, text, "email"), r.lab.piEmail)
  {
    var valid := FileRows(lower, text);
    FileIsRead(lower, r, index, text);
    PlanFacts(r, index, valid, []);
    assert NoBlankSidRows(valid) && r.lab.members <= r.students.Keys;
    hide PlansCleanly, Importable, PlanText, BatchOf, ResolvedAll, Joiners, CreatesFile, UpdatesFile, Mentions, OnRoster, PiOf,
      Clean, FromFile, First, Csv.Parse, FileRows, RowFor, Says, SharedSids, Unique, Numbered;
    EntriesAreFromFile(lower, text, valid);
    CreatesAreFromFile(lower, text, index, BatchOf(valid).entries);
    UpdatesAreFromFile(lower, text, index, BatchOf(valid).entries);
    JoinersAreFromFile(lower, text, r, index, BatchOf(valid).entries);
    FilePiIsFirst(lower, Csv.Parse(text).rows, valid);
  }

  // ------------------------------------------------------------------ what the tables show afterwards

  /** The student shows the file's values over its own; a student id once set stays. */
  ghost predicate ShowsFile(lower: string -> string, text: string, students: Students, w: Students, id: StudentId)
    requires id in w
  {
    var user := w[id].username;
    var sid, name, email := FileSays(lower, text, user, "student_id"), FileSays(lower, text, user, "name"), FileSays(lower, text, user, "email");
    if id in students then
      && w[id].sid == (if students[id].sid != None && students[id].sid != Some("") then students[id].sid
                       else if sid.Some? then sid else students[id].sid)
      && w[id].name == (if name.Some? then name else students[id].name)
      && w[id].email == (if email.Some? then email else students[id].email)
    else w[id].sid == sid && w[id].name == name && w[id].email == email
  }

  lemma ExactShowsFile(lower: string -> string, text: string, students: Students, w: Students, e: Entry)
    requires Unique(w) && FromFile(lower, text, e) && Exact(students, w, e)
    ensures exists id :: id in w && w[id].username == e.user && ShowsFile(lower, text, students, w, id)
  {
    hide FileSays, Mentions, Unique;
    var id :| id in w && w[id].username == e.user && IsExact(students, w, id, e);
    assert ShowsFile(lower, text, students, w, id);
  }

  /** The students mentioned are there and show the file; all others are as before. */
  ghost predicate StudentsShowFile(lower: string -> string, text: string, students: Students, w: Students) {
    && (forall user :: Mentions(lower, text, user) ==> exists id :: id in w && w[id].username == user && ShowsFile(lower, text, students, w, id))
    && (forall id :: id in students ==> id in w && w[id].username == students[id].username && w[id].uid == students[id].uid)
    && (forall id :: id in students && !Mentions(lower, text, students[id].username) ==> w[id] == students[id])
    && (forall id :: id in w && id !in students ==> Mentions(lower, text, w[id].username))
  }

  lemma LeftShowsFile(lower: string -> string, text: string, students: Students, w: Students, entries: seq<Entry>)
    requires Left(students, w, entries) && Unique(w)
    requires forall k :: 0 <= k < |entries| ==> FromFile(lower, text, entries[k])
    requires forall user :: Mentions(lower, text, user) <==> UserIn(entries, user)
    ensures StudentsShowFile(lower, text, students, w)
  {
    hide FromFile, Mentions, Unique, ShowsFile, Settled, Exact;
    forall user | Mentions(lower, text, user)
      ensures exists id :: id in w && w[id].username == user && ShowsFile(lower, text, students, w, id)
    {
      var i :| 0 <= i < |entries| && entries[i].user == user;
      ExactShowsFile(lower, text, students, w, entries[i]);
    }
  }

  lemma StudentsAfterImport(lower: string -> string, r: Roster, index: Index, text: string)
    requires Grounded(index) && Importable(lower, r, index, text)
    requires Applied(r, PlanText(lower, index, r.lab, text)).Some?
    ensures
      var after := Applied(r, PlanText(lower, index, r.lab, text)).value;
      StudentsShowFile(lower, text, r.students, after.students) && Unique(after.students)
  {
    var valid := FileRows(lower, text);
    var after := Applied(r, PlanText(lower, index, r.lab, text)).value;
    FileIsRead(lower, r, index, text);
    assert NoBlankSidRows(valid);
    hide BatchOf, Left, PlansCleanly, Importable, PlanText, PlanRows, Applied, Unique, Numbered, StudentsShowFile, FromFile, Mentions, RowFor,
      Says, NoBlankSidRows, FileRows;
    TransactionRuns(r, index, valid, []);
    EntriesAreFromFile(lower, text, valid);
    LeftShowsFile(lower, text, r.students, after.students, BatchOf(valid).entries);
  }

  /** What the transaction leaves of the lab. */
  lemma LabAfterImport(r: Roster, plan: Plan)
    requires Applied(r, plan).Some?
    ensures
      var after := Applied(r, plan).value;
      && (forall id :: id in after.lab.members <==>
            id in r.lab.members || (id in after.students && after.students[id].username in plan.joiners))
      && (if plan.piUser.Some? then after.lab.pi.Some? && after.lab.pi.value in after.students
                                    && after.students[after.lab.pi.value].username == plan.piUser.value
          else after.lab.pi == r.lab.pi)
      && after.lab.piName == (if plan.piName.Some? then plan.piName else r.lab.piName)
      && after.lab.piEmail == (if plan.piEmail.Some? then plan.piEmail else r.lab.piEmail)
  {
    hide CreatedAll, UpdatedAll;
  }

  lemma MembersAfterImport(lower: string -> string, text: string, r: Roster, w: Students, id: StudentId)
    requires Unique(w) && StudentsShowFile(lower, text, r.students, w)
    requires id in w && Mentions(lower, text, w[id].username) && OnRoster(r, w[id].username)
    ensures id in r.lab.members
  {
    hide Unique, Mentions, ShowsFile;
    var other :| other in r.students && r.students[other].username == w[id].username && other in r.lab.members;
    SameName(w, other, id);
  }

  /** The PI of the file, or the old one where the file names none. */
  lemma PiAfterImport(lower: string -> string, text: string, r: Roster, w: Students, pi: Option<StudentId>, wanted: Option<string>)
    requires StudentsShowFile(lower, text, r.students, w) && (r.lab.pi.Some? ==> r.lab.pi.value in r.students)
    requires wanted == Missing(FileSaysOfPi(lower, text, "username"), PiName(r))
    requires if wanted.Some? then pi.Some? && pi.value in w && w[pi.value].username == wanted.value else pi == r.lab.pi
    ensures match FileSaysOfPi(lower, text, "username")
            case Some(user) => pi.Some? && pi.value in w && w[pi.value].username == user
            case None => pi == r.lab.pi
  {
    hide Mentions, ShowsFile, FileSaysOfPi;
  }

  /**
   * After an import the tables show the file, cell by cell: everybody it mentions is there, on the roster,
   * with the first value the file gives in each column over what was stored; nobody else is touched; and the
   * lab shows the PI of the file.
   */
  lemma ImportShowsTheFile(lower: string -> string, r: Roster, index: Index, text: string)
    requires Grounded(index) && Importable(lower, r, index, text)
    requires Applied(r, PlanText(lower, index, r.lab, text)).Some?
    ensures
      var after := Applied(r, PlanText(lower, index, r.lab, text)).value;
      && StudentsShowFile(lower, text, r.students, after.students)
      && (forall id :: id in after.lab.members <==>
            id in r.lab.members || (id in after.students && Mentions(lower, text, after.students[id].username)))
      && (match FileSaysOfPi(lower, text, "username")
          case Some(user) => after.lab.pi.Some? && after.lab.pi.value in after.students
                             && after.students[after.lab.pi.value].username == user
          case None => after.lab.pi == r.lab.pi)
      && after.lab.piName == (if FileSaysOfPi(lower, text, "name").Some? then FileSaysOfPi(lower, text, "name") else r.lab.piName)
      && after.lab.piEmail == (if FileSaysOfPi(lower, text, "email").Some? then FileSaysOfPi(lower, text, "email") else r.lab.piEmail)
  {
    assert r.lab.pi.Some? ==> r.lab.pi.value in r.students;
    hide PlanText, Applied, Importable, StudentsShowFile, Mentions, OnRoster, CreatesFile, UpdatesFile, FileSaysOfPi, Unique, PiName;
    var plan := PlanText(lower, index, r.lab, text);
    var after := Applied(r, plan).value;
    StudentsAfterImport(lower, r, index, text);
    PlanSaysWhatTheFileSays(lower, r, index, text);
    LabAfterImport(r, plan);
    PiAfterImport(lower, text, r, after.students, after.lab.pi, plan.piUser);
    forall id | id in after.students && Mentions(lower, text, after.students[id].username) && OnRoster(r, after.students[id].username)
      ensures id in r.lab.members
    {
      MembersAfterImport(lower, text, r, after.students, id);
    }
  }

  // ------------------------------------------------------------------ which files are committable

  /** All values that are there are the same. */
  ghost predicate Agree(values: seq<Option<string>>) {
    forall i, j :: 0 <= i < |values| && 0 <= j < |values| ==> !Clash(values[i], values[j])
  }

  function FirstOf(values: seq<Option<string>>): Option<string> {
    if values == [] then None
    else if FirstOf(values[..|values| - 1]).Some? then FirstOf(values[..|values| - 1]) else values[|values| - 1]
  }

  lemma {:induction false} FirstOfIsThere(values: seq<Option<string>>)
    ensures FirstOf(values).Some? ==> FirstOf(values) in values
    ensures FirstOf(values).None? ==> forall i :: 0 <= i < |values| ==> values[i].None?
    decreases |values|
  {
    if values != [] {
      var n := |values| - 1;
      FirstOfIsThere(values[..n]);
      assert forall i :: 0 <= i < n ==> values[..n][i] == values[i];
    }
  }

  /** It is enough to compare each value with the first. */
  lemma OneMoreAgrees(values: seq<Option<string>>, v: Option<string>)
    ensures FirstOf(values + [v]) == (if FirstOf(values).Some? then FirstOf(values) else v)
    ensures Agree(values + [v]) <==> Agree(values) && !Clash(FirstOf(values), v)
  {
    var all := values + [v];
    assert all[..|values|] == values && all[|values|] == v;
    FirstOfIsThere(values);
    if Agree(all) {
      forall i, j | 0 <= i < |values| && 0 <= j < |values|
        ensures !Clash(values[i], values[j])
      {
        assert !Clash(all[i], all[j]);
      }
      if FirstOf(values).Some? {
        var i :| 0 <= i < |values| && values[i] == FirstOf(values);
        assert !Clash(all[i], all[|values|]);
      }
    }
    if Agree(values) && !Clash(FirstOf(values), v) {
      AgreeWithFirst(values, v);
    }
  }

  lemma AgreeWithFirst(values: seq<Option<string>>, v: Option<string>)
    requires Agree(values) && !Clash(FirstOf(values), v)
    ensures Agree(values + [v])
  {
    var all := values + [v];
    FirstOfIsThere(values);
    forall i | 0 <= i < |values|
      ensures !Clash(values[i], v)
    {
      if FirstOf(values).Some? {
        var k :| 0 <= k < |values| && values[k] == FirstOf(values);
        assert !Clash(values[i], values[k]);
      }
    }
    assert forall i :: 0 <= i < |values| ==> all[i] == values[i];
  }

  function ValuesOf(rows: seq<Row>, user: string, c: Column): seq<Option<string>> {
    seq(|rows|, i requires 0 <= i < |rows| => if rows[i].user == user then OfRow(rows[i], c) else None)
  }

  function PiUsers(rows: seq<Row>): seq<Option<string>> {
    seq(|rows|, i requires 0 <= i < |rows| => if rows[i].role.Pi? then Some(rows[i].user) else None)
  }

  function PiValues(rows: seq<Row>, c: Column): seq<Option<string>> {
    seq(|rows|, i requires 0 <= i < |rows| => if rows[i].role.Pi? then OfRow(rows[i], c) else None)
  }

  lemma {:induction false} PiConflictsIff(rows: seq<Row>)
    ensures PiOf(rows).user == FirstOf(PiUsers(rows)) && PiOf(rows).name == FirstOf(PiValues(rows, Name))
    ensures PiOf(rows).email == FirstOf(PiValues(rows, Email))
    ensures PiOf(rows).conflicts == [] <==> Agree(PiUsers(rows)) && Agree(PiValues(rows, Name)) && Agree(PiValues(rows, Email))
    decreases |rows|
  {
    hide FirstOf, Agree;
    if rows == [] {
      NothingClashes();
      assert PiUsers(rows) == [] && PiValues(rows, Name) == [] && PiValues(rows, Email) == [];
    } else {
      var n := |rows| - 1;
      var r := rows[n];
      PiConflictsIff(rows[..n]);
      var user := if r.role.Pi? then Some(r.user) else None;
      var name, email := if r.role.Pi? then r.name else None, if r.role.Pi? then r.email else None;
      assert PiUsers(rows) == PiUsers(rows[..n]) + [user];
      assert PiValues(rows, Name) == PiValues(rows[..n], Name) + [name];
      assert PiValues(rows, Email) == PiValues(rows[..n], Email) + [email];
      OneMoreAgrees(PiUsers(rows[..n]), user);
      OneMoreAgrees(PiValues(rows[..n], Name), name);
      OneMoreAgrees(PiValues(rows[..n], Email), email);
    }
  }

  lemma NothingClashes()
    ensures FirstOf([]).None? && Agree([])
  {
  }

  lemma {:induction false} FirstRowIsFirstOf(rows: seq<Row>, user: string, c: Column)
    ensures FirstRow(rows, user, c) == FirstOf(ValuesOf(rows, user, c))
    decreases |rows|
  {
    if rows != [] {
      var n := |rows| - 1;
      FirstRowIsFirstOf(rows[..n], user, c);
      assert ValuesOf(rows, user, c)[..n] == ValuesOf(rows[..n], user, c);
    }
  }

  lemma {:induction false} MergeConflictsIff(rows: seq<Row>)
    requires NoBlankSidRows(rows)
    ensures BatchOf(rows).conflicts == [] <==> forall user :: Agree(ValuesOf(rows, user, Sid))
    decreases |rows|
  {
    if rows == [] {
      NothingClashes();
      assert forall user :: ValuesOf(rows, user, Sid) == [];
    } else {
      var n := |rows| - 1;
      var r := rows[n];
      MergeConflictsIff(rows[..n]);
      MergeClashes(rows);
      hide BatchOf, FirstOf, Agree, NoBlankSidRows, ValuesOf, Clash;
      forall user
        ensures Agree(ValuesOf(rows, user, Sid))
           <==> Agree(ValuesOf(rows[..n], user, Sid)) && (user == r.user ==> !Clash(FirstOf(ValuesOf(rows[..n], user, Sid)), r.sid))
      {
        OneMoreRowAgrees(rows, user);
      }
    }
  }

  lemma OneMoreRowAgrees(rows: seq<Row>, user: string)
    requires rows != []
    ensures
      var n := |rows| - 1;
      Agree(ValuesOf(rows, user, Sid))
      <==> Agree(ValuesOf(rows[..n], user, Sid)) && (user == rows[n].user ==> !Clash(FirstOf(ValuesOf(rows[..n], user, Sid)), rows[n].sid))
  {
    hide FirstOf, Agree;
    var n := |rows| - 1;
    var v := if rows[n].user == user then rows[n].sid else None;
    assert ValuesOf(rows, user, Sid) == ValuesOf(rows[..n], user, Sid) + [v];
    OneMoreAgrees(ValuesOf(rows[..n], user, Sid), v);
  }

  /** Merging a row reports a conflict exactly when its student id differs from the first of its username. */
  lemma {:induction false} MergeClashes(rows: seq<Row>)
    requires rows != [] && NoBlankSidRows(rows)
    ensures
      var n := |rows| - 1;
      BatchOf(rows).conflicts == []
      <==> BatchOf(rows[..n]).conflicts == [] && !Clash(FirstOf(ValuesOf(rows[..n], rows[n].user, Sid)), rows[n].sid)
  {
    var n := |rows| - 1;
    var b := BatchOf(rows[..n]);
    var k := Find(b.entries, rows[n].user);
    if k < |b.entries| {
      MergedIsFirst(rows[..n], k, Sid);
    } else {
      NoEntryNoRow(rows[..n], rows[n].user, Sid);
    }
    FirstRowIsFirstOf(rows[..n], rows[n].user, Sid);
  }

  lemma {:induction false} SharedIff(entries: seq<Entry>)
    ensures SharedSids(entries) == [] <==> DistinctSids(entries)
    decreases |entries|
  {
    if SharedSids(entries) == [] {
      NoSharedSids(entries);
    }
    if DistinctSids(entries) && entries != [] {
      var n := |entries| - 1;
      assert forall i :: 0 <= i < n ==> entries[..n][i] == entries[i];
      SharedIff(entries[..n]);
    }
  }

  lemma {:induction false} NoneConflictingIff(index: Index, entries: seq<Entry>)
    requires Grounded(index)
    ensures ResolvedAll(index, entries).conflicts == [] <==> forall e :: e in entries ==> !Resolve(index, e).Conflicting?
    decreases |entries|
  {
    if entries != [] {
      hide Resolve;
      var n := |entries| - 1;
      NoneConflictingIff(index, entries[..n]);
      assert entries == entries[..n] + [entries[n]];
    }
  }

  /** The entry's student id is nobody else's, and is not another than the student's own. */
  ghost predicate SidFits(students: Students, user: string, sid: Option<string>) {
    sid.Some? ==> forall id :: id in students ==>
      && (students[id].sid == sid ==> students[id].username == user)
      && (students[id].username == user && students[id].sid != None && students[id].sid != Some("") ==> students[id].sid == sid)
  }

  lemma SidOwner(index: Index, sid: string)
    requires Reliable(index) && sid != ""
    ensures sid in index.bySid ==>
              forall id :: id in index.students && index.students[id].sid == Some(sid) <==> id == index.bySid[sid]
    ensures sid !in index.bySid ==> forall id :: id in index.students ==> index.students[id].sid != Some(sid)
  {
    hide Indexes, Unique;
    forall id | id in index.students && index.students[id].sid == Some(sid)
      ensures sid in index.bySid && index.bySid[sid] == id
    {
      FoundBySid(index, id);
    }
    if sid in index.bySid {
      BySidMeans(index, sid);
    }
  }

  lemma NameOwner(index: Index, user: string)
    requires Reliable(index)
    ensures user in index.byName ==>
              forall id :: id in index.students && index.students[id].username == user <==> id == index.byName[user]
    ensures user !in index.byName ==> forall id :: id in index.students ==> index.students[id].username != user
  {
    hide Indexes, Unique;
    forall id | id in index.students && index.students[id].username == user
      ensures user in index.byName && index.byName[user] == id
    {
      FoundByName(index, id);
    }
    if user in index.byName {
      NameMeans(index, user);
    }
  }

  lemma ConflictingIff(index: Index, e: Entry)
    requires Grounded(index) && Reliable(index) && e.sid != Some("")
    ensures Resolve(index, e).Conflicting? <==> !SidFits(index.students, e.user, e.sid)
  {
    hide Indexes, Unique;
    if e.sid.Some? {
      hide Reliable, Resolve, SidFits;
      FitsByOwner(index, e);
      ConflictsByOwner(index, e);
    }
  }

  lemma ConflictsByOwner(index: Index, e: Entry)
    requires Grounded(index) && e.sid.Some?
    ensures Resolve(index, e).Conflicting?
       <==> !(&& (e.sid.value in index.bySid ==> index.students[index.bySid[e.sid.value]].username == e.user)
              && (e.user in index.byName ==> !(Present(index.students[index.byName[e.user]].sid) && Clash(index.students[index.byName[e.user]].sid, e.sid))))
  {
  }

  /** Only the owners of the student id and of the username matter. */
  lemma FitsByOwner(index: Index, e: Entry)
    requires Grounded(index) && Reliable(index) && e.sid.Some? && e.sid != Some("")
    ensures SidFits(index.students, e.user, e.sid)
       <==> && (e.sid.value in index.bySid ==> index.students[index.bySid[e.sid.value]].username == e.user)
            && (e.user in index.byName ==> !(Present(index.students[index.byName[e.user]].sid) && Clash(index.students[index.byName[e.user]].sid, e.sid)))
  {
    hide Indexes, Unique;
    SidOwner(index, e.sid.value);
    NameOwner(index, e.user);
  }

  /** The values of a column that the picked rows do not leave blank are all the same. */
  ghost predicate CellsAgree(lower: string -> string, rows: seq<Cells>, picks: Cells -> bool, column: string) {
    forall i, j :: 0 <= i < |rows| && 0 <= j < |rows| && picks(rows[i]) && picks(rows[j])
                   && Says(lower, rows[i], column) != "" && Says(lower, rows[j], column) != "" ==>
      Says(lower, rows[i], column) == Says(lower, rows[j], column)
  }

  predicate SameSidSaid(lower: string -> string, text: string, user: string, other: string) {
    FileSays(lower, text, user, "student_id").Some? && FileSays(lower, text, user, "student_id") == FileSays(lower, text, other, "student_id")
  }

  /** No two usernames share a student id. */
  ghost predicate SidsDiffer(lower: string -> string, text: string) {
    forall user, other :: Mentions(lower, text, user) && Mentions(lower, text, other) && user != other ==>
      !SameSidSaid(lower, text, user, other)
  }

  /** The file contradicts neither itself nor the students on record. */
  ghost predicate Consistent(lower: string -> string, students: Students, text: string) {
    var rows := Csv.Parse(text).rows;
    && PiAgrees(lower, rows) && (forall user :: CellsAgree(lower, rows, RowsOf(lower, user), "student_id"))
    && SidsDiffer(lower, text) && SidsFit(lower, students, text)
  }

  lemma CellsOfUser(lower: string -> string, rows: seq<Cells>, valid: seq<Row>, user: string)
    requires |valid| == |rows| && forall i :: 0 <= i < |rows| ==> valid[i] == RowFor(lower, rows[i], i + 2)
    ensures Agree(ValuesOf(valid, user, Sid)) <==> CellsAgree(lower, rows, RowsOf(lower, user), "student_id")
  {
    hide Says;
    var values := ValuesOf(valid, user, Sid);
    assert forall i :: 0 <= i < |rows| ==>
      values[i] == if RowsOf(lower, user)(rows[i]) then Value(Says(lower, rows[i], "student_id")) else None;
    SameAgreement(lower, rows, values, RowsOf(lower, user), "student_id");
  }

  lemma CellsOfPi(lower: string -> string, rows: seq<Cells>, valid: seq<Row>)
    requires |valid| == |rows| && forall i :: 0 <= i < |rows| ==> valid[i] == RowFor(lower, rows[i], i + 2)
    requires forall i :: 0 <= i < |rows| ==> Says(lower, rows[i], "username") != ""
    ensures Agree(PiUsers(valid)) <==> CellsAgree(lower, rows, PiRows(lower), "username")
    ensures Agree(PiValues(valid, Name)) <==> CellsAgree(lower, rows, PiRows(lower), "name")
    ensures Agree(PiValues(valid, Email)) <==> CellsAgree(lower, rows, PiRows(lower), "email")
  {
    hide Says, Agree, CellsAgree;
    SameAgreement(lower, rows, PiUsers(valid), PiRows(lower), "username");
    SameAgreement(lower, rows, PiValues(valid, Name), PiRows(lower), "name");
    SameAgreement(lower, rows, PiValues(valid, Email), PiRows(lower), "email");
  }

  lemma SameAgreement(lower: string -> string, rows: seq<Cells>, values: seq<Option<string>>, picks: Cells -> bool, column: string)
    requires |values| == |rows|
    requires forall i :: 0 <= i < |rows| ==> values[i] == if picks(rows[i]) then Value(Says(lower, rows[i], column)) else None
    ensures Agree(values) <==> CellsAgree(lower, rows, picks, column)
  {
    hide Says;
    if CellsAgree(lower, rows, picks, column) {
      forall i, j | 0 <= i < |values| && 0 <= j < |values|
        ensures !Clash(values[i], values[j])
      {
      }
    }
    if Agree(values) {
      forall i, j | 0 <= i < |rows| && 0 <= j < |rows| && picks(rows[i]) && picks(rows[j])
                    && Says(lower, rows[i], column) != "" && Says(lower, rows[j], column) != ""
        ensures Says(lower, rows[i], column) == Says(lower, rows[j], column)
      {
        assert !Clash(values[i], values[j]);
      }
    }
  }

  lemma DistinctSidsIff(lower: string -> string, text: string, entries: seq<Entry>)
    requires DistinctUsers(entries)
    requires forall k :: 0 <= k < |entries| ==> FromFile(lower, text, entries[k])
    requires forall user :: Mentions(lower, text, user) <==> UserIn(entries, user)
    ensures DistinctSids(entries) <==> SidsDiffer(lower, text)
  {
    hide FileSays, Mentions;
    if DistinctSids(entries) {
      forall user, other | Mentions(lower, text, user) && Mentions(lower, text, other) && user != other
        ensures !SameSidSaid(lower, text, user, other)
      {
        var i :| 0 <= i < |entries| && entries[i].user == user;
        var j :| 0 <= j < |entries| && entries[j].user == other;
        assert i < j || j < i;
      }
    }
    if SidsDiffer(lower, text) {
      forall i, j | 0 <= i < j < |entries| && entries[i].sid.Some?
        ensures entries[i].sid != entries[j].sid
      {
        assert !SameSidSaid(lower, text, entries[i].user, entries[j].user);
      }
    }
  }

  lemma NoConflictIff(lower: string -> string, text: string, index: Index, entries: seq<Entry>)
    requires Grounded(index) && Reliable(index) && NoBlankSids(entries)
    requires forall k :: 0 <= k < |entries| ==> FromFile(lower, text, entries[k])
    requires forall user :: Mentions(lower, text, user) <==> UserIn(entries, user)
    ensures (forall e :: e in entries ==> !Resolve(index, e).Conflicting?) <==> SidsFit(lower, index.students, text)
  {
    hide Unique, Indexes, Resolve, FileSays, Mentions, SidFits;
    forall e | e in entries
      ensures Mentions(lower, text, e.user)
      ensures Resolve(index, e).Conflicting? <==> !SidFits(index.students, e.user, FileSays(lower, text, e.user, "student_id"))
    {
      ConflictingIff(index, e);
    }
    hide FromFile;
    if forall e :: e in entries ==> !Resolve(index, e).Conflicting? {
      forall user | Mentions(lower, text, user)
        ensures SidFits(index.students, user, FileSays(lower, text, user, "student_id"))
      {
        var i :| 0 <= i < |entries| && entries[i].user == user;
        assert entries[i] in entries;
      }
    }
  }

  /** The rows that are acceptable, when all are. */
  lemma NoneRefused(lower: string -> string, rows: seq<Cells>)
    ensures InvalidRows(lower, rows) == [] <==> forall i :: 0 <= i < |rows| ==> Acceptable(lower, rows[i])
  {
    InvalidRowsFit(lower, rows);
    hide Acceptable, Blames, Refused, InvalidRows;
    var invalid := InvalidRows(lower, rows);
    if invalid != [] {
      var line := invalid[0].line;
      assert Refused(invalid, line) by { FirstIsRefused(invalid); }
      assert !Acceptable(lower, rows[line - 2]);
    } else {
      NoneInNothing();
    }
  }

  lemma FirstIsRefused(invalid: seq<Issue>)
    requires invalid != []
    ensures Refused(invalid, invalid[0].line)
  {
  }

  lemma NoneInNothing()
    ensures forall line: nat :: !Refused([], line)
  {
  }

  /** The rows as read from a file in which none is refused. */
  ghost predicate Read(lower: string -> string, rows: seq<Cells>, valid: seq<Row>) {
    && |valid| == |rows| && (forall i :: 0 <= i < |rows| ==> valid[i] == RowFor(lower, rows[i], i + 2))
    && (forall i :: 0 <= i < |rows| ==> Says(lower, rows[i], "username") != "") && NoBlankSidRows(valid)
  }

  lemma UnrefusedIsRead(lower: string -> string, text: string)
    requires InvalidRows(lower, Csv.Parse(text).rows) == []
    ensures Read(lower, Csv.Parse(text).rows, FileRows(lower, text))
  {
    var rows := Csv.Parse(text).rows;
    hide Csv.Parse, ValidRows, InvalidRows, FileRows, Says, RowFor;
    AllRowsRead(lower, rows);
    AcceptableHasUsername(lower, rows);
    ValidRowsHaveNoBlankSids(lower, rows);
    FileRowsAreValid(lower, text);
  }

  ghost predicate PiAgrees(lower: string -> string, rows: seq<Cells>) {
    && CellsAgree(lower, rows, PiRows(lower), "username") && CellsAgree(lower, rows, PiRows(lower), "name")
    && CellsAgree(lower, rows, PiRows(lower), "email")
  }

  lemma PiClashesIff(lower: string -> string, rows: seq<Cells>, valid: seq<Row>)
    requires Read(lower, rows, valid)
    ensures PiOf(valid).conflicts == [] <==> PiAgrees(lower, rows)
  {
    hide PiOf, Agree, CellsAgree, Says, RowFor, NoBlankSidRows;
    PiConflictsIff(valid);
    CellsOfPi(lower, rows, valid);
  }

  lemma MergeClashesIff(lower: string -> string, rows: seq<Cells>, valid: seq<Row>)
    requires Read(lower, rows, valid)
    ensures BatchOf(valid).conflicts == [] <==> forall user :: CellsAgree(lower, rows, RowsOf(lower, user), "student_id")
  {
    hide BatchOf, Agree, CellsAgree, Says, RowFor, NoBlankSidRows, ValuesOf;
    MergeConflictsIff(valid);
    forall user
      ensures Agree(ValuesOf(valid, user, Sid)) <==> CellsAgree(lower, rows, RowsOf(lower, user), "student_id")
    {
      CellsOfUser(lower, rows, valid, user);
    }
  }

  ghost predicate SidsFit(lower: string -> string, students: Students, text: string) {
    forall user :: Mentions(lower, text, user) ==> SidFits(students, user, FileSays(lower, text, user, "student_id"))
  }

  lemma EntryConflictsIff(lower: string -> string, text: string, index: Index, valid: seq<Row>)
    requires Reliable(index) && Read(lower, Csv.Parse(text).rows, valid)
    ensures SharedSids(BatchOf(valid).entries) == [] <==> SidsDiffer(lower, text)
    ensures ResolvedAll(index, BatchOf(valid).entries).conflicts == [] <==> SidsFit(lower, index.students, text)
  {
    hide Csv.Parse, BatchOf, ResolvedAll, SharedSids, Resolve, Says, RowFor, Mentions, FileSays, FromFile, Unique, Indexes, SidFits;
    var entries := BatchOf(valid).entries;
    BatchShape(valid);
    EntriesAreFromFile(lower, text, valid);
    SharedIff(entries);
    NoneConflictingIff(index, entries);
    DistinctSidsIff(lower, text, entries);
    NoConflictIff(lower, text, index, entries);
  }

  lemma RowsCommittableIff(lower: string -> string, text: string, index: Index, lab: Lab)
    requires Reliable(index) && InvalidRows(lower, Csv.Parse(text).rows) == []
    ensures PlanRows(index, lab, FileRows(lower, text), []).Committable() <==> Consistent(lower, index.students, text)
  {
    hide Csv.Parse, InvalidRows, PiOf, BatchOf, ResolvedAll, SharedSids, Joiners, FileRows, CellsAgree, SidsDiffer, PiAgrees, SidsFit,
      Unique, Indexes, Read;
    var rows, valid := Csv.Parse(text).rows, FileRows(lower, text);
    UnrefusedIsRead(lower, text);
    PiClashesIff(lower, rows, valid);
    MergeClashesIff(lower, rows, valid);
    EntryConflictsIff(lower, text, index, valid);
  }

  /**
   * Exactly when a file is committable: its size and its header pass, every row is acceptable, and the
   * file contradicts neither itself nor the students on record.
   */
  lemma CommittableIffConsistent(lower: string -> string, students: Students, index: Index, lab: Lab, text: string)
    requires Unique(students) && Indexes(index, students) && Grounded(index)
    ensures PlanText(lower, index, lab, text).Committable()
       <==> && |text| <= 1_000_000 && "username" in Csv.Parse(text).headers && |Csv.Parse(text).rows| <= 5_000
            && (forall i :: 0 <= i < |Csv.Parse(text).rows| ==> Acceptable(lower, Csv.Parse(text).rows[i]))
            && Consistent(lower, students, text)
  {
    assert Reliable(index) && index.students == students;
    hide Csv.Parse, ValidRows, InvalidRows, PlanRows, Consistent, Acceptable, Unique, Indexes;
    NoneRefused(lower, Csv.Parse(text).rows);
    FileRowsAreValid(lower, text);
    InvalidAreInPlan(index, lab, FileRows(lower, text), InvalidRows(lower, Csv.Parse(text).rows));
    if InvalidRows(lower, Csv.Parse(text).rows) == [] {
      RowsCommittableIff(lower, text, index, lab);
    }
  }

  lemma InvalidAreInPlan(index: Index, lab: Lab, rows: seq<Row>, invalid: seq<Issue>)
    requires Grounded(index)
    ensures PlanRows(index, lab, rows, invalid).Committable() ==> invalid == []
  {
  }
}
