/**
 * Promoting a student's flat directory to a dataset of its own. Every command may fail; a failed
 * command may have taken effect, and a failed copy or recursive delete may have done part of it. How each command goes is written down beforehand
 * in a script, so that a run can be exhibited.
 */
module Promotion {
  import opened Prelude

  type Files = map<string, string>

  /** What the two paths and the dataset hold at one moment. */
  datatype Moment = Moment(plain: Option<Files>, staged: Option<Files>, dataset: Option<Files>, mounted: bool) {
    /** What a reader of the student's path finds: the mounted dataset hides the plain directory. */
    function AtPath(): Option<Files> {
      if dataset.Some? && mounted then dataset else plain
    }
  }

  /** All of the student's files can be found at the path or at the staging path. */
  ghost predicate Safe(m: Moment, files: Files) {
    m.AtPath() == Some(files) || m.staged == Some(files)
  }

  ghost predicate SafeThroughout(trail: seq<Moment>, from: nat, files: Files) {
    from <= |trail| && forall i :: from <= i < |trail| ==> Safe(trail[i], files)
  }

  /** Moving the staged directory back either has not happened yet or is complete. */
  ghost predicate SameOrMoved(before: Moment, m: Moment) {
    && m.dataset == before.dataset && m.mounted == before.mounted
    && ((m.staged == before.staged && (m.plain == before.plain || m.plain.None?))
        || (m.staged.None? && m.plain == before.staged))
  }

  // ------------------------------------------------------------------ what each command does

  /**
   * Whether a command took effect, took effect completely, and reported success. A new dataset may be
   * `mounted` where it belongs and its directory `made`; a failed copy leaves `left`, and a failed delete
   * has removed `gone`.
   */
  datatype Outcome = Outcome(effect: bool, complete: bool, reported: bool, mounted: bool, made: bool, left: Files, gone: set<string>)

  /** The home, the number of commands it was given, and how every command goes. */
  datatype World = World(moment: Moment, clock: nat, script: nat -> Outcome) {
    function Next(): Outcome {
      script(clock)
    }

    function Tick(m: Moment): World {
      this.(moment := m, clock := clock + 1)
    }
  }

  /** A command that touches no files: setting a quota. */
  function Tried(w: World): (World, bool) {
    (w.Tick(w.moment), w.Next().reported)
  }

  function Owned(w: World): (World, bool) {
    var m := if w.Next().effect && w.moment.AtPath().None? then w.moment.(plain := Some(map[])) else w.moment;
    (w.Tick(m), w.Next().reported && m.AtPath().Some?)
  }

  function MovedAside(w: World): (World, bool) {
    (w.Tick(if w.Next().effect then w.moment.(plain := None, staged := w.moment.plain) else w.moment), w.Next().effect)
  }

  function Created(w: World): (World, bool) {
    var (o, m) := (w.Next(), w.moment);
    if !o.effect then (w.Tick(m), false)
    else (w.Tick(Moment(if o.made then Some(map[]) else m.plain, m.staged, Some(map[]), o.mounted || o.reported)), o.reported)
  }

  function Copied(w: World): (World, bool) {
    (w.Tick(w.moment.(dataset := if w.Next().reported then w.moment.staged else Some(w.Next().left))), w.Next().reported)
  }

  /** A failed delete leaves what it has not removed, which may be everything or nothing. */
  function Deleted(w: World): (World, bool) {
    var (o, m) := (w.Next(), w.moment);
    (w.Tick(m.(staged := if o.complete || m.staged.None? then None else Some(m.staged.value - o.gone))), o.complete && o.reported)
  }

  function Destroyed(w: World): (World, bool) {
    (w.Tick(if w.Next().effect then w.moment.(dataset := None) else w.moment), w.Next().effect && w.Next().reported)
  }

  function Cleared(w: World): (World, bool) {
    (w.Tick(if w.Next().effect then w.moment.(plain := None) else w.moment), w.Next().effect)
  }

  function Renamed(w: World): (World, bool) {
    var done := w.Next().effect && w.moment.plain.None?;
    (w.Tick(if done then w.moment.(plain := w.moment.staged, staged := None) else w.moment), done)
  }

  // ------------------------------------------------------------------ the whole call

  /** Whether the call succeeded, whether its undo steps did, and whether a failed delete had removed something. */
  datatype Ending = Ending(ok: bool, undone: bool, lossy: bool)

  function MovedBack(w: World): (World, bool) {
    if w.moment.plain == Some(map[]) && !(w.moment.dataset.Some? && w.moment.mounted) then
      var (w1, cleared) := Cleared(w);
      if cleared then Renamed(w1) else (w1, false)
    else Renamed(w)
  }

  function Undone(w: World, hadData: bool): (World, bool) {
    var (w1, gone) := if w.moment.dataset.Some? then Destroyed(w) else (w, true);
    if gone && hadData && w1.moment.staged.Some? then MovedBack(w1) else (w1, gone)
  }

  /** Create the dataset, copy what is staged, and set the owner. */
  function Filled(w: World, hadData: bool): (World, bool) {
    var (w1, created) := Created(w);
    var (w2, copied) := if created && hadData then Copied(w1) else (w1, created);
    if copied then Owned(w2) else (w2, false)
  }

  function Finished(w: World, hadData: bool, files: Option<Files>): (World, Ending) {
    var (w1, filled) := Filled(w, hadData);
    var (w2, ok) := if filled && hadData then Deleted(w1) else (w1, filled);
    if ok then (w2, Ending(true, false, false))
    else
      var (w3, undone) := Undone(w2, hadData);
      (w3, Ending(false, undone, filled && hadData && w2.moment.staged != files))
  }

  function Promoted(w: World, hadData: bool): (World, Ending) {
    var (w1, aside) := if hadData then MovedAside(w) else (w, true);
    if aside then Finished(w1, hadData, w.moment.plain) else (w1, Ending(false, true, false))
  }

  function Ensured(w: World, quota: Option<nat>): (World, Ending) {
    if w.moment.dataset.Some? then
      var (w1, quotaSet) := Tried(w);
      if quotaSet then var (w2, ok) := Owned(w1); (w2, Ending(ok, false, false)) else (w1, Ending(false, false, false))
    else if quota.None? then var (w1, ok) := Owned(w); (w1, Ending(ok, true, false))
    else if w.moment.staged.Some? then (w, Ending(false, true, false))
    else Promoted(w, w.moment.plain.Some?)
  }

  // ------------------------------------------------------------------ success, and one failure

  predicate Succeeds(o: Outcome) {
    o.effect && o.complete && o.reported
  }

  /** Nothing fails: the path shows what it showed before, or an empty directory, and is a dataset if there is a quota. */
  lemma SmoothCallSucceeds(w: World, quota: Option<nat>)
    requires forall i :: w.clock <= i ==> Succeeds(w.script(i))
    requires w.moment.dataset.None? && quota.Some? ==> w.moment.staged.None?
    ensures
      var (after, ending) := Ensured(w, quota);
      && ending.ok && !ending.lossy && after.moment.staged == w.moment.staged
      && after.moment.AtPath() == (if w.moment.AtPath().Some? then w.moment.AtPath() else Some(map[]))
      && (after.moment.dataset.Some? <==> w.moment.dataset.Some? || quota.Some?)
      && (w.moment.dataset.None? && quota.Some? ==> after.moment.mounted)
  {
  }

  /** Only this command fails, perhaps after it took effect. */
  ghost predicate FailsOnlyAt(script: nat -> Outcome, n: nat) {
    !script(n).reported && forall i :: i != n ==> Succeeds(script(i))
  }

  /** Whichever single command fails before the delete, the call is undone and the home is as it was. */
  lemma OneFailureIsUndone(m: Moment, files: Files, script: nat -> Outcome, n: nat, quota: nat)
    requires m.plain == Some(files) && m.staged.None? && m.dataset.None?
    requires n < 4 && FailsOnlyAt(script, n) && (n == 0 ==> !script(n).effect) // a rename takes effect or fails
    ensures
      var (after, ending) := Ensured(World(m, 0, script), Some(quota));
      && ending == Ending(false, true, false)
      && after.moment == Moment(Some(files), None, None, after.moment.mounted)
  {
    var w := World(m, 0, script);
    var (w1, aside) := MovedAside(w);
    if aside {
      var (w2, filled) := Filled(w1, true);
      FilledKeepsStaged(w1, files);
      assert !filled && w2.clock > n by { FillStopsAt(w1, n); }
      hide Filled;
      SmoothUndo(w2, files);
    }
  }

  lemma FillStopsAt(w: World, n: nat)
    requires FailsOnlyAt(w.script, n) && w.clock <= n < w.clock + 3
    ensures !Filled(w, true).1 && Filled(w, true).0.clock > n
  {
  }

  lemma SmoothUndo(w: World, files: Files)
    requires w.moment.staged == Some(files) && (w.moment.plain.None? || w.moment.plain == Some(map[]))
    requires forall i :: w.clock <= i ==> Succeeds(w.script(i))
    ensures
      var (after, undone) := Undone(w, true);
      undone && after.moment == Moment(Some(files), None, None, w.moment.mounted)
  {
  }

  // ------------------------------------------------------------------ when files are lost

  /** A home with files at the path and no quota yet. */
  ghost predicate Flat(m: Moment, files: Files) {
    m.plain == Some(files) && m.staged.None? && m.dataset.None?
  }

  /** The commands up to the delete succeed, and the delete fails after it has removed something. */
  ghost predicate DeleteFailsPartly(script: nat -> Outcome, clock: nat, files: Files) {
    && script(clock).effect && script(clock + 1).effect && script(clock + 1).reported
    && script(clock + 2).reported && script(clock + 3).reported
    && !(script(clock + 4).complete && script(clock + 4).reported)
    && (script(clock + 4).complete || files - script(clock + 4).gone != files)
  }

  /**
   * Exactly when a call loses files: it promotes, the delete fails after it has removed something, and the
   * destroy that follows takes effect. No other combination of failures loses any.
   */
  lemma FilesLostIffDestroyedAfterPartialDelete(w: World, files: Files, quota: Option<nat>)
    requires Flat(w.moment, files) && files != map[]
    ensures !Safe(Ensured(w, quota).0.moment, files)
            <==> quota.Some? && DeleteFailsPartly(w.script, w.clock, files) && w.script(w.clock + 5).effect
    ensures Ensured(w, quota).1.lossy <==> quota.Some? && DeleteFailsPartly(w.script, w.clock, files)
  {
    var (w1, aside) := MovedAside(w);
    if aside {
      FilledKeepsStaged(w1, files);
      var (w2, filled) := Filled(w1, true);
      hide Filled;
      if filled {
        var (w3, ok) := Deleted(w2);
        if !ok {
          UndoneAfterDelete(w3, files);
        }
      } else {
        UndoKeepsStaged(w2, files);
      }
    }
  }

  lemma FilledKeepsStaged(w: World, files: Files)
    requires w.moment.plain.None? && w.moment.staged == Some(files) && w.moment.dataset.None?
    ensures
      var (after, filled) := Filled(w, true);
      && after.script == w.script && after.moment.staged == Some(files)
      && (after.moment.plain.None? || after.moment.plain == Some(map[]))
      && (filled <==> w.Next().effect && w.Next().reported && w.script(w.clock + 1).reported && w.script(w.clock + 2).reported)
      && (filled ==> after.clock == w.clock + 3 && after.moment.dataset == Some(files) && after.moment.mounted)
  {
  }

  /** What is staged survives the undo. */
  lemma UndoKeepsStaged(w: World, files: Files)
    requires w.moment.staged == Some(files) && (w.moment.plain.None? || w.moment.plain == Some(map[]))
    ensures Safe(Undone(w, true).0.moment, files)
  {
  }

  /** With the full dataset mounted and something else staged, the files survive unless the destroy takes effect. */
  lemma UndoneAfterDelete(w: World, files: Files)
    requires w.moment.dataset == Some(files) && w.moment.mounted && files != map[]
    requires w.moment.plain.None? || w.moment.plain == Some(map[])
    ensures w.moment.staged != Some(files) ==> (Safe(Undone(w, true).0.moment, files) <==> !w.Next().effect)
    ensures w.moment.staged == Some(files) ==> Safe(Undone(w, true).0.moment, files)
  {
  }

  /** Every command succeeds, but the delete stops after it has removed one file. */
  function DeleteStopsAfter(f: string): nat -> Outcome {
    i => Outcome(true, i != 4, i != 4, true, true, map[], {f})
  }

  /** The same, and the destroy that should undo the promotion fails too. */
  function DestroyFailsToo(f: string): nat -> Outcome {
    i => Outcome(i != 5, i != 4, i != 4, true, true, map[], {f})
  }

  /** From any home with a file, one failing delete loses it: the undo succeeds and puts the rest back. */
  lemma PartialDeleteLosesAFile(m: Moment, files: Files, f: string)
    requires Flat(m, files) && f in files
    ensures Promoted(World(m, 0, DeleteStopsAfter(f)), true)
            == (World(Moment(Some(files - {f}), None, None, true), 8, DeleteStopsAfter(f)), Ending(false, true, true))
    ensures !Safe(Promoted(World(m, 0, DeleteStopsAfter(f)), true).0.moment, files)
  {
    assert f !in files - {f};
  }

  /** A second failure keeps it: while the dataset cannot be destroyed, it holds the full copy. */
  lemma FailedDestroyKeepsTheFile(m: Moment, files: Files, f: string)
    requires Flat(m, files) && f in files
    ensures
      var (after, ending) := Promoted(World(m, 0, DestroyFailsToo(f)), true);
      ending == Ending(false, false, true) && after.moment.AtPath() == Some(files)
  {
    assert f !in files - {f};
  }

  // ------------------------------------------------------------------ the code

  /** The student's home on one storage tier. */
  class Home {
    var plain: Option<Files>
    var staged: Option<Files>
    var dataset: Option<Files>
    var mounted: bool
    var clock: nat
    const script: nat -> Outcome
    ghost var trail: seq<Moment>

    constructor (m: Moment, script: nat -> Outcome)
      ensures Value() == World(m, 0, script) && trail == []
    {
      plain, staged, dataset, mounted := m.plain, m.staged, m.dataset, m.mounted;
      clock, trail := 0, [];
      this.script := script;
    }

    function Now(): Moment
      reads this
    {
      Moment(plain, staged, dataset, mounted)
    }

    ghost function Value(): World
      reads this
    {
      World(Now(), clock, script)
    }

    /** How the next command goes. */
    method Command() returns (o: Outcome)
      modifies this`clock
      ensures o == old(Value()).Next() && Value() == old(Value()).Tick(Now())
    {
      o := script(clock);
      clock := clock + 1;
    }

    method SetQuota() returns (ok: bool)
      modifies this`clock
      ensures (Value(), ok) == Tried(old(Value()))
    {
      var o := Command();
      ok := o.reported;
    }

    /** `ensure_owned_dir`: make the directory if the path has none, and set its owner. */
    method EnsureOwnedDir() returns (ok: bool)
      modifies this
      ensures trail == old(trail) + [Now()]
      ensures dataset == old(dataset) && mounted == old(mounted) && staged == old(staged)
      ensures old(Now()).AtPath().Some? ==> Now() == old(Now())
      ensures plain == old(plain) || (old(plain) == None && plain == Some(map[]))
      ensures ok ==> Now().AtPath().Some?
      ensures (Value(), ok) == Owned(old(Value()))
    {
      var o := Command();
      if o.effect && Now().AtPath().None? {
        plain := Some(map[]);
      }
      trail := trail + [Now()];
      ok := o.reported && Now().AtPath().Some?;
    }

    /** Move the directory at the path aside. */
    method Stage() returns (ok: bool)
      requires plain.Some? && staged.None? && dataset.None?
      modifies this
      ensures trail == old(trail) + [Now()]
      ensures Now() == if ok then old(Now()).(plain := None, staged := old(plain)) else old(Now())
      ensures (Value(), ok) == MovedAside(old(Value()))
    {
      var o := Command();
      ok := o.effect;
      if ok {
        plain, staged := None, plain;
      }
      trail := trail + [Now()];
    }

    /** `zfs create`, then the quota, then the mountpoint: a failure can leave the dataset behind. */
    method CreateDataset() returns (ok: bool)
      requires dataset.None? && (plain.None? || plain == Some(map[]))
      modifies this
      ensures trail == old(trail) + [Now()] && staged == old(staged)
      ensures plain.None? || plain == Some(map[])
      ensures dataset.None? || dataset == Some(map[])
      ensures ok ==> dataset == Some(map[]) && mounted
      ensures (Value(), ok) == Created(old(Value()))
    {
      var o := Command();
      if o.effect {
        dataset, mounted := Some(map[]), o.mounted || o.reported;
        if o.made {
          plain := Some(map[]);
        }
      }
      ok := o.effect && o.reported;
      trail := trail + [Now()];
    }

    /** `cp -a`: a failed copy leaves anything in the dataset. */
    method Copy() returns (ok: bool)
      requires dataset.Some? && mounted && staged.Some?
      modifies this
      ensures trail == old(trail) + [Now()]
      ensures staged == old(staged) && plain == old(plain) && mounted && dataset.Some?
      ensures ok ==> dataset == staged
      ensures (Value(), ok) == Copied(old(Value()))
    {
      var o := Command();
      ok := o.reported;
      dataset := if ok then staged else Some(o.left);
      trail := trail + [Now()];
    }

    /** `rmtree` of the staging path: a failure can leave any part of it, or nothing. */
    method RemoveStaged() returns (ok: bool)
      requires staged.Some?
      modifies this
      ensures trail == old(trail) + [Now()]
      ensures plain == old(plain) && dataset == old(dataset) && mounted == old(mounted)
      ensures ok ==> staged.None?
      ensures staged.Some? ==> forall f :: f in staged.value ==> f in old(staged).value && staged.value[f] == old(staged).value[f]
      ensures (Value(), ok) == Deleted(old(Value()))
    {
      var o := Command();
      ok := o.complete && o.reported;
      staged := if o.complete then None else Some(staged.value - o.gone);
      trail := trail + [Now()];
    }

    method DestroyDataset() returns (ok: bool)
      modifies this
      ensures trail == old(trail) + [Now()] && staged == old(staged) && plain == old(plain)
      ensures Now() == old(Now()) || (dataset.None? && mounted == old(mounted))
      ensures ok ==> dataset.None?
      ensures (Value(), ok) == Destroyed(old(Value()))
    {
      var o := Command();
      if o.effect {
        dataset := None;
      }
      trail := trail + [Now()];
      ok := o.effect && o.reported;
    }

    /** Move the staged directory back, over an empty directory if there is one. */
    method Unstage() returns (ok: bool)
      requires staged.Some?
      modifies this
      ensures old(trail) < trail && SameOrMoved(old(Now()), Now())
      ensures forall i :: |old(trail)| <= i < |trail| ==> SameOrMoved(old(Now()), trail[i])
      ensures ok ==> plain == old(staged) && staged.None?
      ensures (Value(), ok) == MovedBack(old(Value()))
    {
      if plain == Some(map[]) && !(dataset.Some? && mounted) {
        var o := Command();
        if o.effect {
          plain := None;
        }
        trail := trail + [Now()];
        if !o.effect {
          return false;
        }
      }
      var o := Command();
      ok := o.effect && plain.None?;
      if ok {
        plain, staged := staged, None;
      }
      trail := trail + [Now()];
    }

    /**
     * Undo a failed promotion: destroy the dataset, then move the staged directory back. `rest` is
     * what the staging path held when the handler started.
     */
    method Undo(hadData: bool, ghost rest: Option<Files>) returns (undone: bool)
      requires staged == rest && (plain.None? || plain == Some(map[]))
      modifies this
      ensures old(trail) <= trail
      ensures rest.Some? ==> (SafeThroughout(trail, |old(trail)|, rest.value) && Safe(Now(), rest.value))
      ensures undone ==> dataset.None?
      // what else it leaves: the dataset is as it was or gone, the path as it was or what was staged
      ensures mounted == old(mounted) && (dataset == old(dataset) || dataset.None?)
      ensures staged == rest || (staged.None? && plain == rest)
      ensures staged == rest ==> plain.None? || plain == Some(map[])
      ensures old(dataset).Some? && dataset.Some? ==>
                (Now() == old(Now()) && forall i :: |old(trail)| <= i < |trail| ==> trail[i] == Now())
      ensures undone && hadData && rest.Some? ==> plain == rest && staged.None?
      ensures undone && (!hadData || rest.None?) ==> (staged == rest && (plain.None? || plain == Some(map[])))
      ensures (Value(), undone) == Undone(old(Value()), hadData)
    {
      var hasDataset := dataset.Some?;
      if hasDataset {
        var destroyed := DestroyDataset();
        if !destroyed {
          return false;
        }
      }
      if hadData && staged.Some? {
        undone := Unstage();
      } else {
        undone := true;
      }
    }

    /** Create the dataset, copy what is staged, and set the owner; the staging path is not touched. */
    method Fill(hadData: bool) returns (ok: bool)
      requires dataset.None? && plain.None? && hadData == staged.Some?
      modifies this
      ensures old(trail) <= trail && staged == old(staged) && (plain.None? || plain == Some(map[]))
      ensures forall i :: |old(trail)| <= i < |trail| ==> trail[i].staged == staged
      ensures ok ==> dataset == (if hadData then staged else Some(map[])) && mounted
      ensures (Value(), ok) == Filled(old(Value()), hadData)
    {
      hide Created, Copied, Owned;
      ok := CreateDataset();
      if ok && hadData {
        ok := Copy();
      }
      if ok {
        ok := EnsureOwnedDir();
      }
    }

    /**
     * Create or promote the student's dataset for a quota. `lossy` tells whether a failed delete of
     * the staging path had already removed something, and `undone` whether the undo steps succeeded.
     */
    method Promote(hadData: bool) returns (ok: bool, ghost undone: bool, ghost lossy: bool)
      requires dataset.None? && staged.None? && hadData == plain.Some?
      modifies this
      ensures old(trail) <= trail
      // success: everything is in the mounted dataset, and nothing is left aside
      ensures ok ==> (dataset.Some? && mounted && staged.None?)
      ensures ok ==> Now().AtPath() == if hadData then old(plain) else Some(map[])
      // failure before or after copying: never lost, at any moment, unless the delete was partial
      ensures hadData && !lossy ==>
                (SafeThroughout(trail, |old(trail)|, old(plain).value) && Safe(Now(), old(plain).value))
      // undone: back where it was
      ensures !ok && undone && hadData && !lossy ==> Now() == Moment(old(plain), None, None, mounted)
      ensures !ok && undone ==> dataset.None?
      ensures lossy ==> (!ok && hadData)
      // after a partial delete the files survive exactly as long as the undo has not destroyed the copy
      ensures lossy && old(plain) != Some(map[]) ==>
                (Safe(Now(), old(plain).value) <==> dataset.Some?)
      ensures lossy && dataset.Some? ==> SafeThroughout(trail, |old(trail)|, old(plain).value)
      ensures lossy && undone && old(plain) != Some(map[]) ==> (!Safe(Now(), old(plain).value) && staged.None?)
      ensures (Value(), Ending(ok, undone, lossy)) == Promoted(old(Value()), hadData)
    {
      hide MovedAside, Filled, Deleted, Undone;
      undone, lossy := false, false;
      ghost var files := plain;
      if hadData {
        ok := Stage();
        if !ok {
          undone := true;
          return;
        }
      }
      ok := Fill(hadData);
      assert hadData ==> Safe(Now(), files.value);
      if ok && hadData {
        ok := RemoveStaged();
        lossy := !ok && staged != files;
      }
      if !ok {
        undone := Undo(hadData, staged);
      }
    }

    /**
     * Bring the student's storage to the wanted quota mode: an existing dataset only gets its quota
     * set, no quota leaves the flat directory alone, and anything else is a promotion. A leftover
     * staging path from an interrupted promotion stops the call before it touches anything.
     */
    method EnsureUserDataset(quota: Option<nat>) returns (ok: bool, ghost undone: bool, ghost lossy: bool)
      modifies this
      ensures old(trail) <= trail
      ensures old(dataset).Some? && mounted ==> Now() == old(Now())
      ensures old(dataset).None? && quota.None? ==>
                (staged == old(staged) && dataset.None? && (old(plain).Some? ==> plain == old(plain)))
      ensures old(dataset).None? && quota.Some? && old(staged).Some? ==> (!ok && Now() == old(Now()))
      ensures ok ==> Now().AtPath().Some?
      ensures ok && old(Now()).AtPath().Some? ==> Now().AtPath() == old(Now()).AtPath()
      ensures ok && old(dataset).None? && quota.Some? ==> (dataset.Some? && mounted && staged.None?)
      ensures old(Now()).AtPath().Some? && !lossy ==> Safe(Now(), old(Now()).AtPath().value)
      ensures old(Now()).AtPath().Some? && !lossy ==> SafeThroughout(trail, |old(trail)|, old(Now()).AtPath().value)
      ensures !ok && undone && !lossy && old(dataset).None? && old(plain).Some? ==> Now() == Moment(old(plain), old(staged), None, mounted)
      ensures (Value(), Ending(ok, undone, lossy)) == Ensured(old(Value()), quota)
    {
      undone, lossy := false, false;
      if dataset.Some? {
        ok := SetQuota();
        if ok {
          ok := EnsureOwnedDir();
        }
      } else if quota.None? {
        ok := EnsureOwnedDir();
        undone := true;
      } else {
        var hadData := plain.Some?;
        if staged.Some? {
          return false, true, false;
        }
        ok, undone, lossy := Promote(hadData);
      }
    }
  }
}
