/**
 * Recreating a lab container with rollback. Every docker command may fail, with or without having
 * taken effect; the process itself does not crash, and the existence test tells the truth. How each
 * command goes is written down beforehand in a script, so that a run can be exhibited.
 */
module Recreate {
  import opened Prelude

  datatype Container = Container(id: nat, running: bool)

  type Containers = map<string, Container>

  /** How far a call got before it returned. */
  datatype Stage = Checking | Aside | Preparing | Candidate | Promoting

  ghost predicate Under(cs: Containers, name: string, id: nat) {
    name in cs && cs[name].id == id
  }

  /** The container is still there, under the lab's name or preserved aside. */
  ghost predicate Survives(cs: Containers, name: string, aside: string, id: nat) {
    Under(cs, name, id) || Under(cs, aside, id)
  }

  /** It survives in every recorded state from one moment to another. */
  ghost predicate Throughout(trail: seq<Containers>, from: nat, to: nat, name: string, aside: string, id: nat) {
    to <= |trail| && forall i :: from <= i < to ==> Survives(trail[i], name, aside, id)
  }

  ghost predicate Appended(before: seq<Containers>, after: seq<Containers>) {
    |before| <= |after| && after[..|before|] == before
  }

  /** Nothing but these names was touched. */
  ghost predicate OthersKept(before: Containers, after: Containers, name: string, aside: string) {
    forall n :: n != name && n != aside ==>
      (n in before <==> n in after) && (n in before ==> after[n] == before[n])
  }

  /** Under the two names stands nothing that was not there before or created since. */
  ghost predicate OnlyNew(before: Containers, after: Containers, name: string, aside: string, nextId: nat) {
    forall id :: Survives(after, name, aside, id) ==> Survives(before, name, aside, id) || id == nextId
  }

  /** The container runs under its name again, nothing is left aside, and nothing else was touched. */
  ghost predicate Restored(before: Containers, after: Containers, name: string, aside: string, id: nat) {
    name in after && after[name] == Container(id, true) && aside !in after && OthersKept(before, after, name, aside)
  }

  /**
   * What a recreate promises for the container found at entry. `moments` are the engine's states
   * during the call, of which those before `readyAt` precede the candidate's SSH check.
   */
  ghost predicate ReplacedSafely(before: Containers, after: Containers, moments: seq<Containers>, name: string, aside: string,
                                 ok: bool, stage: Stage, undone: bool, from: nat, readyAt: nat)
    requires name in before
  {
    var id := before[name].id;
    // until a candidate is ready, the container exists at every moment
    && Throughout(moments, from, readyAt, name, aside, id)
    && (stage != Promoting ==> Survives(after, name, aside, id))
    // success leaves only the candidate under the two names
    && (ok ==> aside !in after)
    // when the rollback's own commands succeed, the container runs under its name again
    && (undone ==> Restored(before, after, name, aside, id))
  }

  /**
   * What each part of a call promises once the name is free. With `hadOld`, the container `id` stands
   * aside at the start; `moments` and `readyAt` are as above.
   */
  ghost predicate Swapped(before: Containers, after: Containers, moments: seq<Containers>, name: string, aside: string,
                          hadOld: bool, id: nat, nextId: nat, candidate: Option<nat>, stage: Stage, undone: bool,
                          from: nat, readyAt: nat) {
    && OthersKept(before, after, name, aside) && from <= readyAt <= |moments|
    && (hadOld ==> Throughout(moments, from, readyAt, name, aside, id))
    && (stage != Promoting ==> candidate.None? && readyAt == |moments| && (hadOld ==> Survives(after, name, aside, id)))
    && (stage == Promoting ==> name in after && after[name] == Container(nextId, true) && !undone)
    && (candidate.Some? ==> (stage == Promoting && candidate.value == nextId && (hadOld ==> aside !in after)
                             && (!hadOld ==> after == before[name := Container(nextId, true)])))
    && (undone ==> if hadOld then Restored(before, after, name, aside, id) else after == before)
    && OnlyNew(before, after, name, aside, nextId)
    && (!hadOld ==> AsideKept(before, after, aside))
  }

  lemma ThroughoutNone(start: seq<Containers>, name: string, aside: string, id: nat)
    ensures Appended(start, start) && Throughout(start, |start|, |start|, name, aside, id)
  {
  }

  lemma ThroughoutMore(start: seq<Containers>, trail: seq<Containers>, cs: Containers, name: string, aside: string, id: nat)
    requires Appended(start, trail) && Throughout(trail, |start|, |trail|, name, aside, id) && Survives(cs, name, aside, id)
    ensures Appended(start, trail + [cs]) && Throughout(trail + [cs], |start|, |trail + [cs]|, name, aside, id)
  {
  }

  /** A change to the two names alone, after other such changes. */
  lemma KeptBesides(before: Containers, mid: Containers, after: Containers, name: string, aside: string)
    requires before == mid || OthersKept(before, mid, name, aside)
    requires forall n :: n != name && n != aside ==> (n in mid <==> n in after) && (n in mid ==> after[n] == mid[n])
    ensures OthersKept(before, after, name, aside)
  {
    OthersKeptTwice(before, mid, after, name, aside);
  }

  lemma ThroughoutKept(before: seq<Containers>, after: seq<Containers>, from: nat, name: string, aside: string, id: nat)
    requires Appended(before, after) && Throughout(before, from, |before|, name, aside, id)
    ensures Throughout(after, from, |before|, name, aside, id)
  {
    forall i | from <= i < |before|
      ensures Survives(after[i], name, aside, id)
    {
      assert after[i] == after[..|before|][i] == before[i];
    }
  }

  /** Dropping the candidate and restoring what was aside, after the candidate alone was added under the name. */
  lemma RolledBackMeans(before: Containers, mid: Containers, after: Containers, name: string, aside: string, hadOld: bool, undone: bool, id: nat)
    requires name !in before && name != aside && OthersKept(before, mid, name, name) && OthersKept(mid, after, name, aside)
    requires undone && hadOld ==> Restored(mid, after, name, aside, id)
    requires undone && !hadOld ==> after == mid - {name}
    ensures undone ==> if hadOld then Restored(before, after, name, aside, id) else after == before
    ensures OthersKept(before, after, name, aside)
  {
    OthersKeptTwice(before, mid, after, name, aside);
    if undone && !hadOld {
      assert forall n :: n in after <==> n in before;
      assert after == before;
    }
  }

  ghost predicate AsideKept(before: Containers, after: Containers, aside: string) {
    aside in before ==> aside in after && after[aside] == before[aside]
  }

  lemma OthersKeptTwice(a: Containers, b: Containers, c: Containers, name: string, aside: string)
    requires OthersKept(a, b, name, aside) && OthersKept(b, c, name, aside)
    ensures OthersKept(a, c, name, aside)
  {
    assert forall n :: n != name && n != aside ==> (n in a <==> n in b) && (n in b <==> n in c);
  }

  lemma ThroughoutTwice(start: seq<Containers>, mid: seq<Containers>, end: seq<Containers>, to: nat,
                        name: string, aside: string, id: nat)
    requires Appended(start, mid) && Appended(mid, end)
    requires Throughout(mid, |start|, |mid|, name, aside, id) && |mid| <= to
    requires Throughout(end, |mid|, to, name, aside, id)
    ensures Appended(start, end) && Throughout(end, |start|, to, name, aside, id)
  {
    assert end[..|start|] == end[..|mid|][..|start|];
    forall i | |start| <= i < to
      ensures Survives(end[i], name, aside, id)
    {
      if i < |mid| {
        assert end[i] == end[..|mid|][i] == mid[i];
      }
    }
  }

  // ------------------------------------------------------------------ what each command does

  /** Whether a command took effect, took effect completely, and reported success. */
  datatype Outcome = Outcome(effect: bool, complete: bool, reported: bool)

  /** The engine, the number of commands it was given, and how every command goes. */
  datatype World = World(containers: Containers, nextId: nat, clock: nat, script: nat -> Outcome) {
    function Next(): Outcome {
      script(clock)
    }

    function Tick(cs: Containers): World {
      this.(containers := cs, clock := clock + 1)
    }
  }

  function Stopped(w: World, name: string): World
    requires name in w.containers
  {
    w.Tick(if w.Next().effect then w.containers[name := w.containers[name].(running := false)] else w.containers)
  }

  function Removed(w: World, name: string): (World, bool) {
    if name !in w.containers then (w, true)
    else (w.Tick(if w.Next().effect then w.containers - {name} else w.containers), w.Next().effect && w.Next().reported)
  }

  function Renamed(w: World, from: string, to: string): (World, bool) {
    var done := w.Next().effect && from in w.containers && to !in w.containers;
    (w.Tick(if done then (w.containers - {from})[to := w.containers[from]] else w.containers), done && w.Next().reported)
  }

  /** A failed run can leave a container behind, running or not. */
  function Ran(w: World, name: string): (World, Option<nat>) {
    var done := w.Next().effect && name !in w.containers;
    (w.Tick(if done then w.containers[name := Container(w.nextId, w.Next().complete)] else w.containers).(nextId := w.nextId + 1),
     if done && w.Next().complete && w.Next().reported then Some(w.nextId) else None)
  }

  function Started(w: World, name: string): (World, bool) {
    var done := w.Next().effect && name in w.containers;
    (w.Tick(if done then w.containers[name := w.containers[name].(running := true)] else w.containers), done && w.Next().reported)
  }

  /** A step that touches no container: pulling the image, preparing storage, the SSH handshake. */
  function Tried(w: World): (World, bool) {
    (w.Tick(w.containers), w.Next().reported)
  }

  // ------------------------------------------------------------------ the whole call

  /** The candidate on success, how far the call got, and whether its rollback succeeded. */
  datatype Call = Call(candidate: Option<nat>, stage: Stage, undone: bool)

  function Found(r: Result<nat, string>): Option<nat> {
    if r.Ok? then Some(r.value) else None
  }

  function PutBack(w: World, name: string, aside: string): (World, bool) {
    if aside !in w.containers then (w, false)
    else
      var (w1, renamed) := Renamed(w, aside, name);
      if renamed then Started(w1, name) else (w1, false)
  }

  function PutAside(w: World, name: string, aside: string): (World, bool)
    requires name in w.containers
  {
    var (w1, removed) := Removed(Stopped(w, name), aside);
    if removed then Renamed(w1, name, aside) else (w1, false)
  }

  function Prepared(w: World, students: nat): (World, bool) {
    if students == 0 then (w, true)
    else
      var (w1, ok) := Prepared(w, students - 1);
      if ok then Tried(w1) else (w1, false)
  }

  function BroughtUp(w: World, name: string): (World, Option<nat>) {
    var (w1, candidate) := Ran(w, name);
    if candidate.None? then (w1, None)
    else
      var (w2, ready) := Tried(w1);
      (w2, if ready then candidate else None)
  }

  function RolledBack(w: World, name: string, aside: string, hadOld: bool): (World, bool) {
    var (w1, removed) := Removed(w, name);
    if hadOld then
      var (w2, back) := PutBack(w1, name, aside);
      (w2, removed && back)
    else (w1, removed)
  }

  function Promoted(w: World, name: string, aside: string, hadOld: bool): (World, Call) {
    var (w1, candidate) := BroughtUp(w, name);
    if candidate.None? then
      var (w2, undone) := RolledBack(w1, name, aside, hadOld);
      (w2, Call(None, Candidate, undone))
    else if hadOld then
      var (w2, removed) := Removed(w1, aside);
      (w2, Call(if removed then candidate else None, Promoting, false))
    else (w1, Call(candidate, Promoting, false))
  }

  function Replaced(w: World, name: string, aside: string, students: nat, hadOld: bool): (World, Call) {
    var (w1, prepared) := Prepared(w, students);
    if prepared then Promoted(w1, name, aside, hadOld)
    else if hadOld then
      var (w2, back) := PutBack(w1, name, aside);
      (w2, Call(None, Preparing, back))
    else (w1, Call(None, Preparing, true))
  }

  function Located(w: World, name: string, aside: string, students: nat, hadOld: bool): (World, Call) {
    var (w1, listed) := Tried(w);
    if listed then Replaced(w1, name, aside, students, hadOld) else (w1, Call(None, Aside, false))
  }

  function ReplacedOld(w: World, name: string, aside: string, students: nat): (World, Call)
    requires name in w.containers
  {
    var (w1, moved) := PutAside(w, name, aside);
    if moved then Located(w1, name, aside, students, true) else (w1, Call(None, Aside, false))
  }

  function Recreated(w: World, name: string, aside: string, students: nat): (World, Call) {
    var (w1, healthy) := Tried(w);
    if !healthy then (w1, Call(None, Checking, false))
    else
      var (w2, pulled) := Tried(w1);
      if !pulled then (w2, Call(None, Checking, false))
      else if name in w2.containers then ReplacedOld(w2, name, aside, students)
      else Located(w2, name, aside, students, false)
  }

  lemma {:induction false} FailureStays(w: World, k: nat, students: nat)
    requires k <= students && !Prepared(w, k).1
    ensures Prepared(w, students) == Prepared(w, k)
    decreases students - k
  {
    if k < students {
      FailureStays(w, k + 1, students);
    }
  }

  // ------------------------------------------------------------------ what stands aside

  /** Containers have identities of their own, all below `nextId`. */
  ghost predicate Identified(cs: Containers, nextId: nat) {
    && (forall n :: n in cs ==> cs[n].id < nextId)
    && (forall m, n :: m in cs && n in cs && m != n ==> cs[m].id != cs[n].id)
  }

  lemma {:induction false} PreparingTouchesNothing(w: World, students: nat)
    ensures Prepared(w, students).0 == w.(clock := Prepared(w, students).0.clock)
    ensures (forall i :: w.clock <= i < w.clock + students ==> w.script(i).reported) ==>
              Prepared(w, students) == (w.(clock := w.clock + students), true)
  {
    if students > 0 {
      PreparingTouchesNothing(w, students - 1);
    }
  }

  /** With no container under the name, a call never touches what stands aside, whatever fails. */
  lemma NothingToReplaceKeepsAside(w: World, name: string, aside: string, students: nat)
    requires name != aside && name !in w.containers
    ensures AsideKept(w.containers, Recreated(w, name, aside, students).0.containers, aside)
  {
    var w3 := Tried(Tried(Tried(w).0).0).0;
    PreparingTouchesNothing(w3, students);
    hide Prepared;
    LocatingKeepsAside(Tried(Tried(w).0).0, name, aside, students);
  }

  lemma LocatingKeepsAside(w: World, name: string, aside: string, students: nat)
    requires name != aside && name !in w.containers
    ensures AsideKept(w.containers, Located(w, name, aside, students, false).0.containers, aside)
  {
    PreparingTouchesNothing(Tried(w).0, students);
    hide Prepared;
  }

  /** Every command succeeds. */
  function Smooth(): nat -> Outcome {
    i => Outcome(true, true, true)
  }

  /** A smooth replacement removes what stood aside before, and leaves only the candidate. */
  lemma SmoothCall(w: World, name: string, aside: string, students: nat)
    requires name != aside && name in w.containers
    requires forall i :: w.clock <= i ==> w.script(i) == Outcome(true, true, true)
    ensures
      var (after, call) := Recreated(w, name, aside, students);
      && call == Call(Some(w.nextId), Promoting, false) && aside !in after.containers
      && name in after.containers && after.containers[name] == Container(w.nextId, true)
  {
    var w2 := Tried(Tried(w).0).0;
    var (w4, moved) := PutAside(w2, name, aside);
    var w5 := Tried(w4).0;
    PreparingTouchesNothing(w5, students);
    hide Prepared;
    assert moved && w4.clock >= w.clock && w4.script == w.script && name !in w4.containers && aside in w4.containers;
    SmoothPromotion(w5.(clock := w5.clock + students), name, aside);
  }

  lemma SmoothPromotion(w: World, name: string, aside: string)
    requires name != aside && name !in w.containers && aside in w.containers
    requires forall i :: w.clock <= i ==> w.script(i) == Outcome(true, true, true)
    ensures
      var (after, call) := Promoted(w, name, aside, true);
      && call == Call(Some(w.nextId), Promoting, false) && aside !in after.containers
      && name in after.containers && after.containers[name] == Container(w.nextId, true)
  {
  }

  ghost predicate AsideSurvives(cs: Containers, nextId: nat, script: nat -> Outcome, name: string, aside: string, students: nat)
    requires aside in cs
  {
    Survives(Recreated(World(cs, nextId, 0, script), name, aside, students).0.containers, name, aside, cs[aside].id)
  }

  /**
   * A container preserved aside by an earlier call survives the next one, whatever fails in it, if and
   * only if no container stands under the name when that call starts.
   */
  lemma AsideIsSafeIffNothingToReplace(cs: Containers, nextId: nat, name: string, aside: string, students: nat)
    requires name != aside && aside in cs && Identified(cs, nextId)
    ensures (forall script :: AsideSurvives(cs, nextId, script, name, aside, students)) <==> name !in cs
  {
    if name !in cs {
      forall script
        ensures AsideSurvives(cs, nextId, script, name, aside, students)
      {
        NothingToReplaceKeepsAside(World(cs, nextId, 0, script), name, aside, students);
      }
    } else {
      hide Recreated;
      SmoothCall(World(cs, nextId, 0, Smooth()), name, aside, students);
      assert !AsideSurvives(cs, nextId, Smooth(), name, aside, students);
    }
  }

  // ------------------------------------------------------------------ one failure is rolled back

  /** Only this command fails, perhaps after it took effect. */
  ghost predicate FailsOnlyAt(script: nat -> Outcome, n: nat) {
    !script(n).reported && forall i :: i != n ==> script(i) == Outcome(true, true, true)
  }

  /** Preparing stops at the first failure. */
  lemma {:induction false} PreparingStopsAt(w: World, students: nat, k: nat)
    requires k < students && FailsOnlyAt(w.script, w.clock + k)
    ensures Prepared(w, students) == (w.(clock := w.clock + k + 1), false)
  {
    PreparingTouchesNothing(w, k);
    assert forall i :: w.clock <= i < w.clock + k ==> w.script(i).reported;
    assert Prepared(w, k + 1) == (w.(clock := w.clock + k + 1), false);
    FailureStays(w, k + 1, students);
  }

  lemma SmoothPutBack(w: World, name: string, aside: string)
    requires name != aside && name !in w.containers && aside in w.containers
    requires forall i :: w.clock <= i ==> w.script(i) == Outcome(true, true, true)
    ensures
      var (after, back) := PutBack(w, name, aside);
      back && after.containers == (w.containers - {aside})[name := Container(w.containers[aside].id, true)]
  {
  }

  /** A failure of the candidate, or of its SSH check, when everything before and after it succeeds. */
  lemma FailedCandidateIsDropped(w: World, name: string, aside: string, n: nat)
    requires name != aside && name !in w.containers && aside in w.containers
    requires FailsOnlyAt(w.script, n) && w.clock <= n < w.clock + 2
    ensures
      var (after, call) := Promoted(w, name, aside, true);
      && call == Call(None, Candidate, true)
      && after.containers == (w.containers - {aside})[name := Container(w.containers[aside].id, true)]
  {
    var (w1, candidate) := BroughtUp(w, name);
    assert candidate.None? && w1.script == w.script && w1.clock > n;
    var (w2, removed) := Removed(w1, name);
    assert w2.containers == w.containers && removed;
    SmoothPutBack(w2, name, aside);
  }

  /**
   * Whichever single command fails between setting the original aside and the candidate's SSH check, the
   * call is rolled back: the original runs again under its name, and nothing else has changed.
   */
  lemma OneFailureIsRolledBack(cs: Containers, nextId: nat, script: nat -> Outcome, name: string, aside: string, students: nat, n: nat)
    requires name != aside && name in cs && aside !in cs
    requires FailsOnlyAt(script, n) && 5 <= n < students + 7
    ensures
      var (after, call) := Recreated(World(cs, nextId, 0, script), name, aside, students);
      && call.candidate.None? && call.undone
      && after.containers == cs[name := Container(cs[name].id, true)]
  {
    var w2 := Tried(Tried(World(cs, nextId, 0, script)).0).0;
    var (w4, moved) := PutAside(w2, name, aside);
    assert moved && w4.clock == 4 && w4.script == script;
    assert w4.containers == (cs[name := cs[name].(running := false)] - {name})[aside := Container(cs[name].id, false)];
    var w5 := Tried(w4).0;
    assert (w5.containers - {aside})[name := Container(cs[name].id, true)] == cs[name := Container(cs[name].id, true)];
    if n < 5 + students {
      PreparingStopsAt(w5, students, n - 5);
      hide Prepared;
      SmoothPutBack(w5.(clock := n + 1), name, aside);
    } else {
      PreparingTouchesNothing(w5, students);
      hide Prepared;
      FailedCandidateIsDropped(w5.(clock := 5 + students), name, aside, n);
    }
  }

  // ------------------------------------------------------------------ losing the original in two calls

  /** The candidate of the first call never answers, and removing it fails too; everything else succeeds. */
  function BrokenCandidate(students: nat): nat -> Outcome {
    i => if i == students + 6 || i == students + 7 then Outcome(false, false, false) else Outcome(true, true, true)
  }

  /** The first call leaves the broken candidate under the name, and the original stopped aside. */
  lemma FailedRollback(cs: Containers, nextId: nat, name: string, aside: string, students: nat)
    requires name != aside && name in cs && aside !in cs
    ensures
      var (after, call) := Recreated(World(cs, nextId, 0, BrokenCandidate(students)), name, aside, students);
      && call == Call(None, Candidate, false) && after.clock == students + 9
      && after.script == BrokenCandidate(students) && after.nextId == nextId + 1
      && name in after.containers && after.containers[name] == Container(nextId, true)
      && aside in after.containers && after.containers[aside] == Container(cs[name].id, false)
      && (forall n :: n != name && n != aside ==> (n in after.containers <==> n in cs))
  {
    var w := World(cs, nextId, 0, BrokenCandidate(students));
    var w2 := Tried(Tried(w).0).0;
    var (w4, moved) := PutAside(w2, name, aside);
    assert moved && w4.clock == 4;
    assert w4.containers == (cs[name := cs[name].(running := false)] - {name})[aside := Container(cs[name].id, false)];
    var w5 := Tried(w4).0;
    PreparingTouchesNothing(w5, students);
    hide Prepared;
    FailedPromotion(w5.(clock := 5 + students), name, aside, students);
  }

  lemma FailedPromotion(w: World, name: string, aside: string, students: nat)
    requires name != aside && name !in w.containers && aside in w.containers
    requires w.clock == 5 + students && w.script == BrokenCandidate(students)
    ensures
      var (after, call) := Promoted(w, name, aside, true);
      && call == Call(None, Candidate, false)
      && after == World(w.containers[name := Container(w.nextId, true)], w.nextId + 1, students + 9, w.script)
  {
  }

  /**
   * Two calls in a row can lose the original: the first fails and cannot roll back, the second succeeds
   * and deletes what the first had preserved. This happens from any engine with a container to recreate.
   */
  lemma TwoCallsLoseTheOriginal(cs: Containers, nextId: nat, name: string, aside: string, students: nat)
    requires name != aside && name in cs && aside !in cs && Identified(cs, nextId)
    ensures
      var (first, failed) := Recreated(World(cs, nextId, 0, BrokenCandidate(students)), name, aside, students);
      var (second, succeeded) := Recreated(first, name, aside, students);
      && failed.candidate.None? && Under(first.containers, aside, cs[name].id)
      && succeeded.candidate.Some? && !Survives(second.containers, name, aside, cs[name].id)
  {
    FailedRollback(cs, nextId, name, aside, students);
    hide Recreated;
    var first := Recreated(World(cs, nextId, 0, BrokenCandidate(students)), name, aside, students).0;
    SmoothCall(first, name, aside, students);
  }

  // ------------------------------------------------------------------ failing before the rollback blocks

  /**
   * A call that fails while the original is put aside, or before the storage is found, does not restart
   * it: the original runs afterwards if and only if it ran before and stopping it had no effect.
   */
  lemma EarlyFailureNeverRestarts(w: World, name: string, aside: string, students: nat)
    requires name != aside && name in w.containers && Recreated(w, name, aside, students).1.stage == Aside
    ensures
      var after := Recreated(w, name, aside, students).0.containers;
      var original := w.containers[name].(running := w.containers[name].running && !w.script(w.clock + 2).effect);
      (name in after && after[name] == original) || (aside in after && after[aside] == original)
  {
    var w2 := Tried(Tried(w).0).0;
    var (w4, moved) := PutAside(w2, name, aside);
    LocatedStage(w4, name, aside, students);
    hide Located;
  }

  lemma LocatedStage(w: World, name: string, aside: string, students: nat)
    ensures
      var (after, call) := Located(w, name, aside, students, true);
      call.stage == Aside ==> after.containers == w.containers
  {
  }

  /** Every command succeeds but the one that renames the stopped container. */
  function RenameFails(): nat -> Outcome {
    i => if i == 3 then Outcome(false, false, false) else Outcome(true, true, true)
  }

  /** Such a failure exists from any engine: the call throws and the lab's container stays stopped. */
  lemma EarlyFailureCanStopTheLab(cs: Containers, nextId: nat, name: string, aside: string, students: nat)
    requires name != aside && name in cs && aside !in cs
    ensures
      var (after, call) := Recreated(World(cs, nextId, 0, RenameFails()), name, aside, students);
      call.candidate.None? && name in after.containers && after.containers[name] == Container(cs[name].id, false)
  {
    var w2 := Tried(Tried(World(cs, nextId, 0, RenameFails())).0).0;
    var (w4, moved) := PutAside(w2, name, aside);
    assert !moved;
  }

  // ------------------------------------------------------------------ the code

  /** The docker engine of one node. */
  class Engine {
    var containers: Containers
    var nextId: nat
    var clock: nat
    const script: nat -> Outcome

    /** Every state of the engine since it was first observed, and how many commands reported failure. */
    ghost var trail: seq<Containers>
    ghost var faults: nat

    ghost predicate Valid()
      reads this
    {
      && (forall n :: n in containers ==> containers[n].id < nextId)
      && (forall m, n :: m in containers && n in containers && m != n ==> containers[m].id != containers[n].id)
    }

    constructor (script: nat -> Outcome)
      ensures Valid() && Value() == World(map[], 0, 0, script)
    {
      containers, nextId, clock := map[], 0, 0;
      this.script := script;
      trail, faults := [], 0;
    }

    ghost function Value(): World
      reads this
    {
      World(containers, nextId, clock, script)
    }

    /** How the next command goes. */
    method Command() returns (o: Outcome)
      modifies this`clock
      ensures o == old(Value()).Next() && Value() == old(Value()).Tick(containers)
    {
      o := script(clock);
      clock := clock + 1;
    }

    method Exists(name: string) returns (found: bool)
      ensures found == (name in containers)
    {
      found := name in containers;
    }

    /** `docker stop`, whose result nobody reads. */
    method Stop(name: string)
      requires Valid() && name in containers
      modifies this
      ensures Valid() && nextId == old(nextId) && faults == old(faults) && trail == old(trail) + [containers]
      ensures name in containers && containers[name].id == old(containers)[name].id
      ensures OthersKept(old(containers), containers, name, name)
      ensures forall n :: n != name ==> (n in old(containers) <==> n in containers) && (n in containers ==> containers[n] == old(containers)[n])
      ensures Value() == Stopped(old(Value()), name)
    {
      var o := Command();
      if o.effect {
        containers := containers[name := containers[name].(running := false)];
      }
      trail := trail + [containers];
    }

    /** `docker rm -f`, skipped when there is nothing to remove. */
    method Remove(name: string) returns (ok: bool)
      requires Valid()
      modifies this
      ensures Valid() && nextId == old(nextId) && trail == old(trail) + [containers]
      ensures containers == old(containers) || containers == old(containers) - {name}
      ensures ok ==> containers == old(containers) - {name} && faults == old(faults)
      ensures !ok ==> faults == old(faults) + 1
      ensures (Value(), ok) == Removed(old(Value()), name)
    {
      var found := Exists(name);
      if !found {
        trail := trail + [containers];
        return true;
      }
      var o := Command();
      if o.effect {
        containers := containers - {name};
      }
      trail := trail + [containers];
      ok := o.effect && o.reported;
      faults := if ok then faults else faults + 1;
    }

    method Rename(from: string, to: string) returns (ok: bool)
      requires Valid() && from != to
      modifies this
      ensures Valid() && nextId == old(nextId) && trail == old(trail) + [containers]
      ensures containers == old(containers)
              || (from in old(containers) && to !in old(containers)
                  && containers == (old(containers) - {from})[to := old(containers)[from]])
      ensures ok ==> from in old(containers) && to !in old(containers)
                     && containers == (old(containers) - {from})[to := old(containers)[from]] && faults == old(faults)
      ensures !ok ==> faults == old(faults) + 1
      ensures (Value(), ok) == Renamed(old(Value()), from, to)
    {
      var o := Command();
      var done := o.effect && from in containers && to !in containers;
      if done {
        containers := (containers - {from})[to := containers[from]];
      }
      trail := trail + [containers];
      ok := done && o.reported;
      faults := if ok then faults else faults + 1;
    }

    /** `docker run`: a failed run can leave a container behind. */
    method Create(name: string) returns (id: Option<nat>)
      requires Valid()
      modifies this
      ensures Valid() && nextId == old(nextId) + 1 && trail == old(trail) + [containers]
      ensures containers == old(containers)
              || (name !in old(containers) && name in containers && containers[name].id == old(nextId)
                  && OthersKept(old(containers), containers, name, name))
      ensures id.Some? ==> name !in old(containers) && id.value == old(nextId) && faults == old(faults)
                           && containers == old(containers)[name := Container(old(nextId), true)]
      ensures id.None? ==> faults == old(faults) + 1
      ensures (Value(), id) == Ran(old(Value()), name)
    {
      var o := Command();
      var done := o.effect && name !in containers;
      if done {
        containers := containers[name := Container(nextId, o.complete)];
      }
      trail := trail + [containers];
      id := if done && o.complete && o.reported then Some(nextId) else None;
      faults := if id.Some? then faults else faults + 1;
      nextId := nextId + 1;
    }

    method Start(name: string) returns (ok: bool)
      requires Valid()
      modifies this
      ensures Valid() && nextId == old(nextId) && trail == old(trail) + [containers]
      ensures containers == old(containers)
              || (name in old(containers) && containers == old(containers)[name := old(containers)[name].(running := true)])
      ensures ok ==> name in old(containers) && faults == old(faults)
                     && containers == old(containers)[name := old(containers)[name].(running := true)]
      ensures !ok ==> faults == old(faults) + 1
      ensures (Value(), ok) == Started(old(Value()), name)
    {
      var o := Command();
      var done := o.effect && name in containers;
      if done {
        containers := containers[name := containers[name].(running := true)];
      }
      trail := trail + [containers];
      ok := done && o.reported;
      faults := if ok then faults else faults + 1;
    }

    /** A step that touches no container: pulling the image, preparing storage, the SSH handshake. */
    method Try() returns (ok: bool)
      modifies this`faults, this`clock
      ensures faults == if ok then old(faults) else old(faults) + 1
      ensures (Value(), ok) == Tried(old(Value()))
    {
      var o := Command();
      ok := o.reported;
      faults := if ok then faults else faults + 1;
    }

    /** Put the preserved container back under its name and start it. */
    method Restore(name: string, aside: string, ghost id: nat) returns (restored: bool)
      requires Valid() && name != aside
      modifies this
      ensures Valid() && OthersKept(old(containers), containers, name, aside)
      ensures Appended(old(trail), trail) && faults >= old(faults)
      ensures Survives(old(containers), name, aside, id) ==>
                Survives(containers, name, aside, id) && Throughout(trail, |old(trail)|, |trail|, name, aside, id)
      ensures restored ==>
                (aside in old(containers) && name !in old(containers)
                 && Restored(old(containers), containers, name, aside, old(containers)[aside].id))
      ensures forall other :: Survives(containers, name, aside, other) ==> Survives(old(containers), name, aside, other)
      ensures (Value(), restored) == PutBack(old(Value()), name, aside)
    {
      hide Valid, Renamed, Started;
      restored := false;
      var found := Exists(aside);
      if found {
        var renamed := Rename(aside, name);
        ghost var between := containers;
        assert Survives(old(containers), name, aside, id) ==> Survives(between, name, aside, id);
        if renamed {
          restored := Start(name);
        }
      }
    }

    /** Stop the running container, and clear whatever was aside. */
    method StopAndClear(name: string, aside: string) returns (ok: bool)
      requires Valid() && name != aside && name in containers
      modifies this
      ensures Valid() && OthersKept(old(containers), containers, name, aside) && nextId == old(nextId)
      ensures Appended(old(trail), trail) && faults >= old(faults)
      ensures Throughout(trail, |old(trail)|, |trail|, name, aside, old(containers)[name].id)
      ensures Under(containers, name, old(containers)[name].id)
      ensures ok ==> aside !in containers
      ensures !ok ==> faults > old(faults)
      ensures (Value(), ok) == Removed(Stopped(old(Value()), name), aside)
    {
      hide Stopped, Removed, Throughout, Appended, OthersKept;
      ghost var id, start := containers[name].id, trail;
      ThroughoutNone(start, name, aside, id);
      Stop(name);
      ghost var stopped, first := containers, trail;
      ThroughoutMore(start, start, stopped, name, aside, id);
      ok := Remove(aside);
      ThroughoutMore(start, first, containers, name, aside, id);
      KeptBesides(old(containers), old(containers), stopped, name, aside);
      KeptBesides(old(containers), stopped, containers, name, aside);
    }

    /** Stop the running container and preserve it aside, clearing whatever was there before. */
    method SetAside(name: string, aside: string) returns (ok: bool)
      requires Valid() && name != aside && name in containers
      modifies this
      ensures Valid() && OthersKept(old(containers), containers, name, aside) && nextId == old(nextId)
      ensures Appended(old(trail), trail) && faults >= old(faults)
      ensures Throughout(trail, |old(trail)|, |trail|, name, aside, old(containers)[name].id)
      ensures Survives(containers, name, aside, old(containers)[name].id)
      ensures ok ==> (name !in containers && Under(containers, aside, old(containers)[name].id))
      ensures !ok ==> faults > old(faults)
      ensures (Value(), ok) == PutAside(old(Value()), name, aside)
    {
      hide Valid, Stopped, Removed, Renamed, Throughout, Appended, OthersKept;
      ghost var id, start := containers[name].id, trail;
      ok := StopAndClear(name, aside);
      if ok {
        ghost var cleared, first := containers, trail;
        ok := Rename(name, aside);
        ThroughoutMore(start, first, containers, name, aside, id);
        KeptBesides(old(containers), cleared, containers, name, aside);
      }
    }

    /** Prepare each student's storage while the old container is stopped. */
    method PrepareStorage(students: nat) returns (ok: bool)
      modifies this`faults, this`clock
      ensures if ok then faults == old(faults) else faults > old(faults)
      ensures (Value(), ok) == Prepared(old(Value()), students)
    {
      for i := 0 to students
        invariant faults == old(faults) && (Value(), true) == Prepared(old(Value()), i)
      {
        var prepared := Try();
        if !prepared {
          FailureStays(old(Value()), i + 1, students);
          return false;
        }
      }
      ok := true;
    }

    /** Create the candidate and wait for its SSH handshake. */
    method BringUp(name: string, ghost aside: string, ghost id: nat) returns (candidate: Option<nat>)
      requires Valid() && name != aside && name !in containers
      modifies this
      ensures Valid() && nextId == old(nextId) + 1
      ensures OthersKept(old(containers), containers, name, name)
      ensures name in containers ==> containers[name].id == old(nextId)
      ensures Appended(old(trail), trail) && faults >= old(faults)
      ensures Under(old(containers), aside, id) ==> Throughout(trail, |old(trail)|, |trail|, name, aside, id)
      ensures candidate.Some? ==>
                (candidate.value == old(nextId) && containers == old(containers)[name := Container(old(nextId), true)])
      ensures candidate.None? ==> faults > old(faults)
      ensures (Value(), candidate) == BroughtUp(old(Value()), name)
    {
      candidate := Create(name);
      assert Under(old(containers), aside, id) ==> Under(containers, aside, id);
      if candidate.Some? {
        var ready := Try();
        if !ready {
          candidate := None;
        }
      }
    }

    /** Drop a broken candidate and restore what was preserved. */
    method RollBack(name: string, aside: string, hadOld: bool, ghost id: nat) returns (undone: bool)
      requires Valid() && name != aside
      requires hadOld ==> Under(containers, aside, id)
      modifies this
      ensures Valid() && OthersKept(old(containers), containers, name, aside)
      ensures Appended(old(trail), trail) && faults >= old(faults)
      ensures hadOld ==> (Survives(containers, name, aside, id) && Throughout(trail, |old(trail)|, |trail|, name, aside, id))
      ensures undone && hadOld ==> Restored(old(containers), containers, name, aside, id)
      ensures undone && !hadOld ==> containers == old(containers) - {name}
      ensures forall other :: Survives(containers, name, aside, other) ==> Survives(old(containers), name, aside, other)
      ensures !hadOld ==> AsideKept(old(containers), containers, aside)
      ensures (Value(), undone) == RolledBack(old(Value()), name, aside, hadOld)
    {
      hide Valid, Removed, PutBack;
      undone := Remove(name);
      assert hadOld ==> Under(containers, aside, id);
      if hadOld {
        var back := Restore(name, aside, id);
        undone := undone && back;
      }
    }

    /** Create the candidate under the free name, then promote it or roll back. */
    method CreateAndPromote(name: string, aside: string, hadOld: bool, ghost id: nat)
      returns (r: Result<nat, string>, ghost stage: Stage, ghost undone: bool, ghost readyAt: nat)
      requires Valid() && name != aside && name !in containers
      requires hadOld ==> Under(containers, aside, id)
      modifies this
      ensures Valid() && Appended(old(trail), trail)
      ensures Swapped(old(containers), containers, trail, name, aside, hadOld, id, old(nextId), Found(r), stage, undone, |old(trail)|, readyAt)
      ensures stage in {Candidate, Promoting}
      ensures r.Err? ==> faults > old(faults)
      ensures (Value(), Call(Found(r), stage, undone)) == Promoted(old(Value()), name, aside, hadOld)
    {
      hide Valid, BroughtUp, RolledBack, Removed, Throughout, Restored;
      stage, undone := Candidate, false;
      var candidate := BringUp(name, aside, id);
      ghost var broughtUp, between := containers, trail;
      assert OnlyNew(old(containers), broughtUp, name, aside, old(nextId));
      if candidate.None? {
        undone := RollBack(name, aside, hadOld, id);
        r, readyAt := Err("recreate failed"), |trail|;
        RolledBackMeans(old(containers), broughtUp, containers, name, aside, hadOld, undone, id);
        if hadOld {
          ThroughoutTwice(old(trail), between, trail, |trail|, name, aside, id);
        }
        return;
      }
      stage, readyAt, r := Promoting, |trail|, Ok(candidate.value);
      if hadOld {
        var promoted := Remove(aside);
        ThroughoutKept(between, trail, |old(trail)|, name, aside, id);
        if !promoted {
          r := Err("preserved container not removed");
        }
      }
    }

    /** Prepare the students' storage with the old container out of the way, then replace it. */
    method PrepareAndReplace(name: string, aside: string, students: nat, hadOld: bool, ghost id: nat)
      returns (r: Result<nat, string>, ghost stage: Stage, ghost undone: bool, ghost readyAt: nat)
      requires Valid() && name != aside && name !in containers
      requires hadOld ==> Under(containers, aside, id)
      modifies this
      ensures Valid() && Appended(old(trail), trail)
      ensures Swapped(old(containers), containers, trail, name, aside, hadOld, id, old(nextId), Found(r), stage, undone, |old(trail)|, readyAt)
      ensures stage in {Preparing, Candidate, Promoting}
      ensures r.Err? ==> faults > old(faults)
      ensures (Value(), Call(Found(r), stage, undone)) == Replaced(old(Value()), name, aside, students, hadOld)
    {
      stage := Preparing;
      var stored := PrepareStorage(students);
      if !stored {
        undone := !hadOld;
        if hadOld {
          undone := Restore(name, aside, id);
        }
        r, readyAt := Err("student quota preparation failed"), |trail|;
        return;
      }
      r, stage, undone, readyAt := CreateAndPromote(name, aside, hadOld, id);
    }

    /** Find the lab's storage, prepare it, and replace the container that stands aside (if any). */
    method FindAndReplace(name: string, aside: string, students: nat, hadOld: bool, ghost id: nat)
      returns (r: Result<nat, string>, ghost stage: Stage, ghost undone: bool, ghost readyAt: nat)
      requires Valid() && name != aside && name !in containers
      requires hadOld ==> Under(containers, aside, id)
      modifies this
      ensures Valid() && Appended(old(trail), trail)
      ensures Swapped(old(containers), containers, trail, name, aside, hadOld, id, old(nextId), Found(r), stage, undone, |old(trail)|, readyAt)
      ensures stage != Checking && (stage == Aside ==> (containers == old(containers) && !undone))
      ensures r.Err? ==> faults > old(faults)
      ensures (Value(), Call(Found(r), stage, undone)) == Located(old(Value()), name, aside, students, hadOld)
    {
      stage, undone := Aside, false;
      var listed := Try();
      if !listed {
        r, readyAt := Err("lab storage not found"), |trail|;
        return;
      }
      hide Valid, OthersKept, Throughout, Restored, OnlyNew;
      r, stage, undone, readyAt := PrepareAndReplace(name, aside, students, hadOld, id);
    }

    method ReplaceExisting(name: string, aside: string, students: nat)
      returns (r: Result<nat, string>, ghost stage: Stage, ghost undone: bool, ghost readyAt: nat)
      requires Valid() && name != aside && name in containers
      modifies this
      ensures Valid() && OthersKept(old(containers), containers, name, aside)
      ensures Appended(old(trail), trail) && |old(trail)| <= readyAt <= |trail|
      ensures ReplacedSafely(old(containers), containers, trail, name, aside, r.Ok?, stage, undone, |old(trail)|, readyAt)
      ensures stage != Checking && (undone ==> stage == Preparing || stage == Candidate)
      ensures stage != Promoting ==> (r.Err? && readyAt == |trail|)
      ensures stage == Promoting ==> (name in containers && containers[name] == Container(old(nextId), true))
      ensures r.Ok? ==> (stage == Promoting && r.value == old(nextId))
      ensures r.Err? ==> faults > old(faults)
      ensures aside in old(containers) && stage != Aside ==> !Survives(containers, name, aside, old(containers)[aside].id)
      ensures (Value(), Call(Found(r), stage, undone)) == ReplacedOld(old(Value()), name, aside, students)
    {
      ghost var id := containers[name].id;
      assert aside in containers ==> containers[aside].id != id && containers[aside].id < nextId;
      hide Valid;
      stage, undone := Aside, false;
      var moved := SetAside(name, aside);
      ghost var parked, before := containers, trail;
      if !moved {
        r, readyAt := Err("container not preserved"), |trail|;
        return;
      }
      assert forall n :: Survives(parked, name, aside, n) ==> n == id;
      r, stage, undone, readyAt := FindAndReplace(name, aside, students, true, id);
      OthersKeptTwice(old(containers), parked, containers, name, aside);
      ThroughoutTwice(old(trail), before, trail, readyAt, name, aside, id);
      assert undone ==> Restored(old(containers), containers, name, aside, id);
      hide OthersKept, Throughout, Restored;
    }

    /**
     * Recreate the lab's container. `students` are the accounts whose storage is prepared while the
     * old container is stopped. `stage`, `undone` and `readyAt` record how far the call got, whether
     * the rollback's commands all succeeded, and the length of the trail when the candidate passed
     * its SSH check (or at the end, when none did).
     */
    method RecreateContainer(name: string, aside: string, students: nat)
      returns (r: Result<nat, string>, ghost stage: Stage, ghost undone: bool, ghost readyAt: nat)
      requires Valid() && name != aside
      modifies this
      ensures Valid() && OthersKept(old(containers), containers, name, aside)
      ensures Appended(old(trail), trail) && |old(trail)| <= readyAt <= |trail|
      ensures name in old(containers) ==>
                ReplacedSafely(old(containers), containers, trail, name, aside, r.Ok?, stage, undone, |old(trail)|, readyAt)
      ensures name !in old(containers) && r.Ok? ==> containers == old(containers)[name := Container(r.value, true)]
      ensures name !in old(containers) && undone ==> containers == old(containers)
      // an image or node that is not ready leaves everything untouched
      ensures stage == Checking ==> containers == old(containers)
      // the outcome tells whether the candidate runs, and errors only follow failures
      ensures stage != Promoting ==> (r.Err? && readyAt == |trail|)
      ensures stage == Promoting ==> (name in containers && containers[name] == Container(old(nextId), true))
      ensures r.Ok? ==> (stage == Promoting && r.value == old(nextId))
      ensures r.Err? ==> faults > old(faults)
      ensures undone ==> (stage == Preparing || stage == Candidate)
      // what an earlier failed rollback left aside does not survive the next attempt
      ensures name in old(containers) && aside in old(containers) && stage in {Preparing, Candidate, Promoting} ==>
                !Survives(containers, name, aside, old(containers)[aside].id)
      // with nothing to replace, what stands aside is not touched
      ensures name !in old(containers) ==> AsideKept(old(containers), containers, aside)
      ensures (Value(), Call(Found(r), stage, undone)) == Recreated(old(Value()), name, aside, students)
    {
      stage, undone, readyAt := Checking, false, |trail|;
      hide Valid;
      var healthy := Try();
      if !healthy {
        r := Err("node not ready");
        return;
      }
      var pulled := Try();
      if !pulled {
        r := Err("image not available");
        return;
      }
      var hadOld := Exists(name);
      hide Throughout, Restored;
      if hadOld {
        r, stage, undone, readyAt := ReplaceExisting(name, aside, students);
      } else {
        r, stage, undone, readyAt := FindAndReplace(name, aside, students, false, 0);
      }
    }
  }
}
