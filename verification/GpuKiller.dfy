/** The idle-GPU state machine: which processes are warned and killed over a run of evaluations. */
module GpuKiller {
  import opened Prelude

  datatype Pid = Pid(n: int)

  /** One listed GPU process. Utilization is unknown when the sample is missing. */
  datatype Process = Process(
    pid: Option<Pid>, managed: bool, vram: int, util: Option<real>,
    user: Option<string>, lab: Option<string>, container: Option<string>)

  datatype Policy = Policy(
    enabled: bool, utilThreshold: real, idleMinutes: real, graceMinutes: real, immediate: bool,
    exemptUsers: set<string>, exemptLabs: set<string>)

  datatype Action = Warn | Kill

  datatype Decision = Decision(
    pid: Pid, action: Action, process: Process, lab: Option<string>, user: Option<string>, idleSeconds: int)

  /** Since when a process has been idle, and when its owner was warned. */
  datatype Track = Track(idleSince: real, warnedAt: Option<real>)

  // ------------------------------------------------------------------ one process

  function LabFromContainer(container: Option<string>): Option<string> {
    if container.Some? && "lab-" <= container.value then Some(container.value[4..]) else None
  }

  /** The label wins; an empty label counts as none. */
  function LabOf(p: Process): Option<string> {
    if p.lab.Some? && p.lab.value != "" then p.lab else LabFromContainer(p.container)
  }

  predicate IsIdle(p: Process, policy: Policy) {
    p.vram > 0 && p.util.Some? && p.util.value <= policy.utilThreshold
  }

  predicate Exempt(p: Process, policy: Policy) {
    || (p.user.Some? && p.user.value in policy.exemptUsers)
    || (LabOf(p).Some? && LabOf(p).value in policy.exemptLabs)
  }

  /** Inside a managed container, idle, and nothing excuses it. */
  predicate Eligible(p: Process, policy: Policy) {
    p.managed && policy.enabled && !Exempt(p, policy) && IsIdle(p, policy)
  }

  /** Truncation toward zero. */
  function Whole(x: real): int {
    if x >= 0.0 then x.Floor else -(-x).Floor
  }

  function Decide(pid: Pid, action: Action, p: Process, idleFor: real): Decision {
    Decision(pid, action, p, LabOf(p), p.user, Whole(idleFor))
  }

  /** How one sighting changes the tracking of a pid, and what it triggers. */
  function Step(track: Option<Track>, pid: Pid, p: Process, policy: Policy, now: real): (Option<Track>, Option<Decision>) {
    if !Eligible(p, policy) then (None, None)
    else
      var t := if track.Some? then track.value else Track(now, None);
      var idleFor := now - t.idleSince;
      if policy.immediate then (None, Some(Decide(pid, Kill, p, idleFor)))
      else if t.warnedAt.None? then
        if idleFor >= policy.idleMinutes * 60.0
        then (Some(t.(warnedAt := Some(now))), Some(Decide(pid, Warn, p, idleFor)))
        else (Some(t), None)
      else if now - t.warnedAt.value >= policy.graceMinutes * 60.0 then (None, Some(Decide(pid, Kill, p, idleFor)))
      else (Some(t), None)
  }

  // ------------------------------------------------------------------ one evaluation

  function Get(state: map<Pid, Track>, pid: Pid): Option<Track> {
    if pid in state then Some(state[pid]) else None
  }

  function Put(state: map<Pid, Track>, pid: Pid, track: Option<Track>): map<Pid, Track> {
    match track case Some(t) => state[pid := t] case None => state - {pid}
  }

  function Listed(d: Option<Decision>): seq<Decision> {
    match d case Some(x) => [x] case None => []
  }

  /** All sightings in order. */
  function Sweep(state: map<Pid, Track>, processes: seq<Process>, policy: Policy, now: real): (map<Pid, Track>, seq<Decision>) {
    if processes == [] then (state, [])
    else
      var last := processes[|processes| - 1];
      var (s, ds) := Sweep(state, processes[..|processes| - 1], policy, now);
      if last.pid.None? then (s, ds)
      else
        var pid := last.pid.value;
        var (t, d) := Step(Get(s, pid), pid, last, policy, now);
        (Put(s, pid, t), ds + Listed(d))
  }

  function Present(processes: seq<Process>): set<Pid> {
    set p | p in processes && p.pid.Some? :: p.pid.value
  }

  /** Sightings, then processes that are gone are forgotten. */
  function Evaluated(state: map<Pid, Track>, call: Call): (map<Pid, Track>, seq<Decision>) {
    var (s, ds) := Sweep(state, call.processes, call.policy, call.now);
    (map pid | pid in s && pid in Present(call.processes) :: s[pid], ds)
  }

  /** The arguments of one evaluation. */
  datatype Call = Call(processes: seq<Process>, policy: Policy, now: real)

  class Killer {
    var state: map<Pid, Track>

    constructor ()
      ensures state == map[]
    {
      state := map[];
    }

    /** One sighting of `pid`. */
    method Consider(pid: Pid, p: Process, policy: Policy, now: real) returns (decision: Option<Decision>)
      modifies this
      ensures var step := Step(Get(old(state), pid), pid, p, policy, now);
              state == Put(old(state), pid, step.0) && decision == step.1
    {
      decision := None;
      if !p.managed {
        state := state - {pid};
        return;
      }
      if !policy.enabled || Exempt(p, policy) || !IsIdle(p, policy) {
        state := state - {pid};
        return;
      }
      if pid !in state {
        state := state[pid := Track(now, None)];
      }
      var idleFor := now - state[pid].idleSince;
      if policy.immediate {
        decision := Some(Decide(pid, Kill, p, idleFor));
        state := state - {pid};
        return;
      }
      if state[pid].warnedAt.None? {
        if idleFor >= policy.idleMinutes * 60.0 {
          state := state[pid := state[pid].(warnedAt := Some(now))];
          decision := Some(Decide(pid, Warn, p, idleFor));
        }
      } else if now - state[pid].warnedAt.value >= policy.graceMinutes * 60.0 {
        decision := Some(Decide(pid, Kill, p, idleFor));
        state := state - {pid};
      }
    }

    /** Drop every tracked pid that is not present. */
    method Forget(present: set<Pid>)
      modifies this
      ensures state == map pid | pid in old(state) && pid in present :: old(state)[pid]
    {
      var left := state.Keys;
      while left != {}
        invariant left <= old(state).Keys
        invariant state == map pid | pid in old(state) && (pid in left || pid in present) :: old(state)[pid]
        decreases |left|
      {
        var pid :| pid in left;
        if pid !in present {
          state := state - {pid};
        }
        left := left - {pid};
      }
    }

    method Evaluate(processes: seq<Process>, policy: Policy, now: real) returns (decisions: seq<Decision>)
      modifies this
      ensures (state, decisions) == Evaluated(old(state), Call(processes, policy, now))
    {
      hide Step, Put, Get;
      decisions := [];
      var present: set<Pid> := {};
      for i := 0 to |processes|
        invariant (state, decisions) == Sweep(old(state), processes[..i], policy, now)
        invariant present == Present(processes[..i])
      {
        var p := processes[i];
        assert processes[..i + 1] == processes[..i] + [p];
        assert processes[..i + 1][..i] == processes[..i];
        if p.pid.Some? {
          present := present + {p.pid.value};
          var decision := Consider(p.pid.value, p, policy, now);
          decisions := decisions + Listed(decision);
        }
      }
      assert processes[..|processes|] == processes;
      Forget(present);
    }
  }

  // ------------------------------------------------------------------ the view of one pid

  ghost predicate DistinctPids(processes: seq<Process>) {
    forall i, j :: 0 <= i < j < |processes| && processes[i].pid.Some? ==> processes[i].pid != processes[j].pid
  }

  /** What an evaluation does to one pid: its only sighting counts, and absence clears it. */
  ghost predicate Affects(before: Option<Track>, after: Option<Track>, decisions: seq<Decision>, pid: Pid, call: Call) {
    if pid in Present(call.processes) then
      exists p :: p in call.processes && p.pid == Some(pid)
                  && after == Step(before, pid, p, call.policy, call.now).0
                  && forall d :: d in decisions && d.pid == pid <==> Step(before, pid, p, call.policy, call.now).1 == Some(d)
    else after == None && forall d :: d in decisions ==> d.pid != pid
  }

  lemma {:induction false} SweepLeavesOthers(state: map<Pid, Track>, processes: seq<Process>, policy: Policy, now: real, pid: Pid)
    requires pid !in Present(processes)
    ensures var (s, ds) := Sweep(state, processes, policy, now);
            Get(s, pid) == Get(state, pid) && forall d :: d in ds ==> d.pid != pid
  {
    if processes != [] {
      var n := |processes| - 1;
      assert processes[n] in processes && forall p :: p in processes[..n] ==> p in processes;
      SweepLeavesOthers(state, processes[..n], policy, now, pid);
    }
  }

  lemma DecisionNamesItsPid(track: Option<Track>, pid: Pid, p: Process, policy: Policy, now: real)
    ensures var d := Step(track, pid, p, policy, now).1; d.Some? ==> d.value.pid == pid
  {
  }

  lemma {:induction false} SweepOnce(state: map<Pid, Track>, processes: seq<Process>, policy: Policy, now: real, pid: Pid, x: nat)
    requires DistinctPids(processes) && x < |processes| && processes[x].pid == Some(pid)
    ensures var (s, ds) := Sweep(state, processes, policy, now);
            var (t, decision) := Step(Get(state, pid), pid, processes[x], policy, now);
            Get(s, pid) == t && forall d :: d in ds && d.pid == pid <==> decision == Some(d)
  {
    hide Step;
    var n := |processes| - 1;
    var past := processes[..n];
    if processes[n].pid.Some? {
      var last := processes[n].pid.value;
      DecisionNamesItsPid(Get(Sweep(state, past, policy, now).0, last), last, processes[n], policy, now);
    }
    if x < n {
      SweepOnce(state, past, policy, now, pid, x);
    } else {
      forall p | p in past
        ensures p.pid != Some(pid)
      {
        var y :| 0 <= y < n && processes[y] == p;
      }
      assert pid !in Present(past);
      SweepLeavesOthers(state, past, policy, now, pid);
    }
  }

  lemma EvaluationByPid(state: map<Pid, Track>, call: Call, pid: Pid)
    requires DistinctPids(call.processes)
    ensures var (s, ds) := Evaluated(state, call); Affects(Get(state, pid), Get(s, pid), ds, pid, call)
  {
    if pid in Present(call.processes) {
      var p :| p in call.processes && p.pid == Some(pid);
      var x :| 0 <= x < |call.processes| && call.processes[x] == p;
      SweepOnce(state, call.processes, call.policy, call.now, pid, x);
    } else {
      SweepLeavesOthers(state, call.processes, call.policy, call.now, pid);
    }
  }

  // ------------------------------------------------------------------ runs of evaluations

  function StateAfter(calls: seq<Call>): map<Pid, Track> {
    if calls == [] then map[] else Evaluated(StateAfter(calls[..|calls| - 1]), calls[|calls| - 1]).0
  }

  function DecisionsAt(calls: seq<Call>, k: nat): seq<Decision>
    requires k < |calls|
  {
    Evaluated(StateAfter(calls[..k]), calls[k]).1
  }

  ghost predicate Decided(calls: seq<Call>, k: nat, pid: Pid, action: Action)
    requires k < |calls|
  {
    exists d :: d in DecisionsAt(calls, k) && d.pid == pid && d.action == action
  }

  ghost predicate Quiet(calls: seq<Call>, k: nat, pid: Pid)
    requires k < |calls|
  {
    forall d :: d in DecisionsAt(calls, k) ==> d.pid != pid
  }

  /** The call saw the pid managed, idle and not exempt. */
  ghost predicate SeenEligible(call: Call, pid: Pid) {
    exists p :: p in call.processes && p.pid == Some(pid) && Eligible(p, call.policy)
  }

  ghost predicate WellListed(calls: seq<Call>) {
    forall k :: 0 <= k < |calls| ==> DistinctPids(calls[k].processes)
  }

  /** An idle stretch from call `i` up to call `n`, in which nothing was decided except possibly at `j`. */
  ghost predicate IdleStretch(calls: seq<Call>, pid: Pid, i: nat, n: nat, j: nat)
    requires n <= |calls|
  {
    && i < n
    && (forall m :: i <= m < n ==> SeenEligible(calls[m], pid))
    && (forall m :: i <= m < n && m != j ==> Quiet(calls, m, pid))
  }

  /** The warning at call `j` came after the policy's idle time. */
  ghost predicate WarnedAfterIdling(calls: seq<Call>, pid: Pid, i: nat, j: nat)
    requires i <= j < |calls|
  {
    Decided(calls, j, pid, Warn) && calls[j].now - calls[i].now >= calls[j].policy.idleMinutes * 60.0
  }

  ghost predicate ExplainsTrack(calls: seq<Call>, pid: Pid, t: Track, i: nat, n: nat, j: nat)
    requires n <= |calls|
  {
    && IdleStretch(calls, pid, i, n, j)
    && calls[i].now == t.idleSince
    && (t.warnedAt.None? ==> j == n)
    && (t.warnedAt.Some? ==> i <= j < n && calls[j].now == t.warnedAt.value && WarnedAfterIdling(calls, pid, i, j))
  }

  lemma CallByPid(calls: seq<Call>, n: nat, pid: Pid)
    requires WellListed(calls) && n < |calls|
    ensures Affects(Get(StateAfter(calls[..n]), pid), Get(StateAfter(calls[..n + 1]), pid), DecisionsAt(calls, n), pid, calls[n])
  {
    assert calls[..n + 1][..n] == calls[..n];
    EvaluationByPid(StateAfter(calls[..n]), calls[n], pid);
  }

  /** The sighting that left a pid tracked, or that triggered a decision about it. */
  lemma Sighting(calls: seq<Call>, n: nat, pid: Pid) returns (p: Process)
    requires WellListed(calls) && n < |calls|
    requires pid in StateAfter(calls[..n + 1]) || !Quiet(calls, n, pid)
    ensures SeenEligible(calls[n], pid)
    ensures var (t, d) := Step(Get(StateAfter(calls[..n]), pid), pid, p, calls[n].policy, calls[n].now);
            && Eligible(p, calls[n].policy)
            && Get(StateAfter(calls[..n + 1]), pid) == t
            && (d.Some? ==> Decided(calls, n, pid, d.value.action))
            && (d.None? ==> Quiet(calls, n, pid))
            && forall a :: Decided(calls, n, pid, a) ==> d.Some? && d.value.action == a
  {
    CallByPid(calls, n, pid);
    var before, after := Get(StateAfter(calls[..n]), pid), Get(StateAfter(calls[..n + 1]), pid);
    p :| p in calls[n].processes && p.pid == Some(pid)
         && after == Step(before, pid, p, calls[n].policy, calls[n].now).0
         && forall d :: d in DecisionsAt(calls, n) && d.pid == pid <==>
                        Step(before, pid, p, calls[n].policy, calls[n].now).1 == Some(d);
    var decision := Step(before, pid, p, calls[n].policy, calls[n].now).1;
    assert decision.Some? ==> decision.value in DecisionsAt(calls, n);
  }

  lemma StartStretch(calls: seq<Call>, n: nat, pid: Pid, t: Track) returns (j: nat)
    requires WellListed(calls) && n < |calls|
    requires pid !in StateAfter(calls[..n]) && Get(StateAfter(calls[..n + 1]), pid) == Some(t)
    ensures ExplainsTrack(calls, pid, t, n, n + 1, j)
  {
    var p := Sighting(calls, n, pid);
    j := if t.warnedAt.None? then n + 1 else n;
  }

  /** The ways in which a sighting can leave an already tracked pid tracked. */
  ghost predicate Continues(before: Track, t: Track, d: Option<Action>, policy: Policy, now: real) {
    && t.idleSince == before.idleSince
    && match before.warnedAt
       case Some(w) => t.warnedAt == before.warnedAt && d == None
       case None =>
         if t.warnedAt.None? then d == None
         else t.warnedAt == Some(now) && d == Some(Warn) && now - t.idleSince >= policy.idleMinutes * 60.0
  }

  lemma StillTracked(calls: seq<Call>, n: nat, pid: Pid, before: Track, t: Track) returns (d: Option<Action>)
    requires WellListed(calls) && n < |calls|
    requires Get(StateAfter(calls[..n]), pid) == Some(before) && Get(StateAfter(calls[..n + 1]), pid) == Some(t)
    ensures SeenEligible(calls[n], pid)
    ensures Continues(before, t, d, calls[n].policy, calls[n].now)
    ensures if d.Some? then Decided(calls, n, pid, d.value) else Quiet(calls, n, pid)
  {
    var p := Sighting(calls, n, pid);
    var step := Step(Some(before), pid, p, calls[n].policy, calls[n].now);
    d := if step.1.Some? then Some(step.1.value.action) else None;
  }

  lemma LongerStretch(calls: seq<Call>, n: nat, pid: Pid, i: nat, j: nat, j': nat)
    requires n < |calls| && IdleStretch(calls, pid, i, n, j) && SeenEligible(calls[n], pid)
    requires if j == n then j' == n || (Quiet(calls, n, pid) && j' == n + 1) else j < n && j' == j && Quiet(calls, n, pid)
    ensures IdleStretch(calls, pid, i, n + 1, j')
  {
    hide Quiet, SeenEligible;
  }

  lemma ExtendStretch(calls: seq<Call>, n: nat, pid: Pid, before: Track, t: Track, i: nat, j: nat) returns (j': nat)
    requires WellListed(calls) && n < |calls|
    requires Get(StateAfter(calls[..n]), pid) == Some(before) && Get(StateAfter(calls[..n + 1]), pid) == Some(t)
    requires ExplainsTrack(calls, pid, before, i, n, j)
    ensures ExplainsTrack(calls, pid, t, i, n + 1, j')
  {
    var d := StillTracked(calls, n, pid, before, t);
    hide StateAfter, DecisionsAt, WellListed, Quiet, Decided, SeenEligible, IdleStretch;
    j' := if t.warnedAt.None? then n + 1 else if before.warnedAt.None? then n else j;
    LongerStretch(calls, n, pid, i, j, j');
  }

  /** Every tracked pid has an idle stretch, and at most one warning, that explains its tracking. */
  lemma {:induction false} TrackIsExplained(calls: seq<Call>, n: nat, pid: Pid) returns (i: nat, j: nat)
    requires WellListed(calls) && n <= |calls| && pid in StateAfter(calls[..n])
    ensures ExplainsTrack(calls, pid, StateAfter(calls[..n])[pid], i, n, j)
  {
    hide ExplainsTrack, WellListed, Evaluated;
    var last := n - 1;
    var t := StateAfter(calls[..n])[pid];
    if pid in StateAfter(calls[..last]) {
      i, j := TrackIsExplained(calls, last, pid);
      j := ExtendStretch(calls, last, pid, StateAfter(calls[..last])[pid], t, i, j);
    } else {
      i := last;
      j := StartStretch(calls, last, pid, t);
    }
  }

  /**
   * A kill outside immediate mode is justified: the pid was seen managed, idle and not exempt at
   * every evaluation from `i` to `k`, a warning fell at `j` after the idle time, the grace time then
   * passed, and no other warning or kill of that pid lies in between - so no other kill uses it.
   */
  lemma KillIsJustified(calls: seq<Call>, k: nat, pid: Pid) returns (i: nat, j: nat)
    requires WellListed(calls) && k < |calls| && Decided(calls, k, pid, Kill) && !calls[k].policy.immediate
    ensures i <= j < k && WarnedAfterIdling(calls, pid, i, j)
    ensures calls[k].now - calls[j].now >= calls[k].policy.graceMinutes * 60.0
    ensures SeenEligible(calls[k], pid) && IdleStretch(calls, pid, i, k, j)
  {
    var p := Sighting(calls, k, pid);
    i, j := TrackIsExplained(calls, k, pid);
  }

  /** The safety gate: whatever the mode, only a managed, idle, non-exempt process is acted upon. */
  lemma OnlyEligibleIsActedUpon(calls: seq<Call>, k: nat, d: Decision)
    requires WellListed(calls) && k < |calls| && d in DecisionsAt(calls, k)
    ensures SeenEligible(calls[k], d.pid)
  {
    CallByPid(calls, k, d.pid);
  }

  // ------------------------------------------------------------------ a process that stays idle is killed

  /** A fixed, non-immediate policy evaluated at most `gap` apart, with the pid eligible every time. */
  ghost predicate Steady(calls: seq<Call>, pid: Pid, policy: Policy, gap: real) {
    && WellListed(calls) && !policy.immediate && policy.idleMinutes >= 0.0 && policy.graceMinutes >= 0.0
    && (forall k :: 0 <= k < |calls| ==> calls[k].policy == policy && SeenEligible(calls[k], pid))
    && (forall k :: 0 < k < |calls| ==> calls[k - 1].now <= calls[k].now <= calls[k - 1].now + gap)
  }

  lemma StepOfEligible(calls: seq<Call>, k: nat, pid: Pid, policy: Policy, gap: real) returns (p: Process)
    requires Steady(calls, pid, policy, gap) && k < |calls|
    ensures Eligible(p, policy)
    ensures var (t, d) := Step(Get(StateAfter(calls[..k]), pid), pid, p, policy, calls[k].now);
            Get(StateAfter(calls[..k + 1]), pid) == t && (d.Some? ==> d.value in DecisionsAt(calls, k))
  {
    CallByPid(calls, k, pid);
    hide StateAfter, DecisionsAt, Step, Eligible;
    var q :| q in calls[k].processes && q.pid == Some(pid) && Eligible(q, policy);
    assert pid in Present(calls[k].processes);
    p :| p in calls[k].processes && p.pid == Some(pid)
         && Get(StateAfter(calls[..k + 1]), pid) == Step(Get(StateAfter(calls[..k]), pid), pid, p, policy, calls[k].now).0
         && forall d :: d in DecisionsAt(calls, k) && d.pid == pid <==>
                        Step(Get(StateAfter(calls[..k]), pid), pid, p, policy, calls[k].now).1 == Some(d);
    OnePerPid(calls[k].processes, p, q);
    assert Step(Get(StateAfter(calls[..k]), pid), pid, p, policy, calls[k].now).1.Some? ==>
        Step(Get(StateAfter(calls[..k]), pid), pid, p, policy, calls[k].now).1.value in DecisionsAt(calls, k);
  }

  lemma OnePerPid(processes: seq<Process>, p: Process, q: Process)
    requires DistinctPids(processes) && p in processes && q in processes && p.pid.Some? && p.pid == q.pid
    ensures p == q
  {
    var x :| 0 <= x < |processes| && processes[x] == p;
    var y :| 0 <= y < |processes| && processes[y] == q;
  }

  /** What tracking looks like while a steadily idle pid waits for its warning, and for its kill. */
  lemma WaitForWarning(calls: seq<Call>, k: nat, pid: Pid, policy: Policy, gap: real, since: real)
    requires Steady(calls, pid, policy, gap) && k < |calls|
    requires var t := Get(StateAfter(calls[..k]), pid);
             t == Some(Track(since, None)) || (t == None && since == calls[k].now)
    ensures Get(StateAfter(calls[..k + 1]), pid) ==
            Some(Track(since, if calls[k].now - since >= policy.idleMinutes * 60.0 then Some(calls[k].now) else None))
  {
    var p := StepOfEligible(calls, k, pid, policy, gap);
  }

  lemma WaitForKill(calls: seq<Call>, k: nat, pid: Pid, policy: Policy, gap: real, t: Track)
    requires Steady(calls, pid, policy, gap) && k < |calls|
    requires Get(StateAfter(calls[..k]), pid) == Some(t) && t.warnedAt.Some?
    ensures if calls[k].now - t.warnedAt.value >= policy.graceMinutes * 60.0
            then Decided(calls, k, pid, Kill)
            else Get(StateAfter(calls[..k + 1]), pid) == Some(t)
  {
    var p := StepOfEligible(calls, k, pid, policy, gap);
  }

  /** From its first sighting the pid idles unwarned until the idle time is over; then it is warned. */
  lemma WarnComes(calls: seq<Call>, pid: Pid, policy: Policy, gap: real, n: nat) returns (j: nat)
    requires Steady(calls, pid, policy, gap) && n < |calls|
    requires calls[n].now - calls[0].now >= policy.idleMinutes * 60.0
    ensures j <= n && Get(StateAfter(calls[..j + 1]), pid) == Some(Track(calls[0].now, Some(calls[j].now)))
    ensures j > 0 ==> calls[j - 1].now - calls[0].now < policy.idleMinutes * 60.0
  {
    j := 0;
    assert calls[..0] == [];
    assert Get(StateAfter(calls[..0]), pid) == None;
    hide StateAfter, Steady, Get;
    var since := calls[0].now;
    while calls[j].now - since < policy.idleMinutes * 60.0
      invariant j <= n
      invariant var t := Get(StateAfter(calls[..j]), pid); t == Some(Track(since, None)) || (t == None && j == 0)
      invariant j > 0 ==> calls[j - 1].now - since < policy.idleMinutes * 60.0
      decreases n - j
    {
      WaitForWarning(calls, j, pid, policy, gap, since);
      j := j + 1;
    }
    WaitForWarning(calls, j, pid, policy, gap, since);
  }

  lemma KillComes(calls: seq<Call>, pid: Pid, policy: Policy, gap: real, j: nat, n: nat, t: Track) returns (k: nat)
    requires Steady(calls, pid, policy, gap) && j < n < |calls|
    requires Get(StateAfter(calls[..j + 1]), pid) == Some(t) && t.warnedAt == Some(calls[j].now)
    requires calls[n].now - calls[j].now >= policy.graceMinutes * 60.0
    ensures j < k <= n && Decided(calls, k, pid, Kill)
    ensures k > j + 1 ==> calls[k - 1].now - calls[j].now < policy.graceMinutes * 60.0
  {
    hide StateAfter, Steady, Get, Decided;
    k := j + 1;
    while calls[k].now - calls[j].now < policy.graceMinutes * 60.0
      invariant j < k <= n
      invariant Get(StateAfter(calls[..k]), pid) == Some(t)
      invariant k > j + 1 ==> calls[k - 1].now - calls[j].now < policy.graceMinutes * 60.0
      decreases n - k
    {
      WaitForKill(calls, k, pid, policy, gap, t);
      k := k + 1;
    }
    WaitForKill(calls, k, pid, policy, gap, t);
  }

  /**
   * A process that is idle at every evaluation is killed no later than the idle time plus the grace
   * time plus two evaluation gaps after it was first seen.
   */
  lemma IdleProcessIsKilled(calls: seq<Call>, pid: Pid, policy: Policy, gap: real) returns (k: nat)
    requires Steady(calls, pid, policy, gap) && gap >= 0.0 && calls != []
    requires calls[|calls| - 1].now > calls[0].now + (policy.idleMinutes + policy.graceMinutes) * 60.0 + gap
    ensures k < |calls| && Decided(calls, k, pid, Kill)
    ensures calls[k].now <= calls[0].now + (policy.idleMinutes + policy.graceMinutes) * 60.0 + 2.0 * gap
  {
    hide StateAfter, Decided;
    var n := |calls| - 1;
    var j := WarnComes(calls, pid, policy, gap, n);
    k := KillComes(calls, pid, policy, gap, j, n, Track(calls[0].now, Some(calls[j].now)));
  }

  // ------------------------------------------------------------------ exactly when something is decided

  /** The lab of a process: its label, or the rest of a container name that starts with `lab-`. */
  ghost predicate InLab(p: Process, lab: string) {
    if p.lab.Some? && p.lab.value != "" then p.lab.value == lab else p.container == Some("lab-" + lab)
  }

  /** Uses memory without computing, inside a managed container, and neither its user nor its lab is exempt. */
  ghost predicate Idles(p: Process, policy: Policy) {
    && policy.enabled && p.managed && p.vram > 0
    && (match p.util case Some(u) => u <= policy.utilThreshold case None => false)
    && (match p.user case Some(u) => u !in policy.exemptUsers case None => true)
    && (forall lab :: lab in policy.exemptLabs ==> !InLab(p, lab))
  }

  lemma LabIs(p: Process)
    ensures match LabOf(p)
            case Some(lab) => InLab(p, lab) && forall other :: InLab(p, other) ==> other == lab
            case None => forall other :: !InLab(p, other)
  {
    if !(p.lab.Some? && p.lab.value != "") && p.container.Some? {
      forall lab | p.container.value == "lab-" + lab
        ensures "lab-" <= p.container.value && lab == p.container.value[4..]
      {
      }
      if "lab-" <= p.container.value {
        assert p.container.value == "lab-" + p.container.value[4..];
      }
    }
  }

  lemma IdlesIffEligible(p: Process, policy: Policy)
    ensures Idles(p, policy) <==> Eligible(p, policy)
  {
    LabIs(p);
    hide LabOf, InLab;
  }

  /** The call saw the pid idle. */
  ghost predicate SeenIdle(call: Call, pid: Pid) {
    exists p :: p in call.processes && p.pid == Some(pid) && Idles(p, call.policy)
  }

  lemma SeenIdleIff(call: Call, pid: Pid)
    ensures SeenIdle(call, pid) <==> SeenEligible(call, pid)
  {
    forall p | p in call.processes
      ensures Idles(p, call.policy) <==> Eligible(p, call.policy)
    {
      IdlesIffEligible(p, call.policy);
    }
    hide Idles, Eligible;
  }

  /** A maximal stretch before call `n` in which the pid was always seen idle and never killed. */
  ghost predicate Stretch(calls: seq<Call>, pid: Pid, i: nat, n: nat)
    requires n <= |calls|
  {
    && i <= n && (forall m :: i <= m < n ==> Idled(calls, m, pid))
    && (i > 0 ==> !Idled(calls, i - 1, pid))
  }

  ghost predicate Idled(calls: seq<Call>, m: nat, pid: Pid)
    requires m < |calls|
  {
    SeenIdle(calls[m], pid) && !Decided(calls, m, pid, Kill)
  }

  ghost predicate WarnedIn(calls: seq<Call>, pid: Pid, i: nat, n: nat)
    requires n <= |calls|
  {
    exists j :: i <= j < n && Decided(calls, j, pid, Warn)
  }

  /** The tracking of a pid says when its stretch began and when it was warned in it. */
  ghost predicate Tracks(calls: seq<Call>, pid: Pid, i: nat, n: nat, track: Option<Track>)
    requires n <= |calls|
  {
    match track
    case None => i == n
    case Some(Track(since, None)) => i < n && since == calls[i].now && !WarnedIn(calls, pid, i, n)
    case Some(Track(since, Some(at))) =>
      && i < n && since == calls[i].now && WarnedIn(calls, pid, i, n)
      && forall j :: i <= j < n && Decided(calls, j, pid, Warn) ==> calls[j].now == at
  }

  /** What one call decides about a pid, by what it sees and how the pid is tracked. */
  ghost predicate DecidesBy(calls: seq<Call>, n: nat, pid: Pid, before: Option<Track>, after: Option<Track>)
    requires n < |calls|
  {
    var (now, policy) := (calls[n].now, calls[n].policy);
    var t := if before.Some? then before.value else Track(now, None);
    var (warns, kills) := (Decided(calls, n, pid, Warn), Decided(calls, n, pid, Kill));
    if !SeenIdle(calls[n], pid) then !warns && !kills && after.None?
    else if policy.immediate then kills && !warns && after.None?
    else if t.warnedAt.None? then
      && !kills && (warns <==> now - t.idleSince >= policy.idleMinutes * 60.0)
      && after == Some(if warns then t.(warnedAt := Some(now)) else t)
    else !warns && (kills <==> now - t.warnedAt.value >= policy.graceMinutes * 60.0) && after == if kills then None else Some(t)
  }

  lemma CallDecidesBy(calls: seq<Call>, n: nat, pid: Pid)
    requires WellListed(calls) && n < |calls|
    ensures DecidesBy(calls, n, pid, Get(StateAfter(calls[..n]), pid), Get(StateAfter(calls[..n + 1]), pid))
  {
    CallByPid(calls, n, pid);
    SeenIdleIff(calls[n], pid);
    AffectsDecides(calls, n, pid, Get(StateAfter(calls[..n]), pid), Get(StateAfter(calls[..n + 1]), pid));
  }

  lemma AffectsDecides(calls: seq<Call>, n: nat, pid: Pid, before: Option<Track>, after: Option<Track>)
    requires WellListed(calls) && n < |calls| && (SeenIdle(calls[n], pid) <==> SeenEligible(calls[n], pid))
    requires Affects(before, after, DecisionsAt(calls, n), pid, calls[n])
    ensures DecidesBy(calls, n, pid, before, after)
  {
    hide StateAfter, DecisionsAt, SeenIdle, Eligible;
    var decisions := DecisionsAt(calls, n);
    if pid in Present(calls[n].processes) {
      var p :| p in calls[n].processes && p.pid == Some(pid)
               && after == Step(before, pid, p, calls[n].policy, calls[n].now).0
               && forall d :: d in decisions && d.pid == pid <==> Step(before, pid, p, calls[n].policy, calls[n].now).1 == Some(d);
      SightedOnce(calls[n], pid, p);
      ActionOf(calls, n, pid, Step(before, pid, p, calls[n].policy, calls[n].now).1);
      hide Decided, SeenEligible, Present, Affects;
    } else {
      NothingDecided(calls, n, pid);
    }
  }

  lemma NothingDecided(calls: seq<Call>, n: nat, pid: Pid)
    requires n < |calls| && pid !in Present(calls[n].processes) && forall d :: d in DecisionsAt(calls, n) ==> d.pid != pid
    ensures !SeenEligible(calls[n], pid) && !Decided(calls, n, pid, Warn) && !Decided(calls, n, pid, Kill)
  {
    hide DecisionsAt, Eligible;
  }

  lemma SightedOnce(call: Call, pid: Pid, p: Process)
    requires DistinctPids(call.processes) && p in call.processes && p.pid == Some(pid)
    ensures SeenEligible(call, pid) <==> Eligible(p, call.policy)
  {
    hide Eligible;
    forall q | q in call.processes && q.pid == Some(pid)
      ensures q == p
    {
      OnePerPid(call.processes, q, p);
    }
  }

  lemma ActionOf(calls: seq<Call>, n: nat, pid: Pid, decision: Option<Decision>)
    requires n < |calls| && forall d :: d in DecisionsAt(calls, n) && d.pid == pid <==> decision == Some(d)
    ensures Decided(calls, n, pid, Warn) <==> decision.Some? && decision.value.action == Warn
    ensures Decided(calls, n, pid, Kill) <==> decision.Some? && decision.value.action == Kill
  {
    hide DecisionsAt;
    if decision.Some? {
      assert decision.value in DecisionsAt(calls, n);
    }
  }

  lemma {:induction false} TrackIsTheStretch(calls: seq<Call>, pid: Pid, n: nat) returns (i: nat)
    requires WellListed(calls) && n <= |calls|
    ensures Stretch(calls, pid, i, n) && Tracks(calls, pid, i, n, Get(StateAfter(calls[..n]), pid))
  {
    hide StateAfter, WellListed, Decided, SeenIdle;
    if n == 0 {
      i := 0;
      NothingTracked(calls, pid);
    } else {
      i := TrackIsTheStretch(calls, pid, n - 1);
      CallDecidesBy(calls, n - 1, pid);
      i := StretchGoesOn(calls, pid, i, n - 1, Get(StateAfter(calls[..n - 1]), pid), Get(StateAfter(calls[..n]), pid));
    }
  }

  lemma NothingTracked(calls: seq<Call>, pid: Pid)
    ensures Get(StateAfter(calls[..0]), pid) == None
  {
    assert calls[..0] == [];
  }

  lemma StretchGoesOn(calls: seq<Call>, pid: Pid, i: nat, n: nat, before: Option<Track>, after: Option<Track>) returns (i': nat)
    requires n < |calls| && Stretch(calls, pid, i, n) && Tracks(calls, pid, i, n, before) && DecidesBy(calls, n, pid, before, after)
    ensures Stretch(calls, pid, i', n + 1) && Tracks(calls, pid, i', n + 1, after)
  {
    hide SeenIdle, Decided, WarnedIn;
    WarnedOneMore(calls, pid, i, n);
    i' := if after.None? then n + 1 else i;
  }

  lemma WarnedOneMore(calls: seq<Call>, pid: Pid, i: nat, n: nat)
    requires i <= n < |calls|
    ensures WarnedIn(calls, pid, i, n + 1) <==> WarnedIn(calls, pid, i, n) || Decided(calls, n, pid, Warn)
    ensures !WarnedIn(calls, pid, n, n)
    ensures !WarnedIn(calls, pid, i, n) ==> forall j :: i <= j < n ==> !Decided(calls, j, pid, Warn)
  {
    hide Decided;
  }

  lemma OneStretch(calls: seq<Call>, pid: Pid, i: nat, j: nat, n: nat)
    requires n <= |calls| && Stretch(calls, pid, i, n) && Stretch(calls, pid, j, n)
    ensures i == j
  {
    hide Idled;
  }

  /**
   * Exactly when a process is warned and when it is killed. With `i` the start of its idle stretch: a
   * process that is seen idle is killed at once in immediate mode, and otherwise once the grace time has
   * passed since it was warned in this stretch; it is warned once the stretch is as long as the idle time.
   */
  lemma DecidedExactly(calls: seq<Call>, k: nat, pid: Pid, i: nat)
    requires WellListed(calls) && k < |calls| && Stretch(calls, pid, i, k)
    ensures
      var policy := calls[k].policy;
      && (Decided(calls, k, pid, Kill) <==>
            && SeenIdle(calls[k], pid)
            && (policy.immediate
                || exists j :: i <= j < k && Decided(calls, j, pid, Warn) && calls[k].now - calls[j].now >= policy.graceMinutes * 60.0))
      && (Decided(calls, k, pid, Warn) <==>
            && SeenIdle(calls[k], pid) && !policy.immediate && !WarnedIn(calls, pid, i, k)
            && calls[k].now - calls[i].now >= policy.idleMinutes * 60.0)
  {
    var j := TrackIsTheStretch(calls, pid, k);
    OneStretch(calls, pid, i, j, k);
    CallDecidesBy(calls, k, pid);
    hide StateAfter, WellListed, Decided, SeenIdle, Stretch;
  }

  /** In immediate mode every process seen idle is killed at once, and forgotten. */
  lemma ImmediateKills(calls: seq<Call>, k: nat, pid: Pid)
    requires WellListed(calls) && k < |calls| && calls[k].policy.immediate && SeenIdle(calls[k], pid)
    ensures Decided(calls, k, pid, Kill) && pid !in StateAfter(calls[..k + 1])
  {
    CallDecidesBy(calls, k, pid);
    hide StateAfter, Decided, SeenIdle;
  }

  /** Rounding toward zero. */
  ghost predicate Truncates(x: real, n: int) {
    if x >= 0.0 then n as real <= x < n as real + 1.0 else n as real - 1.0 < x <= n as real
  }

  /** A decision carries the process it is about, whose it is, and for how long it was idle. */
  ghost predicate TellsAbout(calls: seq<Call>, k: nat, i: nat, d: Decision, p: Process)
    requires i <= k < |calls|
  {
    && p in calls[k].processes && p.pid == Some(d.pid) && Idles(p, calls[k].policy)
    && d.process == p && d.user == p.user && (forall lab :: d.lab == Some(lab) <==> InLab(p, lab))
    && Truncates(calls[k].now - calls[i].now, d.idleSeconds)
  }

  lemma DecisionTells(calls: seq<Call>, k: nat, d: Decision, i: nat)
    requires WellListed(calls) && k < |calls| && d in DecisionsAt(calls, k) && Stretch(calls, d.pid, i, k)
    ensures exists p :: TellsAbout(calls, k, i, d, p)
  {
    var j := TrackIsTheStretch(calls, d.pid, k);
    OneStretch(calls, d.pid, i, j, k);
    CallByPid(calls, k, d.pid);
    hide StateAfter, DecisionsAt, Stretch, WellListed;
    var before := Get(StateAfter(calls[..k]), d.pid);
    var p :| p in calls[k].processes && p.pid == Some(d.pid)
             && forall e :: e in DecisionsAt(calls, k) && e.pid == d.pid <==> Step(before, d.pid, p, calls[k].policy, calls[k].now).1 == Some(e);
    var since := if before.Some? then before.value.idleSince else calls[k].now;
    StepTells(before, d.pid, p, calls[k].policy, calls[k].now, d);
    hide Step, Truncates, InLab, Idles;
    assert since == calls[i].now;
    assert TellsAbout(calls, k, i, d, p);
  }

  lemma StepTells(before: Option<Track>, pid: Pid, p: Process, policy: Policy, now: real, d: Decision)
    requires Step(before, pid, p, policy, now).1 == Some(d)
    ensures Idles(p, policy) && d.process == p && d.user == p.user && (forall lab :: d.lab == Some(lab) <==> InLab(p, lab))
    ensures Truncates(now - (if before.Some? then before.value.idleSince else now), d.idleSeconds)
  {
    IdlesIffEligible(p, policy);
    LabIs(p);
    hide Idles, LabOf, InLab;
  }

  /** An evaluation decides at most once about a process. */
  lemma {:induction false} DecidedOnce(state: map<Pid, Track>, call: Call)
    requires DistinctPids(call.processes)
    ensures var ds := Evaluated(state, call).1; forall a, b :: 0 <= a < b < |ds| ==> ds[a].pid != ds[b].pid
  {
    SweepDecidesOnce(state, call.processes, call.policy, call.now);
    assert AboutEach(Evaluated(state, call).1, Present(call.processes));
    assert Evaluated(state, call).1 == Sweep(state, call.processes, call.policy, call.now).1;
  }

  /** At most one decision about each of these. */
  ghost predicate AboutEach(ds: seq<Decision>, pids: set<Pid>) {
    && (forall a, b :: 0 <= a < b < |ds| ==> ds[a].pid != ds[b].pid)
    && (forall a :: 0 <= a < |ds| ==> ds[a].pid in pids)
  }

  lemma OneMoreAbout(ds: seq<Decision>, d: Option<Decision>, before: set<Pid>, after: set<Pid>)
    requires AboutEach(ds, before) && before <= after
    requires d.Some? ==> d.value.pid !in before && d.value.pid in after
    ensures AboutEach(ds + Listed(d), after)
  {
  }

  lemma NotEarlier(processes: seq<Process>, n: nat, pid: Pid)
    requires DistinctPids(processes) && n < |processes| && processes[n].pid == Some(pid)
    ensures pid !in Present(processes[..n]) && pid in Present(processes)
  {
    assert processes[n] in processes;
    forall p | p in processes[..n]
      ensures p.pid != Some(pid)
    {
      var y :| 0 <= y < n && processes[y] == p;
    }
  }

  lemma {:induction false} SweepDecidesOnce(state: map<Pid, Track>, processes: seq<Process>, policy: Policy, now: real)
    requires DistinctPids(processes)
    ensures var ds := Sweep(state, processes, policy, now).1;
            AboutEach(ds, Present(processes))
  {
    hide Step;
    if processes != [] {
      var n := |processes| - 1;
      var (s, ds) := Sweep(state, processes[..n], policy, now);
      SweepDecidesOnce(state, processes[..n], policy, now);
      assert processes == processes[..n] + [processes[n]];
      assert forall p :: p in processes[..n] ==> p in processes;
      assert forall pid :: pid in Present(processes[..n]) ==> pid in Present(processes);
      if processes[n].pid.Some? {
        var pid := processes[n].pid.value;
        var d := Step(Get(s, pid), pid, processes[n], policy, now).1;
        DecisionNamesItsPid(Get(s, pid), pid, processes[n], policy, now);
        assert Sweep(state, processes, policy, now).1 == ds + Listed(d);
        NotEarlier(processes, n, pid);
        OneMoreAbout(ds, d, Present(processes[..n]), Present(processes));
      } else {
        assert Sweep(state, processes, policy, now).1 == ds;
        OneMoreAbout(ds, None, Present(processes[..n]), Present(processes));
        assert ds + [] == ds;
      }
    }
  }
}
