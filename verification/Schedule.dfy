/** The backup schedule: wall-clock anchoring across clock changes, and the grid of scheduled instants. */
module Schedule {
  import opened Prelude

  // ------------------------------------------------------------------ wall clock to instant

  /** Milliseconds to add to an instant to read the local wall clock. */
  type Offset = int -> int

  /** Offsets stay below `reach`, and within `reach` of `wall` the clock changes at most once. */
  ghost predicate OneTransition(offset: Offset, wall: int, reach: int, change: int, before: int, after: int) {
    && (forall t :: -reach <= offset(t) <= reach)
    && (forall t :: wall - reach <= t <= wall + reach ==> offset(t) == if t < change then before else after)
  }

  ghost predicate Shows(offset: Offset, instant: int, wall: int) {
    instant + offset(instant) == wall
  }

  /** One correction of a guess by the offset in force at the guess. */
  function Corrected(wall: int, guess: int, offset: Offset): int {
    wall - offset(guess)
  }

  function TwicePassed(wall: int, offset: Offset): int {
    Corrected(wall, Corrected(wall, wall, offset), offset)
  }

  /** The instant at which the wall clock reads `wall`, if there is one. Two corrections, starting from a UTC reading. */
  method WallClockToUtc(wall: int, offset: Offset) returns (ts: int)
    ensures ts == TwicePassed(wall, offset)
    ensures forall reach, change, before, after :: OneTransition(offset, wall, reach, change, before, after) ==>
              (Shows(offset, ts, wall) <==> exists r :: Shows(offset, r, wall))
  {
    forall reach, change, before, after | OneTransition(offset, wall, reach, change, before, after)
      ensures Shows(offset, TwicePassed(wall, offset), wall) <==> exists r :: Shows(offset, r, wall)
    {
      TwoPassesSuffice(wall, offset, reach, change, before, after);
    }
    ts := wall;
    var i := 0;
    while i < 2
      invariant 0 <= i <= 2
      invariant ts == if i == 0 then wall
                      else if i == 1 then Corrected(wall, wall, offset)
                      else Corrected(wall, Corrected(wall, wall, offset), offset)
    {
      ts := wall - offset(ts);
      i := i + 1;
    }
  }

  /** With at most one clock change in reach, the result shows the wall clock if any instant does. */
  lemma TwoPassesSuffice(wall: int, offset: Offset, reach: int, change: int, before: int, after: int)
    requires OneTransition(offset, wall, reach, change, before, after)
    ensures Shows(offset, TwicePassed(wall, offset), wall) <==> exists r :: Shows(offset, r, wall)
  {
    var first := Corrected(wall, wall, offset);
    var ts := Corrected(wall, first, offset);
    assert forall t :: -reach <= offset(t) <= reach;
    assert -reach <= offset(wall) <= reach && -reach <= offset(first) <= reach;
    if r :| Shows(offset, r, wall) {
      assert -reach <= offset(r) <= reach;
      assert wall - reach <= r <= wall + reach;
      assert wall - reach <= first <= wall + reach;
      assert wall - reach <= ts <= wall + reach;
      assert Shows(offset, ts, wall);
    }
  }

  /** The wall-clock readings that a forward change at `change` skips. */
  predicate InGap(wall: int, change: int, before: int, after: int) {
    change + before <= wall < change + after
  }

  /** No instant shows the wall clock, and the result is wrong, exactly in the gap that a forward change skips. */
  lemma WrongExactlyInTheGap(wall: int, offset: Offset, reach: int, change: int, before: int, after: int)
    requires OneTransition(offset, wall, reach, change, before, after) && wall - reach <= change <= wall + reach
    ensures (forall r :: !Shows(offset, r, wall)) <==> InGap(wall, change, before, after)
    ensures Shows(offset, TwicePassed(wall, offset), wall) <==> !InGap(wall, change, before, after)
  {
    TwoPassesSuffice(wall, offset, reach, change, before, after);
    var early, late := wall - before, wall - after;
    if InGap(wall, change, before, after) {
      forall r
        ensures !Shows(offset, r, wall)
      {
        assert -reach <= offset(r) <= reach;
      }
    } else if wall < change + before && wall - reach < change {
      OffsetsInReach(offset, wall, reach, change, before, after);
      assert Shows(offset, early, wall);
    } else {
      OffsetsInReach(offset, wall, reach, change, before, after);
      assert Shows(offset, late, wall);
    }
  }

  /** Offsets on both sides of a change inside the reach are themselves within the reach. */
  lemma OffsetsInReach(offset: Offset, wall: int, reach: int, change: int, before: int, after: int)
    requires OneTransition(offset, wall, reach, change, before, after) && wall - reach <= change <= wall + reach
    ensures -reach <= after <= reach && (wall - reach < change ==> -reach <= before <= reach)
  {
    assert offset(change) == after;
    assert -reach <= offset(change) <= reach;
    assert wall - reach < change ==> offset(change - 1) == before && -reach <= offset(change - 1) <= reach;
  }

  /** In that gap the result is off by exactly the size of the change, one way or the other. */
  lemma GapIsOffByTheChange(wall: int, offset: Offset, reach: int, change: int, before: int, after: int)
    requires OneTransition(offset, wall, reach, change, before, after) && wall - reach <= change <= wall + reach
    requires InGap(wall, change, before, after)
    ensures var shown := TwicePassed(wall, offset) + offset(TwicePassed(wall, offset));
            shown == wall + (after - before) || shown == wall - (after - before)
  {
    WrongExactlyInTheGap(wall, offset, reach, change, before, after);
    var first := Corrected(wall, wall, offset);
    assert -reach <= offset(wall) <= reach && -reach <= offset(first) <= reach;
    assert !Shows(offset, first, wall) && !Shows(offset, TwicePassed(wall, offset), wall);
  }

  /** Half past two on the morning of a change from UTC-5 to UTC-4 at two o'clock exists on no clock. */
  lemma GapExists() returns (offset: Offset, wall: int)
    ensures OneTransition(offset, wall, 36_000_000, 0, -18_000_000, -14_400_000)
    ensures InGap(wall, 0, -18_000_000, -14_400_000) && forall r :: !Shows(offset, r, wall)
    ensures !Shows(offset, TwicePassed(wall, offset), wall)
  {
    offset, wall := t => if t < 0 then -18_000_000 else -14_400_000, -16_200_000;
  }

  /** A clock that jumps forward by one hour at instant 0 needs the second pass. */
  lemma OnePassIsNotEnough() returns (offset: Offset, wall: int, r: int)
    ensures OneTransition(offset, wall, 36_000_000, 0, -18_000_000, -14_400_000)
    ensures Shows(offset, r, wall) && !Shows(offset, Corrected(wall, wall, offset), wall)
  {
    offset, wall, r := t => if t < 0 then -18_000_000 else -14_400_000, -14_400_000, 0;
  }

  // ------------------------------------------------------------------ the grid

  /** Scheduled instants are `anchor + k * interval` for every integer k. */
  datatype Grid = Grid(anchor: int, interval: int)

  ghost predicate OnGrid(g: Grid, t: int) {
    exists k: int :: t == g.anchor + k * g.interval
  }

  /** The settings the schedule reads. */
  datatype Settings = Settings(enabled: bool, intervalHours: int, zone: Option<Zone>, lastRun: int)

  /** A timezone that resolves: its offsets, and the time of day of the anchor. */
  datatype Zone = Zone(offset: Offset, anchorTime: nat)

  const HOUR_MS := 3600 * 1000
  const DAY_MS := 24 * HOUR_MS

  /** The anchor's wall clock on the local calendar day of an instant. */
  function AnchorWall(z: Zone, now: int): int {
    (now + z.offset(now)) / DAY_MS * DAY_MS + z.anchorTime
  }

  function GridOf(s: Settings, now: int): Option<Grid> {
    if !s.enabled || s.intervalHours <= 0 || s.zone.None? then None
    else
      var z := s.zone.value;
      Some(Grid(TwicePassed(AnchorWall(z, now), z.offset), s.intervalHours * HOUR_MS))
  }

  /** Local midnight of the calendar day of an instant, as a wall clock. */
  ghost predicate MidnightOf(z: Zone, now: int, midnight: int) {
    midnight <= now + z.offset(now) < midnight + 86_400_000 && exists day: int :: midnight == day * 86_400_000
  }

  /** Where the clock changes at most once nearby, the instant shows the wall clock if any instant does. */
  ghost predicate AnchoredAt(z: Zone, anchor: int, wall: int) {
    forall reach, change, before, after :: OneTransition(z.offset, wall, reach, change, before, after) ==>
      (Shows(z.offset, anchor, wall) <==> exists r :: Shows(z.offset, r, wall))
  }

  /** The grid runs through the anchor's time of day on today's local date, at the interval of the settings. */
  ghost predicate GridOfToday(s: Settings, now: int, g: Grid)
    requires s.zone.Some?
  {
    && g.interval == s.intervalHours * 3_600_000
    && exists midnight :: MidnightOf(s.zone.value, now, midnight)
                          && AnchoredAt(s.zone.value, g.anchor, midnight + s.zone.value.anchorTime)
  }

  lemma AnchorIsOnToday(s: Settings, now: int)
    requires GridOf(s, now).Some?
    ensures GridOfToday(s, now, GridOf(s, now).value)
  {
    var z := s.zone.value;
    var day := (now + z.offset(now)) / DAY_MS;
    assert MidnightOf(z, now, day * 86_400_000);
    var wall := AnchorWall(z, now);
    forall reach, change, before, after | OneTransition(z.offset, wall, reach, change, before, after)
      ensures Shows(z.offset, TwicePassed(wall, z.offset), wall) <==> exists r :: Shows(z.offset, r, wall)
    {
      TwoPassesSuffice(wall, z.offset, reach, change, before, after);
    }
    assert AnchoredAt(z, GridOf(s, now).value.anchor, day * 86_400_000 + z.anchorTime);
  }

  method BackupGrid(s: Settings, now: int) returns (g: Option<Grid>)
    ensures g == GridOf(s, now)
    ensures g.Some? ==> g.value.interval > 0
    // no grid when backups are off, the interval is not positive, or the timezone does not resolve
    ensures g.Some? <==> s.enabled && s.intervalHours > 0 && s.zone.Some?
    ensures g.Some? ==> GridOfToday(s, now, g.value)
  {
    if GridOf(s, now).Some? {
      AnchorIsOnToday(s, now);
    }
    hide GridOfToday;
    if !s.enabled {
      return None;
    }
    if !(s.intervalHours > 0) {
      return None;
    }
    if s.zone.None? {
      return None;
    }
    var anchor := WallClockToUtc(AnchorWall(s.zone.value, now), s.zone.value.offset);
    return Some(Grid(anchor, s.intervalHours * HOUR_MS));
  }

  /** The least grid instant after `ref`. */
  ghost predicate IsSlotAfter(g: Grid, ref: int, slot: int) {
    OnGrid(g, slot) && ref < slot && forall t :: OnGrid(g, t) && ref < t ==> slot <= t
  }

  function SlotIndex(g: Grid, ref: int): int
    requires g.interval > 0
  {
    (ref - g.anchor) / g.interval + 1
  }

  /** The closed formula already lies strictly after the reference, by at most one interval. */
  lemma FormulaIsStrictlyAfter(g: Grid, ref: int)
    requires g.interval > 0
    ensures ref < g.anchor + SlotIndex(g, ref) * g.interval <= ref + g.interval
  {
    var q := (ref - g.anchor) / g.interval;
    assert ref - g.anchor == q * g.interval + (ref - g.anchor) % g.interval;
    assert (q + 1) * g.interval == q * g.interval + g.interval;
  }

  lemma GridOrder(g: Grid, i: int, j: int)
    requires g.interval > 0 && i < j
    ensures g.anchor + i * g.interval + g.interval <= g.anchor + j * g.interval
  {
    assert j * g.interval == i * g.interval + (j - i) * g.interval;
    Scale(j - i, g.interval);
  }

  lemma Scale(n: int, x: int)
    requires n >= 1 && x > 0
    ensures n * x >= x
  {
  }

  lemma FormulaIsTheSlot(g: Grid, ref: int)
    requires g.interval > 0
    ensures IsSlotAfter(g, ref, g.anchor + SlotIndex(g, ref) * g.interval)
  {
    var k := SlotIndex(g, ref);
    var slot := g.anchor + k * g.interval;
    FormulaIsStrictlyAfter(g, ref);
    forall t | OnGrid(g, t) && ref < t
      ensures slot <= t
    {
      var j :| t == g.anchor + j * g.interval;
      if j < k {
        GridOrder(g, j, k);
      } else if k < j {
        GridOrder(g, k, j);
      }
    }
  }

  /** The grid has nothing between one instant and the next. */
  lemma NextOnGrid(g: Grid, t: int)
    requires g.interval > 0 && OnGrid(g, t)
    ensures OnGrid(g, t + g.interval)
    ensures forall u :: OnGrid(g, u) && t < u ==> t + g.interval <= u
  {
    var i :| t == g.anchor + i * g.interval;
    assert t + g.interval == g.anchor + (i + 1) * g.interval;
    forall u | OnGrid(g, u) && t < u
      ensures t + g.interval <= u
    {
      var j :| u == g.anchor + j * g.interval;
      if j < i {
        GridOrder(g, j, i);
      } else if i < j {
        GridOrder(g, i, j);
      }
    }
  }

  /** The first scheduled instant strictly after `ref`, or nothing when the schedule is off. */
  method SlotAfter(s: Settings, ref: int, now: int) returns (slot: Option<int>)
    ensures slot.Some? <==> GridOf(s, now).Some?
    ensures slot.Some? ==> IsSlotAfter(GridOf(s, now).value, ref, slot.value)
  {
    var g := BackupGrid(s, now);
    if g.None? {
      return None;
    }
    var grid := g.value;
    var k := (ref - grid.anchor) / grid.interval + 1;
    var next := grid.anchor + k * grid.interval;
    assert OnGrid(grid, next) && forall t :: OnGrid(grid, t) && ref < t ==> next <= t by {
      FormulaIsTheSlot(grid, ref);
    }
    while next <= ref // never entered: see FormulaIsStrictlyAfter
      invariant OnGrid(grid, next)
      invariant forall t :: OnGrid(grid, t) && ref < t ==> next <= t
      decreases ref - next
    {
      NextOnGrid(grid, next);
      next := next + grid.interval;
    }
    return Some(next);
  }

  /** A grid instant has arrived since the last run. */
  ghost predicate SlotArrived(g: Grid, lastRun: int, now: int) {
    exists t :: OnGrid(g, t) && lastRun < t <= now
  }

  method BackupDue(s: Settings, now: int) returns (due: bool)
    ensures due <==> GridOf(s, now).Some? && SlotArrived(GridOf(s, now).value, s.lastRun, now)
  {
    var next := SlotAfter(s, s.lastRun, now);
    due := next.Some? && now >= next.value;
  }

  method NextBackupRun(s: Settings, now: int) returns (next: Option<int>)
    ensures next.Some? <==> GridOf(s, now).Some?
    ensures next.Some? ==> now - s.intervalHours * HOUR_MS < next.value
    ensures next.Some? ==> s.lastRun < next.value && OnGrid(GridOf(s, now).value, next.value)
    ensures next.Some? ==> forall t :: OnGrid(GridOf(s, now).value, t) && s.lastRun < t && now - s.intervalHours * HOUR_MS < t ==> next.value <= t
    ensures next.Some? ==> (next.value <= now <==> SlotArrived(GridOf(s, now).value, s.lastRun, now))
  {
    var interval := s.intervalHours * HOUR_MS;
    var ref := if s.lastRun > now - interval then s.lastRun else now - interval;
    next := SlotAfter(s, ref, now);
    if next.Some? {
      LookingBackOneIntervalIsEnough(GridOf(s, now).value, s.lastRun, now, next.value);
    }
  }

  /** Any interval-long stretch holds a slot, so clamping the reference does not hide a due backup. */
  lemma LookingBackOneIntervalIsEnough(g: Grid, lastRun: int, now: int, slot: int)
    requires g.interval > 0
    requires IsSlotAfter(g, if lastRun > now - g.interval then lastRun else now - g.interval, slot)
    ensures slot <= now <==> SlotArrived(g, lastRun, now)
  {
    var ref := if lastRun > now - g.interval then lastRun else now - g.interval;
    FormulaIsTheSlot(g, ref);
    FormulaIsStrictlyAfter(g, ref);
  }

  // ------------------------------------------------------------------ a run of the ticker

  /** The grid in force at an instant: every local day has its own anchor. */
  type Grids = int -> Grid

  /** One tick: run a backup when one is due, and record the run whether or not it succeeded. */
  ghost function Tick(g: Grid, lastRun: int, now: int): int {
    if SlotArrived(g, lastRun, now) then now else lastRun
  }

  ghost function LastRunAfter(grids: Grids, lastRun: int, ticks: seq<int>): int {
    if ticks == [] then lastRun
    else
      var now := ticks[|ticks| - 1];
      Tick(grids(now), LastRunAfter(grids, lastRun, ticks[..|ticks| - 1]), now)
  }

  ghost function Runs(grids: Grids, lastRun: int, ticks: seq<int>): nat {
    if ticks == [] then 0
    else
      var past, now := ticks[..|ticks| - 1], ticks[|ticks| - 1];
      Runs(grids, lastRun, past) + if SlotArrived(grids(now), LastRunAfter(grids, lastRun, past), now) then 1 else 0
  }

  ghost predicate Increasing(start: int, ticks: seq<int>) {
    && (ticks != [] ==> start <= ticks[0])
    && (forall i :: 0 < i < |ticks| ==> ticks[i - 1] <= ticks[i])
  }

  function LastTick(start: int, ticks: seq<int>): int {
    if ticks == [] then start else ticks[|ticks| - 1]
  }

  /**
   * Whatever grid each day has: after every tick no instant of the grid in force is left unserved, and
   * the last run is never in the future.
   */
  lemma {:induction false} TickerServesEverySlot(grids: Grids, lastRun: int, ticks: seq<int>)
    requires Increasing(lastRun, ticks)
    ensures lastRun <= LastRunAfter(grids, lastRun, ticks) <= LastTick(lastRun, ticks)
    ensures forall i, t :: 0 <= i < |ticks| && OnGrid(grids(ticks[i]), t) && t <= ticks[i] ==>
              t <= LastRunAfter(grids, lastRun, ticks[..i + 1])
              || t <= lastRun
  {
    if ticks != [] {
      var n := |ticks| - 1;
      TickerServesEverySlot(grids, lastRun, ticks[..n]);
      assert LastTick(lastRun, ticks[..n]) <= ticks[n];
      assert ticks[..n + 1] == ticks;
      forall i, t | 0 <= i < |ticks| && OnGrid(grids(ticks[i]), t) && t <= ticks[i]
        ensures t <= LastRunAfter(grids, lastRun, ticks[..i + 1]) || t <= lastRun
      {
        if i < n {
          assert ticks[..n][..i + 1] == ticks[..i + 1] && ticks[..n][i] == ticks[i];
        }
      }
    }
  }

  /** Grid instants in `(from, to]`, by index. */
  function SlotsBetween(g: Grid, from: int, to: int): int
    requires g.interval > 0
  {
    SlotIndex(g, to) - SlotIndex(g, from)
  }

  lemma ArrivalCountsASlot(g: Grid, from: int, to: int)
    requires g.interval > 0 && from <= to
    ensures SlotsBetween(g, from, to) >= 0
    ensures SlotArrived(g, from, to) <==> SlotsBetween(g, from, to) >= 1
  {
    var i, j := SlotIndex(g, from), SlotIndex(g, to);
    FormulaIsTheSlot(g, from);
    FormulaIsStrictlyAfter(g, from);
    FormulaIsStrictlyAfter(g, to);
    if j < i {
      GridOrder(g, j, i);
    } else if i < j {
      GridOrder(g, i, j);
      assert OnGrid(g, g.anchor + i * g.interval);
    }
  }

  // ------------------------------------------------------------------ when do the days' grids agree?

  ghost predicate SameInstants(g: Grid, h: Grid) {
    forall t :: OnGrid(g, t) <==> OnGrid(h, t)
  }

  lemma Quotient(n: int, m: int, q: int, r: int)
    requires m > 0 && n == q * m + r && 0 <= r < m
    ensures n / m == q && n % m == r
  {
    var k := n / m - q;
    assert n == (n / m) * m + n % m;
    assert k * m == r - n % m by {
      assert (n / m) * m == k * m + q * m;
    }
    Small(k, m);
  }

  lemma Small(k: int, m: int)
    requires -m < k * m < m
    ensures k == 0
  {
    assert k >= 1 ==> k * m >= m;
    assert k <= -1 ==> k * m <= -m;
  }

  lemma ShiftedBy(g: Grid, h: Grid, k: int)
    requires g.interval == h.interval && h.anchor == g.anchor + k * g.interval
    ensures SameInstants(g, h)
  {
    forall t
      ensures OnGrid(g, t) <==> OnGrid(h, t)
    {
      if m: int :| t == g.anchor + m * g.interval {
        assert t == h.anchor + (m - k) * h.interval;
      }
      if m: int :| t == h.anchor + m * h.interval {
        assert t == g.anchor + (m + k) * g.interval;
      }
    }
  }

  /** Two grids of one interval agree if and only if their anchors are a whole number of intervals apart. */
  lemma GridsAgreeIffAnchorsDo(g: Grid, h: Grid)
    requires g.interval == h.interval && g.interval > 0
    ensures SameInstants(g, h) <==> (h.anchor - g.anchor) % g.interval == 0
  {
    var n := h.anchor - g.anchor;
    if n % g.interval == 0 {
      assert n == (n / g.interval) * g.interval;
      ShiftedBy(g, h, n / g.interval);
    }
    if SameInstants(g, h) {
      assert h.anchor == h.anchor + 0 * h.interval;
      assert OnGrid(h, h.anchor) && OnGrid(g, h.anchor);
      var k: int :| h.anchor == g.anchor + k * g.interval;
      Quotient(n, g.interval, k, 0);
    }
  }

  /** As long as the days' grids agree, no more backups are made than scheduled instants passed. */
  lemma {:induction false} NoMoreRunsThanSlots(g: Grid, grids: Grids, lastRun: int, ticks: seq<int>)
    requires g.interval > 0 && Increasing(lastRun, ticks)
    requires forall i :: 0 <= i < |ticks| ==> SameInstants(g, grids(ticks[i]))
    ensures var now := LastTick(lastRun, ticks);
            && lastRun <= LastRunAfter(grids, lastRun, ticks) <= now
            && !SlotArrived(g, LastRunAfter(grids, lastRun, ticks), now)
            && Runs(grids, lastRun, ticks) <= SlotsBetween(g, lastRun, now)
  {
    if ticks != [] {
      var past, now := ticks[..|ticks| - 1], ticks[|ticks| - 1];
      NoMoreRunsThanSlots(g, grids, lastRun, past);
      var earlier := LastTick(lastRun, past);
      var last := LastRunAfter(grids, lastRun, past);
      assert SameInstants(g, grids(now));
      assert SlotArrived(grids(now), last, now) <==> SlotArrived(g, last, now);
      ArrivalCountsASlot(g, last, earlier);
      ArrivalCountsASlot(g, last, now);
      ArrivalCountsASlot(g, earlier, now);
      ArrivalCountsASlot(g, now, now);
    }
  }

  /** The schedule is on. */
  predicate On(s: Settings) {
    s.enabled && s.intervalHours > 0 && s.zone.Some?
  }

  function GridAt(s: Settings): Grids
    requires On(s)
  {
    now => GridOf(s, now).value
  }

  /** A zone whose clock never changes, with an anchor within the day. */
  ghost predicate Unchanging(s: Settings, offset: int) {
    On(s) && (forall t :: s.zone.value.offset(t) == offset) && s.zone.value.anchorTime < DAY_MS
  }

  /** The grid of a local day, counted from the epoch. */
  function DayGrid(s: Settings, offset: int, day: int): Grid
    requires On(s)
  {
    Grid(day * DAY_MS + s.zone.value.anchorTime - offset, s.intervalHours * HOUR_MS)
  }

  lemma GridOfDay(s: Settings, offset: int, day: int, now: int)
    requires Unchanging(s, offset) && day * DAY_MS <= now + offset < (day + 1) * DAY_MS
    ensures GridAt(s)(now) == DayGrid(s, offset, day)
  {
    Quotient(now + offset, DAY_MS, day, now + offset - day * DAY_MS);
  }

  lemma DayOf(offset: int, now: int) returns (day: int)
    ensures day * DAY_MS <= now + offset < (day + 1) * DAY_MS
  {
    day := (now + offset) / DAY_MS;
  }

  lemma HoursAndDays(hours: int)
    requires hours > 0
    ensures DAY_MS % (hours * HOUR_MS) == (24 % hours) * HOUR_MS
  {
    var q, r := 24 / hours, 24 % hours;
    assert 24 == q * hours + r;
    assert DAY_MS == q * (hours * HOUR_MS) + r * HOUR_MS by {
      assert (q * hours) * HOUR_MS == q * (hours * HOUR_MS);
    }
    assert 0 <= r * HOUR_MS < hours * HOUR_MS;
    Quotient(DAY_MS, hours * HOUR_MS, q, r * HOUR_MS);
  }

  lemma Regroup(a: int, b: int, c: int)
    ensures a * (b * c) == (a * b) * c
  {
  }

  ghost predicate AllDaysAgree(s: Settings)
    requires On(s)
  {
    forall now, later :: SameInstants(GridAt(s)(now), GridAt(s)(later))
  }

  /** In a zone whose clock never changes, all days share one grid if and only if the interval divides the day. */
  lemma DaysAgreeIffIntervalDividesDay(s: Settings, offset: int)
    requires Unchanging(s, offset)
    ensures AllDaysAgree(s) <==> 24 % s.intervalHours == 0
  {
    var interval := s.intervalHours * HOUR_MS;
    HoursAndDays(s.intervalHours);
    if 24 % s.intervalHours == 0 {
      var perDay := DAY_MS / interval;
      assert DAY_MS == perDay * interval;
      forall now, later
        ensures SameInstants(GridAt(s)(now), GridAt(s)(later))
      {
        var day := DayOf(offset, now);
        var other := DayOf(offset, later);
        GridOfDay(s, offset, day, now);
        GridOfDay(s, offset, other, later);
        Regroup(other - day, perDay, interval);
        ShiftedBy(DayGrid(s, offset, day), DayGrid(s, offset, other), (other - day) * perDay);
      }
    }
    if AllDaysAgree(s) {
      GridOfDay(s, offset, 0, -offset);
      GridOfDay(s, offset, 1, DAY_MS - offset);
      assert SameInstants(GridAt(s)(-offset), GridAt(s)(DAY_MS - offset));
      GridsAgreeIffAnchorsDo(DayGrid(s, offset, 0), DayGrid(s, offset, 1));
    }
  }

  // ------------------------------------------------------------------ when are there too many backups?

  /** A run of ticks makes at most as many backups as the grid of its start has instants. */
  ghost predicate AsScheduled(s: Settings, lastRun: int, ticks: seq<int>)
    requires On(s)
  {
    Increasing(lastRun, ticks) ==>
      Runs(GridAt(s), lastRun, ticks) <= SlotsBetween(GridOf(s, lastRun).value, lastRun, LastTick(lastRun, ticks))
  }

  /** The number of instants does not depend on which instant is called the anchor. */
  lemma SlotsOfShifted(g: Grid, k: int, from: int, to: int)
    requires g.interval > 0
    ensures SlotsBetween(g, from, to) == SlotsBetween(Grid(g.anchor + k * g.interval, g.interval), from, to)
  {
    ShiftedIndex(g, k, from);
    ShiftedIndex(g, k, to);
  }

  lemma ShiftedIndex(g: Grid, k: int, ref: int)
    requires g.interval > 0
    ensures SlotIndex(Grid(g.anchor + k * g.interval, g.interval), ref) == SlotIndex(g, ref) - k
  {
    var n := ref - g.anchor;
    var q := n / g.interval;
    assert n - k * g.interval == (q - k) * g.interval + n % g.interval by {
      assert n == q * g.interval + n % g.interval;
      assert (q - k) * g.interval == q * g.interval - k * g.interval;
    }
    Quotient(n - k * g.interval, g.interval, q - k, n % g.interval);
  }

  lemma OneTick(grids: Grids, lastRun: int, now: int)
    ensures Runs(grids, lastRun, [now]) == if SlotArrived(grids(now), lastRun, now) then 1 else 0
    ensures LastRunAfter(grids, lastRun, [now]) == Tick(grids(now), lastRun, now)
  {
    assert [now][..0] == [];
    assert Runs(grids, lastRun, []) == 0;
  }

  lemma TwoTicks(grids: Grids, lastRun: int, now: int, later: int)
    requires SlotArrived(grids(now), lastRun, now) && SlotArrived(grids(later), now, later)
    ensures Runs(grids, lastRun, [now, later]) == 2
  {
    OneTick(grids, lastRun, now);
    assert [now, later][..1] == [now];
  }

  /** The first instant of a day's grid after its midnight, and the one an interval before it. */
  lemma FirstOfTheDay(s: Settings, offset: int)
    requires Unchanging(s, offset)
    ensures
      var first := DAY_MS - offset + s.zone.value.anchorTime % (s.intervalHours * HOUR_MS);
      OnGrid(DayGrid(s, offset, 1), first) && OnGrid(DayGrid(s, offset, 1), first - s.intervalHours * HOUR_MS)
  {
    var interval := s.intervalHours * HOUR_MS;
    var a := s.zone.value.anchorTime;
    var k := a / interval;
    assert a == k * interval + a % interval;
    var first := DAY_MS - offset + a % interval;
    var g := DayGrid(s, offset, 1);
    assert first == g.anchor + (-k) * g.interval;
    assert first - interval == g.anchor + (-k - 1) * g.interval;
  }

  /** How many instants of the previous day's grid lie around that first instant. */
  lemma SlotsOfYesterday(s: Settings, offset: int, from: int)
    requires Unchanging(s, offset) && 24 % s.intervalHours != 0
    ensures
      var interval := s.intervalHours * HOUR_MS;
      var d, p := DAY_MS % interval, s.zone.value.anchorTime % interval;
      var first := DAY_MS - offset + p;
      && 0 < d < interval
      && (first - d <= from < first - d + interval ==> SlotsBetween(DayGrid(s, offset, 0), from, first) == 0)
      && (first - d - interval <= from < first - d ==> SlotsBetween(DayGrid(s, offset, 0), from, first) == 1)
  {
    var interval := s.intervalHours * HOUR_MS;
    var a := s.zone.value.anchorTime;
    var d, p := DAY_MS % interval, a % interval;
    var first := DAY_MS - offset + p;
    var g := DayGrid(s, offset, 0);
    HoursAndDays(s.intervalHours);
    var k := DAY_MS / interval - a / interval;
    assert first - d == g.anchor + k * interval by {
      assert DAY_MS == (DAY_MS / interval) * interval + d;
      assert a == (a / interval) * interval + p;
      assert k * interval == (DAY_MS / interval) * interval - (a / interval) * interval;
    }
    SlotsOfShifted(g, k, from, first);
    Quotient(d, interval, 0, d);
    if first - d <= from < first - d + interval {
      Quotient(from - (first - d), interval, 0, from - (first - d));
    }
    if first - d - interval <= from < first - d {
      Quotient(from - (first - d), interval, -1, from - (first - d) + interval);
    }
  }

  /** A run with too many backups whenever the interval does not divide the day. */
  lemma TooManyBackups(s: Settings, offset: int) returns (lastRun: int, ticks: seq<int>)
    requires Unchanging(s, offset) && 24 % s.intervalHours != 0
    ensures !AsScheduled(s, lastRun, ticks)
  {
    var interval := s.intervalHours * HOUR_MS;
    var a := s.zone.value.anchorTime;
    var d, p := DAY_MS % interval, a % interval;
    var midnight, first := DAY_MS - offset, DAY_MS - offset + p;
    FirstOfTheDay(s, offset);
    AtMostTheWhole(a, interval);
    GridOfDay(s, offset, 1, first);
    if p < d {
      lastRun, ticks := midnight - 1, [first];
      SlotsOfYesterday(s, offset, lastRun);
      GridOfDay(s, offset, 0, lastRun);
      OneTick(GridAt(s), lastRun, first);
      assert SlotArrived(GridAt(s)(first), lastRun, first);
    } else {
      lastRun, ticks := first - interval - 1, [midnight, first];
      SlotsOfYesterday(s, offset, lastRun);
      ShorterThanADay(a, interval);
      GridOfDay(s, offset, 0, lastRun);
      GridOfDay(s, offset, 1, midnight);
      assert SlotArrived(GridAt(s)(midnight), lastRun, midnight);
      assert SlotArrived(GridAt(s)(first), midnight, first);
      TwoTicks(GridAt(s), lastRun, midnight, first);
    }
  }

  lemma AtMostTheWhole(a: nat, interval: int)
    requires interval > 0
    ensures a % interval <= a
  {
    if a < interval {
      Quotient(a, interval, 0, a);
    }
  }

  lemma ShorterThanADay(a: nat, interval: int)
    requires interval > 0 && a < DAY_MS && 0 < DAY_MS % interval <= a % interval
    ensures interval < DAY_MS
  {
    if interval > DAY_MS {
      Quotient(DAY_MS, interval, 0, DAY_MS);
      AtMostTheWhole(a, interval);
    } else if interval == DAY_MS {
      Quotient(DAY_MS, interval, 1, 0);
    }
  }

  /**
   * In a zone whose clock never changes, the ticker makes at most as many backups as scheduled, in every
   * run of ticks, if and only if the interval divides the day.
   */
  lemma AsScheduledIffIntervalDividesDay(s: Settings, offset: int)
    requires Unchanging(s, offset)
    ensures (forall lastRun, ticks :: AsScheduled(s, lastRun, ticks)) <==> 24 % s.intervalHours == 0
  {
    if 24 % s.intervalHours == 0 {
      DaysAgreeIffIntervalDividesDay(s, offset);
      forall lastRun, ticks | Increasing(lastRun, ticks)
        ensures AsScheduled(s, lastRun, ticks)
      {
        assert forall i :: 0 <= i < |ticks| ==> SameInstants(GridAt(s)(lastRun), GridAt(s)(ticks[i]));
        NoMoreRunsThanSlots(GridAt(s)(lastRun), GridAt(s), lastRun, ticks);
      }
    } else {
      var lastRun, ticks := TooManyBackups(s, offset);
      assert !AsScheduled(s, lastRun, ticks);
    }
  }

  /** Whatever the interval, a day's anchor that passed since the last run makes a backup due. */
  lemma EveryAnchorIsDue(s: Settings, lastRun: int, now: int)
    requires On(s) && lastRun < GridOf(s, now).value.anchor <= now
    ensures SlotArrived(GridOf(s, now).value, lastRun, now)
  {
    var g := GridOf(s, now).value;
    assert g.anchor == g.anchor + 0 * g.interval;
    assert OnGrid(g, g.anchor);
  }

  /** A weekly schedule at midnight UTC. */
  function Weekly(): Settings {
    Settings(true, 168, Some(Zone(t => 0, 0)), 0)
  }

  function Midnights(n: nat): seq<int> {
    seq(n, i => (i + 1) * DAY_MS)
  }

  /** It promises its next run in a week, and runs every day. */
  lemma {:induction false} WeeklyRunsDaily(n: nat)
    ensures IsSlotAfter(GridOf(Weekly(), 0).value, 0, 168 * HOUR_MS)
    ensures Runs(GridAt(Weekly()), 0, Midnights(n)) == n && LastRunAfter(GridAt(Weekly()), 0, Midnights(n)) == n * DAY_MS
  {
    var s := Weekly();
    GridOfDay(s, 0, 0, 0);
    FormulaIsTheSlot(DayGrid(s, 0, 0), 0);
    if n > 0 {
      WeeklyRunsDaily(n - 1);
      assert Midnights(n)[..n - 1] == Midnights(n - 1);
      GridOfDay(s, 0, n, n * DAY_MS);
      EveryAnchorIsDue(s, (n - 1) * DAY_MS, n * DAY_MS);
    }
  }

  /** The default schedule, daily at two o'clock, on the morning the clock goes back from UTC-4 to UTC-5. */
  function ClockGoesBack(): Settings {
    Settings(true, 24, Some(Zone(t => if t < 6 * HOUR_MS then -4 * HOUR_MS else -5 * HOUR_MS, 2 * HOUR_MS)), -18 * HOUR_MS)
  }

  /**
   * On the day of 25 hours the daily backup runs twice: at local midnight, which the day's own grid calls
   * overdue, and at two o'clock.
   */
  lemma DailyRunsTwiceOnTheLongDay()
    ensures Runs(GridAt(ClockGoesBack()), -18 * HOUR_MS, [4 * HOUR_MS, 7 * HOUR_MS]) == 2
    ensures GridOf(ClockGoesBack(), 4 * HOUR_MS).value.anchor == 7 * HOUR_MS == GridOf(ClockGoesBack(), 7 * HOUR_MS).value.anchor
    ensures GridOf(ClockGoesBack(), -18 * HOUR_MS).value.anchor == -18 * HOUR_MS
  {
    var g := Grid(7 * HOUR_MS, 24 * HOUR_MS);
    assert GridAt(ClockGoesBack())(4 * HOUR_MS) == g && GridAt(ClockGoesBack())(7 * HOUR_MS) == g;
    assert -17 * HOUR_MS == g.anchor + (-1) * g.interval;
    assert OnGrid(g, -17 * HOUR_MS);
    EveryAnchorIsDue(ClockGoesBack(), 4 * HOUR_MS, 7 * HOUR_MS);
    TwoTicks(GridAt(ClockGoesBack()), -18 * HOUR_MS, 4 * HOUR_MS, 7 * HOUR_MS);
  }
}
