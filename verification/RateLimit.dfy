/** The token buckets that throttle unauthenticated requests and the frames of each hub socket. */
module RateLimit {
  import opened Prelude

  /** Sustained refill per second, and capacity. */
  datatype Options = Options(ratePerSec: real, burst: real)

  /** Tokens in hand at the instant `last` (epoch milliseconds). */
  datatype Bucket = Bucket(tokens: real, last: int)

  ghost predicate Sensible(o: Options) {
    o.ratePerSec >= 0.0 && o.burst >= 1.0
  }

  function Seconds(ms: int): real {
    ms as real / 1000.0
  }

  /** Tokens that `ms` milliseconds refill. */
  function Earned(ms: int, o: Options): real {
    Seconds(ms) * o.ratePerSec
  }

  function Least(x: real, y: real): real { if x < y then x else y }

  function Refilled(b: Bucket, now: int, o: Options): real {
    Least(o.burst, b.tokens + Earned(now - b.last, o))
  }

  /** One message: refill, then spend a token if there is a whole one. */
  function Spend(b: Bucket, now: int, o: Options): (Bucket, bool) {
    var tokens := Refilled(b, now, o);
    if tokens < 1.0 then (Bucket(tokens, now), false) else (Bucket(tokens - 1.0, now), true)
  }

  // ------------------------------------------------------------------ the hub's per-socket bucket

  const MSG_LIMIT := Options(50.0, 100.0)

  /** The rate limit of one hub socket. A message over the limit closes the socket. */
  class SocketLimit {
    var tokens: real
    var lastRefill: int

    function Value(): Bucket
      reads this
    {
      Bucket(tokens, lastRefill)
    }

    constructor (now: int)
      ensures Value() == Bucket(MSG_LIMIT.burst, now)
    {
      tokens, lastRefill := MSG_LIMIT.burst, now;
    }

    method OnMessage(now: int) returns (accepted: bool)
      modifies this
      ensures (Value(), accepted) == Spend(old(Value()), now, MSG_LIMIT)
      // fifty tokens a second, at most a hundred in hand, and one for each message
      ensures
        var refilled := old(tokens) + (now - old(lastRefill)) as real / 1000.0 * 50.0;
        var inHand := if refilled > 100.0 then 100.0 else refilled;
        && (accepted <==> inHand >= 1.0) && lastRefill == now
        && tokens == if accepted then inHand - 1.0 else inHand
    {
      var refilled := tokens + Earned(now - lastRefill, MSG_LIMIT);
      tokens := if MSG_LIMIT.burst < refilled then MSG_LIMIT.burst else refilled;
      lastRefill := now;
      if tokens < 1.0 {
        return false;
      }
      tokens := tokens - 1.0;
      return true;
    }
  }

  // ------------------------------------------------------------------ the keyed table

  const MAX_BUCKETS: nat := 10_000
  const IDLE_MS := 60 * 60 * 1000

  /** Buckets by key, with the keys in insertion order. */
  datatype Table = Table(buckets: map<string, Bucket>, order: seq<string>)

  ghost predicate WellFormed(t: Table) {
    Listing(t.order, t.buckets.Keys)
  }

  /** Keys, oldest first, whose bucket was used within the idle limit. */
  function Recent(order: seq<string>, buckets: map<string, Bucket>, now: int): seq<string>
    requires forall k :: k in order ==> k in buckets
  {
    if order == [] then []
    else (if now - buckets[order[0]].last > IDLE_MS then [] else [order[0]]) + Recent(order[1..], buckets, now)
  }

  function Newest(order: seq<string>, limit: nat): seq<string> {
    if |order| > limit then order[|order| - limit..] else order
  }

  function Only(buckets: map<string, Bucket>, order: seq<string>): map<string, Bucket> {
    map k | k in buckets && k in order :: buckets[k]
  }

  /** Over the cap, idle buckets go first, then the oldest-inserted ones until the table fits. */
  function Pruned(t: Table, now: int): Table
    requires forall k :: k in t.order ==> k in t.buckets
  {
    if |t.order| <= MAX_BUCKETS then t
    else
      var order := Newest(Recent(t.order, t.buckets, now), MAX_BUCKETS);
      Table(Only(t.buckets, order), order)
  }

  /** The bucket a key would use now: its own, or a fresh full one. */
  function Current(t: Table, key: string, o: Options, now: int): Bucket {
    if key in t.buckets then t.buckets[key] else Bucket(o.burst, now)
  }

  function Stored(t: Table, key: string, b: Bucket): Table {
    Table(t.buckets[key := b], if key in t.buckets then t.order else t.order + [key])
  }

  function Consumed(t: Table, key: string, o: Options, now: int): (Table, bool)
    requires forall k :: k in t.order ==> k in t.buckets
  {
    var pruned := Pruned(t, now);
    var (b, accepted) := Spend(Current(pruned, key, o, now), now, o);
    (Stored(pruned, key, b), accepted)
  }

  lemma {:induction false} RecentIsASelection(order: seq<string>, buckets: map<string, Bucket>, now: int)
    requires Distinct(order) && forall k :: k in order ==> k in buckets
    ensures Distinct(Recent(order, buckets, now))
    ensures forall k :: k in Recent(order, buckets, now) <==> k in order && now - buckets[k].last <= IDLE_MS
  {
    if order != [] {
      RecentIsASelection(order[1..], buckets, now);
      assert order == [order[0]] + order[1..];
      assert order[0] !in order[1..];
    }
  }

  lemma OrderIsKeys(t: Table)
    requires WellFormed(t)
    ensures forall k :: k in t.order ==> k in t.buckets
  {
    assert forall k :: k in t.order ==> k in Elements(t.order);
  }

  lemma PruneKeepsShape(t: Table, now: int)
    requires WellFormed(t)
    ensures WellFormed(Pruned(t, now)) && |Pruned(t, now).order| <= MAX_BUCKETS
  {
    assert forall k :: k in Elements(t.order) <==> k in t.buckets;
    RecentIsASelection(t.order, t.buckets, now);
    if |t.order| > MAX_BUCKETS {
      var order := Newest(Recent(t.order, t.buckets, now), MAX_BUCKETS);
      assert forall k :: k in order ==> k in Recent(t.order, t.buckets, now);
      assert Elements(order) == Only(t.buckets, order).Keys;
    }
  }

  /** The table never grows past the cap by more than the entry being added. */
  lemma ConsumeKeepsShape(t: Table, key: string, o: Options, now: int)
    requires WellFormed(t)
    ensures WellFormed(Consumed(t, key, o, now).0) && |Consumed(t, key, o, now).0.order| <= MAX_BUCKETS + 1
  {
    PruneKeepsShape(t, now);
    var pruned := Pruned(t, now);
    var (b, accepted) := Spend(Current(pruned, key, o, now), now, o);
    assert Elements(pruned.order) == pruned.buckets.Keys;
    assert key in pruned.order <==> key in pruned.buckets;
    var stored := Stored(pruned, key, b);
    assert Elements(stored.order) == stored.buckets.Keys;
  }

  /** A known key refills up to its burst; a new one has it in full. */
  function InHand(t: Table, key: string, o: Options, now: int): real {
    if key !in t.buckets then o.burst
    else
      var refilled := t.buckets[key].tokens + (now - t.buckets[key].last) as real / 1000.0 * o.ratePerSec;
      if refilled > o.burst then o.burst else refilled
  }

  lemma NoTimeEarnsNothing(now: int, o: Options)
    ensures Earned(now - now, o) == 0.0
  {
  }

  lemma ConsumedBelowCap(t: Table, key: string, o: Options, now: int)
    requires WellFormed(t) && |t.order| <= 10_000
    ensures
      var inHand := InHand(t, key, o, now);
      Consumed(t, key, o, now)
      == (Table(t.buckets[key := Bucket(if inHand >= 1.0 then inHand - 1.0 else inHand, now)],
                if key in t.buckets then t.order else t.order + [key]), inHand >= 1.0)
  {
    NoTimeEarnsNothing(now, o);
    assert Refilled(Current(t, key, o, now), now, o) == InHand(t, key, o, now);
  }

  /** Idle keys are gone; of the others the newest stay, as many as the table holds, with their buckets. */
  ghost predicate PrunedTo(t: Table, u: Table, now: int)
    requires WellFormed(t)
  {
    && u.buckets.Keys <= t.buckets.Keys && (forall k :: k in u.buckets ==> u.buckets[k] == t.buckets[k])
    && (forall k :: k in u.buckets ==> now - t.buckets[k].last <= 3_600_000)
    && (forall k :: k in t.buckets && now - t.buckets[k].last <= 3_600_000 && k !in u.buckets ==> |u.order| == 10_000)
    && (forall i, j :: 0 <= i < j < |t.order| && t.order[i] in u.buckets && Lately(t, t.order[j], now) ==> t.order[j] in u.buckets)
  }

  predicate Lately(t: Table, key: string, now: int) {
    key in t.buckets && now - t.buckets[key].last <= 3_600_000
  }

  lemma {:induction false} RecentInOrder(order: seq<string>, buckets: map<string, Bucket>, now: int, i: nat, j: nat) returns (x: nat, y: nat)
    requires Distinct(order) && (forall k :: k in order ==> k in buckets) && i < j < |order|
    requires now - buckets[order[i]].last <= IDLE_MS && now - buckets[order[j]].last <= IDLE_MS
    ensures x < y < |Recent(order, buckets, now)|
    ensures Recent(order, buckets, now)[x] == order[i] && Recent(order, buckets, now)[y] == order[j]
    decreases |order|
  {
    var rest := order[1..];
    RecentIsASelection(rest, buckets, now);
    if i > 0 {
      x, y := RecentInOrder(rest, buckets, now, i - 1, j - 1);
      if now - buckets[order[0]].last <= IDLE_MS {
        x, y := x + 1, y + 1;
      }
    } else {
      assert rest[j - 1] == order[j];
      var k :| 0 <= k < |Recent(rest, buckets, now)| && Recent(rest, buckets, now)[k] == order[j];
      x, y := 0, k + 1;
    }
  }

  lemma PruneDropsIdleThenOldest(t: Table, now: int)
    requires WellFormed(t) && |t.order| > 10_000
    ensures PrunedTo(t, Pruned(t, now), now)
  {
    OrderIsKeys(t);
    PruneKeepsShape(t, now);
    RecentIsASelection(t.order, t.buckets, now);
    var u, recent := Pruned(t, now), Recent(t.order, t.buckets, now);
    assert forall k :: k in t.buckets ==> k in Elements(t.order);
    assert forall k :: k in u.buckets <==> k in u.order;
    hide Recent, Only;
    if |recent| <= MAX_BUCKETS {
      assert u.order == recent;
    }
    forall i, j | 0 <= i < j < |t.order| && t.order[i] in u.buckets && Lately(t, t.order[j], now)
      ensures t.order[j] in u.buckets
    {
      var x, y := RecentInOrder(t.order, t.buckets, now, i, j);
      LaterStays(recent, u.order, x, y);
    }
  }

  /** In a suffix, whatever comes later than something that stays also stays. */
  lemma LaterStays(recent: seq<string>, kept: seq<string>, x: nat, y: nat)
    requires Distinct(recent) && kept == Newest(recent, MAX_BUCKETS) && x < y < |recent| && recent[x] in kept
    ensures recent[y] in kept
  {
    var from := |recent| - |kept|;
    var i :| 0 <= i < |kept| && kept[i] == recent[x];
    assert recent[from + i] == recent[x];
    assert kept[y - from] == recent[y];
  }

  class Limiter {
    var buckets: map<string, Bucket>
    var order: seq<string>

    function Value(): Table
      reads this
    {
      Table(buckets, order)
    }

    ghost predicate Valid()
      reads this
    {
      WellFormed(Value())
    }

    constructor ()
      ensures Valid() && Value() == Table(map[], [])
    {
      buckets, order := map[], [];
    }

    /** The keys used recently, in insertion order. */
    method DropIdle(now: int) returns (kept: seq<string>)
      requires forall k :: k in order ==> k in buckets
      ensures kept == Recent(order, buckets, now)
    {
      kept := [];
      var i := 0;
      while i < |order|
        invariant 0 <= i <= |order|
        invariant kept + Recent(order[i..], buckets, now) == Recent(order, buckets, now)
      {
        if now - buckets[order[i]].last <= IDLE_MS {
          kept := kept + [order[i]];
        }
        assert order[i..][1..] == order[i + 1..];
        i := i + 1;
      }
      assert kept + [] == kept;
    }

    method Prune(now: int)
      requires Valid()
      modifies this
      ensures Valid() && Value() == Pruned(old(Value()), now)
      ensures old(|order|) <= 10_000 ==> Value() == old(Value())
      ensures old(|order|) > 10_000 ==> PrunedTo(old(Value()), Value(), now)
    {
      if |order| > 10_000 {
        PruneDropsIdleThenOldest(Value(), now);
      }
      hide WellFormed, Recent, Newest, Only, PrunedTo;
      OrderIsKeys(Value());
      PruneKeepsShape(Value(), now);
      if |order| <= MAX_BUCKETS {
        return;
      }
      var recent := DropIdle(now);
      var kept := KeepNewest(recent);
      buckets, order := Only(buckets, kept), kept;
    }

    /** Drop the oldest-inserted keys until the rest fits. */
    static method KeepNewest(recent: seq<string>) returns (kept: seq<string>)
      ensures kept == Newest(recent, MAX_BUCKETS)
    {
      kept := recent;
      while |kept| > MAX_BUCKETS
        invariant |kept| <= |recent| && kept == recent[|recent| - |kept|..]
        invariant |kept| == |recent| || |kept| >= MAX_BUCKETS
      {
        kept := kept[1..];
      }
    }

    /** Consume one token for `key`: true if allowed, false if the bucket is empty. */
    method Consume(key: string, o: Options, now: int) returns (allowed: bool)
      requires Valid()
      modifies this
      ensures Valid() && (Value(), allowed) == Consumed(old(Value()), key, o, now)
      ensures |order| <= MAX_BUCKETS + 1
      // below the cap nothing is pruned: a known key refills, a new one starts with a full burst
      ensures old(|order|) <= 10_000 ==>
                var inHand := InHand(old(Value()), key, o, now);
                && (allowed <==> inHand >= 1.0)
                && buckets == old(buckets)[key := Bucket(if allowed then inHand - 1.0 else inHand, now)]
                && order == if key in old(buckets) then old(order) else old(order) + [key]
    {
      ConsumeKeepsShape(Value(), key, o, now);
      if |order| <= 10_000 {
        ConsumedBelowCap(Value(), key, o, now);
      }
      hide WellFormed, Pruned, PrunedTo, Earned, InHand;
      Prune(now);
      var b := if key in buckets then buckets[key] else Bucket(o.burst, now);
      var refilled := b.tokens + Earned(now - b.last, o);
      b := Bucket(if o.burst < refilled then o.burst else refilled, now);
      allowed := !(b.tokens < 1.0);
      if allowed {
        b := b.(tokens := b.tokens - 1.0);
      }
      if key !in buckets {
        order := order + [key];
      }
      buckets := buckets[key := b];
    }
  }

  // ------------------------------------------------------------------ throughput

  /** A call to the limiter. */
  datatype Call = Call(key: string, now: int)

  /** The table after a run of calls; every key is always limited by the same options. */
  function Run(t: Table, calls: seq<Call>, limits: string -> Options): (r: Table)
    requires WellFormed(t)
    ensures WellFormed(r)
  {
    if calls == [] then t
    else
      var last := calls[|calls| - 1];
      var before := Run(t, calls[..|calls| - 1], limits);
      ConsumeKeepsShape(before, last.key, limits(last.key), last.now);
      Consumed(before, last.key, limits(last.key), last.now).0
  }

  /** How many of the calls were for `key` and were allowed. */
  function Allowed(t: Table, calls: seq<Call>, limits: string -> Options, key: string): nat
    requires WellFormed(t)
  {
    if calls == [] then 0
    else
      var past, last := calls[..|calls| - 1], calls[|calls| - 1];
      Allowed(t, past, limits, key)
      + if last.key == key && Consumed(Run(t, past, limits), key, limits(key), last.now).1 then 1 else 0
  }

  ghost predicate Clocked(start: int, calls: seq<Call>) {
    && (calls != [] ==> start <= calls[0].now)
    && forall i :: 0 < i < |calls| ==> calls[i - 1].now <= calls[i].now
  }

  /** Buckets hold between nothing and a full burst, and none was used in the future. */
  ghost predicate Sane(t: Table, limits: string -> Options, now: int) {
    forall k :: k in t.buckets ==> 0.0 <= t.buckets[k].tokens <= limits(k).burst && t.buckets[k].last <= now
  }

  /** The key is thrown out of the table before its bucket has refilled. */
  ghost predicate CutShort(t: Table, key: string, o: Options, now: int)
    requires WellFormed(t)
  {
    key in t.buckets && key !in Pruned(t, now).buckets && Refilled(t.buckets[key], now, o) < o.burst
  }

  ghost predicate NeverCutShort(t: Table, calls: seq<Call>, limits: string -> Options, key: string)
    requires WellFormed(t)
  {
    forall i :: 0 <= i < |calls| ==> !CutShort(Run(t, calls[..i], limits), key, limits(key), calls[i].now)
  }

  /** What the key could spend at this instant. */
  function Credit(t: Table, key: string, o: Options, now: int): real {
    Refilled(Current(t, key, o, now), now, o)
  }

  lemma EarnedAdd(from: int, mid: int, to: int, o: Options)
    ensures Earned(to - from, o) == Earned(mid - from, o) + Earned(to - mid, o)
  {
    assert Seconds(to - from) == Seconds(mid - from) + Seconds(to - mid);
  }

  lemma Product(x: real, y: real)
    requires x >= 0.0 && y >= 0.0
    ensures x * y >= 0.0
  {
  }

  lemma Monotone(x: real, y: real, z: real)
    requires x <= y && z >= 0.0
    ensures x * z <= y * z
  {
    Product(y - x, z);
  }

  /** As time passes, credit grows no faster than the rate. */
  lemma CreditGrowth(t: Table, key: string, o: Options, now: int, later: int)
    requires Sensible(o) && now <= later
    ensures Credit(t, key, o, later) <= Credit(t, key, o, now) + Earned(later - now, o)
  {
    Product(Seconds(later - now), o.ratePerSec);
    if key in t.buckets {
      EarnedAdd(t.buckets[key].last, now, later, o);
    }
  }

  /** A prune keeps a key's credit if and only if it does not cut the key short. */
  lemma PruneKeepsCreditIffNotCutShort(t: Table, key: string, o: Options, now: int)
    requires WellFormed(t)
    ensures Credit(Pruned(t, now), key, o, now) == Credit(t, key, o, now) <==> !CutShort(t, key, o, now)
  {
    PruneOnlyDrops(t, now);
    EarnedAdd(now, now, now, o);
  }

  lemma PruneOnlyDrops(t: Table, now: int)
    requires WellFormed(t)
    ensures forall k :: k in Pruned(t, now).buckets ==> k in t.buckets && Pruned(t, now).buckets[k] == t.buckets[k]
  {
  }

  lemma SpendStaysInRange(b: Bucket, now: int, o: Options)
    requires Sensible(o) && 0.0 <= b.tokens <= o.burst && b.last <= now
    ensures var after := Spend(b, now, o).0; 0.0 <= after.tokens <= o.burst && after.last == now
  {
    Product(Seconds(now - b.last), o.ratePerSec);
  }

  lemma SaneAfter(t: Table, key: string, limits: string -> Options, now: int)
    requires WellFormed(t) && Sane(t, limits, now) && Sensible(limits(key))
    ensures Sane(Consumed(t, key, limits(key), now).0, limits, now)
  {
    PruneOnlyDrops(t, now);
    SpendStaysInRange(Current(Pruned(t, now), key, limits(key), now), now, limits(key));
    hide Pruned, Spend, WellFormed;
  }

  /** One call: what it spends comes out of the key's credit. */
  lemma CallSpendsCredit(t: Table, call: Call, limits: string -> Options, key: string)
    requires WellFormed(t) && !CutShort(t, key, limits(key), call.now)
    ensures var (after, allowed) := Consumed(t, call.key, limits(call.key), call.now);
            Credit(after, key, limits(key), call.now) + (if call.key == key && allowed then 1.0 else 0.0)
            == Credit(t, key, limits(key), call.now)
  {
    PruneKeepsCreditIffNotCutShort(t, key, limits(key), call.now);
    if call.key == key {
      var pruned := Pruned(t, call.now);
      var (b, allowed) := Spend(Current(pruned, key, limits(key), call.now), call.now, limits(key));
      EarnedAdd(call.now, call.now, call.now, limits(key));
      assert Current(Stored(pruned, key, b), key, limits(key), call.now) == b;
    }
  }

  lemma CreditAtMostBurst(t: Table, key: string, o: Options, now: int)
    ensures Credit(t, key, o, now) <= o.burst
  {
  }

  lemma CreditNotNegative(t: Table, key: string, limits: string -> Options, now: int)
    requires Sane(t, limits, now) && Sensible(limits(key))
    ensures Credit(t, key, limits(key), now) >= 0.0
  {
    Product(Seconds(now - Current(t, key, limits(key), now).last), limits(key).ratePerSec);
  }

  /** A window of calls on a running clock, starting from a sane table. */
  ghost predicate Window(t: Table, calls: seq<Call>, limits: string -> Options, start: int) {
    WellFormed(t) && Sane(t, limits, start) && Clocked(start, calls) && forall k :: Sensible(limits(k))
  }

  function End(start: int, calls: seq<Call>): int {
    if calls == [] then start else calls[|calls| - 1].now
  }

  lemma WindowPrefix(t: Table, calls: seq<Call>, limits: string -> Options, start: int)
    requires Window(t, calls, limits, start) && calls != []
    ensures var past, last := calls[..|calls| - 1], calls[|calls| - 1];
            Window(t, past, limits, start) && End(start, past) <= last.now && forall k :: Sensible(limits(k))
  {
    hide Sane, WellFormed, Sensible;
  }

  lemma CutShortPrefix(t: Table, calls: seq<Call>, limits: string -> Options, key: string)
    requires WellFormed(t) && NeverCutShort(t, calls, limits, key) && calls != []
    ensures NeverCutShort(t, calls[..|calls| - 1], limits, key)
    ensures !CutShort(Run(t, calls[..|calls| - 1], limits), key, limits(key), calls[|calls| - 1].now)
  {
    hide CutShort, Run, WellFormed;
    var past := calls[..|calls| - 1];
    forall i | 0 <= i < |past|
      ensures !CutShort(Run(t, past[..i], limits), key, limits(key), past[i].now)
    {
      assert past[..i] == calls[..i];
    }
  }

  /** Spent plus spendable never exceeds the burst plus what the elapsed time has earned. */
  ghost predicate Balanced(t: Table, limits: string -> Options, key: string, spent: nat, start: int, now: int) {
    && Sane(t, limits, now) && start <= now
    && spent as real + Credit(t, key, limits(key), now) <= limits(key).burst + Earned(now - start, limits(key))
  }

  lemma BalanceStep(t: Table, last: Call, limits: string -> Options, key: string, spent: nat, start: int, now: int)
    requires WellFormed(t) && Balanced(t, limits, key, spent, start, now) && now <= last.now
    requires forall k :: Sensible(limits(k))
    requires !CutShort(t, key, limits(key), last.now)
    ensures var (after, allowed) := Consumed(t, last.key, limits(last.key), last.now);
            Balanced(after, limits, key, spent + if last.key == key && allowed then 1 else 0, start, last.now)
  {
    hide Consumed, Pruned, Credit, Sane, CutShort, WellFormed, Sensible, Earned;
    CreditGrowth(t, key, limits(key), now, last.now);
    EarnedAdd(start, now, last.now, limits(key));
    SaneLater(t, limits, now, last.now);
    SaneAfter(t, last.key, limits, last.now);
    CallSpendsCredit(t, last, limits, key);
  }

  lemma SaneLater(t: Table, limits: string -> Options, now: int, later: int)
    requires Sane(t, limits, now) && now <= later
    ensures Sane(t, limits, later)
  {
  }

  lemma {:induction false} CreditAccount(t: Table, calls: seq<Call>, limits: string -> Options, key: string, start: int)
    requires WellFormed(t) && Window(t, calls, limits, start) && NeverCutShort(t, calls, limits, key)
    ensures Balanced(Run(t, calls, limits), limits, key, Allowed(t, calls, limits, key), start, End(start, calls))
  {
    hide Consumed, Pruned, Sane, CutShort, NeverCutShort, WellFormed, Sensible, Balanced, Window;
    if calls != [] {
      var past := calls[..|calls| - 1];
      WindowPrefix(t, calls, limits, start);
      CutShortPrefix(t, calls, limits, key);
      CreditAccount(t, past, limits, key, start);
      BalanceStep(Run(t, past, limits), calls[|calls| - 1], limits, key, Allowed(t, past, limits, key),
                  start, End(start, past));
    } else {
      StartsBalanced(t, limits, key, start) by {
        WindowFacts(t, calls, limits, start);
      }
    }
  }

  lemma WindowFacts(t: Table, calls: seq<Call>, limits: string -> Options, start: int)
    requires Window(t, calls, limits, start)
    ensures WellFormed(t) && Sane(t, limits, start) && forall k :: Sensible(limits(k))
  {
  }

  lemma StartsBalanced(t: Table, limits: string -> Options, key: string, start: int)
    requires Sane(t, limits, start)
    ensures Balanced(t, limits, key, 0, start, start)
  {
    hide Sane;
    EarnedAdd(start, start, start, limits(key));
    CreditAtMostBurst(t, key, limits(key), start);
  }

  lemma BalanceBounds(t: Table, limits: string -> Options, key: string, spent: nat, start: int, now: int)
    requires Balanced(t, limits, key, spent, start, now) && Sensible(limits(key))
    ensures spent as real <= limits(key).burst + Earned(now - start, limits(key))
  {
    CreditNotNegative(t, key, limits, now);
  }

  /**
   * Throughput: however calls for other keys interleave, a key whose bucket is never thrown out before
   * it has refilled is allowed at most burst + rate * window calls in any window.
   */
  lemma Throughput(t: Table, calls: seq<Call>, limits: string -> Options, key: string, start: int)
    requires WellFormed(t) && Window(t, calls, limits, start) && NeverCutShort(t, calls, limits, key)
    ensures Allowed(t, calls, limits, key) as real
            <= limits(key).burst + Earned(End(start, calls) - start, limits(key))
  {
    hide Run, Allowed, Consumed, Window, Balanced, Earned, NeverCutShort, WellFormed, Sensible;
    WindowFacts(t, calls, limits, start);
    CreditAccount(t, calls, limits, key, start);
    BalanceBounds(Run(t, calls, limits), limits, key, Allowed(t, calls, limits, key), start, End(start, calls));
  }

  // ------------------------------------------------------------------ when is a key cut short?

  ghost predicate NeverEvicted(t: Table, calls: seq<Call>, limits: string -> Options, key: string)
    requires WellFormed(t)
  {
    forall i :: 0 <= i < |calls| ==> Stays(Run(t, calls[..i], limits), key, calls[i].now)
  }

  ghost predicate Stays(t: Table, key: string, now: int)
    requires WellFormed(t)
  {
    key in t.buckets ==> key in Pruned(t, now).buckets
  }

  /** The key was used within the idle limit, and yet the table was so full that the key was thrown out. */
  ghost predicate Squeezed(t: Table, key: string, now: int)
    requires WellFormed(t)
  {
    key in t.buckets && now - t.buckets[key].last <= IDLE_MS && key !in Pruned(t, now).buckets
  }

  ghost predicate NeverSqueezed(t: Table, calls: seq<Call>, limits: string -> Options, key: string)
    requires WellFormed(t)
  {
    forall i :: 0 <= i < |calls| ==> !Squeezed(Run(t, calls[..i], limits), key, calls[i].now)
  }

  /** An hour's refill that covers the burst has filled every idle bucket. */
  lemma IdleBucketIsFull(t: Table, key: string, o: Options, now: int)
    requires WellFormed(t) && o.ratePerSec >= 0.0 && o.ratePerSec * 3600.0 >= o.burst
    requires key in t.buckets && 0.0 <= t.buckets[key].tokens && now - t.buckets[key].last > IDLE_MS
    ensures Refilled(t.buckets[key], now, o) == o.burst
  {
    Monotone(3600.0, Seconds(now - t.buckets[key].last), o.ratePerSec);
  }

  lemma {:induction false} SaneRun(t: Table, calls: seq<Call>, limits: string -> Options, start: int)
    requires WellFormed(t) && Window(t, calls, limits, start)
    ensures Sane(Run(t, calls, limits), limits, End(start, calls))
  {
    hide Consumed, Sane, WellFormed, Sensible, Window;
    WindowFacts(t, calls, limits, start);
    if calls != [] {
      var past, last := calls[..|calls| - 1], calls[|calls| - 1];
      WindowPrefix(t, calls, limits, start);
      SaneRun(t, past, limits, start);
      SaneLater(Run(t, past, limits), limits, End(start, past), last.now);
      SaneAfter(Run(t, past, limits), last.key, limits, last.now);
    }
  }

  lemma WindowOf(t: Table, calls: seq<Call>, limits: string -> Options, start: int, i: nat)
    requires Window(t, calls, limits, start) && i <= |calls|
    ensures Window(t, calls[..i], limits, start)
  {
    hide Sane, WellFormed, Sensible;
  }

  /** The bound for a key that stays in the table, whatever its rate and burst. */
  lemma ThroughputWithoutEviction(t: Table, calls: seq<Call>, limits: string -> Options, key: string, start: int)
    requires WellFormed(t) && Window(t, calls, limits, start) && NeverEvicted(t, calls, limits, key)
    ensures Allowed(t, calls, limits, key) as real
            <= limits(key).burst + Earned(End(start, calls) - start, limits(key))
  {
    hide Run, Allowed, Window, Earned, WellFormed, Pruned;
    forall i | 0 <= i < |calls|
      ensures !CutShort(Run(t, calls[..i], limits), key, limits(key), calls[i].now)
    {
      assert Stays(Run(t, calls[..i], limits), key, calls[i].now);
    }
    Throughput(t, calls, limits, key, start);
  }

  /** The bound with idle eviction, which an hour's refill hides from the limits in use. */
  lemma ThroughputDespiteIdleEviction(t: Table, calls: seq<Call>, limits: string -> Options, key: string, start: int)
    requires WellFormed(t) && Window(t, calls, limits, start) && NeverSqueezed(t, calls, limits, key)
    requires limits(key).ratePerSec * 3600.0 >= limits(key).burst
    ensures Allowed(t, calls, limits, key) as real
            <= limits(key).burst + Earned(End(start, calls) - start, limits(key))
  {
    hide Run, Allowed, Window, Earned, WellFormed, Pruned, Refilled;
    WindowFacts(t, calls, limits, start);
    forall i | 0 <= i < |calls|
      ensures !CutShort(Run(t, calls[..i], limits), key, limits(key), calls[i].now)
    {
      var before := Run(t, calls[..i], limits);
      assert !Squeezed(before, key, calls[i].now);
      WindowOf(t, calls, limits, start, i);
      SaneRun(t, calls[..i], limits, start);
      if key in before.buckets && calls[i].now - before.buckets[key].last > IDLE_MS {
        IdleBucketIsFull(before, key, limits(key), calls[i].now);
      }
    }
    Throughput(t, calls, limits, key, start);
  }

  // ------------------------------------------------------------------ a key that is cut short

  /** The table when the controller starts. */
  const NOBODY := Table(map[], [])

  /** The limit of the login and reset pages, whose keys contain what the visitor typed. */
  const AUTH_LIMIT := Options(1.0 / 12.0, 5.0)

  function AuthLimits(): string -> Options {
    k => AUTH_LIMIT
  }

  /** Keys that nobody used before: all longer than `key`, and each of its own length. */
  function Newcomer(key: string, i: nat): string {
    key + seq(i + 1, j => 'x')
  }

  function Newcomers(key: string, n: nat, now: int): seq<Call> {
    seq(n, i requires 0 <= i => Call(Newcomer(key, i), now))
  }

  /** The key spends its burst, `n` newcomers call once each; all at one instant. */
  function Crowd(key: string, n: nat, now: int): seq<Call> {
    var c := Call(key, now);
    [c, c, c, c, c] + Newcomers(key, n, now)
  }

  /** The table is filled with recent keys, of which `key` is the oldest. */
  ghost predicate Crowded(t: Table, key: string, n: nat, now: int) {
    && WellFormed(t) && |t.order| == n + 1 && t.order[0] == key
    && (forall i :: 0 <= i < n ==> t.order[i + 1] == Newcomer(key, i))
    && (forall k :: k in t.buckets ==> t.buckets[k].last == now)
  }

  lemma {:induction false} AllAreRecent(order: seq<string>, buckets: map<string, Bucket>, now: int)
    requires forall k :: k in order ==> k in buckets && buckets[k].last == now
    ensures Recent(order, buckets, now) == order
  {
    if order != [] {
      AllAreRecent(order[1..], buckets, now);
      assert order == [order[0]] + order[1..];
    }
  }

  /** One call of a key with this bucket, in a table that is not over the cap. */
  lemma CallBelowCap(t: Table, key: string, now: int)
    requires WellFormed(t) && |t.order| <= MAX_BUCKETS
    requires key in t.buckets ==> t.buckets[key].last == now
    ensures
      var tokens := if key in t.buckets then Least(5.0, t.buckets[key].tokens) else 5.0;
      Consumed(t, key, AUTH_LIMIT, now)
        == (Stored(t, key, Bucket(if tokens < 1.0 then tokens else tokens - 1.0, now)), tokens >= 1.0)
  {
    NoTimeEarnsNothing(now, AUTH_LIMIT);
  }

  lemma RunOfNobody()
    ensures WellFormed(NOBODY) && Run(NOBODY, [], AuthLimits()) == NOBODY
  {
  }

  lemma OneMoreCall(calls: seq<Call>, last: Call, key: string)
    requires WellFormed(NOBODY)
    ensures WellFormed(Run(NOBODY, calls, AuthLimits()))
    ensures
      var t := Run(NOBODY, calls, AuthLimits());
      && Run(NOBODY, calls + [last], AuthLimits()) == Consumed(t, last.key, AUTH_LIMIT, last.now).0
      && Allowed(NOBODY, calls + [last], AuthLimits(), key) == Allowed(NOBODY, calls, AuthLimits(), key)
           + (if last.key == key && Consumed(t, key, AUTH_LIMIT, last.now).1 then 1 else 0)
  {
    var all := calls + [last];
    assert all[..|all| - 1] == calls && all[|all| - 1] == last;
  }

  /** The first calls spend the burst. */
  lemma {:induction false} SpendBurst(key: string, n: nat, now: int)
    requires n <= 5
    ensures
      var calls := seq(n, i => Call(key, now));
      && WellFormed(NOBODY) && Allowed(NOBODY, calls, AuthLimits(), key) == n
      && (n > 0 ==> Run(NOBODY, calls, AuthLimits()) == Table(map[key := Bucket(5.0 - n as real, now)], [key]))
    decreases n
  {
    hide Run, Allowed, Consumed, WellFormed;
    RunOfNobody();
    var calls := seq(n, i => Call(key, now));
    if n == 0 {
      NothingAllowed(key);
    } else {
      var past := seq(n - 1, i => Call(key, now));
      assert calls == past + [Call(key, now)];
      SpendBurst(key, n - 1, now);
      OneMoreCall(past, Call(key, now), key);
      CallBelowCap(Run(NOBODY, past, AuthLimits()), key, now);
    }
  }

  lemma NothingAllowed(key: string)
    requires WellFormed(NOBODY)
    ensures Allowed(NOBODY, [], AuthLimits(), key) == 0
  {
  }

  lemma NewcomersDiffer(key: string, i: nat)
    ensures Newcomer(key, i) != key && forall j: nat :: j < i ==> Newcomer(key, j) != Newcomer(key, i)
  {
    assert |Newcomer(key, i)| == |key| + i + 1;
    forall j: nat | j < i
      ensures Newcomer(key, j) != Newcomer(key, i)
    {
      assert |Newcomer(key, j)| == |key| + j + 1;
    }
  }

  lemma CrowdGrows(t: Table, key: string, n: nat, now: int)
    requires Crowded(t, key, n, now) && n < MAX_BUCKETS
    ensures Crowded(Consumed(t, Newcomer(key, n), AUTH_LIMIT, now).0, key, n + 1, now)
  {
    NewcomersDiffer(key, n);
    var newcomer := Newcomer(key, n);
    assert newcomer !in t.order by {
      assert forall i :: 0 < i <= n ==> t.order[i] == Newcomer(key, i - 1);
    }
    assert newcomer !in t.buckets by {
      assert newcomer !in Elements(t.order);
    }
    ConsumeKeepsShape(t, newcomer, AUTH_LIMIT, now);
    CallBelowCap(t, newcomer, now);
  }

  /** Newcomers fill the table behind the key. */
  lemma {:induction false} CrowdFills(key: string, n: nat, now: int)
    requires n <= MAX_BUCKETS
    ensures WellFormed(NOBODY)
    ensures Crowded(Run(NOBODY, Crowd(key, n, now), AuthLimits()), key, n, now)
    ensures Allowed(NOBODY, Crowd(key, n, now), AuthLimits(), key) == 5
    decreases n
  {
    hide Run, Allowed, Consumed, WellFormed, Newcomer, Crowded;
    RunOfNobody();
    if n == 0 {
      FirstFive(key, now);
    } else {
      CrowdFills(key, n - 1, now);
      var last := Call(Newcomer(key, n - 1), now);
      assert Newcomers(key, n, now) == Newcomers(key, n - 1, now) + [last];
      assert Crowd(key, n, now) == Crowd(key, n - 1, now) + [last];
      OneMoreCall(Crowd(key, n - 1, now), last, key);
      CrowdGrows(Run(NOBODY, Crowd(key, n - 1, now), AuthLimits()), key, n - 1, now);
      NewcomersDiffer(key, n - 1);
    }
  }

  lemma FirstFive(key: string, now: int)
    ensures WellFormed(NOBODY)
    ensures Crowded(Run(NOBODY, Crowd(key, 0, now), AuthLimits()), key, 0, now)
    ensures Allowed(NOBODY, Crowd(key, 0, now), AuthLimits(), key) == 5
  {
    hide Run, Allowed, Consumed;
    SpendBurst(key, 5, now);
    assert Crowd(key, 0, now) == seq(5, i => Call(key, now));
    assert Elements([key]) == {key};
  }

  /** One key over the cap, the next call throws out the oldest, although its bucket is empty. */
  lemma OldestIsCutShort(t: Table, key: string, now: int)
    requires Crowded(t, key, MAX_BUCKETS, now)
    ensures key !in Pruned(t, now).buckets && Consumed(t, key, AUTH_LIMIT, now).1
  {
    assert forall k :: k in t.order ==> k in Elements(t.order);
    AllAreRecent(t.order, t.buckets, now);
    var order := Newest(Recent(t.order, t.buckets, now), MAX_BUCKETS);
    assert order == t.order[1..];
    assert key !in order;
    NoTimeEarnsNothing(now, AUTH_LIMIT);
  }

  /**
   * The bound does not hold for a key that is cut short: at one instant, a caller who mints as many keys
   * as the table holds gets a sixth call through where the burst is five.
   */
  lemma CutShortKeyExceedsTheBound(key: string, now: int) returns (calls: seq<Call>)
    ensures WellFormed(NOBODY) && Window(NOBODY, calls, AuthLimits(), now) && End(now, calls) == now
    ensures Allowed(NOBODY, calls, AuthLimits(), key) == 6
    ensures Allowed(NOBODY, calls, AuthLimits(), key) as real > AUTH_LIMIT.burst + Earned(End(now, calls) - now, AUTH_LIMIT)
    ensures !NeverCutShort(NOBODY, calls, AuthLimits(), key)
  {
    hide Run, Allowed, Consumed, Pruned, WellFormed, Crowded, CutShort, Newcomer;
    var crowd := Crowd(key, MAX_BUCKETS, now);
    calls := crowd + [Call(key, now)];
    CrowdFills(key, MAX_BUCKETS, now);
    OneMoreCall(crowd, Call(key, now), key);
    OldestIsCutShort(Run(NOBODY, crowd, AuthLimits()), key, now);
    NoTimeEarnsNothing(now, AUTH_LIMIT);
    AtOneInstant(key, MAX_BUCKETS, now);
    if NeverCutShort(NOBODY, calls, AuthLimits(), key) {
      Throughput(NOBODY, calls, AuthLimits(), key, now);
      assert false;
    }
  }

  lemma AtOneInstant(key: string, n: nat, now: int)
    ensures var calls := Crowd(key, n, now) + [Call(key, now)];
            Window(NOBODY, calls, AuthLimits(), now) && End(now, calls) == now
  {
    hide Newcomer;
    var calls := Crowd(key, n, now) + [Call(key, now)];
    assert forall i :: 0 <= i < |calls| ==> calls[i].now == now;
    NobodyIsSane(AuthLimits(), now);
  }

  // ------------------------------------------------------------------ a caller who waits

  function LastCall(calls: seq<Call>, key: string): Option<int> {
    if calls == [] then None
    else if calls[|calls| - 1].key == key then Some(calls[|calls| - 1].now)
    else LastCall(calls[..|calls| - 1], key)
  }

  function CallsFor(calls: seq<Call>, key: string): nat {
    if calls == [] then 0
    else CallsFor(calls[..|calls| - 1], key) + if calls[|calls| - 1].key == key then 1 else 0
  }

  /** Between two calls for the key, at least one token is earned. */
  ghost predicate Paced(calls: seq<Call>, o: Options, key: string) {
    forall i :: 0 <= i < |calls| && calls[i].key == key ==> PacedCall(calls[..i], o, key, calls[i].now)
  }

  ghost predicate PacedCall(past: seq<Call>, o: Options, key: string, now: int) {
    LastCall(past, key).Some? ==> Earned(now - LastCall(past, key).value, o) >= 1.0
  }

  /** A bucket in the table was last used by the key's latest call. */
  lemma {:induction false} BucketShowsLastCall(calls: seq<Call>, limits: string -> Options, key: string)
    ensures var t := Run(NOBODY, calls, limits);
            key in t.buckets ==> LastCall(calls, key) == Some(t.buckets[key].last)
  {
    if calls != [] {
      var past, last := calls[..|calls| - 1], calls[|calls| - 1];
      BucketShowsLastCall(past, limits, key);
      PruneOnlyDrops(Run(NOBODY, past, limits), last.now);
      hide Pruned, WellFormed, Run;
      assert Run(NOBODY, calls, limits) == Consumed(Run(NOBODY, past, limits), last.key, limits(last.key), last.now).0 by {
        RunUnfolds(calls, limits);
      }
    }
  }

  lemma RunUnfolds(calls: seq<Call>, limits: string -> Options)
    requires calls != []
    ensures var past, last := calls[..|calls| - 1], calls[|calls| - 1];
            Run(NOBODY, calls, limits) == Consumed(Run(NOBODY, past, limits), last.key, limits(last.key), last.now).0
  {
  }

  lemma PacedCallIsAllowed(t: Table, key: string, limits: string -> Options, now: int)
    requires WellFormed(t) && Sane(t, limits, now) && Sensible(limits(key))
    requires key in t.buckets ==> Earned(now - t.buckets[key].last, limits(key)) >= 1.0
    ensures Consumed(t, key, limits(key), now).1
  {
    PruneOnlyDrops(t, now);
    EarnedAdd(now, now, now, limits(key));
    hide Pruned, WellFormed;
  }

  /**
   * A caller who waits for one token's worth of time between calls is never refused, however the table
   * is pruned in between and whatever other keys do.
   */
  lemma {:induction false} PacedCallerIsNeverRefused(calls: seq<Call>, limits: string -> Options, key: string, start: int)
    requires Clocked(start, calls) && (forall k :: Sensible(limits(k))) && Paced(calls, limits(key), key)
    ensures Allowed(NOBODY, calls, limits, key) == CallsFor(calls, key)
  {
    hide Run, Allowed, Consumed, Sensible, Sane, WellFormed, Earned, Paced, PacedCall;
    NobodyIsSane(limits, start);
    if calls == [] {
      NothingAllowedYet(limits, key);
    } else {
      var past, last := calls[..|calls| - 1], calls[|calls| - 1];
      PacedPrefix(calls, limits(key), key);
      PacedCallerIsNeverRefused(past, limits, key, start);
      AllowedUnfolds(calls, limits, key);
      if last.key == key {
        LastCallIsAllowed(calls, limits, key, start);
      }
    }
  }

  lemma NothingAllowedYet(limits: string -> Options, key: string)
    requires WellFormed(NOBODY)
    ensures Allowed(NOBODY, [], limits, key) == 0
  {
  }

  lemma LastCallIsAllowed(calls: seq<Call>, limits: string -> Options, key: string, start: int)
    requires Clocked(start, calls) && (forall k :: Sensible(limits(k))) && calls != [] && calls[|calls| - 1].key == key
    requires PacedCall(calls[..|calls| - 1], limits(key), key, calls[|calls| - 1].now)
    ensures WellFormed(NOBODY)
    ensures Consumed(Run(NOBODY, calls[..|calls| - 1], limits), key, limits(key), calls[|calls| - 1].now).1
  {
    hide Run, Consumed, Sensible, Sane, WellFormed, Earned;
    var past, last := calls[..|calls| - 1], calls[|calls| - 1];
    NobodyIsSane(limits, start);
    SaneRun(NOBODY, past, limits, start);
    SaneLater(Run(NOBODY, past, limits), limits, End(start, past), last.now);
    BucketShowsLastCall(past, limits, key);
    PacedCallIsAllowed(Run(NOBODY, past, limits), key, limits, last.now);
  }

  lemma NobodyIsSane(limits: string -> Options, start: int)
    ensures WellFormed(NOBODY) && Sane(NOBODY, limits, start)
  {
  }

  lemma AllowedUnfolds(calls: seq<Call>, limits: string -> Options, key: string)
    requires calls != [] && WellFormed(NOBODY)
    ensures var past, last := calls[..|calls| - 1], calls[|calls| - 1];
            Allowed(NOBODY, calls, limits, key) == Allowed(NOBODY, past, limits, key)
              + if last.key == key && Consumed(Run(NOBODY, past, limits), key, limits(key), last.now).1 then 1 else 0
  {
  }

  lemma PacedPrefix(calls: seq<Call>, o: Options, key: string)
    requires Paced(calls, o, key) && calls != []
    ensures Paced(calls[..|calls| - 1], o, key)
    ensures calls[|calls| - 1].key == key ==> PacedCall(calls[..|calls| - 1], o, key, calls[|calls| - 1].now)
  {
    var past := calls[..|calls| - 1];
    forall i | 0 <= i < |past| && past[i].key == key
      ensures PacedCall(past[..i], o, key, past[i].now)
    {
      assert past[..i] == calls[..i];
    }
  }

  // ------------------------------------------------------------------ throughput of a hub socket

  function SocketRun(b: Bucket, times: seq<int>): Bucket {
    if times == [] then b else Spend(SocketRun(b, times[..|times| - 1]), times[|times| - 1], MSG_LIMIT).0
  }

  function SocketAccepted(b: Bucket, times: seq<int>): nat {
    if times == [] then 0
    else
      var past, now := times[..|times| - 1], times[|times| - 1];
      SocketAccepted(b, past) + if Spend(SocketRun(b, past), now, MSG_LIMIT).1 then 1 else 0
  }

  ghost predicate Nondecreasing(start: int, times: seq<int>) {
    && (times != [] ==> start <= times[0])
    && forall i :: 0 < i < |times| ==> times[i - 1] <= times[i]
  }

  /** In any window of a socket's life, accepted frames never exceed 100 + 50 per second. */
  lemma {:induction false} SocketThroughput(b: Bucket, times: seq<int>, start: int)
    requires 0.0 <= b.tokens <= MSG_LIMIT.burst && b.last <= start && Nondecreasing(start, times)
    ensures var now := if times == [] then start else times[|times| - 1];
            var after := SocketRun(b, times);
            && start <= now && 0.0 <= after.tokens <= MSG_LIMIT.burst && after.last <= now
            && SocketAccepted(b, times) as real + Refilled(after, now, MSG_LIMIT)
               <= MSG_LIMIT.burst + Earned(now - start, MSG_LIMIT)
  {
    if times != [] {
      SocketThroughput(b, times[..|times| - 1], start);
    }
  }
}
