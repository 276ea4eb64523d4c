/** Rate limiting: a sliding-window limiter held in memory, a fixed-window limiter kept in the
    `rate_limits` table, the hybrid that asks both, and the helpers built on it. Time is the
    integer `now` of each call (whole seconds); the process-wide limiter that the helpers use
    is passed to them as a parameter. */
module RateLimit {
  import opened Strings
  import Database

  /** What `is_allowed` returns: admitted or not, and the seconds to wait when not. */
  datatype Decision = Decision(allowed: bool, retryAfter: int)

  const Admit := Decision(true, 0)

  function Max0(x: int): int {
    if x > 0 then x else 0
  }

  /** `RateLimitExceeded`: message, seconds to wait, and the limited resource. */
  datatype RateLimitExceeded = RateLimitExceeded(message: string, retryAfter: int, resource: string)

  /** The in-memory key: identifier and resource joined by ':'. */
  function Key(identifier: string, resource: string): string {
    identifier + ":" + resource
  }

  /** Two different (identifier, resource) pairs share one in-memory counter when a part
      contains ':'; the table keys the two apart. */
  lemma KeyNotInjective()
    ensures Key("user:1", "x") == Key("user", "1:x")
    ensures ("user:1", "x") != ("user", "1:x")
  {
  }

  // ---------------------------------------------------------------- sliding window in memory

  predicate Sorted(s: seq<int>) {
    forall i, j :: 0 <= i < j < |s| ==> s[i] <= s[j]
  }

  /** The request times strictly after `windowStart`, in their original order. */
  function Prune(requests: seq<int>, windowStart: int): (r: seq<int>)
    ensures |r| <= |requests|
    ensures forall i :: 0 <= i < |r| ==> r[i] > windowStart
    ensures forall t :: t in r <==> t in requests && t > windowStart
    ensures forall t :: multiset(r)[t] == if t > windowStart then multiset(requests)[t] else 0
  {
    if requests == [] then []
    else
      var init := requests[..|requests| - 1];
      var last := requests[|requests| - 1];
      var tail := if last > windowStart then [last] else [];
      assert requests == init + [last];
      assert multiset(requests) == multiset(init) + multiset([last]);
      assert multiset(Prune(init, windowStart) + tail) == multiset(Prune(init, windowStart)) + multiset(tail);
      Prune(init, windowStart) + tail
  }

  /** Pruning works piece by piece: the kept times of a list are the kept times of its front
      followed by those of its back, so their order is the order of the log. */
  lemma {:induction false} PruneAppend(a: seq<int>, b: seq<int>, windowStart: int)
    ensures Prune(a + b, windowStart) == Prune(a, windowStart) + Prune(b, windowStart)
    decreases |b|
  {
    if b == [] {
      assert a + b == a;
    } else {
      var init := b[..|b| - 1];
      var last := b[|b| - 1];
      var tail: seq<int> := if last > windowStart then [last] else [];
      assert b == init + [last];
      assert a + b == (a + init) + [last];
      calc {
        Prune(a + b, windowStart);
        { PruneSnoc(a + init, last, windowStart); }
        Prune(a + init, windowStart) + tail;
        { PruneAppend(a, init, windowStart); }
        (Prune(a, windowStart) + Prune(init, windowStart)) + tail;
        Prune(a, windowStart) + (Prune(init, windowStart) + tail);
        { PruneSnoc(init, last, windowStart); }
        Prune(a, windowStart) + Prune(b, windowStart);
      }
    }
  }

  lemma PruneSnoc(requests: seq<int>, last: int, windowStart: int)
    ensures Prune(requests + [last], windowStart) ==
            Prune(requests, windowStart) + (if last > windowStart then [last] else [])
  {
    var s := requests + [last];
    assert s[..|s| - 1] == requests && s[|s| - 1] == last;
  }

  /** Pruning keeps the order of the times. */
  lemma {:induction false} PruneSorted(requests: seq<int>, windowStart: int)
    requires Sorted(requests)
    ensures Sorted(Prune(requests, windowStart))
  {
    if requests != [] {
      var init := requests[..|requests| - 1];
      var last := requests[|requests| - 1];
      assert Sorted(init);
      PruneSorted(init, windowStart);
      var p := Prune(init, windowStart);
      forall i | 0 <= i < |p| ensures p[i] <= last {
        assert p[i] in p;
        var k :| 0 <= k < |init| && init[k] == p[i];
        assert requests[k] <= requests[|requests| - 1];
      }
      assert Prune(requests, windowStart) == p + (if last > windowStart then [last] else []);
    }
  }

  /** Pruning what is already inside the window changes nothing. */
  lemma {:induction false} PruneInside(requests: seq<int>, windowStart: int)
    requires forall i :: 0 <= i < |requests| ==> requests[i] > windowStart
    ensures Prune(requests, windowStart) == requests
  {
    if requests != [] {
      var init := requests[..|requests| - 1];
      PruneInside(init, windowStart);
      assert requests == init + [requests[|requests| - 1]];
    }
  }

  /** The per-key record of the in-memory limiter. `windowStart` is the time the record was
      created; it is stored and never read. */
  datatype Window = Window(requests: seq<int>, windowStart: int)

  /** The record of `key`, or the fresh record a first request creates. */
  function WindowOf(limits: map<string, Window>, key: string, now: int): Window {
    if key in limits then limits[key] else Window([], now)
  }

  /** One in-memory check: forget the times that left the window, then reject when `maxRequests`
      remain (the wait is until the oldest of them leaves) or record `now` and admit. */
  function MemoryStep(w: Window, now: int, maxRequests: int, windowSeconds: int): (res: (Decision, Window))
    requires maxRequests >= 1
    ensures res.1.windowStart == w.windowStart
    ensures res.0.allowed <==> |Prune(w.requests, now - windowSeconds)| < maxRequests
    ensures res.0.allowed ==> res.0 == Admit && res.1.requests == Prune(w.requests, now - windowSeconds) + [now]
    ensures !res.0.allowed ==> res.1.requests == Prune(w.requests, now - windowSeconds) && res.0.retryAfter >= 0
    ensures !res.0.allowed ==>
      res.0.retryAfter == Max0(Prune(w.requests, now - windowSeconds)[0] + windowSeconds - now)
  {
    var kept := Prune(w.requests, now - windowSeconds);
    if |kept| >= maxRequests then (Decision(false, Max0(kept[0] + windowSeconds - now)), w.(requests := kept))
    else (Admit, w.(requests := kept + [now]))
  }

  /** What a stored record keeps between calls: at most `maxRequests` times, in order, none in
      the future. */
  predicate WindowInvariant(w: Window, now: int, maxRequests: int) {
    && |w.requests| <= maxRequests
    && Sorted(w.requests)
    && forall i :: 0 <= i < |w.requests| ==> w.requests[i] <= now
  }

  /** With a fixed limit and a clock that does not go back, every check keeps the invariant:
      the record never holds more than `maxRequests` times. */
  lemma MemoryStepKeepsInvariant(w: Window, now: int, later: int, maxRequests: int, windowSeconds: int)
    requires maxRequests >= 1 && now <= later
    requires WindowInvariant(w, now, maxRequests)
    ensures WindowInvariant(MemoryStep(w, later, maxRequests, windowSeconds).1, later, maxRequests)
  {
    var kept := Prune(w.requests, later - windowSeconds);
    PruneSorted(w.requests, later - windowSeconds);
    forall i | 0 <= i < |kept| ensures kept[i] <= later {
      assert kept[i] in kept;
      var k :| 0 <= k < |w.requests| && w.requests[k] == kept[i];
    }
    var r := MemoryStep(w, later, maxRequests, windowSeconds).1.requests;
    if |kept| < maxRequests {
      assert r == kept + [later];
      assert Sorted(r);
    } else {
      assert r == kept;
    }
  }

  /** After a check with a positive window, every stored time is inside the window. */
  lemma MemoryStepInsideWindow(w: Window, now: int, maxRequests: int, windowSeconds: int)
    requires maxRequests >= 1 && windowSeconds > 0
    ensures var r := MemoryStep(w, now, maxRequests, windowSeconds).1.requests;
      forall i :: 0 <= i < |r| ==> r[i] > now - windowSeconds
  {
  }

  /** A rejection asks to wait a positive time no longer than the window, as long as no stored
      time lies in the future. */
  lemma MemoryRetryWithinWindow(w: Window, now: int, maxRequests: int, windowSeconds: int)
    requires maxRequests >= 1
    requires forall i :: 0 <= i < |w.requests| ==> w.requests[i] <= now
    requires !MemoryStep(w, now, maxRequests, windowSeconds).0.allowed
    ensures 0 < MemoryStep(w, now, maxRequests, windowSeconds).0.retryAfter <= windowSeconds
  {
    var kept := Prune(w.requests, now - windowSeconds);
    assert kept[0] in kept;
    var k :| 0 <= k < |w.requests| && w.requests[k] == kept[0];
  }

  /** Once `maxRequests` requests were admitted inside the window, the next one at the same
      time is rejected. */
  lemma MemoryFullRejects(w: Window, now: int, maxRequests: int, windowSeconds: int)
    requires maxRequests >= 1
    requires |w.requests| == maxRequests
    requires forall i :: 0 <= i < |w.requests| ==> w.requests[i] > now - windowSeconds
    ensures !MemoryStep(w, now, maxRequests, windowSeconds).0.allowed
    ensures MemoryStep(w, now, maxRequests, windowSeconds).1 == w
  {
    PruneInside(w.requests, now - windowSeconds);
  }

  class InMemoryRateLimiter {
    var limits: map<string, Window>

    constructor()
      ensures limits == map[]
    {
      limits := map[];
    }

    /** `is_allowed`: one `MemoryStep` on the record of the key; no other key changes. */
    method IsAllowed(identifier: string, resource: string, maxRequests: int, windowSeconds: int, now: int)
      returns (d: Decision)
      requires maxRequests >= 1
      modifies this
      ensures var key := Key(identifier, resource);
        var step := MemoryStep(WindowOf(old(limits), key, now), now, maxRequests, windowSeconds);
        d == step.0 && limits == old(limits)[key := step.1]
    {
      var key := identifier + ":" + resource;
      var windowStart := now - windowSeconds;
      if key !in limits {
        limits := limits[key := Window([], now)];
      }
      var requests := limits[key].requests;
      var kept: seq<int> := [];
      var i := 0;
      while i < |requests|
        invariant 0 <= i <= |requests|
        invariant kept == Prune(requests[..i], windowStart)
      {
        assert requests[..i + 1][..i] == requests[..i];
        if requests[i] > windowStart {
          kept := kept + [requests[i]];
        }
        i := i + 1;
      }
      assert requests[..|requests|] == requests;
      limits := limits[key := limits[key].(requests := kept)];
      if |kept| >= maxRequests {
        var oldest := kept[0];
        var retry := oldest + windowSeconds - now;
        d := Decision(false, if retry > 0 then retry else 0);
        return;
      }
      limits := limits[key := limits[key].(requests := kept + [now])];
      d := Admit;
    }

    /** `reset_limit`: the record of the key is forgotten. */
    method ResetLimit(identifier: string, resource: string)
      modifies this
      ensures limits == old(limits) - {Key(identifier, resource)}
    {
      var key := identifier + ":" + resource;
      if key in limits {
        limits := limits - {key};
      }
    }
  }

  // ---------------------------------------------------------------- fixed window in the table

  function RowOf(rows: map<(string, string), Database.RateLimitRow>, identifier: string, resource: string)
    : Option<Database.RateLimitRow>
  {
    if (identifier, resource) in rows then Some(rows[(identifier, resource)]) else None
  }

  /** One table check: a missing row, or one whose reset time has passed, starts a new window
      with a count of 1; a full window rejects until its reset time; otherwise the count grows.
      The row is never deleted. */
  function DbStep(row: Option<Database.RateLimitRow>, now: int, maxRequests: int, windowSeconds: int)
    : (res: (Decision, Database.RateLimitRow))
    ensures res.0.allowed <==> !(row.Some? && now <= row.value.resetAt && row.value.requestsCount >= maxRequests)
    ensures res.0.allowed ==> res.0 == Admit
    ensures (row.None? || now > row.value.resetAt) ==>
      res.1 == Database.RateLimitRow(1, now + windowSeconds)
    ensures row.Some? && now <= row.value.resetAt && res.0.allowed ==>
      res.1 == row.value.(requestsCount := row.value.requestsCount + 1)
    ensures !res.0.allowed ==> res.1 == row.value && res.0.retryAfter == Max0(row.value.resetAt - now)
  {
    if row.None? then (Admit, Database.RateLimitRow(1, now + windowSeconds))
    else if now > row.value.resetAt then (Admit, Database.RateLimitRow(1, now + windowSeconds))
    else if row.value.requestsCount >= maxRequests then
      var windowStart := row.value.resetAt - windowSeconds;
      var elapsed := now - windowStart;
      (Decision(false, Max0(windowSeconds - elapsed)), row.value)
    else (Admit, row.value.(requestsCount := row.value.requestsCount + 1))
  }

  /** What a stored row keeps between calls: a count from 1 to `maxRequests` and a reset time
      at most one window ahead. */
  predicate RowInvariant(row: Database.RateLimitRow, now: int, maxRequests: int, windowSeconds: int) {
    1 <= row.requestsCount <= maxRequests && row.resetAt <= now + windowSeconds
  }

  /** With a fixed limit and a clock that does not go back, every check keeps the row
      invariant, so a window never counts more than `maxRequests` requests. */
  lemma DbStepKeepsInvariant(row: Option<Database.RateLimitRow>, now: int, later: int, maxRequests: int,
                             windowSeconds: int)
    requires maxRequests >= 1 && now <= later
    requires row.Some? ==> RowInvariant(row.value, now, maxRequests, windowSeconds)
    ensures RowInvariant(DbStep(row, later, maxRequests, windowSeconds).1, later, maxRequests, windowSeconds)
  {
  }

  /** A rejection by the table asks to wait no longer than the window. */
  lemma DbRetryWithinWindow(row: Database.RateLimitRow, now: int, maxRequests: int, windowSeconds: int)
    requires RowInvariant(row, now, maxRequests, windowSeconds)
    requires !DbStep(Some(row), now, maxRequests, windowSeconds).0.allowed
    ensures 0 <= DbStep(Some(row), now, maxRequests, windowSeconds).0.retryAfter <= windowSeconds
  {
  }

  /** How many of the checks at `times`, made one after another on `row`, are admitted. */
  function DbAdmitted(row: Database.RateLimitRow, times: seq<int>, maxRequests: int, windowSeconds: int): nat
    decreases |times|
  {
    if times == [] then 0
    else
      var step := DbStep(Some(row), times[0], maxRequests, windowSeconds);
      (if step.0.allowed then 1 else 0) + DbAdmitted(step.1, times[1..], maxRequests, windowSeconds)
  }

  function Min(a: int, b: int): int {
    if a < b then a else b
  }

  /** A window admits exactly what its count leaves: of any checks made before the reset time,
      the first `maxRequests - requestsCount` are admitted and the rest rejected. In particular
      a window opened by a first request admits `maxRequests` requests in all. */
  lemma {:induction false} DbWindowAdmits(row: Database.RateLimitRow, times: seq<int>, maxRequests: int,
                                          windowSeconds: int)
    requires 0 <= row.requestsCount <= maxRequests
    requires forall i :: 0 <= i < |times| ==> times[i] <= row.resetAt
    ensures DbAdmitted(row, times, maxRequests, windowSeconds) == Min(|times|, maxRequests - row.requestsCount)
    decreases |times|
  {
    if times != [] {
      var step := DbStep(Some(row), times[0], maxRequests, windowSeconds);
      DbWindowAdmits(step.1, times[1..], maxRequests, windowSeconds);
    }
  }

  /** The table limiter. Every call works on `db`, the session the source opens per call. */
  class DatabaseRateLimiter {
    const db: Database.Db

    constructor(db: Database.Db)
      ensures this.db == db
    {
      this.db := db;
    }

    /** `is_allowed`: one `DbStep` on the row of (identifier, resource); no other row or table
        changes. */
    method IsAllowed(identifier: string, resource: string, maxRequests: int, windowSeconds: int, now: int)
      returns (d: Decision)
      modifies db
      ensures var step := DbStep(RowOf(old(db.rateLimits), identifier, resource), now, maxRequests, windowSeconds);
        d == step.0 && db.rateLimits == old(db.rateLimits)[(identifier, resource) := step.1]
      ensures db.OnlyRateLimitsChanged()
    {
      var k := (identifier, resource);
      if k !in db.rateLimits {
        db.rateLimits := db.rateLimits[k := Database.RateLimitRow(1, now + windowSeconds)];
        return Admit;
      }
      var row := db.rateLimits[k];
      if now > row.resetAt {
        db.rateLimits := db.rateLimits[k := Database.RateLimitRow(1, now + windowSeconds)];
        return Admit;
      }
      if row.requestsCount >= maxRequests {
        var windowStart := row.resetAt - windowSeconds;
        var elapsed := now - windowStart;
        var retry := windowSeconds - elapsed;
        return Decision(false, if retry > 0 then retry else 0);
      }
      db.rateLimits := db.rateLimits[k := row.(requestsCount := row.requestsCount + 1)];
      return Admit;
    }

    /** `reset_limit`: the row is deleted when present. */
    method ResetLimit(identifier: string, resource: string)
      modifies db
      ensures db.rateLimits == old(db.rateLimits) - {(identifier, resource)}
      ensures db.OnlyRateLimitsChanged()
    {
      if (identifier, resource) in db.rateLimits {
        db.rateLimits := db.rateLimits - {(identifier, resource)};
      }
    }
  }

  // ---------------------------------------------------------------- the hybrid

  /** The decision of the hybrid: memory first; only a request memory admits reaches the table,
      and only when the table is in use. */
  function HybridDecision(limits: map<string, Window>, rows: map<(string, string), Database.RateLimitRow>,
                          identifier: string, resource: string, now: int, maxRequests: int,
                          windowSeconds: int, useDb: bool): Decision
    requires maxRequests >= 1
  {
    var mem := MemoryStep(WindowOf(limits, Key(identifier, resource), now), now, maxRequests, windowSeconds);
    if !mem.0.allowed then mem.0
    else if useDb then DbStep(RowOf(rows, identifier, resource), now, maxRequests, windowSeconds).0
    else Admit
  }

  /** The in-memory records after a hybrid check: the memory step always happens. */
  function HybridLimits(limits: map<string, Window>, identifier: string, resource: string, now: int,
                        maxRequests: int, windowSeconds: int): map<string, Window>
    requires maxRequests >= 1
  {
    var key := Key(identifier, resource);
    limits[key := MemoryStep(WindowOf(limits, key, now), now, maxRequests, windowSeconds).1]
  }

  /** The table after a hybrid check. */
  function HybridRows(limits: map<string, Window>, rows: map<(string, string), Database.RateLimitRow>,
                      identifier: string, resource: string, now: int, maxRequests: int,
                      windowSeconds: int, useDb: bool): map<(string, string), Database.RateLimitRow>
    requires maxRequests >= 1
  {
    var mem := MemoryStep(WindowOf(limits, Key(identifier, resource), now), now, maxRequests, windowSeconds);
    if mem.0.allowed && useDb
    then rows[(identifier, resource) := DbStep(RowOf(rows, identifier, resource), now, maxRequests, windowSeconds).1]
    else rows
  }

  /** The hybrid admits exactly when memory admits and, if it is in use, the table admits; a
      rejection is the first limiter's own answer. */
  lemma HybridAdmitsIffBoth(limits: map<string, Window>, rows: map<(string, string), Database.RateLimitRow>,
                            identifier: string, resource: string, now: int, maxRequests: int,
                            windowSeconds: int, useDb: bool)
    requires maxRequests >= 1
    ensures var d := HybridDecision(limits, rows, identifier, resource, now, maxRequests, windowSeconds, useDb);
      var mem := MemoryStep(WindowOf(limits, Key(identifier, resource), now), now, maxRequests, windowSeconds).0;
      var tab := DbStep(RowOf(rows, identifier, resource), now, maxRequests, windowSeconds).0;
      && (d.allowed <==> mem.allowed && (useDb ==> tab.allowed))
      && (d.allowed ==> d == Admit)
      && (!mem.allowed ==> d == mem)
      && (mem.allowed && useDb && !tab.allowed ==> d == tab)
  {
  }

  /** A request memory rejects never touches the table. */
  lemma HybridMemoryRejectSkipsTable(limits: map<string, Window>, rows: map<(string, string), Database.RateLimitRow>,
                                     identifier: string, resource: string, now: int, maxRequests: int,
                                     windowSeconds: int, useDb: bool)
    requires maxRequests >= 1
    requires !HybridDecision(limits, rows, identifier, resource, now, maxRequests, windowSeconds, false).allowed
    ensures HybridRows(limits, rows, identifier, resource, now, maxRequests, windowSeconds, useDb) == rows
    ensures !HybridDecision(limits, rows, identifier, resource, now, maxRequests, windowSeconds, useDb).allowed
  {
  }

  /** A request memory admits but the table rejects still counts in memory: `now` is recorded
      and not taken back. */
  lemma HybridTableRejectKeepsMemoryRecord(limits: map<string, Window>,
                                           rows: map<(string, string), Database.RateLimitRow>,
                                           identifier: string, resource: string, now: int, maxRequests: int,
                                           windowSeconds: int)
    requires maxRequests >= 1
    requires HybridDecision(limits, rows, identifier, resource, now, maxRequests, windowSeconds, false).allowed
    requires !HybridDecision(limits, rows, identifier, resource, now, maxRequests, windowSeconds, true).allowed
    ensures var r := HybridLimits(limits, identifier, resource, now, maxRequests, windowSeconds)[Key(identifier, resource)];
      |r.requests| > 0 && r.requests[|r.requests| - 1] == now
  {
  }

  class HybridRateLimiter {
    const memory: InMemoryRateLimiter
    const dbLimiter: DatabaseRateLimiter

    constructor(db: Database.Db)
      ensures fresh(memory) && memory.limits == map[] && dbLimiter.db == db
    {
      memory := new InMemoryRateLimiter();
      dbLimiter := new DatabaseRateLimiter(db);
    }

    /** The state a check leaves and the answer it gives, in terms of the state before it. */
    twostate predicate Stepped(identifier: string, resource: string, now: int, maxRequests: int,
                               windowSeconds: int, useDb: bool, d: Decision)
      requires maxRequests >= 1
      reads memory, dbLimiter.db
    {
      && d == HybridDecision(old(memory.limits), old(dbLimiter.db.rateLimits), identifier, resource, now,
                             maxRequests, windowSeconds, useDb)
      && memory.limits == HybridLimits(old(memory.limits), identifier, resource, now, maxRequests, windowSeconds)
      && dbLimiter.db.rateLimits == HybridRows(old(memory.limits), old(dbLimiter.db.rateLimits), identifier,
                                               resource, now, maxRequests, windowSeconds, useDb)
      && dbLimiter.db.OnlyRateLimitsChanged()
    }

    /** `is_allowed` */
    method IsAllowed(identifier: string, resource: string, maxRequests: int, windowSeconds: int, now: int,
                     useDb: bool := true)
      returns (d: Decision)
      requires maxRequests >= 1
      modifies memory, dbLimiter.db
      ensures Stepped(identifier, resource, now, maxRequests, windowSeconds, useDb, d)
    {
      var mem := memory.IsAllowed(identifier, resource, maxRequests, windowSeconds, now);
      if !mem.allowed {
        return mem;
      }
      if useDb {
        var tab := dbLimiter.IsAllowed(identifier, resource, maxRequests, windowSeconds, now);
        if !tab.allowed {
          return tab;
        }
      }
      return Admit;
    }

    /** `reset_limit`: memory always, the table when in use. */
    method ResetLimit(identifier: string, resource: string, useDb: bool := true)
      modifies memory, dbLimiter.db
      ensures memory.limits == old(memory.limits) - {Key(identifier, resource)}
      ensures useDb ==> dbLimiter.db.rateLimits == old(dbLimiter.db.rateLimits) - {(identifier, resource)}
      ensures !useDb ==> dbLimiter.db.rateLimits == old(dbLimiter.db.rateLimits)
      ensures dbLimiter.db.OnlyRateLimitsChanged()
    {
      memory.ResetLimit(identifier, resource);
      if useDb {
        dbLimiter.ResetLimit(identifier, resource);
      }
    }
  }

  // ---------------------------------------------------------------- helpers on the shared limiter

  /** What `check_rate_limit` does with a decision: raise when rejected and asked to, return
      the verdict otherwise. */
  datatype CheckOutcome = Returned(allowed: bool) | Raised(error: RateLimitExceeded)

  function Outcome(d: Decision, resource: string, raiseException: bool): (r: CheckOutcome)
    ensures r.Raised? <==> !d.allowed && raiseException
    ensures r.Returned? ==> r.allowed == d.allowed
    ensures r.Raised? ==> r.error.retryAfter == d.retryAfter && r.error.resource == resource
    ensures r.Raised? ==> r.error.message == "Rate limit exceeded for " + resource
  {
    if !d.allowed && raiseException
    then Raised(RateLimitExceeded("Rate limit exceeded for " + resource, d.retryAfter, resource))
    else Returned(d.allowed)
  }

  /** `check_rate_limit` on `limiter`, which stands for the process-wide limiter. */
  method CheckRateLimit(limiter: HybridRateLimiter, identifier: string, resource: string, now: int,
                        maxRequests: int := 10, windowSeconds: int := 60, raiseException: bool := true,
                        useDb: bool := true)
    returns (r: CheckOutcome)
    requires maxRequests >= 1
    modifies limiter.memory, limiter.dbLimiter.db
    ensures exists d :: limiter.Stepped(identifier, resource, now, maxRequests, windowSeconds, useDb, d)
                        && r == Outcome(d, resource, raiseException)
  {
    var d := limiter.IsAllowed(identifier, resource, maxRequests, windowSeconds, now, useDb);
    if !d.allowed && raiseException {
      return Raised(RateLimitExceeded("Rate limit exceeded for " + resource, d.retryAfter, resource));
    }
    return Returned(d.allowed);
  }

  /** `user_rate_limit`: the identifier is "user:" and the user id; 10 requests by default. */
  method UserRateLimit(limiter: HybridRateLimiter, userId: string, resource: string, now: int,
                       maxRequests: int := 10, windowSeconds: int := 60, raiseException: bool := true,
                       useDb: bool := true)
    returns (r: CheckOutcome)
    requires maxRequests >= 1
    modifies limiter.memory, limiter.dbLimiter.db
    ensures exists d :: limiter.Stepped("user:" + userId, resource, now, maxRequests, windowSeconds, useDb, d)
                        && r == Outcome(d, resource, raiseException)
  {
    r := CheckRateLimit(limiter, "user:" + userId, resource, now, maxRequests, windowSeconds, raiseException, useDb);
  }

  /** `channel_rate_limit`: the identifier is "channel:" and the channel id; 15 by default. */
  method ChannelRateLimit(limiter: HybridRateLimiter, channelId: string, resource: string, now: int,
                          maxRequests: int := 15, windowSeconds: int := 60, raiseException: bool := true,
                          useDb: bool := true)
    returns (r: CheckOutcome)
    requires maxRequests >= 1
    modifies limiter.memory, limiter.dbLimiter.db
    ensures exists d :: limiter.Stepped("channel:" + channelId, resource, now, maxRequests, windowSeconds, useDb, d)
                        && r == Outcome(d, resource, raiseException)
  {
    r := CheckRateLimit(limiter, "channel:" + channelId, resource, now, maxRequests, windowSeconds,
                        raiseException, useDb);
  }

  /** `guild_rate_limit`: the identifier is "guild:" and the guild id; 50 by default. */
  method GuildRateLimit(limiter: HybridRateLimiter, guildId: string, resource: string, now: int,
                        maxRequests: int := 50, windowSeconds: int := 60, raiseException: bool := true,
                        useDb: bool := true)
    returns (r: CheckOutcome)
    requires maxRequests >= 1
    modifies limiter.memory, limiter.dbLimiter.db
    ensures exists d :: limiter.Stepped("guild:" + guildId, resource, now, maxRequests, windowSeconds, useDb, d)
                        && r == Outcome(d, resource, raiseException)
  {
    r := CheckRateLimit(limiter, "guild:" + guildId, resource, now, maxRequests, windowSeconds, raiseException, useDb);
  }

  /** `global_rate_limit`: the identifier is "global"; 100 by default. */
  method GlobalRateLimit(limiter: HybridRateLimiter, resource: string, now: int,
                         maxRequests: int := 100, windowSeconds: int := 60, raiseException: bool := true,
                         useDb: bool := true)
    returns (r: CheckOutcome)
    requires maxRequests >= 1
    modifies limiter.memory, limiter.dbLimiter.db
    ensures exists d :: limiter.Stepped("global", resource, now, maxRequests, windowSeconds, useDb, d)
                        && r == Outcome(d, resource, raiseException)
  {
    r := CheckRateLimit(limiter, "global", resource, now, maxRequests, windowSeconds, raiseException, useDb);
  }

  /** Per-command limits over the shared limiter, with a one-minute window. */
  class CommandRateLimiter {
    const rateLimiter: HybridRateLimiter
    const defaultCommandsPerMinute: int

    constructor(rateLimiter: HybridRateLimiter, defaultCommandsPerMinute: int := 10)
      ensures this.rateLimiter == rateLimiter && this.defaultCommandsPerMinute == defaultCommandsPerMinute
    {
      this.rateLimiter := rateLimiter;
      this.defaultCommandsPerMinute := defaultCommandsPerMinute;
    }

    function LimitOrDefault(maxRequests: Option<int>): int {
      if maxRequests.Some? then maxRequests.value else defaultCommandsPerMinute
    }

    /** `check_command_limit`: the user's count for "command:" and the command name. */
    method CheckCommandLimit(userId: string, commandName: string, now: int, maxRequests: Option<int> := None,
                             useDb: bool := true)
      returns (d: Decision)
      requires LimitOrDefault(maxRequests) >= 1
      modifies rateLimiter.memory, rateLimiter.dbLimiter.db
      ensures rateLimiter.Stepped("user:" + userId, "command:" + commandName, now, LimitOrDefault(maxRequests),
                                  60, useDb, d)
    {
      var limit := if maxRequests.Some? then maxRequests.value else defaultCommandsPerMinute;
      d := rateLimiter.IsAllowed("user:" + userId, "command:" + commandName, limit, 60, useDb := useDb, now := now);
    }

    /** `check_global_command_limit`: one count for all commands of all users. */
    method CheckGlobalCommandLimit(now: int, maxRequests: int := 100, useDb: bool := true)
      returns (d: Decision)
      requires maxRequests >= 1
      modifies rateLimiter.memory, rateLimiter.dbLimiter.db
      ensures rateLimiter.Stepped("global", "commands", now, maxRequests, 60, useDb, d)
    {
      d := rateLimiter.IsAllowed("global", "commands", maxRequests, 60, now, useDb);
    }
  }
}
