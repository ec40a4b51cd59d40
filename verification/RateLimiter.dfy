/** The sliding-window rate limiter of the connector gateway (gateway/main.py, require_identity). */
module RateLimiter {

  /** Clock readings in microseconds. */
  const MINUTE := 60_000_000
  const LIMIT := 120
  const HASH_LENGTH := 64

  datatype Verdict = Admitted | InvalidIdentity | RateLimited

  predicate ValidHash(p: string) {
    |p| == HASH_LENGTH && forall i | 0 <= i < |p| :: p[i] in "0123456789abcdef"
  }

  /** The stamps of the last minute, in order. */
  function Recent(stamps: seq<int>, now: int): (r: seq<int>)
    ensures forall v :: v in r <==> v in stamps && now - v < MINUTE
    ensures |r| <= |stamps|
  {
    if stamps == [] then []
    else
      var front, v := Recent(stamps[..|stamps| - 1], now), stamps[|stamps| - 1];
      assert stamps == stamps[..|stamps| - 1] + [v];
      if now - v < MINUTE then front + [v] else front
  }

  predicate Ascending(s: seq<int>) {
    forall i, j | 0 <= i <= j < |s| :: s[i] <= s[j]
  }

  /** Pruning loses nothing that a later clock reading could still count. */
  lemma {:induction false} RecentOfRecent(stamps: seq<int>, early: int, late: int)
    requires early <= late
    ensures Recent(Recent(stamps, early), late) == Recent(stamps, late)
  {
    if stamps != [] {
      var front, v := stamps[..|stamps| - 1], stamps[|stamps| - 1];
      RecentOfRecent(front, early, late);
      var pruned := Recent(front, early);
      assert (pruned + [v])[..|pruned|] == pruned;
    }
  }

  lemma {:induction false} RecentAppend(stamps: seq<int>, v: int, now: int)
    ensures Recent(stamps + [v], now) == Recent(stamps, now) + if now - v < MINUTE then [v] else []
  {
    assert (stamps + [v])[..|stamps|] == stamps;
  }

  /** The unpruned log of accepted requests of one principal respects the limit. */
  predicate Limited(accepted: seq<int>) {
    Ascending(accepted) && forall j | 120 <= j < |accepted| :: accepted[j] - accepted[j - 120] >= 60_000_000
  }

  function CountIn(stamps: seq<int>, from: int): nat {
    if stamps == [] then 0
    else CountIn(stamps[..|stamps| - 1], from) +
         if from <= stamps[|stamps| - 1] < from + 60_000_000 then 1 else 0
  }

  lemma {:induction false} CountBound(stamps: seq<int>, from: int, first: nat)
    requires Ascending(stamps) && first <= |stamps|
    requires forall i | 0 <= i < first :: stamps[i] < from
    ensures CountIn(stamps, from) <= |stamps| - first
  {
    if stamps != [] {
      var n := |stamps| - 1;
      CountBound(stamps[..n], from, if first <= n then first else n);
    }
  }

  /** At most 120 accepted requests fall in any half-open one-minute interval. */
  lemma {:induction false} AtMostLimitPerMinute(accepted: seq<int>, from: int)
    requires Limited(accepted)
    ensures CountIn(accepted, from) <= 120
  {
    if accepted != [] {
      var n := |accepted| - 1;
      AtMostLimitPerMinute(accepted[..n], from);
      if n < LIMIT {
        CountBound(accepted, from, 0);
      } else if accepted[n] < from + MINUTE {
        assert accepted[n] - accepted[n - LIMIT] >= MINUTE;
        forall i | 0 <= i < n - LIMIT + 1 ensures accepted[i] < from {
          assert accepted[i] <= accepted[n - LIMIT];
        }
        CountBound(accepted, from, n - LIMIT + 1);
      }
    }
  }

  /** The handler's verdict and window for one principal. */
  function Decide(window: seq<int>, now: int): (Verdict, seq<int>) {
    var recent := Recent(window, now);
    if |recent| >= LIMIT then (RateLimited, window) else (Admitted, recent + [now])
  }

  /** The log respects the limit, ends by the clock, and the window counts like it from now on. */
  ghost predicate Kept(window: seq<int>, log: seq<int>, clock: int) {
    && Limited(log)
    && (forall v | v in log :: v <= clock)
    && forall now | clock <= now :: Recent(window, now) == Recent(log, now)
  }

  lemma KeptLater(window: seq<int>, log: seq<int>, early: int, late: int)
    requires Kept(window, log, early) && early <= late
    ensures Kept(window, log, late)
  {
  }

  /** Admitting one request prunes the window and extends the log, and the window still counts like the log. */
  lemma {:induction false} KeptAdmit(window: seq<int>, log: seq<int>, now: int)
    requires Kept(window, log, now) && |Recent(window, now)| < LIMIT
    ensures Kept(Recent(window, now) + [now], log + [now], now)
  {
    AdmitKeepsLimit(log, now);
    PrunedFollows(window, log, now);
  }

  class Limiter {
    var windows: map<string, seq<int>>
    ghost var accepted: map<string, seq<int>>
    ghost var clock: int

    ghost predicate Valid()
      reads this
    {
      && windows.Keys == accepted.Keys
      && forall p | p in accepted :: Kept(windows[p], accepted[p], clock)
    }

    ghost function Log(p: string): seq<int>
      reads this
    {
      if p in accepted then accepted[p] else []
    }

    /** The pruned window kept for p. */
    function Stored(p: string): seq<int>
      reads this
    {
      if p in windows then windows[p] else []
    }

    constructor ()
      ensures Valid() && accepted == map[]
    {
      windows, accepted, clock := map[], map[], 0;
    }

    /**
      One request at a time not earlier than the last. It is rejected as rate limited exactly when 120 requests of
      the principal were accepted in the preceding minute.
     */
    method RequireIdentity(p: string, now: int) returns (verdict: Verdict)
      requires Valid() && (clock <= now || accepted == map[])
      modifies this
      ensures Valid() && clock == now
      ensures verdict == if !ValidHash(p) then InvalidIdentity
                         else if |Recent(old(Log(p)), now)| >= LIMIT then RateLimited
                         else Admitted
      ensures verdict == RateLimited <==> ValidHash(p) && !Limited(old(Log(p)) + [now])
      ensures ValidHash(p) ==> (verdict, Stored(p)) == Decide(old(Stored(p)), now)
      ensures forall q | q != p || !ValidHash(p) :: Stored(q) == old(Stored(q))
      ensures Log(p) == if verdict == Admitted then old(Log(p)) + [now] else old(Log(p))
      ensures forall q | q != p :: Log(q) == old(Log(q))
    {
      ghost var early := clock;
      clock := now;
      forall q | q in accepted ensures Kept(windows[q], accepted[q], now) {
        KeptLater(windows[q], accepted[q], early, now);
      }
      if |p| != HASH_LENGTH || exists i | 0 <= i < |p| :: p[i] !in "0123456789abcdef" {
        return InvalidIdentity;
      }
      var window := Recent(Stored(p), now);
      KeptAdmitsIff(Stored(p), Log(p), now);
      if |window| >= LIMIT {
        return RateLimited;
      }
      KeptAdmit(Stored(p), Log(p), now);
      windows, accepted := windows[p := window + [now]], accepted[p := Log(p) + [now]];
      return Admitted;
    }
  }

  /** A window that stands for the log still does after pruning it and admitting one more request to both. */
  lemma {:induction false} PrunedFollows(window: seq<int>, log: seq<int>, now: int)
    requires forall later | now <= later :: Recent(window, later) == Recent(log, later)
    ensures forall later | now <= later :: Recent(Recent(window, now) + [now], later) == Recent(log + [now], later)
  {
    forall later | now <= later ensures Recent(Recent(window, now) + [now], later) == Recent(log + [now], later) {
      RecentAppend(Recent(window, now), now, later);
      RecentAppend(log, now, later);
      RecentOfRecent(window, now, later);
    }
  }

  lemma {:induction false} AdmitKeepsLimit(log: seq<int>, now: int)
    requires Limited(log) && |Recent(log, now)| < LIMIT && forall v | v in log :: v <= now
    ensures Limited(log + [now])
  {
    var after := log + [now];
    forall i, j | 0 <= i <= j < |after| ensures after[i] <= after[j] {
      assert i < |log| ==> log[i] in log;
    }
    if |log| >= LIMIT {
      OldestOutside(log, now);
    }
    forall j | LIMIT <= j < |after| ensures after[j] - after[j - LIMIT] >= MINUTE {
      assert j < |log| ==> log[j] - log[j - LIMIT] >= MINUTE;
    }
  }

  lemma {:induction false} OldestOutside(log: seq<int>, now: int)
    requires Ascending(log) && |Recent(log, now)| < LIMIT <= |log|
    ensures now - log[|log| - LIMIT] >= MINUTE
  {
    var k := |log| - LIMIT;
    if now - log[k] < MINUTE {
      AllRecent(log, k, now);
    }
  }

  lemma {:induction false} RecentBound(log: seq<int>, k: nat, now: int)
    requires k <= |log| && forall i | 0 <= i < k :: now - log[i] >= MINUTE
    ensures |Recent(log, now)| <= |log| - k
  {
    if log != [] {
      RecentBound(log[..|log| - 1], if k < |log| then k else k - 1, now);
    }
  }

  /** A request is admitted exactly when the log with it still respects the limit. */
  lemma {:induction false} AdmittedIff(log: seq<int>, now: int)
    requires Limited(log) && forall v | v in log :: v <= now
    ensures |Recent(log, now)| < LIMIT <==> Limited(log + [now])
  {
    if |Recent(log, now)| < LIMIT {
      AdmitKeepsLimit(log, now);
    } else {
      var k := |log| - LIMIT;
      if now - log[k] >= MINUTE {
        forall i | 0 <= i < k + 1 ensures now - log[i] >= MINUTE {
          assert log[i] <= log[k];
        }
        RecentBound(log, k + 1, now);
      }
      assert (log + [now])[|log|] - (log + [now])[|log| - LIMIT] < MINUTE;
    }
  }

  lemma KeptAdmitsIff(window: seq<int>, log: seq<int>, now: int)
    requires Kept(window, log, now)
    ensures |Recent(window, now)| < LIMIT <==> Limited(log + [now])
  {
    AdmittedIff(log, now);
  }

  lemma {:induction false} AllRecent(log: seq<int>, k: nat, now: int)
    requires k <= |log| && forall i | k <= i < |log| :: now - log[i] < MINUTE
    ensures |Recent(log, now)| >= |log| - k
  {
    if k < |log| {
      AllRecent(log[..|log| - 1], k, now);
    }
  }

  /* ---------- whole runs ---------- */

  datatype Request = Request(principal: string, time: int)

  /** The accepted log of one principal after a run, judged from the unpruned log. */
  function AcceptedBy(requests: seq<Request>, p: string): seq<int> {
    if requests == [] then []
    else
      var log, r := AcceptedBy(requests[..|requests| - 1], p), requests[|requests| - 1];
      if r.principal == p && ValidHash(p) && |Recent(log, r.time)| < LIMIT then log + [r.time] else log
  }

  /** The pruned window of one principal after a run, as the handler keeps it. */
  function WindowOf(requests: seq<Request>, p: string): seq<int> {
    if requests == [] then []
    else
      var window, r := WindowOf(requests[..|requests| - 1], p), requests[|requests| - 1];
      if r.principal == p && ValidHash(p) then Decide(window, r.time).1 else window
  }

  predicate ClockForward(requests: seq<Request>) {
    forall i, j | 0 <= i <= j < |requests| :: requests[i].time <= requests[j].time
  }

  /** Over every run with a non-decreasing clock, the pruned window decides as the whole log would. */
  lemma {:induction false} PruningLosesNothing(requests: seq<Request>, p: string, now: int)
    requires ClockForward(requests) && forall r | r in requests :: r.time <= now
    ensures Recent(WindowOf(requests, p), now) == Recent(AcceptedBy(requests, p), now)
    ensures Decide(WindowOf(requests, p), now).0 == RateLimited <==> |Recent(AcceptedBy(requests, p), now)| >= LIMIT
  {
    if requests != [] {
      var front, r := requests[..|requests| - 1], requests[|requests| - 1];
      assert requests == front + [r];
      PruningLosesNothing(front, p, now);
      PruningLosesNothing(front, p, r.time);
      var window, log := WindowOf(front, p), AcceptedBy(front, p);
      RecentAppend(Recent(window, r.time), r.time, now);
      RecentAppend(log, r.time, now);
      RecentOfRecent(window, r.time, now);
    }
  }

  /** Over every run each principal stays within the limit in every minute. */
  lemma {:induction false} RunsStayLimited(requests: seq<Request>, p: string, from: int)
    requires ClockForward(requests)
    ensures Limited(AcceptedBy(requests, p)) && CountIn(AcceptedBy(requests, p), from) <= 120
    ensures requests != [] ==> forall v | v in AcceptedBy(requests, p) :: v <= requests[|requests| - 1].time
    ensures requests == [] ==> AcceptedBy(requests, p) == []
  {
    if requests != [] {
      var front, r := requests[..|requests| - 1], requests[|requests| - 1];
      RunsStayLimited(front, p, from);
      var log := AcceptedBy(front, p);
      if r.principal == p && ValidHash(p) && |Recent(log, r.time)| < LIMIT {
        AdmitKeepsLimit(log, r.time);
      }
    }
    AtMostLimitPerMinute(AcceptedBy(requests, p), from);
  }
}
