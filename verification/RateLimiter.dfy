/** The in-process sliding window that limits requests when Redis is not there (security/rate_limit.py). */
module RateLimiter {
  const WINDOW := 60

  /** Accepted requests of one key in the window (now - 60, now]. */
  function InWindow(history: seq<int>, now: int): (n: nat)
    ensures n <= |history|
  {
    if history == [] then 0
    else InWindow(history[..|history| - 1], now) + (if now - WINDOW < history[|history| - 1] <= now then 1 else 0)
  }

  predicate InOrder(times: seq<int>) {
    |times| > 1 ==> InOrder(times[..|times| - 1]) && times[|times| - 2] <= times[|times| - 1]
  }

  lemma {:induction false} OrderedAt(times: seq<int>, i: nat, j: nat)
    requires InOrder(times) && i <= j < |times|
    ensures times[i] <= times[j]
  {
    if j < |times| - 1 {
      OrderedAt(times[..|times| - 1], i, j);
    } else if i < j {
      OrderedAt(times[..|times| - 1], i, j - 1);
    }
  }

  lemma {:induction false} OrderedTail(times: seq<int>)
    requires InOrder(times) && times != []
    ensures InOrder(times[1..])
  {
    if |times| > 2 {
      OrderedTail(times[..|times| - 1]);
      assert times[1..][..|times| - 2] == times[..|times| - 1][1..];
    }
  }

  predicate AllAtMost(times: seq<int>, bound: int) {
    forall i | 0 <= i < |times| :: times[i] <= bound
  }

  predicate AllAfter(times: seq<int>, bound: int) {
    forall i | 0 <= i < |times| :: times[i] > bound
  }

  /** Times in order, none after `now`. */
  predicate Timeline(times: seq<int>, now: int) {
    InOrder(times) && AllAtMost(times, now)
  }

  lemma {:induction false} InWindowAppend(a: seq<int>, b: seq<int>, now: int)
    ensures InWindow(a + b, now) == InWindow(a, now) + InWindow(b, now)
  {
    if b == [] {
      assert a + b == a;
    } else {
      assert (a + b)[..|a + b| - 1] == a + b[..|b| - 1];
      InWindowAppend(a, b[..|b| - 1], now);
    }
  }

  lemma {:induction false} InWindowNone(times: seq<int>, now: int)
    requires AllAtMost(times, now - WINDOW)
    ensures InWindow(times, now) == 0
  {
    if times != [] {
      InWindowNone(times[..|times| - 1], now);
    }
  }

  lemma {:induction false} InWindowAll(times: seq<int>, now: int)
    requires AllAfter(times, now - WINDOW) && AllAtMost(times, now)
    ensures InWindow(times, now) == |times|
  {
    if times != [] {
      InWindowAll(times[..|times| - 1], now);
    }
  }

  /** With everything before `k` out of the window and the rest in it, the window holds the rest. */
  lemma BucketIsWindow(past: seq<int>, k: nat, now: int)
    requires k <= |past| && Timeline(past, now) && AllAtMost(past[..k], now - WINDOW)
    requires k < |past| ==> past[k] > now - WINDOW
    ensures InWindow(past, now) == |past| - k
  {
    assert past == past[..k] + past[k..];
    forall i | k <= i < |past|
      ensures past[i] >= past[k]
    {
      OrderedAt(past, k, i);
    }
    InWindowAppend(past[..k], past[k..], now);
    InWindowNone(past[..k], now);
    InWindowAll(past[k..], now);
  }

  // ---- the limiter -------------------------------------------------------------------------------

  /** `bucket` is the recent end of `history`; what was dropped is too old ever to count again. */
  predicate Recent(bucket: seq<int>, history: seq<int>, clock: int) {
    && Timeline(history, clock)
    && |bucket| <= |history|
    && bucket == history[|history| - |bucket|..]
    && AllAtMost(history[..|history| - |bucket|], clock - WINDOW)
  }

  lemma RecentLater(bucket: seq<int>, history: seq<int>, clock: int, now: int)
    requires Recent(bucket, history, clock) && clock <= now
    ensures Recent(bucket, history, now)
  {}

  lemma RecentPops(bucket: seq<int>, history: seq<int>, now: int)
    requires Recent(bucket, history, now) && bucket != [] && bucket[0] <= now - WINDOW
    ensures Recent(bucket[1..], history, now)
  {
    var k := |history| - |bucket|;
    assert history[..k + 1] == history[..k] + [history[k]];
  }

  lemma RecentAppends(bucket: seq<int>, history: seq<int>, now: int)
    requires Recent(bucket, history, now)
    ensures Recent(bucket + [now], history + [now], now)
    ensures InWindow(history + [now], now) == InWindow(history, now) + 1
  {
    assert (history + [now])[..|history|] == history;
    var k := |history| - |bucket|;
    assert (history + [now])[k..] == history[k..] + [now];
    assert (history + [now])[..k] == history[..k];
  }

  lemma PrunedIsWindow(bucket: seq<int>, history: seq<int>, now: int)
    requires Recent(bucket, history, now) && (bucket != [] ==> bucket[0] > now - WINDOW)
    ensures InWindow(history, now) == |bucket|
  {
    BucketIsWindow(history, |history| - |bucket|, now);
  }

  function Of(table: map<string, seq<int>>, key: string): seq<int> {
    if key in table then table[key] else []
  }

  ghost predicate AllRecent(requests: map<string, seq<int>>, history: map<string, seq<int>>, clock: int) {
    forall key :: Recent(Of(requests, key), Of(history, key), clock)
  }

  lemma KeyUpdatedAt(
    requests: map<string, seq<int>>, history: map<string, seq<int>>, clock: int, key: string, bucket: seq<int>,
    past: seq<int>, now: int, k: string)
    requires Recent(Of(requests, k), Of(history, k), clock) && clock <= now && Recent(bucket, past, now)
    ensures Recent(Of(requests[key := bucket], k), Of(history[key := past], k), now)
  {
    if k != key {
      RecentLater(Of(requests, k), Of(history, k), clock, now);
    }
  }

  lemma KeyUpdated(
    requests: map<string, seq<int>>, history: map<string, seq<int>>, clock: int, key: string, bucket: seq<int>,
    past: seq<int>, now: int)
    requires AllRecent(requests, history, clock) && clock <= now && Recent(bucket, past, now)
    ensures AllRecent(requests[key := bucket], history[key := past], now)
  {
    var requests', history' := requests[key := bucket], history[key := past];
    forall k
      ensures Recent(Of(requests', k), Of(history', k), now)
    {
      KeyUpdatedAt(requests, history, clock, key, bucket, past, now, k);
    }
  }

  /** Drop what has left the window: what stays is what the window holds of the whole history. */
  method Prune(bucket: seq<int>, ghost history: seq<int>, now: int) returns (kept: seq<int>)
    requires Recent(bucket, history, now)
    ensures Recent(kept, history, now) && |kept| == InWindow(history, now)
  {
    kept := bucket;
    while kept != [] && kept[0] <= now - WINDOW
      invariant Recent(kept, history, now)
    {
      RecentPops(kept, history, now);
      kept := kept[1..];
    }
    PrunedIsWindow(kept, history, now);
  }

  lemma NothingIsRecent(clock: int)
    ensures AllRecent(map[], map[], clock)
  {
    forall key
      ensures Recent(Of(map[], key), Of(map[], key), clock)
    {
      NoTimesAreRecent(clock);
    }
  }

  lemma NoTimesAreRecent(clock: int)
    ensures Recent([], [], clock)
  {
  }

  class Limiter {
    var requests: map<string, seq<int>>
    ghost var history: map<string, seq<int>>   // every accepted request of each key
    ghost var clock: int                       // the latest reading

    ghost predicate Valid()
      reads this
    {
      AllRecent(requests, history, clock)
    }

    constructor (now: int)
      ensures Valid() && history == map[] && requests == map[] && clock == now
    {
      requests, history, clock := map[], map[], now;
      NothingIsRecent(now);
    }

    /** Drop what has left the window, then accept if there is room. The pruned bucket decides as the whole history
        would: a request is refused exactly when its window already holds `limit` accepted ones. */
    method HitLocal(key: string, limit: int, now: int) returns (allowed: bool)
      requires Valid() && now >= clock
      modifies this
      ensures Valid() && clock == now
      ensures allowed <==> InWindow(old(Of(history, key)), now) < limit
      ensures key in history && history == old(history)[key := history[key]]
      ensures history[key] == if allowed then old(Of(history, key)) + [now] else old(Of(history, key))
      ensures key in requests && |requests[key]| == InWindow(history[key], now)
    {
      ghost var past := Of(history, key);
      RecentLater(Of(requests, key), past, clock, now);
      var bucket := Prune(Of(requests, key), past, now);
      if |bucket| >= limit {
        KeyUpdated(requests, history, clock, key, bucket, past, now);
        allowed := false;
      } else {
        RecentAppends(bucket, past, now);
        bucket, past := bucket + [now], past + [now];
        KeyUpdated(requests, history, clock, key, bucket, past, now);
        allowed := true;
      }
      requests := requests[key := bucket];
      history := history[key := past];
      assert history[key] == past && requests[key] == bucket;
      clock := now;
    }
  }

  // ---- whole runs --------------------------------------------------------------------------------

  /** The accepted history of one key under a fixed limit, request by request. */
  function Accepted(history: seq<int>, limit: int, arrivals: seq<int>): seq<int>
    decreases |arrivals|
  {
    if arrivals == [] then history
    else
      var next := if InWindow(history, arrivals[0]) < limit then history + [arrivals[0]] else history;
      Accepted(next, limit, arrivals[1..])
  }

  /** Any two accepted requests `limit` apart in the history are a full window apart in time. */
  ghost predicate Spread(history: seq<int>, limit: nat) {
    forall i, j | 0 <= i < j < |history| && j == i + limit :: history[i] + WINDOW <= history[j]
  }

  lemma OnlyLatestInWindow(history: seq<int>, limit: nat, t: int)
    requires InOrder(history) && 0 < limit < |history| && Spread(history, limit) && history[|history| - 1] <= t
    ensures InWindow(history, t) <= limit
  {
    var gone, latest := history[..|history| - limit], history[|history| - limit..];
    forall i | 0 <= i < |gone|
      ensures gone[i] <= t - WINDOW
    {
      OrderedAt(history, i, |gone| - 1);
      assert history[|gone| - 1] + WINDOW <= history[|gone| - 1 + limit];
    }
    InWindowNone(gone, t);
    assert history == gone + latest;
    InWindowAppend(gone, latest, t);
  }

  /** No window holds more than its last `limit` requests: whatever is older than those has left it. */
  lemma {:induction false} SpreadMeansLimited(history: seq<int>, limit: nat, t: int)
    requires InOrder(history) && (limit == 0 ==> history == []) && Spread(history, limit)
    ensures InWindow(history, t) <= limit
  {
    if |history| > limit {
      var n := |history|;
      var init, last := history[..n - 1], history[n - 1];
      if t - WINDOW < last <= t {
        OnlyLatestInWindow(history, limit, t);
      } else {
        SpreadMeansLimited(init, limit, t);
      }
    }
  }

  lemma LatestAreInside(history: seq<int>, k: nat, now: int)
    requires Timeline(history, now) && k < |history| && history[k] + WINDOW > now
    ensures AllAfter(history[k..], now - WINDOW) && AllAtMost(history[k..], now)
  {
    forall i | 0 <= i < |history| - k
      ensures now - WINDOW < history[k..][i] <= now
    {
      OrderedAt(history, k, k + i);
    }
  }

  lemma LatestInWindow(history: seq<int>, k: nat, now: int)
    requires Timeline(history, now) && k < |history| && history[k] + WINDOW > now
    ensures InWindow(history, now) >= |history| - k
  {
    LatestAreInside(history, k, now);
    InWindowAll(history[k..], now);
    InWindowAppend(history[..k], history[k..], now);
    assert history == history[..k] + history[k..];
  }

  /** The first of the last `limit` requests has left the window whenever there is room for another. */
  lemma RoomMeansOld(history: seq<int>, limit: nat, now: int)
    requires Timeline(history, now) && InWindow(history, now) < limit <= |history|
    ensures history[|history| - limit] + WINDOW <= now
  {
    var k := |history| - limit;
    if history[k] + WINDOW > now {
      LatestInWindow(history, k, now);
    }
  }

  lemma AcceptKeepsSpread(history: seq<int>, limit: nat, now: int)
    requires Timeline(history, now) && Spread(history, limit) && InWindow(history, now) < limit
    ensures Spread(history + [now], limit) && Timeline(history + [now], now)
  {
    assert (history + [now])[..|history|] == history;
    if limit <= |history| {
      RoomMeansOld(history, limit, now);
    }
  }

  lemma NextIsLater(history: seq<int>, arrivals: seq<int>)
    requires arrivals != [] && InOrder(arrivals) && AllAtMost(history, arrivals[0])
    ensures InOrder(arrivals[1..]) && (arrivals[1..] != [] ==> AllAtMost(history, arrivals[1..][0]))
  {
    OrderedTail(arrivals);
    if |arrivals| > 1 {
      OrderedAt(arrivals, 0, 1);
    }
  }

  lemma {:induction false} AcceptedIsSpread(history: seq<int>, limit: nat, arrivals: seq<int>)
    requires arrivals != [] ==> AllAtMost(history, arrivals[0])
    requires InOrder(history) && InOrder(arrivals) && Spread(history, limit) && (limit == 0 ==> history == [])
    ensures InOrder(Accepted(history, limit, arrivals)) && Spread(Accepted(history, limit, arrivals), limit)
    ensures limit == 0 ==> Accepted(history, limit, arrivals) == []
    decreases |arrivals|
  {
    if arrivals != [] {
      var t := arrivals[0];
      if InWindow(history, t) < limit {
        AcceptKeepsSpread(history, limit, t);
        NextIsLater(history + [t], arrivals);
        AcceptedIsSpread(history + [t], limit, arrivals[1..]);
      } else {
        NextIsLater(history, arrivals);
        AcceptedIsSpread(history, limit, arrivals[1..]);
      }
    }
  }

  /** For one key over a whole run under a monotone clock, every sixty-second window, ending at any moment, holds at
      most `limit` accepted requests. */
  lemma NeverMoreThanLimit(limit: nat, arrivals: seq<int>, t: int)
    requires InOrder(arrivals)
    ensures InWindow(Accepted([], limit, arrivals), t) <= limit
  {
    AcceptedIsSpread([], limit, arrivals);
    SpreadMeansLimited(Accepted([], limit, arrivals), limit, t);
  }

  // ---- runs of the limiter -----------------------------------------------------------------------

  datatype Request = Request(key: string, time: int)

  /** The times at which a key's requests arrive. */
  function TimesOf(requests: seq<Request>, key: string): seq<int> {
    if requests == [] then []
    else
      var last := requests[|requests| - 1];
      TimesOf(requests[..|requests| - 1], key) + if last.key == key then [last.time] else []
  }

  lemma TimesNext(requests: seq<Request>, r: Request, key: string)
    ensures TimesOf(requests + [r], key) ==
            if r.key == key then TimesOf(requests, key) + [r.time] else TimesOf(requests, key)
  {
    assert (requests + [r])[..|requests|] == requests;
  }

  predicate Arrive(requests: seq<Request>, start: int) {
    && (forall i | 0 <= i < |requests| :: start <= requests[i].time)
    && (forall i, j | 0 <= i < j < |requests| :: requests[i].time <= requests[j].time)
  }

  lemma {:induction false} AcceptedNext(history: seq<int>, limit: int, arrivals: seq<int>, t: int)
    ensures var before := Accepted(history, limit, arrivals);
            Accepted(history, limit, arrivals + [t]) == if InWindow(before, t) < limit then before + [t] else before
    decreases |arrivals|
  {
    if arrivals == [] {
      assert [t][1..] == [];
    } else {
      assert (arrivals + [t])[1..] == arrivals[1..] + [t];
      var next := if InWindow(history, arrivals[0]) < limit then history + [arrivals[0]] else history;
      AcceptedNext(next, limit, arrivals[1..], t);
    }
  }

  lemma LaterInOrder(times: seq<int>, before: int, t: int)
    requires InOrder(times) && AllAtMost(times, before) && before <= t
    ensures InOrder(times + [t]) && AllAtMost(times + [t], t)
  {
    assert (times + [t])[..|times|] == times;
  }

  lemma {:induction false} TimesInOrder(requests: seq<Request>, start: int, key: string)
    requires Arrive(requests, start)
    ensures InOrder(TimesOf(requests, key))
    ensures requests != [] ==> AllAtMost(TimesOf(requests, key), requests[|requests| - 1].time)
  {
    if requests != [] {
      var init, last := requests[..|requests| - 1], requests[|requests| - 1];
      TimesInOrder(init, start, key);
      assert requests == init + [last];
      TimesNext(init, last, key);
      if init != [] {
        LaterInOrder(TimesOf(init, key), init[|init| - 1].time, last.time);
      }
    }
  }

  /** What each key has been granted when `requests` have come in. */
  ghost predicate Granted(history: map<string, seq<int>>, requests: seq<Request>, limits: map<string, nat>) {
    forall key | key in limits :: Of(history, key) == Accepted([], limits[key], TimesOf(requests, key))
  }

  /** One more request of one key, seen from any key. */
  lemma GrantedNextAt(
    before: seq<int>, requests: seq<Request>, limit: nat, r: Request, key: string, after: seq<int>)
    requires before == Accepted([], limit, TimesOf(requests, key))
    requires after == if r.key == key && InWindow(before, r.time) < limit then before + [r.time] else before
    ensures after == Accepted([], limit, TimesOf(requests + [r], key))
  {
    TimesNext(requests, r, key);
    AcceptedNext([], limit, TimesOf(requests, key), r.time);
  }

  lemma GrantedNext(
    before: map<string, seq<int>>, requests: seq<Request>, limits: map<string, nat>, r: Request, allowed: bool,
    times: seq<int>)
    requires Granted(before, requests, limits) && r.key in limits
    requires allowed <==> InWindow(Of(before, r.key), r.time) < limits[r.key]
    requires times == if allowed then Of(before, r.key) + [r.time] else Of(before, r.key)
    ensures Granted(before[r.key := times], requests + [r], limits)
  {
    var after := before[r.key := times];
    forall key | key in limits
      ensures Of(after, key) == Accepted([], limits[key], TimesOf(requests + [r], key))
    {
      GrantedNextAt(Of(before, key), requests, limits[key], r, key, Of(after, key));
    }
  }

  /** The request finds room in its own key's window, after those served before it. */
  predicate HasRoom(served: seq<Request>, r: Request, limit: nat) {
    InWindow(Accepted([], limit, TimesOf(served, r.key)), r.time) < limit
  }

  /** The answers to the first n requests. */
  function Answers(requests: seq<Request>, limits: map<string, nat>, n: nat): seq<bool>
    requires n <= |requests| && forall i | 0 <= i < |requests| :: requests[i].key in limits
  {
    if n == 0 then []
    else Answers(requests, limits, n - 1) + [HasRoom(requests[..n - 1], requests[n - 1], limits[requests[n - 1].key])]
  }

  ghost predicate Limited(history: map<string, seq<int>>, limits: map<string, nat>) {
    forall key, t | key in limits :: InWindow(Of(history, key), t) <= limits[key]
  }

  lemma GrantedIsLimited(history: map<string, seq<int>>, requests: seq<Request>, start: int, limits: map<string, nat>)
    requires Granted(history, requests, limits) && Arrive(requests, start)
    ensures Limited(history, limits)
  {
    forall key, t | key in limits
      ensures InWindow(Of(history, key), t) <= limits[key]
    {
      TimesInOrder(requests, start, key);
      NeverMoreThanLimit(limits[key], TimesOf(requests, key), t);
    }
  }

  lemma OneMore(requests: seq<Request>, i: nat)
    requires i < |requests|
    ensures requests[..i + 1] == requests[..i] + [requests[i]]
  {
  }

  method ServeOne(limiter: Limiter, ghost served: seq<Request>, r: Request, limits: map<string, nat>)
    returns (allowed: bool)
    requires limiter.Valid() && limiter.clock <= r.time && r.key in limits && Granted(limiter.history, served, limits)
    modifies limiter
    ensures limiter.Valid() && limiter.clock == r.time && Granted(limiter.history, served + [r], limits)
    ensures allowed == HasRoom(served, r, limits[r.key])
  {
    ghost var before := limiter.history;
    allowed := limiter.HitLocal(r.key, limits[r.key], r.time);
    GrantedNext(before, served, limits, r, allowed, limiter.history[r.key]);
  }

  /** Serve a whole stream of requests of many keys, each under its own limit: every key is granted what it would be
      granted alone, and no window of any key ever holds more than its limit. */
  method Serve(start: int, requests: seq<Request>, limits: map<string, nat>)
    returns (limiter: Limiter, allowed: seq<bool>)
    requires Arrive(requests, start) && forall i | 0 <= i < |requests| :: requests[i].key in limits
    ensures fresh(limiter) && limiter.Valid()
    ensures allowed == Answers(requests, limits, |requests|)
    ensures Granted(limiter.history, requests, limits)
    ensures Limited(limiter.history, limits)
  {
    limiter := new Limiter(start);
    allowed := [];
    for i := 0 to |requests|
      invariant fresh(limiter) && limiter.Valid() && allowed == Answers(requests, limits, i)
      invariant limiter.clock == if i == 0 then start else requests[i - 1].time
      invariant Granted(limiter.history, requests[..i], limits)
    {
      var granted := ServeOne(limiter, requests[..i], requests[i], limits);
      OneMore(requests, i);
      allowed := allowed + [granted];
    }
    assert requests[..|requests|] == requests;
    GrantedIsLimited(limiter.history, requests, start, limits);
  }

  // ---- every answer, by counting -----------------------------------------------------------------

  /** The window holds the accepted times of its last sixty seconds. */
  lemma {:induction false} WindowIsSixtySeconds(history: seq<int>, now: int)
    ensures InWindow(history, now) == |set i | 0 <= i < |history| && now - 60 < history[i] <= now|
  {
    if history != [] {
      var n := |history| - 1;
      WindowIsSixtySeconds(history[..n], now);
      var before := set i | 0 <= i < n && now - 60 < history[..n][i] <= now;
      var after := set i | 0 <= i < |history| && now - 60 < history[i] <= now;
      assert forall i | 0 <= i < n :: history[..n][i] == history[i];
      assert after == if now - 60 < history[n] <= now then before + {n} else before;
    }
  }

  /** The requests before the n-th that were accepted for the key in the sixty seconds up to t. */
  function Granting(requests: seq<Request>, answers: seq<bool>, n: nat, key: string, t: int): set<int> {
    set j | 0 <= j < n && j < |requests| && j < |answers|
            && answers[j] && requests[j].key == key && t - 60 < requests[j].time <= t
  }

  /** The j-th request was accepted for the key and lies in the window up to t. */
  predicate Counts(requests: seq<Request>, answers: seq<bool>, j: int, key: string, t: int) {
    && 0 <= j < |requests| && j < |answers|
    && answers[j] && requests[j].key == key && t - 60 < requests[j].time <= t
  }

  lemma {:induction false} GrantingCounted(
    held: seq<int>, requests: seq<Request>, answers: seq<bool>, n: nat, key: string, t: int)
    requires n < |held| && held[0] == 0
    requires forall j {:trigger Counts(requests, answers, j, key, t)} | 0 <= j < n ::
      held[j + 1] == held[j] + if Counts(requests, answers, j, key, t) then 1 else 0
    ensures held[n] == |Granting(requests, answers, n, key, t)|
  {
    if n > 0 {
      GrantingCounted(held, requests, answers, n - 1, key, t);
      var before, after := Granting(requests, answers, n - 1, key, t), Granting(requests, answers, n, key, t);
      assert after == if Counts(requests, answers, n - 1, key, t) then before + {n - 1} else before;
    }
  }

  predicate Known(requests: seq<Request>, limits: map<string, nat>) {
    forall i | 0 <= i < |requests| :: requests[i].key in limits
  }

  lemma {:induction false} AnswersInOrder(requests: seq<Request>, limits: map<string, nat>, n: nat, j: nat)
    requires j < n <= |requests| && Known(requests, limits)
    ensures |Answers(requests, limits, n)| == n
    ensures Answers(requests, limits, n)[j] == HasRoom(requests[..j], requests[j], limits[requests[j].key])
    decreases n
  {
    if j < n - 1 {
      AnswersInOrder(requests, limits, n - 1, j);
    } else if n > 1 {
      AnswersInOrder(requests, limits, n - 1, 0);
    }
  }

  /** A key's window grows by the requests that are accepted for it and lie in it. */
  lemma WindowNext(served: seq<Request>, r: Request, limit: nat, key: string, t: int)
    ensures var before := Accepted([], limit, TimesOf(served, key));
            InWindow(Accepted([], limit, TimesOf(served + [r], key)), t) == InWindow(before, t)
              + if r.key == key && HasRoom(served, r, limit) && t - 60 < r.time <= t then 1 else 0
  {
    TimesNext(served, r, key);
    var before := Accepted([], limit, TimesOf(served, key));
    AcceptedNext([], limit, TimesOf(served, key), r.time);
    assert (before + [r.time])[..|before|] == before;
  }

  function Held(requests: seq<Request>, limit: nat, n: nat, key: string, t: int): int
    requires n <= |requests|
  {
    InWindow(Accepted([], limit, TimesOf(requests[..n], key)), t)
  }

  lemma HeldNext(requests: seq<Request>, limits: map<string, nat>, j: nat, key: string, t: int)
    requires j < |requests| && key in limits && Known(requests, limits)
    ensures var answers := Answers(requests, limits, |requests|);
            Held(requests, limits[key], j + 1, key, t)
            == Held(requests, limits[key], j, key, t) + if Counts(requests, answers, j, key, t) then 1 else 0
  {
    AnswersInOrder(requests, limits, |requests|, j);
    OneMore(requests, j);
    WindowNext(requests[..j], requests[j], limits[key], key, t);
  }

  /** A request is accepted exactly when fewer than the limit of its key were accepted for that key in the sixty seconds
      up to it. */
  lemma AnsweredByCount(requests: seq<Request>, limits: map<string, nat>, k: nat)
    requires k < |requests| && Known(requests, limits)
    ensures var answers, r := Answers(requests, limits, |requests|), requests[k];
            |answers| == |requests| && (answers[k] <==> |Granting(requests, answers, k, r.key, r.time)| < limits[r.key])
  {
    var answers, r := Answers(requests, limits, |requests|), requests[k];
    AnswersInOrder(requests, limits, |requests|, k);
    var held := seq(k + 1, n requires 0 <= n <= k => Held(requests, limits[r.key], n, r.key, r.time));
    forall j | 0 <= j < k
      ensures held[j + 1] == held[j] + if Counts(requests, answers, j, r.key, r.time) then 1 else 0
    {
      HeldNext(requests, limits, j, r.key, r.time);
    }
    assert requests[..0] == [];
    GrantingCounted(held, requests, answers, k, r.key, r.time);
  }
}
