/** The sliding-window rate limiter: a map of deques that is pruned on every call, against the
    specification that remembers every accepted call.

    A call reads its clock before it takes the lock, so calls may be served with clocks out of order.
    A run is the list of calls in the order in which they were served.
  */
module RateLimit {
  import opened Sets

  const MAX_TRACKED_KEYS: nat := 1024

  /** Instants and durations in nanoseconds. */
  type Instant = int

  datatype Verdict = Accepted | RetryAfter(delay: nat)

  datatype Call = Call(key: string, at: Instant)

  // ---------------------------------------------------------------- the full history

  /** Instant::duration_since, which saturates at zero. */
  function Since(now: Instant, earlier: Instant): nat {
    if now <= earlier then 0 else now - earlier
  }

  /** The accepted calls of a key that are younger than the window. */
  function Recent(history: seq<Call>, key: string, now: Instant, window: nat): (r: seq<Instant>)
    ensures forall k: nat :: k < |r| ==> Since(now, r[k]) < window
  {
    if history == [] then []
    else
      var last := history[|history| - 1];
      var rest := Recent(history[..|history| - 1], key, now, window);
      if last.key == key && Since(now, last.at) < window then rest + [last.at] else rest
  }

  /** The keys with a call younger than the window. */
  function Tracked(history: seq<Call>, now: Instant, window: nat): set<string> {
    set c | c in history && Since(now, c.at) < window :: c.key
  }

  /** The decision taken on the whole history. */
  function Decide(history: seq<Call>, key: string, now: Instant, limit: nat, window: nat): Verdict {
    var recent := Recent(history, key, now, window);
    if key !in Tracked(history, now, window) && |Tracked(history, now, window)| >= MAX_TRACKED_KEYS then RetryAfter(window)
    else if |recent| < limit then Accepted
    else if recent == [] then RetryAfter(window)
    else RetryAfter(window - Since(now, recent[0]))
  }

  // ---------------------------------------------------------------- one call, as the code serves it

  /** What popping expired fronts leaves. */
  function Pruned(attempts: seq<Instant>, now: Instant, window: nat): (r: seq<Instant>)
    ensures |r| <= |attempts|
  {
    if attempts == [] || Since(now, attempts[0]) < window then attempts else Pruned(attempts[1..], now, window)
  }

  /** The deque of a key, empty when the map has none. */
  function Deque(state: map<string, seq<Instant>>, key: string): seq<Instant> {
    if key in state then state[key] else []
  }

  /** The pruned deques that are not empty. */
  function Kept(state: map<string, seq<Instant>>, now: Instant, window: nat): map<string, seq<Instant>> {
    map k | k in state && Pruned(state[k], now, window) != [] :: Pruned(state[k], now, window)
  }

  /** Duration::saturating_sub. */
  function Minus(a: nat, b: nat): nat {
    if a <= b then 0 else a - b
  }

  /** The map of deques, and the calls accepted so far. */
  datatype Limiter = Limiter(state: map<string, seq<Instant>>, history: seq<Call>)

  function Serve(l: Limiter, c: Call, limit: nat, window: nat): (Limiter, Verdict) {
    var kept := Kept(l.state, c.at, window);
    var attempts := Deque(kept, c.key);
    if c.key !in kept && |kept| >= MAX_TRACKED_KEYS then (l.(state := kept), RetryAfter(window))
    else if |attempts| < limit then (Limiter(kept[c.key := attempts + [c.at]], l.history + [c]), Accepted)
    else
      (l.(state := kept[c.key := attempts]),
       RetryAfter(if |attempts| > 0 then Minus(window, Since(c.at, attempts[0])) else window))
  }

  /** A whole run, in the order in which its calls were served. */
  function ServeAll(calls: seq<Call>, limit: nat, window: nat): Limiter
    decreases |calls|
  {
    if calls == [] then Limiter(map[], [])
    else Serve(ServeAll(calls[..|calls| - 1], limit, window), calls[|calls| - 1], limit, window).0
  }

  lemma LastServed(calls: seq<Call>, c: Call, limit: nat, window: nat)
    ensures ServeAll(calls + [c], limit, window) == Serve(ServeAll(calls, limit, window), c, limit, window).0
  {
    assert (calls + [c])[..|calls|] == calls;
  }

  class RateLimiter {
    var state: map<string, seq<Instant>>
    const limit: nat
    const window: nat
    ghost var history: seq<Call>
    ghost var calls: seq<Call>

    constructor (limit: nat, window: nat)
      ensures this.limit == limit && this.window == window && calls == [] && Valid()
    {
      this.limit, this.window := limit, window;
      state, history, calls := map[], [], [];
    }

    /** The object is where its run has led. */
    ghost predicate Valid()
      reads this
    {
      Limiter(state, history) == ServeAll(calls, limit, window)
    }

    /** Pops the expired attempts off the front of every deque. */
    method PruneAll(now: Instant)
      modifies this`state
      ensures state.Keys == old(state.Keys)
      ensures forall k :: k in state ==> state[k] == Pruned(old(state[k]), now, window)
    {
      var left := state.Keys;
      while left != {}
        invariant left <= state.Keys == old(state.Keys)
        invariant forall k :: k in left ==> state[k] == old(state[k])
        invariant forall k :: k in state && k !in left ==> state[k] == Pruned(old(state[k]), now, window)
        decreases |left|
      {
        var key :| key in left;
        var attempts := state[key];
        while |attempts| > 0 && Since(now, attempts[0]) >= window
          invariant Pruned(attempts, now, window) == Pruned(state[key], now, window)
          decreases |attempts|
        {
          attempts := attempts[1..];
        }
        state := state[key := attempts];
        left := left - {key};
      }
    }

    /** Prunes every deque and forgets the keys whose deque is empty. */
    method Retain(now: Instant)
      modifies this`state
      ensures state == Kept(old(state), now, window)
    {
      PruneAll(now);
      state := map k | k in state && state[k] != [] :: state[k];
    }

    /** Serves one call, whatever its clock. */
    method Check(key: string, now: Instant) returns (v: Verdict)
      requires Valid()
      modifies this
      ensures Valid() && calls == old(calls) + [Call(key, now)]
      ensures v == Serve(ServeAll(old(calls), limit, window), Call(key, now), limit, window).1
    {
      hide Kept, Pruned, ServeAll;
      LastServed(calls, Call(key, now), limit, window);
      calls := calls + [Call(key, now)];
      Retain(now);
      if key !in state && |state| >= MAX_TRACKED_KEYS {
        return RetryAfter(window);
      }
      var attempts := if key in state then state[key] else [];
      state := state[key := attempts];
      if |attempts| >= limit {
        v := RetryAfter(if |attempts| > 0 then Minus(window, Since(now, attempts[0])) else window);
        return;
      }
      state := state[key := attempts + [now]];
      history := history + [Call(key, now)];
      return Accepted;
    }
  }

  // ---------------------------------------------------------------- every run is bounded

  lemma KeptIsSmaller(state: map<string, seq<Instant>>, now: Instant, window: nat)
    ensures |Kept(state, now, window)| <= |state|
  {
    SubsetSize(Kept(state, now, window).Keys, state.Keys);
  }

  lemma OneMoreKey(m: map<string, seq<Instant>>, key: string, attempts: seq<Instant>)
    ensures |m[key := attempts]| == |m| + if key in m then 0 else 1
  {
    assert m[key := attempts].Keys == m.Keys + {key};
  }

  /** Under any clocks the limiter tracks at most 1024 keys, each with at most `limit` attempts. */
  lemma {:induction false} EveryRunIsBounded(calls: seq<Call>, limit: nat, window: nat)
    ensures var state := ServeAll(calls, limit, window).state;
            |state| <= MAX_TRACKED_KEYS && forall k :: k in state ==> |state[k]| <= limit
    decreases |calls|
  {
    if calls != [] {
      var rest, c := calls[..|calls| - 1], calls[|calls| - 1];
      EveryRunIsBounded(rest, limit, window);
      var l := ServeAll(rest, limit, window);
      KeptIsSmaller(l.state, c.at, window);
      var kept := Kept(l.state, c.at, window);
      var attempts := Deque(kept, c.key);
      KeptDequesAreShorter(l.state, c.at, window, limit);
      hide Kept, Pruned;
      OneMoreKey(kept, c.key, attempts);
      OneMoreKey(kept, c.key, attempts + [c.at]);
    }
  }

  lemma KeptDequesAreShorter(state: map<string, seq<Instant>>, now: Instant, window: nat, limit: nat)
    requires forall k :: k in state ==> |state[k]| <= limit
    ensures var kept := Kept(state, now, window); forall k :: k in kept ==> |kept[k]| <= limit
  {
  }

  // ---------------------------------------------------------------- what a run remembers

  /** Every served clock lags the greatest one before it by at most d. */
  predicate Lags(calls: seq<Call>, d: nat) {
    forall i: nat, j: nat :: i < j < |calls| ==> calls[i].at <= calls[j].at + d
  }

  predicate NotAfter(calls: seq<Call>, bound: Instant) {
    forall i: nat :: i < |calls| ==> calls[i].at <= bound
  }

  /** The times of the accepted calls of a key, in the order in which they were served. */
  function Times(history: seq<Call>, key: string): seq<Instant> {
    if history == [] then []
    else
      var last, rest := history[|history| - 1], Times(history[..|history| - 1], key);
      if last.key == key then rest + [last.at] else rest
  }

  predicate AllNotAfter(times: seq<Instant>, bound: Instant) {
    forall i: nat :: i < |times| ==> times[i] <= bound
  }

  predicate TimesLag(times: seq<Instant>, d: nat) {
    forall i: nat, j: nat :: i < j < |times| ==> times[i] <= times[j] + d
  }

  lemma TimesAppend(history: seq<Call>, c: Call, key: string)
    ensures Times(history + [c], key) == Times(history, key) + if c.key == key then [c.at] else []
  {
    assert (history + [c])[..|history|] == history;
  }

  /** A deque holds the latest accepted times, and what it has dropped was expired at some clock that
      was served, so at the bound of all clocks. */
  predicate Remembers(deque: seq<Instant>, times: seq<Instant>, bound: Instant, window: nat) {
    && |deque| <= |times| && deque == times[|times| - |deque|..]
    && forall i: nat :: i < |times| - |deque| ==> times[i] + window <= bound
  }

  lemma {:induction false} PrunedRemembers(deque: seq<Instant>, times: seq<Instant>, now: Instant, bound: Instant, window: nat)
    requires Remembers(deque, times, bound, window) && AllNotAfter(times, bound) && now <= bound
    ensures Remembers(Pruned(deque, now, window), times, bound, window)
    decreases |deque|
  {
    if deque != [] && Since(now, deque[0]) >= window {
      var p := |times| - |deque|;
      assert deque[0] == times[p];
      assert deque[1..] == times[p + 1..];
      PrunedRemembers(deque[1..], times, now, bound, window);
    }
  }

  lemma RememberOneMore(deque: seq<Instant>, times: seq<Instant>, at: Instant, bound: Instant, window: nat)
    requires Remembers(deque, times, bound, window)
    ensures Remembers(deque + [at], times + [at], bound, window)
  {
    var p := |times| - |deque|;
    assert (times + [at])[p..] == times[p..] + [at];
  }

  lemma KeptDeque(state: map<string, seq<Instant>>, key: string, now: Instant, window: nat)
    ensures Deque(Kept(state, now, window), key) == Pruned(Deque(state, key), now, window)
  {
  }

  /** What serving a call does to the deque of a key and to the history. */
  lemma ServedDeque(l: Limiter, c: Call, key: string, limit: nat, window: nat)
    ensures var (u, v) := Serve(l, c, limit, window);
            var deque := Pruned(Deque(l.state, key), c.at, window);
            && u.history == (if v.Accepted? then l.history + [c] else l.history)
            && Deque(u.state, key) == if v.Accepted? && c.key == key then deque + [c.at] else deque
  {
    KeptDeque(l.state, key, c.at, window);
    hide Kept, Pruned;
  }

  /** In every run, for every key. */
  lemma {:induction false} RunRemembers(calls: seq<Call>, key: string, bound: Instant, limit: nat, window: nat)
    requires NotAfter(calls, bound)
    ensures var l := ServeAll(calls, limit, window);
            Remembers(Deque(l.state, key), Times(l.history, key), bound, window) && AllNotAfter(Times(l.history, key), bound)
    decreases |calls|
  {
    if calls != [] {
      var rest, c := calls[..|calls| - 1], calls[|calls| - 1];
      assert calls[|calls| - 1].at <= bound;
      RunRemembers(rest, key, bound, limit, window);
      var l := ServeAll(rest, limit, window);
      hide Remembers, Pruned, Times, Serve, AllNotAfter;
      ServedDeque(l, c, key, limit, window);
      PrunedRemembers(Deque(l.state, key), Times(l.history, key), c.at, bound, window);
      RememberOneMore(Pruned(Deque(l.state, key), c.at, window), Times(l.history, key), c.at, bound, window);
      TimesAppend(l.history, c, key);
      AllOneMore(Times(l.history, key), c.at, bound);
    }
  }

  lemma AllOneMore(times: seq<Instant>, at: Instant, bound: Instant)
    requires AllNotAfter(times, bound) && at <= bound
    ensures AllNotAfter(times + [at], bound)
  {
  }

  lemma LagsOneMore(times: seq<Instant>, at: Instant, d: nat)
    requires TimesLag(times, d) && AllNotAfter(times, at + d)
    ensures TimesLag(times + [at], d)
  {
  }

  lemma OneMoreLags(calls: seq<Call>, c: Call, key: string, d: nat, limit: nat, window: nat)
    requires TimesLag(Times(ServeAll(calls, limit, window).history, key), d) && NotAfter(calls, c.at + d)
    ensures TimesLag(Times(ServeAll(calls + [c], limit, window).history, key), d)
  {
    hide Remembers, Times, Serve, Deque, NotAfter, AllNotAfter, TimesLag, ServeAll, Pruned;
    var l := ServeAll(calls, limit, window);
    RunRemembers(calls, key, c.at + d, limit, window);
    LastServed(calls, c, limit, window);
    ServedDeque(l, c, key, limit, window);
    TimesAppend(l.history, c, key);
    LagsOneMore(Times(l.history, key), c.at, d);
    assert Times(l.history, key) + [] == Times(l.history, key);
  }

  lemma NoTimesLag(key: string, d: nat, limit: nat, window: nat)
    ensures TimesLag(Times(ServeAll([], limit, window).history, key), d)
  {
  }

  /** The accepted times of a key lag no more than the calls do. */
  lemma {:induction false} AcceptedLag(calls: seq<Call>, key: string, d: nat, limit: nat, window: nat)
    requires Lags(calls, d)
    ensures TimesLag(Times(ServeAll(calls, limit, window).history, key), d)
    decreases |calls|
  {
    hide Times, Lags, NotAfter, TimesLag, ServeAll;
    if calls == [] {
      NoTimesLag(key, d, limit, window);
    } else {
      var rest, c := calls[..|calls| - 1], calls[|calls| - 1];
      assert calls == rest + [c];
      LagsBefore(rest, c, d);
      AcceptedLag(rest, key, d, limit, window);
      OneMoreLags(rest, c, key, d, limit, window);
    }
  }

  // ---------------------------------------------------------------- windows

  /** How many accepted calls of a key lie in the window that ends at x. */
  function InWindow(history: seq<Call>, key: string, x: Instant, window: nat): nat {
    if history == [] then 0
    else
      var last := history[|history| - 1];
      InWindow(history[..|history| - 1], key, x, window) + if last.key == key && x - window < last.at <= x then 1 else 0
  }

  function CountIn(times: seq<Instant>, x: Instant, length: nat): (n: nat)
    ensures n <= |times|
  {
    if times == [] then 0
    else CountIn(times[..|times| - 1], x, length) + if x - length < times[|times| - 1] <= x then 1 else 0
  }

  lemma {:induction false} InWindowCounts(history: seq<Call>, key: string, x: Instant, length: nat)
    ensures InWindow(history, key, x, length) == CountIn(Times(history, key), x, length)
    decreases |history|
  {
    hide InWindow, Times, CountIn;
    if history == [] {
      NothingInWindow(key, x, length);
      NothingCounted(key, x, length);
    } else {
      var last, rest := history[|history| - 1], history[..|history| - 1];
      assert history == rest + [last];
      InWindowCounts(rest, key, x, length);
      InWindowAppend(rest, last, key, x, length);
      TimesAppend(rest, last, key);
      CountAppend(Times(rest, key), last.at, x, length);
      assert Times(rest, key) + [] == Times(rest, key);
    }
  }

  lemma NothingInWindow(key: string, x: Instant, length: nat)
    ensures InWindow([], key, x, length) == 0
  {
  }

  lemma NothingCounted(key: string, x: Instant, length: nat)
    ensures Times([], key) == [] && CountIn([], x, length) == 0
  {
  }

  lemma InWindowAppend(history: seq<Call>, c: Call, key: string, x: Instant, length: nat)
    ensures InWindow(history + [c], key, x, length)
            == InWindow(history, key, x, length) + if c.key == key && x - length < c.at <= x then 1 else 0
  {
    assert (history + [c])[..|history|] == history;
  }

  lemma CountAppend(times: seq<Instant>, at: Instant, x: Instant, length: nat)
    ensures CountIn(times + [at], x, length) == CountIn(times, x, length) + if x - length < at <= x then 1 else 0
  {
    assert (times + [at])[..|times|] == times;
  }

  lemma {:induction false} OnlyTheRest(times: seq<Instant>, p: nat, x: Instant, length: nat)
    requires p <= |times| && forall i: nat :: i < p ==> times[i] <= x - length
    ensures CountIn(times, x, length) <= |times| - p
    decreases |times|
  {
    if times != [] {
      if p == |times| {
        OnlyTheRest(times[..|times| - 1], p - 1, x, length);
      } else {
        OnlyTheRest(times[..|times| - 1], p, x, length);
      }
    }
  }

  /** What is still in the window before a call is still in the deque when the call is decided. */
  lemma WindowIsRemembered(calls: seq<Call>, c: Call, x: Instant, d: nat, limit: nat, window: nat)
    requires NotAfter(calls, c.at + d) && d <= window && c.at <= x
    ensures var l := ServeAll(calls, limit, window);
            InWindow(l.history, c.key, x, window - d) <= |Deque(Kept(l.state, c.at, window), c.key)|
  {
    hide ServeAll, Kept, Pruned, Times, CountIn, InWindow, Deque;
    var l := ServeAll(calls, limit, window);
    var times, deque := Times(l.history, c.key), Deque(Kept(l.state, c.at, window), c.key);
    RunRemembers(calls, c.key, c.at + d, limit, window);
    KeptDeque(l.state, c.key, c.at, window);
    PrunedRemembers(Deque(l.state, c.key), times, c.at, c.at + d, window);
    InWindowCounts(l.history, c.key, x, window - d);
    OnlyTheRest(times, |times| - |deque|, x, window - d);
  }

  lemma AcceptedHadRoom(l: Limiter, c: Call, limit: nat, window: nat)
    ensures Serve(l, c, limit, window).1.Accepted? ==> |Deque(Kept(l.state, c.at, window), c.key)| < limit
  {
    hide Kept;
  }

  /** If clocks lag by at most d, then no window that is shorter than the configured one by d holds
      more than the limit of accepted calls of a key, wherever it ends. */
  lemma {:induction false} NoWindowOverflows(calls: seq<Call>, key: string, x: Instant, d: nat, limit: nat, window: nat)
    requires Lags(calls, d) && d <= window
    ensures InWindow(ServeAll(calls, limit, window).history, key, x, window - d) <= limit
    decreases |calls|
  {
    if calls != [] {
      var rest, c := calls[..|calls| - 1], calls[|calls| - 1];
      NoWindowOverflows(rest, key, x, d, limit, window);
      var l := ServeAll(rest, limit, window);
      assert (l.history + [c])[..|l.history|] == l.history;
      AcceptedHadRoom(l, c, limit, window);
      ServedDeque(l, c, key, limit, window);
      if c.key == key && c.at <= x {
        WindowIsRemembered(rest, c, x, d, limit, window);
      }
      hide Serve, Kept, Deque, ServeAll;
    }
  }

  /** n calls of a key at time zero. */
  function Burst(key: string, n: nat): (calls: seq<Call>)
    ensures |calls| == n && forall i: nat :: i < n ==> calls[i] == Call(key, 0)
  {
    if n == 0 then [] else Burst(key, n - 1) + [Call(key, 0)]
  }

  function Zeros(n: nat): (times: seq<Instant>)
    ensures |times| == n && forall i: nat :: i < n ==> times[i] == 0
  {
    if n == 0 then [] else Zeros(n - 1) + [0]
  }

  /** A call whose key is not tracked any more, with room for one more key. */
  lemma ServedFresh(l: Limiter, c: Call, kept: map<string, seq<Instant>>, limit: nat, window: nat)
    requires kept == Kept(l.state, c.at, window) && c.key !in kept && |kept| < MAX_TRACKED_KEYS && limit > 0
    ensures Serve(l, c, limit, window) == (Limiter(kept[c.key := [c.at]], l.history + [c]), Accepted)
  {
    hide Kept;
    assert Deque(kept, c.key) + [c.at] == [c.at];
  }

  lemma YoungZeros(n: nat, window: nat)
    requires window > 0
    ensures Pruned(Zeros(n), 0, window) == Zeros(n)
  {
  }

  function AfterBurst(key: string, n: nat): map<string, seq<Instant>> {
    if n == 0 then map[] else map[key := Zeros(n)]
  }

  lemma DequeAfterBurst(key: string, n: nat)
    ensures AfterBurst(key, n).Keys <= {key} && Deque(AfterBurst(key, n), key) == Zeros(n)
    ensures map[key := Zeros(n) + [0]] == AfterBurst(key, n + 1)
  {
  }

  lemma {:induction false} BurstIsServed(key: string, n: nat, limit: nat, window: nat)
    requires n <= limit && window > 0
    ensures ServeAll(Burst(key, n), limit, window) == Limiter(AfterBurst(key, n), Burst(key, n))
    decreases n
  {
    hide ServeAll, Serve, Pruned, Zeros, AfterBurst, Deque;
    if n == 0 {
      NothingServed(limit, window);
      NoBurst(key);
    } else {
      BurstIsServed(key, n - 1, limit, window);
      LastServed(Burst(key, n - 1), Call(key, 0), limit, window);
      YoungZeros(n - 1, window);
      DequeAfterBurst(key, n - 1);
      ServedHere(AfterBurst(key, n - 1), Burst(key, n - 1), Call(key, 0), Zeros(n - 1), limit, window);
    }
  }

  lemma NoBurst(key: string)
    ensures AfterBurst(key, 0) == map[] && Burst(key, 0) == []
  {
  }

  /** A full burst of one key at time zero, a call of another key when the burst expires, and a call
      of the first key that is served after it with an earlier clock. */
  function Straggler(limit: nat, window: nat, now: Instant): seq<Call> {
    Burst("a", limit) + [Call("b", window)] + [Call("a", now)]
  }

  lemma {:induction false} ExpiredZeros(n: nat, window: nat)
    ensures Pruned(Zeros(n), window, window) == []
  {
    if n > 0 {
      assert Zeros(n)[1..] == Zeros(n - 1);
      ExpiredZeros(n - 1, window);
    }
  }

  lemma AfterTheOtherKey(limit: nat, window: nat)
    requires limit >= 1 && window >= 1
    ensures ServeAll(Burst("a", limit) + [Call("b", window)], limit, window)
            == Limiter(map["b" := [window]], Burst("a", limit) + [Call("b", window)])
  {
    hide ServeAll, Serve, Burst, Zeros;
    BurstIsServed("a", limit, limit, window);
    LastServed(Burst("a", limit), Call("b", window), limit, window);
    ExpiredZeros(limit, window);
    assert Kept(map["a" := Zeros(limit)], window, window) == map[];
    ServedFresh(ServeAll(Burst("a", limit), limit, window), Call("b", window), map[], limit, window);
  }

  /** The other key's call has made the limiter forget the burst, so the straggler is accepted. */
  lemma StragglerIsAccepted(limit: nat, window: nat, now: Instant)
    requires limit >= 1 && window >= 1 && now < window
    ensures ServeAll(Straggler(limit, window, now), limit, window).history == Straggler(limit, window, now)
    ensures var before := ServeAll(Burst("a", limit) + [Call("b", window)], limit, window);
            && before.history == Burst("a", limit) + [Call("b", window)]
            && Serve(before, Call("a", now), limit, window).1.Accepted?
  {
    hide ServeAll, Serve, Burst;
    AfterTheOtherKey(limit, window);
    LastServed(Burst("a", limit) + [Call("b", window)], Call("a", now), limit, window);
    var l := ServeAll(Burst("a", limit) + [Call("b", window)], limit, window);
    assert Kept(l.state, now, window) == map["b" := [window]];
    ServedFresh(l, Call("a", now), map["b" := [window]], limit, window);
  }

  lemma StragglerLags(limit: nat, window: nat, now: Instant, d: nat)
    requires window <= now + d && 0 <= now + d
    ensures Lags(Straggler(limit, window, now), d)
  {
  }

  lemma {:induction false} BurstInWindow(key: string, n: nat, x: Instant, length: nat)
    requires x - length < 0 <= x
    ensures InWindow(Burst(key, n), key, x, length) == n
    decreases n
  {
    hide InWindow, Burst;
    if n == 0 {
      NoBurst(key);
      NothingInWindow(key, x, length);
    } else {
      BurstInWindow(key, n - 1, x, length);
      BurstAppend(key, n - 1);
      InWindowAppend(Burst(key, n - 1), Call(key, 0), key, x, length);
    }
  }

  lemma BurstAppend(key: string, n: nat)
    ensures Burst(key, n + 1) == Burst(key, n) + [Call(key, 0)]
  {
  }

  /** No longer window is safe: for every limit, window and lag there is a run whose clocks lag by no
      more, in which a window longer by one holds more than the limit. */
  lemma LongerWindowsOverflow(limit: nat, window: nat, d: nat)
    requires limit >= 1 && 1 <= d <= window
    ensures var calls := Straggler(limit, window, window - d);
            && Lags(calls, d)
            && InWindow(ServeAll(calls, limit, window).history, "a", window - d, window - d + 1) == limit + 1
  {
    hide ServeAll, InWindow, Lags;
    var now := window - d;
    StragglerIsAccepted(limit, window, now);
    StragglerLags(limit, window, now, d);
    BurstInWindow("a", limit, now, now + 1);
    InWindowAppend(Burst("a", limit), Call("b", window), "a", now, now + 1);
    InWindowAppend(Burst("a", limit) + [Call("b", window)], Call("a", now), "a", now, now + 1);
  }

  /** Four calls of one key, the last served with the clock 19 after one with the clock 21: all are
      accepted under a limit of two, and the window of length 10 that ends at 19 holds three of them. */
  lemma OutOfOrderOverflow()
    ensures var calls := [Call("a", 10), Call("a", 11), Call("a", 21), Call("a", 19)];
            && ServeAll(calls, 2, 10).history == calls && Lags(calls, 2)
            && InWindow(calls, "a", 19, 10) == 3
  {
    hide ServeAll, InWindow, Serve, Pruned;
    var c1, c2, c3, c4 := Call("a", 10), Call("a", 11), Call("a", 21), Call("a", 19);
    AllFourServed(c1, c2, c3, c4);
    assert [] + [c1] == [c1] && [c1] + [c2] == [c1, c2] && [c1, c2] + [c3] == [c1, c2, c3] && [c1, c2, c3] + [c4] == [c1, c2, c3, c4];
    NothingInWindow("a", 19, 10);
    InWindowAppend([], c1, "a", 19, 10);
    InWindowAppend([c1], c2, "a", 19, 10);
    InWindowAppend([c1, c2], c3, "a", 19, 10);
    InWindowAppend([c1, c2, c3], c4, "a", 19, 10);
  }

  /** One call of the only key on what it has left, after a run whose state is known. */
  lemma ServedNext(calls: seq<Call>, c: Call, deque: seq<Instant>, left: seq<Instant>, limit: nat, window: nat)
    requires ServeAll(calls, limit, window) == Limiter(map[c.key := deque], calls)
    requires left == Pruned(deque, c.at, window) && |left| < limit
    ensures ServeAll(calls + [c], limit, window) == Limiter(map[c.key := left + [c.at]], calls + [c])
  {
    hide ServeAll, Serve, Pruned;
    LastServed(calls, c, limit, window);
    ServedHere(map[c.key := deque], calls, c, left, limit, window);
  }

  lemma AllFourServed(c1: Call, c2: Call, c3: Call, c4: Call)
    requires c1 == Call("a", 10) && c2 == Call("a", 11) && c3 == Call("a", 21) && c4 == Call("a", 19)
    ensures ServeAll([c1, c2, c3, c4], 2, 10).history == [c1, c2, c3, c4]
  {
    hide ServeAll, Serve, Pruned;
    assert [] + [c1] == [c1] && [c1] + [c2] == [c1, c2] && [c1, c2] + [c3] == [c1, c2, c3] && [c1, c2, c3] + [c4] == [c1, c2, c3, c4];
    assert [] + [10] == [10] && [10] + [11] == [10, 11] && [] + [21] == [21];
    PruneSteps();
    NothingServed(2, 10);
    ServedHere(map[], [], c1, [], 2, 10);
    LastServed([], c1, 2, 10);
    ServedNext([c1], c2, [10], [10], 2, 10);
    ServedNext([c1, c2], c3, [10, 11], [], 2, 10);
    ServedNext([c1, c2, c3], c4, [21], [21], 2, 10);
  }

  lemma PruneSteps()
    ensures Pruned([], 10, 10) == [] && Pruned([10], 11, 10) == [10] && Pruned([10, 11], 21, 10) == [] && Pruned([21], 19, 10) == [21]
  {
    assert [10, 11][1..] == [11] && [11][1..] == [];
    assert Pruned([11], 21, 10) == [];
  }

  lemma NothingServed(limit: nat, window: nat)
    ensures ServeAll([], limit, window) == Limiter(map[], [])
  {
  }

  /** A call of the only key, accepted on what is left of its deque. */
  lemma ServedHere(state: map<string, seq<Instant>>, history: seq<Call>, c: Call, left: seq<Instant>, limit: nat, window: nat)
    requires state.Keys <= {c.key} && left == Pruned(Deque(state, c.key), c.at, window) && |left| < limit
    ensures Serve(Limiter(state, history), c, limit, window) == (Limiter(map[c.key := left + [c.at]], history + [c]), Accepted)
  {
    var kept := Kept(state, c.at, window);
    assert kept.Keys <= {c.key};
    SubsetSize(kept.Keys, {c.key});
    assert Deque(kept, c.key) == left;
    assert kept[c.key := left + [c.at]] == map[c.key := left + [c.at]];
  }

  // ---------------------------------------------------------------- agreement with the full history

  /** The young ones of some times, in order. */
  function Young(times: seq<Instant>, now: Instant, window: nat): seq<Instant> {
    if times == [] then []
    else
      var last, rest := times[|times| - 1], Young(times[..|times| - 1], now, window);
      if Since(now, last) < window then rest + [last] else rest
  }

  lemma {:induction false} RecentIsYoung(history: seq<Call>, key: string, now: Instant, window: nat)
    ensures Recent(history, key, now, window) == Young(Times(history, key), now, window)
    decreases |history|
  {
    if history != [] {
      var last, rest := history[|history| - 1], history[..|history| - 1];
      RecentIsYoung(rest, key, now, window);
      assert (Times(rest, key) + [last.at])[..|Times(rest, key)|] == Times(rest, key);
    }
  }

  lemma {:induction false} YoungFromFront(first: Instant, times: seq<Instant>, now: Instant, window: nat)
    ensures Young([first] + times, now, window) == (if Since(now, first) < window then [first] else []) + Young(times, now, window)
    decreases |times|
  {
    if times == [] {
      assert [first] + times == [first] && [first][..0] == [];
    } else {
      var front := times[..|times| - 1];
      YoungFromFront(first, front, now, window);
      assert ([first] + times)[..|times|] == [first] + front;
    }
  }

  lemma {:induction false} AllAreYoung(times: seq<Instant>, now: Instant, window: nat)
    requires forall i: nat :: i < |times| ==> Since(now, times[i]) < window
    ensures Young(times, now, window) == times
    decreases |times|
  {
    if times != [] {
      AllAreYoung(times[..|times| - 1], now, window);
    }
  }

  /** When everything after a young time is young and everything dropped is old, pruning what is left
      gives exactly the young times. */
  lemma {:induction false} PrunedIsYoung(times: seq<Instant>, p: nat, now: Instant, window: nat)
    requires p <= |times|
    requires forall i: nat, j: nat :: i < j < |times| && Since(now, times[i]) < window ==> Since(now, times[j]) < window
    requires forall i: nat :: i < p ==> Since(now, times[i]) >= window
    ensures Pruned(times[p..], now, window) == Young(times, now, window)
    decreases |times|
  {
    if times != [] {
      var first, rest := times[0], times[1..];
      assert times == [first] + rest;
      YoungFromFront(first, rest, now, window);
      if Since(now, first) < window {
        AllAreYoung(rest, now, window);
        assert p == 0 && times[0..] == times;
      } else {
        PrunedIsYoung(rest, if p == 0 then 0 else p - 1, now, window);
        if p == 0 {
          assert times[0..] == times && rest[0..] == rest;
        } else {
          assert rest[p - 1..] == times[p..];
        }
      }
    }
  }

  /** No time lies within d of the edge of the window that ends now. */
  predicate ClearOfEdge(times: seq<Instant>, now: Instant, window: nat, d: nat) {
    forall i: nat :: i < |times| ==> !(now - window - d < times[i] <= now - window + d)
  }

  lemma DequeIsYoung(deque: seq<Instant>, times: seq<Instant>, now: Instant, window: nat, d: nat)
    requires Remembers(deque, times, now + d, window) && TimesLag(times, d) && ClearOfEdge(times, now, window, d)
    ensures Pruned(deque, now, window) == Young(times, now, window)
  {
    hide Pruned, Young;
    var p := |times| - |deque|;
    forall i: nat, j: nat | i < j < |times| && Since(now, times[i]) < window
      ensures Since(now, times[j]) < window
    {
      assert times[i] <= times[j] + d;
    }
    PrunedIsYoung(times, p, now, window);
  }

  predicate HistoryClear(history: seq<Call>, now: Instant, window: nat, d: nat) {
    forall i: nat :: i < |history| ==> !(now - window - d < history[i].at <= now - window + d)
  }

  lemma {:induction false} ClearTimes(history: seq<Call>, key: string, now: Instant, window: nat, d: nat)
    requires HistoryClear(history, now, window, d)
    ensures ClearOfEdge(Times(history, key), now, window, d)
    decreases |history|
  {
    if history != [] {
      ClearTimes(history[..|history| - 1], key, now, window, d);
    }
  }

  /** If clocks lag by at most d, this call's included, and no accepted call lies within d of the edge
      of its window, the verdict is the one of the full history.  With clocks in order, where d is
      zero, nothing is asked of the history. */
  lemma VerdictAgrees(calls: seq<Call>, c: Call, d: nat, limit: nat, window: nat)
    requires Lags(calls + [c], d) && HistoryClear(ServeAll(calls, limit, window).history, c.at, window, d)
    ensures var l := ServeAll(calls, limit, window);
            Serve(l, c, limit, window).1 == Decide(l.history, c.key, c.at, limit, window)
  {
    hide Lags, NotAfter, Kept, Recent, Tracked, ServeAll, Pruned, Decide, HistoryClear, Serve;
    var l := ServeAll(calls, limit, window);
    LagsBefore(calls, c, d);
    var kept := Kept(l.state, c.at, window);
    forall k
      ensures Deque(kept, k) == Recent(l.history, k, c.at, window)
    {
      KeptIsRecent(calls, k, c.at, d, limit, window);
    }
    KeptIsTracked(l, kept, c.at, window);
    Decided(l.history, kept, c.key, c.at, limit, window);
    ServedVerdict(l, c, limit, window);
  }

  lemma LagsBefore(calls: seq<Call>, c: Call, d: nat)
    requires Lags(calls + [c], d)
    ensures Lags(calls, d) && NotAfter(calls, c.at + d)
  {
    var all := calls + [c];
    forall i: nat | i < |calls|
      ensures calls[i].at <= c.at + d
    {
      assert all[i].at <= all[|calls|].at + d;
    }
    forall i: nat, j: nat | i < j < |calls|
      ensures calls[i].at <= calls[j].at + d
    {
      assert all[i].at <= all[j].at + d;
    }
  }

  lemma KeptIsRecent(calls: seq<Call>, key: string, now: Instant, d: nat, limit: nat, window: nat)
    requires Lags(calls, d) && NotAfter(calls, now + d) && HistoryClear(ServeAll(calls, limit, window).history, now, window, d)
    ensures var l := ServeAll(calls, limit, window);
            Deque(Kept(l.state, now, window), key) == Recent(l.history, key, now, window)
  {
    hide Remembers, TimesLag, ClearOfEdge, ServeAll, Pruned, Recent, Young, Times, Lags, NotAfter, HistoryClear, Kept;
    var l := ServeAll(calls, limit, window);
    RunRemembers(calls, key, now + d, limit, window);
    AcceptedLag(calls, key, d, limit, window);
    ClearTimes(l.history, key, now, window, d);
    DequeIsYoung(Deque(l.state, key), Times(l.history, key), now, window, d);
    RecentIsYoung(l.history, key, now, window);
    KeptDeque(l.state, key, now, window);
  }

  lemma KeptIsTracked(l: Limiter, kept: map<string, seq<Instant>>, now: Instant, window: nat)
    requires kept == Kept(l.state, now, window) && forall k :: Deque(kept, k) == Recent(l.history, k, now, window)
    ensures kept.Keys == Tracked(l.history, now, window)
  {
    assert forall k :: k in kept ==> kept[k] != [];
    hide Kept;
    forall k
      ensures k in kept <==> k in Tracked(l.history, now, window)
    {
      TrackedHasRecent(l.history, k, now, window);
      assert Deque(kept, k) == Recent(l.history, k, now, window);
      hide Tracked, Recent;
    }
  }

  lemma ServedVerdict(l: Limiter, c: Call, limit: nat, window: nat)
    ensures var kept := Kept(l.state, c.at, window);
            var attempts := Deque(kept, c.key);
            Serve(l, c, limit, window).1
            == if c.key !in kept && |kept| >= MAX_TRACKED_KEYS then RetryAfter(window)
               else if |attempts| < limit then Accepted
               else RetryAfter(if |attempts| > 0 then Minus(window, Since(c.at, attempts[0])) else window)
  {
    hide Kept;
  }

  /** The upper half of that edge is needed: a burst anywhere in it is forgotten too early. */
  lemma ForgottenTooEarly(limit: nat, window: nat, d: nat, now: Instant)
    requires limit >= 1 && window >= 1 && now - window < 0 <= now - window + d
    ensures var calls := Burst("a", limit) + [Call("b", window)];
            var l := ServeAll(calls, limit, window);
            && Lags(calls + [Call("a", now)], d)
            && Serve(l, Call("a", now), limit, window).1.Accepted? && Decide(l.history, "a", now, limit, window).RetryAfter?
  {
    hide ServeAll, Recent, Serve, Lags, Tracked;
    StragglerIsAccepted(limit, window, now);
    StragglerLags(limit, window, now, d);
    BurstIsRecent("a", limit, now, window);
    RecentAppend(Burst("a", limit), Call("b", window), "a", now, window);
    var history := Burst("a", limit) + [Call("b", window)];
    TrackedHasRecent(history, "a", now, window);
  }

  lemma {:induction false} BurstIsRecent(key: string, n: nat, now: Instant, window: nat)
    requires now < window
    ensures window > 0 ==> Recent(Burst(key, n), key, now, window) == Zeros(n)
    decreases n
  {
    if n > 0 {
      assert Burst(key, n)[..n - 1] == Burst(key, n - 1);
      BurstIsRecent(key, n - 1, now, window);
    }
  }

  /** A call with a later clock, and behind it a burst with the clock zero. */
  function Blocked(d: nat, n: nat): seq<Call> {
    [Call("a", d)] + Burst("a", n)
  }

  lemma BlockedGrows(d: nat, n: nat)
    ensures Blocked(d, n + 1) == Blocked(d, n) + [Call("a", 0)] && Blocked(d, 0) == [] + [Call("a", d)]
    ensures [d] + Zeros(n + 1) == ([d] + Zeros(n)) + [0] && [d] + Zeros(0) == [] + [d]
  {
  }

  lemma FrontIsYoung(times: seq<Instant>, now: Instant, window: nat)
    requires times != [] && Since(now, times[0]) < window
    ensures Pruned(times, now, window) == times
  {
  }

  lemma {:induction false} BlockedIsServed(d: nat, n: nat, limit: nat, window: nat)
    requires n < limit && window > 0
    ensures ServeAll(Blocked(d, n), limit, window) == Limiter(map["a" := [d] + Zeros(n)], Blocked(d, n))
    decreases n
  {
    hide ServeAll, Serve, Pruned, Zeros, Blocked;
    if n == 0 {
      BlockedGrows(d, 0);
      NothingServed(limit, window);
      LastServed([], Call("a", d), limit, window);
      ServedFresh(Limiter(map[], []), Call("a", d), map[], limit, window);
      var none: seq<Instant> := [];
      assert none + [d] == [d];
    } else {
      BlockedIsServed(d, n - 1, limit, window);
      BlockedGrows(d, n - 1);
      LastServed(Blocked(d, n - 1), Call("a", 0), limit, window);
      FrontIsYoung([d] + Zeros(n - 1), 0, window);
      ServedHere(map["a" := [d] + Zeros(n - 1)], Blocked(d, n - 1), Call("a", 0), [d] + Zeros(n - 1), limit, window);
    }
  }

  lemma {:induction false} BurstIsOld(d: nat, n: nat, now: Instant, window: nat)
    requires 1 <= window <= now < window + d
    ensures Recent(Blocked(d, n), "a", now, window) == [d]
    decreases n
  {
    hide Recent, Blocked;
    BlockedGrows(d, if n == 0 then 0 else n - 1);
    if n == 0 {
      RecentAppend([], Call("a", d), "a", now, window);
      NothingRecent("a", now, window);
      var none: seq<Instant> := [];
      assert none + [d] == [d];
    } else {
      BurstIsOld(d, n - 1, now, window);
      RecentAppend(Blocked(d, n - 1), Call("a", 0), "a", now, window);
    }
  }

  lemma NothingRecent(key: string, now: Instant, window: nat)
    ensures Recent([], key, now, window) == []
  {
  }

  lemma BlockedLags(d: nat, n: nat, now: Instant)
    requires now >= 0
    ensures Lags(Blocked(d, n) + [Call("a", now)], d)
  {
  }

  lemma FullDeque(l: Limiter, c: Call, limit: nat, window: nat)
    requires l.state.Keys == {c.key} && Pruned(l.state[c.key], c.at, window) == l.state[c.key] && |l.state[c.key]| == limit > 0
    ensures Serve(l, c, limit, window).1.RetryAfter?
  {
    assert Deque(Kept(l.state, c.at, window), c.key) == l.state[c.key];
  }

  /** So is the lower half, for limits above one: a burst anywhere in it that was served behind a
      later clock is remembered too long. */
  lemma RememberedTooLong(limit: nat, window: nat, d: nat, now: Instant)
    requires limit >= 2 && window >= 1 && now - window - d < 0 <= now - window
    ensures var calls := Blocked(d, limit - 1);
            var l := ServeAll(calls, limit, window);
            && l.history == calls && Lags(calls + [Call("a", now)], d)
            && Serve(l, Call("a", now), limit, window).1.RetryAfter? && Decide(l.history, "a", now, limit, window).Accepted?
  {
    hide ServeAll, Serve, Recent, Tracked, Lags, Blocked, Pruned;
    BlockedIsServed(d, limit - 1, limit, window);
    BlockedLags(d, limit - 1, now);
    FrontIsYoung([d] + Zeros(limit - 1), now, window);
    FullDeque(ServeAll(Blocked(d, limit - 1), limit, window), Call("a", now), limit, window);
    BurstIsOld(d, limit - 1, now, window);
    TrackedHasRecent(Blocked(d, limit - 1), "a", now, window);
  }

  // ---------------------------------------------------------------- histories in clock order

  lemma {:induction false} AcceptedAreServed(calls: seq<Call>, bound: Instant, limit: nat, window: nat)
    requires NotAfter(calls, bound)
    ensures NotAfter(ServeAll(calls, limit, window).history, bound)
    decreases |calls|
  {
    if calls != [] {
      AcceptedAreServed(calls[..|calls| - 1], bound, limit, window);
      ServedDeque(ServeAll(calls[..|calls| - 1], limit, window), calls[|calls| - 1], "", limit, window);
      assert calls[|calls| - 1].at <= bound;
      hide Serve;
    }
  }

  /** A run whose clocks never go back leads to a lawful history, ordered up to any later clock. */
  lemma {:induction false} OrderedRunIsLawful(calls: seq<Call>, now: Instant, limit: nat, window: nat)
    requires Lags(calls, 0) && NotAfter(calls, now)
    ensures var history := ServeAll(calls, limit, window).history; Lawful(history, limit, window) && Ordered(history, now)
    decreases |calls|
  {
    hide Lags, NotAfter, Serve, Decide, HistoryClear, Ordered;
    if calls == [] {
      NothingServed(limit, window);
      NothingOrdered(now);
    } else {
      var rest, c := calls[..|calls| - 1], calls[|calls| - 1];
      assert calls == rest + [c];
      LagsBefore(rest, c, 0);
      LastNotAfter(calls, now);
      OrderedRunIsLawful(rest, c.at, limit, window);
      var l := ServeAll(rest, limit, window);
      AlwaysClear(l.history, c.at, window);
      VerdictAgrees(rest, c, 0, limit, window);
      ServedDeque(l, c, "", limit, window);
      assert (l.history + [c])[..|l.history|] == l.history;
      OrderedOneMore(l.history, c, now);
    }
  }

  lemma NothingOrdered(now: Instant)
    ensures Ordered([], now)
  {
  }

  lemma LastNotAfter(calls: seq<Call>, bound: Instant)
    requires NotAfter(calls, bound) && calls != []
    ensures calls[|calls| - 1].at <= bound
  {
  }

  lemma AlwaysClear(history: seq<Call>, now: Instant, window: nat)
    ensures HistoryClear(history, now, window, 0)
  {
  }

  lemma OrderedOneMore(history: seq<Call>, c: Call, now: Instant)
    requires Ordered(history, c.at) && c.at <= now
    ensures Ordered(history, now) && Ordered(history + [c], now)
  {
  }

  predicate Ordered(history: seq<Call>, clock: Instant) {
    && (forall i: nat, j: nat :: i < j < |history| ==> history[i].at <= history[j].at)
    && (forall i: nat :: i < |history| ==> history[i].at <= clock)
  }

  lemma {:induction false} PrunedAppend(attempts: seq<Instant>, last: Instant, now: Instant, window: nat)
    requires forall k: nat :: k < |attempts| ==> attempts[k] <= last
    ensures Pruned(attempts + [last], now, window)
            == if Since(now, last) < window then Pruned(attempts, now, window) + [last] else []
    decreases |attempts|
  {
    if attempts == [] {
      assert [last][1..] == [];
    } else {
      assert (attempts + [last])[1..] == attempts[1..] + [last];
      if Since(now, attempts[0]) >= window {
        PrunedAppend(attempts[1..], last, now, window);
      }
    }
  }

  /** On an ordered history pruning the young calls of one instant gives those of a later instant. */
  lemma {:induction false} PrunedIsRecent(history: seq<Call>, key: string, clock: Instant, now: Instant, window: nat)
    requires Ordered(history, clock) && clock <= now
    ensures Pruned(Recent(history, key, clock, window), now, window) == Recent(history, key, now, window)
    ensures forall k: nat :: k < |Recent(history, key, clock, window)| ==> Recent(history, key, clock, window)[k] <= clock
    decreases |history|
  {
    if history != [] {
      var last, rest := history[|history| - 1], history[..|history| - 1];
      PrunedIsRecent(rest, key, clock, now, window);
      RecentBelow(rest, key, clock, window, last.at);
      if last.key == key && Since(clock, last.at) < window {
        PrunedAppend(Recent(rest, key, clock, window), last.at, now, window);
        if Since(now, last.at) >= window {
          RecentEmpty(rest, key, now, window, last.at);
        }
      }
    }
  }

  lemma {:induction false} RecentBelow(history: seq<Call>, key: string, now: Instant, window: nat, bound: Instant)
    requires forall i: nat :: i < |history| ==> history[i].at <= bound
    ensures forall k: nat :: k < |Recent(history, key, now, window)| ==> Recent(history, key, now, window)[k] <= bound
    decreases |history|
  {
    if history != [] {
      RecentBelow(history[..|history| - 1], key, now, window, bound);
    }
  }

  lemma {:induction false} RecentEmpty(history: seq<Call>, key: string, now: Instant, window: nat, bound: Instant)
    requires forall i: nat :: i < |history| ==> history[i].at <= bound
    requires Since(now, bound) >= window
    ensures Recent(history, key, now, window) == []
    decreases |history|
  {
    if history != [] {
      RecentEmpty(history[..|history| - 1], key, now, window, bound);
    }
  }

  /** A key is tracked exactly when it has a young call. */
  lemma {:induction false} TrackedHasRecent(history: seq<Call>, key: string, now: Instant, window: nat)
    ensures key in Tracked(history, now, window) <==> Recent(history, key, now, window) != []
    decreases |history|
  {
    if history != [] {
      var rest := history[..|history| - 1];
      TrackedHasRecent(rest, key, now, window);
      assert history == rest + [history[|history| - 1]];
    }
  }

  lemma RecentAppend(history: seq<Call>, c: Call, key: string, now: Instant, window: nat)
    ensures Recent(history + [c], key, now, window)
            == Recent(history, key, now, window) + if c.key == key && Since(now, c.at) < window then [c.at] else []
  {
    assert (history + [c])[..|history|] == history;
  }

  /** The decision on the pruned map is the decision on the history. */
  lemma Decided(history: seq<Call>, kept: map<string, seq<Instant>>, key: string, now: Instant, limit: nat, window: nat)
    requires kept.Keys == Tracked(history, now, window) && Deque(kept, key) == Recent(history, key, now, window)
    ensures var attempts := Deque(kept, key);
            Decide(history, key, now, limit, window)
            == if key !in kept && |kept| >= MAX_TRACKED_KEYS then RetryAfter(window)
               else if |attempts| < limit then Accepted
               else RetryAfter(if |attempts| > 0 then Minus(window, Since(now, attempts[0])) else window)
  {
    assert |kept.Keys| == |kept|;
    hide Tracked;
    if |Recent(history, key, now, window)| > 0 {
      assert Since(now, Recent(history, key, now, window)[0]) < window;
    }
  }

  /** A history that the limiter can have: in order, each call accepted on the history before it. */
  predicate Lawful(history: seq<Call>, limit: nat, window: nat)
    decreases |history|
  {
    history == []
    || (var last, rest := history[|history| - 1], history[..|history| - 1];
        && Lawful(rest, limit, window) && Ordered(rest, last.at)
        && Decide(rest, last.key, last.at, limit, window).Accepted?)
  }

  lemma {:induction false} WindowIsRecent(history: seq<Call>, key: string, at: Instant, x: Instant, window: nat)
    requires forall i: nat :: i < |history| ==> history[i].at <= at
    requires at <= x
    ensures InWindow(history, key, x, window) <= |Recent(history, key, at, window)|
    decreases |history|
  {
    if history != [] {
      WindowIsRecent(history[..|history| - 1], key, at, x, window);
    }
  }

  /** No window of a lawful history holds more than the limit. */
  lemma {:induction false} LawfulWindow(history: seq<Call>, key: string, x: Instant, limit: nat, window: nat)
    requires Lawful(history, limit, window)
    ensures InWindow(history, key, x, window) <= limit
    decreases |history|
  {
    hide Tracked, Recent;
    if history != [] {
      var last, rest := history[|history| - 1], history[..|history| - 1];
      LawfulWindow(rest, key, x, limit, window);
      if last.key == key && x - window < last.at <= x {
        WindowIsRecent(rest, key, last.at, x, window);
      }
    }
  }

  lemma {:induction false} RecentIsWindow(history: seq<Call>, key: string, now: Instant, window: nat)
    requires Ordered(history, now)
    ensures |Recent(history, key, now, window)| == InWindow(history, key, now, window)
    decreases |history|
  {
    if history != [] {
      RecentIsWindow(history[..|history| - 1], key, now, window);
    }
  }

  lemma TrackedStep(rest: seq<Call>, last: Call, now: Instant, window: nat)
    requires last.at <= now
    ensures Tracked(rest + [last], now, window) <= Tracked(rest, last.at, window) + {last.key}
  {
  }

  /** No lawful history tracks more keys than the limiter has room for. */
  lemma {:induction false} TrackedFits(history: seq<Call>, now: Instant, limit: nat, window: nat)
    requires Lawful(history, limit, window) && Ordered(history, now)
    ensures |Tracked(history, now, window)| <= MAX_TRACKED_KEYS
    decreases |history|
  {
    hide Tracked, Recent;
    if history == [] {
      NothingYet(now, window);
    } else {
      var last, rest := history[|history| - 1], history[..|history| - 1];
      TrackedFits(rest, last.at, limit, window);
      assert history == rest + [last];
      assert last.at <= now;
      hide Ordered;
      TrackedStep(rest, last, now, window);
      OneMoreTracked(Tracked(history, now, window), Tracked(rest, last.at, window), last.key);
    }
  }

  lemma NothingYet(now: Instant, window: nat)
    ensures Tracked([], now, window) == {}
  {
  }

  lemma OneMoreTracked(after: set<string>, young: set<string>, key: string)
    requires after <= young + {key}
    ensures |after| <= |young| + if key in young then 0 else 1
  {
    SubsetSize(after, young + {key});
    assert key in young ==> young + {key} == young;
  }

  lemma RetryDelay(history: seq<Call>, key: string, now: Instant, limit: nat, window: nat)
    requires Lawful(history, limit, window) && Ordered(history, now) && limit > 0
    requires Decide(history, key, now, limit, window).RetryAfter?
    ensures var recent := Recent(history, key, now, window);
            var delay := Decide(history, key, now, limit, window).delay;
            if recent == [] then delay == window && |Tracked(history, now, window)| >= MAX_TRACKED_KEYS
            else |recent| == limit && delay == window - Since(now, recent[0])
  {
    LawfulWindow(history, key, now, limit, window);
    RecentIsWindow(history, key, now, window);
    TrackedHasRecent(history, key, now, window);
  }

  lemma AllForgotten(history: seq<Call>, key: string, now: Instant, later: Instant, window: nat)
    requires Ordered(history, now) && later - now >= window && window > 0
    ensures Tracked(history, later, window) == {} && Recent(history, key, later, window) == []
  {
    RecentEmpty(history, key, later, window, now);
  }

  /** On an ordered history a rejected caller that waits for the returned delay, with no call in
      between, is accepted.  Only a limit of zero, which never accepts, is excluded. */
  lemma HistoryWaits(history: seq<Call>, key: string, now: Instant, limit: nat, window: nat, wait: nat)
    requires Lawful(history, limit, window) && Ordered(history, now) && limit > 0
    requires Decide(history, key, now, limit, window).RetryAfter?
    requires wait >= Decide(history, key, now, limit, window).delay
    ensures Decide(history, key, now + wait, limit, window) == Accepted
  {
    hide Tracked, Recent, Lawful, Pruned, Ordered;
    var recent, later := Recent(history, key, now, window), now + wait;
    RetryDelay(history, key, now, limit, window);
    PrunedIsRecent(history, key, now, later, window);
    TrackedHasRecent(history, key, now, window);
    TrackedHasRecent(history, key, later, window);
    TrackedFits(history, now, limit, window);
    if recent == [] {
      NothingTracked(history, now);
      AllForgotten(history, key, now, later, window);
    } else {
      PrunedShorter(recent, later, window);
      StillTracked(history, now, later, window);
      if key !in Tracked(history, later, window) {
        SubsetSize(Tracked(history, later, window) + {key}, Tracked(history, now, window));
      }
    }
  }

  lemma StillTracked(history: seq<Call>, now: Instant, later: Instant, window: nat)
    requires now <= later
    ensures Tracked(history, later, window) <= Tracked(history, now, window)
  {
  }

  lemma NothingTracked(history: seq<Call>, now: Instant)
    ensures Tracked(history, now, 0) == {}
  {
  }

  lemma PrunedShorter(attempts: seq<Instant>, now: Instant, window: nat)
    requires attempts != []
    ensures if Since(now, attempts[0]) >= window then |Pruned(attempts, now, window)| < |attempts| else Pruned(attempts, now, window) == attempts
  {
  }

  /** On an ordered history a caller rejected for its own calls is accepted no earlier. */
  lemma HistoryNoEarlier(history: seq<Call>, key: string, now: Instant, limit: nat, window: nat, wait: nat)
    requires Lawful(history, limit, window) && Ordered(history, now) && limit > 0
    requires Decide(history, key, now, limit, window).RetryAfter? && Recent(history, key, now, window) != []
    requires wait < Decide(history, key, now, limit, window).delay
    ensures Decide(history, key, now + wait, limit, window).RetryAfter?
  {
    hide Tracked, Recent, Lawful, Pruned, Ordered;
    RetryDelay(history, key, now, limit, window);
    PrunedIsRecent(history, key, now, now + wait, window);
    PrunedShorter(Recent(history, key, now, window), now + wait, window);
    TrackedHasRecent(history, key, now + wait, window);
  }

  // ---------------------------------------------------------------- the delay, at any clocks

  /** A rejection changes the map by pruning only, and is for one of two reasons. */
  lemma RejectedWhy(l: Limiter, c: Call, limit: nat, window: nat)
    requires limit > 0 && Serve(l, c, limit, window).1.RetryAfter?
    ensures var kept := Kept(l.state, c.at, window);
            var (u, v) := Serve(l, c, limit, window);
            var deque := Deque(kept, c.key);
            && u == l.(state := kept)
            && if c.key in kept
               then |deque| >= limit && v.delay == Minus(window, Since(c.at, deque[0]))
               else |kept| >= MAX_TRACKED_KEYS && v.delay == window
  {
    hide Kept;
  }

  lemma {:induction false} AllExpired(deque: seq<Instant>, bound: Instant, later: Instant, window: nat)
    requires AllNotAfter(deque, bound) && bound + window <= later
    ensures Pruned(deque, later, window) == []
    decreases |deque|
  {
    if deque != [] {
      AllExpired(deque[1..], bound, later, window);
    }
  }

  lemma {:induction false} PrunedNotAfter(deque: seq<Instant>, now: Instant, window: nat, bound: Instant)
    requires AllNotAfter(deque, bound)
    ensures AllNotAfter(Pruned(deque, now, window), bound)
    decreases |deque|
  {
    if deque != [] && Since(now, deque[0]) >= window {
      PrunedNotAfter(deque[1..], now, window, bound);
    }
  }

  /** Everything a run remembers when a call has been pruned for is not after the bound of its clocks. */
  lemma KeptNotAfter(calls: seq<Call>, key: string, now: Instant, bound: Instant, limit: nat, window: nat)
    requires NotAfter(calls, bound)
    ensures AllNotAfter(Deque(Kept(ServeAll(calls, limit, window).state, now, window), key), bound)
  {
    hide ServeAll, Kept, Pruned, Deque, Times;
    var l := ServeAll(calls, limit, window);
    RunRemembers(calls, key, bound, limit, window);
    KeptDeque(l.state, key, now, window);
    PrunedNotAfter(Deque(l.state, key), now, window, bound);
  }

  lemma NothingKept(state: map<string, seq<Instant>>, bound: Instant, later: Instant, window: nat)
    requires forall k :: k in state ==> AllNotAfter(state[k], bound)
    requires bound + window <= later
    ensures Kept(state, later, window) == map[]
  {
    hide AllNotAfter, Pruned;
    forall k | k in state
      ensures Pruned(state[k], later, window) == []
    {
      AllExpired(state[k], bound, later, window);
    }
  }

  /** The two calls of a caller with none in between: the second one is decided on the map pruned
      twice. */
  lemma TwicePruned(calls: seq<Call>, c: Call, later: Instant, limit: nat, window: nat)
    requires limit > 0 && Serve(ServeAll(calls, limit, window), c, limit, window).1.RetryAfter?
    ensures ServeAll(calls + [c], limit, window).state == Kept(ServeAll(calls, limit, window).state, c.at, window)
  {
    hide ServeAll, Serve, Kept;
    LastServed(calls, c, limit, window);
    RejectedWhy(ServeAll(calls, limit, window), c, limit, window);
  }

  lemma ServedWithRoom(l: Limiter, c: Call, limit: nat, window: nat)
    requires |Pruned(Deque(l.state, c.key), c.at, window)| < limit
    requires |Kept(l.state, c.at, window)| < MAX_TRACKED_KEYS || c.key in Kept(l.state, c.at, window)
    ensures Serve(l, c, limit, window).1 == Accepted
  {
    KeptDeque(l.state, c.key, c.at, window);
    hide Kept, Pruned;
  }

  /** A caller that was told to wait is accepted after the returned delay plus the lag of its clock
      behind the clocks served before it, with no call in between, at any clocks.  With clocks in order
      the lag is zero.  Only a limit of zero, which never accepts, is excluded. */
  lemma WaitingHelps(calls: seq<Call>, c: Call, later: Instant, d: nat, limit: nat, window: nat)
    requires NotAfter(calls, c.at + d) && limit > 0
    requires var v := Serve(ServeAll(calls, limit, window), c, limit, window).1; v.RetryAfter? && c.at + v.delay + d <= later
    ensures Serve(ServeAll(calls + [c], limit, window), Call(c.key, later), limit, window).1 == Accepted
  {
    hide ServeAll, Serve, Kept, Pruned, Deque, AllNotAfter;
    var l, u := ServeAll(calls, limit, window), ServeAll(calls + [c], limit, window);
    RejectedWhy(l, c, limit, window);
    TwicePruned(calls, c, later, limit, window);
    EveryRunIsBounded(calls + [c], limit, window);
    if c.key in u.state {
      FrontExpires(calls, c, later, d, limit, window);
      OneFewer(u.state, c.key, later, window);
    } else {
      forall k | k in u.state
        ensures AllNotAfter(u.state[k], c.at + d)
      {
        KeptNotAfter(calls, k, c.at, c.at + d, limit, window);
        Looked(u.state, k);
      }
      NothingKept(u.state, c.at + d, later, window);
      NothingThere(u.state, c.key, later, window);
    }
    ServedWithRoom(u, Call(c.key, later), limit, window);
  }

  lemma Looked(state: map<string, seq<Instant>>, key: string)
    requires key in state
    ensures Deque(state, key) == state[key]
  {
  }

  lemma NothingThere(state: map<string, seq<Instant>>, key: string, now: Instant, window: nat)
    requires key !in state
    ensures Pruned(Deque(state, key), now, window) == []
  {
  }

  /** The oldest attempt of a full deque has expired by then. */
  lemma FrontExpires(calls: seq<Call>, c: Call, later: Instant, d: nat, limit: nat, window: nat)
    requires NotAfter(calls, c.at + d) && limit > 0
    requires var v := Serve(ServeAll(calls, limit, window), c, limit, window).1; v.RetryAfter? && c.at + v.delay + d <= later
    requires c.key in Kept(ServeAll(calls, limit, window).state, c.at, window)
    ensures var deque := Deque(Kept(ServeAll(calls, limit, window).state, c.at, window), c.key);
            deque != [] && |Pruned(deque, later, window)| < |deque| <= limit
  {
    hide ServeAll, Serve, Kept, Deque, Pruned;
    var l := ServeAll(calls, limit, window);
    var deque := Deque(Kept(l.state, c.at, window), c.key);
    RejectedWhy(l, c, limit, window);
    KeptNotAfter(calls, c.key, c.at, c.at + d, limit, window);
    EveryRunIsBounded(calls, limit, window);
    KeptDequesAreShorter(l.state, c.at, window, limit);
    Looked(Kept(l.state, c.at, window), c.key);
    PrunedShorter(deque, later, window);
  }

  lemma OneFewer(state: map<string, seq<Instant>>, key: string, now: Instant, window: nat)
    requires key in state && |state| <= MAX_TRACKED_KEYS
    ensures key in Kept(state, now, window) || |Kept(state, now, window)| < MAX_TRACKED_KEYS
  {
    var kept := Kept(state, now, window);
    if key !in kept {
      SubsetSize(kept.Keys + {key}, state.Keys);
    }
  }

  /** The lag cannot be left out: for every limit, window and lag there is a run in which waiting one
      less is not enough. */
  lemma WaitingLess(limit: nat, window: nat, d: nat, at: Instant)
    requires limit >= 1 && window >= 1 && d >= 1 && at + d == 0
    ensures var calls, c := Burst("a", limit), Call("a", at);
            && NotAfter(calls, at + d)
            && Serve(ServeAll(calls, limit, window), c, limit, window).1 == RetryAfter(window)
            && Serve(ServeAll(calls + [c], limit, window), Call("a", at + window + d - 1), limit, window).1.RetryAfter?
  {
    hide ServeAll, Serve, Kept, Pruned;
    var calls, c := Burst("a", limit), Call("a", at);
    var l := ServeAll(calls, limit, window);
    BurstIsServed("a", limit, limit, window);
    KeptZeros(limit, at, window);
    KeptZeros(limit, window - 1, window);
    RejectedHere(l, c, limit, window);
    LastServed(calls, c, limit, window);
    RejectedWhy(l, c, limit, window);
    RejectedHere(ServeAll(calls + [c], limit, window), Call("a", window - 1), limit, window);
  }

  lemma KeptZeros(n: nat, now: Instant, window: nat)
    requires n > 0 && now < window && window > 0
    ensures Kept(AfterBurst("a", n), now, window) == map["a" := Zeros(n)] == AfterBurst("a", n)
  {
    assert Pruned(Zeros(n), now, window) == Zeros(n);
  }

  lemma RejectedHere(l: Limiter, c: Call, limit: nat, window: nat)
    requires limit > 0 && Kept(l.state, c.at, window) == map[c.key := Zeros(limit)]
    ensures Serve(l, c, limit, window).1 == RetryAfter(Minus(window, Since(c.at, 0)))
  {
    hide Kept;
  }

  /** A caller rejected for its own calls is accepted no earlier than the returned delay, at any
      clocks. */
  lemma NoEarlier(calls: seq<Call>, c: Call, later: Instant, limit: nat, window: nat)
    requires limit > 0 && c.key in Kept(ServeAll(calls, limit, window).state, c.at, window)
    requires var v := Serve(ServeAll(calls, limit, window), c, limit, window).1; v.RetryAfter? && later < c.at + v.delay
    ensures Serve(ServeAll(calls + [c], limit, window), Call(c.key, later), limit, window).1.RetryAfter?
  {
    hide ServeAll, Serve, Kept, Pruned, Deque;
    var l, u := ServeAll(calls, limit, window), ServeAll(calls + [c], limit, window);
    var deque := Deque(u.state, c.key);
    RejectedWhy(l, c, limit, window);
    TwicePruned(calls, c, later, limit, window);
    PrunedShorter(deque, later, window);
    KeptDeque(l.state, c.key, c.at, window);
    PrunedFrontIsYoung(Deque(l.state, c.key), c.at, window);
    StillFull(u, Call(c.key, later), limit, window);
  }

  lemma {:induction false} PrunedFrontIsYoung(attempts: seq<Instant>, now: Instant, window: nat)
    ensures var r := Pruned(attempts, now, window); r != [] ==> Since(now, r[0]) < window
    decreases |attempts|
  {
    if attempts != [] && Since(now, attempts[0]) >= window {
      PrunedFrontIsYoung(attempts[1..], now, window);
    }
  }

  lemma StillFull(l: Limiter, c: Call, limit: nat, window: nat)
    requires |Pruned(Deque(l.state, c.key), c.at, window)| >= limit > 0
    ensures Serve(l, c, limit, window).1.RetryAfter?
  {
    KeptDeque(l.state, c.key, c.at, window);
    hide Kept, Pruned;
  }
}
