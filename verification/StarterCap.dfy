/**
  The rolling cap on starter pings of server/internal/agent/codex_agent.go: a ring
  of the last five fire times per quota window stands in for the whole history.
 */
module StarterCap {
  type Time = int // nanoseconds

  const MAX_FIRES: nat := 5
  const RATE_WINDOW: int := 4 * 3_600_000_000_000

  // The unbounded history of one window, and the rule stated on it.

  predicate Sorted(h: seq<Time>) {
    forall i, j :: 0 <= i < j < |h| ==> h[i] <= h[j]
  }

  /** Fires at most RATE_WINDOW before `now`. */
  function Recent(h: seq<Time>, now: Time): nat {
    if h == [] then 0
    else Recent(h[..|h| - 1], now) + if now - h[|h| - 1] <= RATE_WINDOW then 1 else 0
  }

  function LastFires(h: seq<Time>): seq<Time> {
    if |h| <= MAX_FIRES then h else h[|h| - MAX_FIRES..]
  }

  /** The decision the ring takes, and the ring after it. */
  function Decided(ring: seq<Time>, now: Time): (bool, seq<Time>) {
    if |ring| < MAX_FIRES then (true, ring + [now])
    else if now - ring[0] <= RATE_WINDOW then (false, ring)
    else (true, ring[1..] + [now])
  }

  /** In a sorted history the recent fires are a suffix. */
  lemma {:induction false} RecentIsSuffix(h: seq<Time>, now: Time, i: nat)
    requires Sorted(h) && i < |h|
    ensures Recent(h, now) >= |h| - i <==> now - h[i] <= RATE_WINDOW
    ensures Recent(h, now) <= |h|
  {
    var front := h[..|h| - 1];
    if i < |front| {
      RecentIsSuffix(front, now, i);
      assert front[i] == h[i] <= h[|h| - 1];
    } else {
      RecentAtMost(front, now);
      if front != [] && now - h[i] > RATE_WINDOW {
        NoneRecent(front, now, h[i]);
      }
    }
  }

  lemma {:induction false} RecentAtMost(h: seq<Time>, now: Time)
    ensures Recent(h, now) <= |h|
  {
    if h != [] {
      RecentAtMost(h[..|h| - 1], now);
    }
  }

  lemma {:induction false} NoneRecent(h: seq<Time>, now: Time, bound: Time)
    requires now - bound > RATE_WINDOW && forall i :: 0 <= i < |h| ==> h[i] <= bound
    ensures Recent(h, now) == 0
  {
    if h != [] {
      NoneRecent(h[..|h| - 1], now, bound);
    }
  }

  /**
    The ring decides as the whole history would: fire iff fewer than five fires
    are recent. And the ring afterwards is again the end of the history.
   */
  lemma RingDecidesAsHistory(h: seq<Time>, now: Time)
    requires Sorted(h)
    ensures var (fire, ring) := Decided(LastFires(h), now);
      && (fire <==> Recent(h, now) < MAX_FIRES)
      && ring == LastFires(if fire then h + [now] else h)
  {
    hide Recent;
    hide Sorted;
    if |h| < MAX_FIRES {
      RecentAtMost(h, now);
    } else {
      RecentIsSuffix(h, now, |h| - MAX_FIRES);
      assert LastFires(h)[0] == h[|h| - MAX_FIRES];
      assert LastFires(h + [now]) == LastFires(h)[1..] + [now];
    }
  }

  /** Any six consecutive fires span more than the rate window. */
  predicate Capped(h: seq<Time>) {
    forall i :: 0 <= i && i + MAX_FIRES < |h| ==> h[i + MAX_FIRES] - h[i] > RATE_WINDOW
  }

  lemma FiringKeepsCapped(h: seq<Time>, now: Time)
    requires Sorted(h) && Capped(h) && Recent(h, now) < MAX_FIRES
    requires forall i :: 0 <= i < |h| ==> h[i] <= now
    ensures Sorted(h + [now]) && Capped(h + [now])
  {
    if |h| >= MAX_FIRES {
      RecentIsSuffix(h, now, |h| - MAX_FIRES);
    }
  }

  /** Fires in the closed interval from lo to hi. */
  function FiresIn(h: seq<Time>, lo: Time, hi: Time): nat {
    if h == [] then 0
    else FiresIn(h[..|h| - 1], lo, hi) + if lo <= h[|h| - 1] <= hi then 1 else 0
  }

  /** At most five fires fall into any closed interval as long as the rate window, wherever it starts. */
  lemma {:induction false} AtMostFiveInAnyWindow(h: seq<Time>, lo: Time)
    requires Sorted(h) && Capped(h)
    ensures FiresIn(h, lo, lo + RATE_WINDOW) <= MAX_FIRES
  {
    if h != [] {
      var front := h[..|h| - 1];
      if lo <= h[|h| - 1] <= lo + RATE_WINDOW && |h| > MAX_FIRES {
        var k := |h| - 1 - MAX_FIRES;
        assert h[k + MAX_FIRES] - h[k] > RATE_WINDOW;
        assert h[k] < lo;
        FewAfter(front, lo, lo + RATE_WINDOW, k);
      } else if |h| <= MAX_FIRES {
        FewAfter(h, lo, lo + RATE_WINDOW, -1);
      } else {
        AtMostFiveInAnyWindow(front, lo);
      }
    }
  }

  /** When entry k, and so everything before it, lies below lo, only the entries after k count. */
  lemma {:induction false} FewAfter(h: seq<Time>, lo: Time, hi: Time, k: int)
    requires Sorted(h) && -1 <= k < |h| && (k >= 0 ==> h[k] < lo)
    ensures FiresIn(h, lo, hi) <= |h| - 1 - k
  {
    if k < |h| - 1 {
      assert h != [];
      FewAfter(h[..|h| - 1], lo, hi, k);
    } else if k >= 1 {
      FewAfter(h[..|h| - 1], lo, hi, k - 1);
    }
  }

  function Entry(m: map<string, seq<Time>>, quota: string): seq<Time> {
    if quota in m then m[quota] else []
  }

  /** The ring of one window stands for its history up to the clock. */
  predicate Tracks(ring: seq<Time>, h: seq<Time>, clock: Time) {
    && ring == LastFires(h)
    && Sorted(h) && Capped(h)
    && (forall i :: 0 <= i < |h| ==> h[i] <= clock)
  }

  /** One decision keeps the ring in step with the history. */
  lemma DecisionTracks(ring: seq<Time>, h: seq<Time>, clock: Time, now: Time)
    requires Tracks(ring, h, clock) && clock <= now
    ensures var (fire, next) := Decided(ring, now);
      Tracks(next, if fire then h + [now] else h, now) && (fire <==> Recent(h, now) < MAX_FIRES)
  {
    RingDecidesAsHistory(h, now);
    if Recent(h, now) < MAX_FIRES {
      FiringKeepsCapped(h, now);
    }
  }

  ghost predicate AllTrack(fires: map<string, seq<Time>>, history: map<string, seq<Time>>, clock: Time) {
    forall q :: Tracks(Entry(fires, q), Entry(history, q), clock)
  }

  /** A decision about one window keeps every window in step. */
  lemma DecisionKeepsAll(fires: map<string, seq<Time>>, history: map<string, seq<Time>>, clock: Time, quota: string, now: Time)
    requires AllTrack(fires, history, clock) && clock <= now
    ensures var (fire, next) := Decided(Entry(fires, quota), now);
      && (fire <==> Recent(Entry(history, quota), now) < MAX_FIRES)
      && if fire then AllTrack(fires[quota := next], history[quota := Entry(history, quota) + [now]], now)
         else AllTrack(fires, history, now)
  {
    hide Tracks;
    hide Decided;
    hide Recent;
    var (fire, next) := Decided(Entry(fires, quota), now);
    assert Tracks(Entry(fires, quota), Entry(history, quota), clock);
    DecisionTracks(Entry(fires, quota), Entry(history, quota), clock, now);
    forall q
      ensures Tracks(Entry(fires, q), Entry(history, q), now)
    {
      assert Tracks(Entry(fires, q), Entry(history, q), clock);
      LaterClock(Entry(fires, q), Entry(history, q), clock, now);
    }
    var fires', history' := fires[quota := next], history[quota := Entry(history, quota) + [now]];
    forall q | fire
      ensures Tracks(Entry(fires', q), Entry(history', q), now)
    {
      assert q != quota ==> Entry(fires', q) == Entry(fires, q) && Entry(history', q) == Entry(history, q);
    }
  }

  lemma LaterClock(ring: seq<Time>, h: seq<Time>, clock: Time, now: Time)
    requires Tracks(ring, h, clock) && clock <= now
    ensures Tracks(ring, h, now)
  {
  }

  // Every run of decisions.

  /** One call: which quota window, and the clock at the decision. */
  datatype Call = Call(quota: string, now: Time)

  function Rings(calls: seq<Call>): map<string, seq<Time>> {
    if calls == [] then map[]
    else
      var call, before := calls[|calls| - 1], Rings(calls[..|calls| - 1]);
      var (fire, ring) := Decided(Entry(before, call.quota), call.now);
      if fire then before[call.quota := ring] else before
  }

  /** Whether the last of the calls fires. */
  predicate CallFires(calls: seq<Call>)
    requires calls != []
  {
    Decided(Entry(Rings(calls[..|calls| - 1]), calls[|calls| - 1].quota), calls[|calls| - 1].now).0
  }

  /** The times at which a quota window was fired. */
  function FiredAt(calls: seq<Call>, quota: string): seq<Time> {
    if calls == [] then []
    else
      FiredAt(calls[..|calls| - 1], quota)
      + if calls[|calls| - 1].quota == quota && CallFires(calls) then [calls[|calls| - 1].now] else []
  }

  predicate Monotone(calls: seq<Call>) {
    forall i, j :: 0 <= i < j < |calls| ==> calls[i].now <= calls[j].now
  }

  /** `now` is no earlier than the last of the calls. */
  predicate NotBefore(calls: seq<Call>, now: Time) {
    calls != [] ==> calls[|calls| - 1].now <= now
  }

  /** What one more call does to the ring and the fires of a window. */
  lemma CallStep(calls: seq<Call>, call: Call, quota: string)
    ensures var (fire, next) := Decided(Entry(Rings(calls), quota), call.now);
      && Entry(Rings(calls + [call]), quota) == (if call.quota == quota then next else Entry(Rings(calls), quota))
      && FiredAt(calls + [call], quota) == FiredAt(calls, quota) + if call.quota == quota && fire then [call.now] else []
  {
    assert (calls + [call])[..|calls|] == calls;
  }

  /** In every run, each ring stands for the fires of its own window. */
  lemma {:induction false} RunTracks(calls: seq<Call>, quota: string, now: Time)
    requires Monotone(calls) && NotBefore(calls, now)
    ensures Tracks(Entry(Rings(calls), quota), FiredAt(calls, quota), now)
  {
    if calls == [] {
      NothingFired(quota, now);
    } else {
      var before, call := calls[..|calls| - 1], calls[|calls| - 1];
      assert before + [call] == calls;
      RunTracks(before, quota, call.now);
      hide *;
      CallTracks(before, call, quota);
      LaterClock(Entry(Rings(calls), quota), FiredAt(calls, quota), call.now, now);
    }
  }

  lemma CallTracks(before: seq<Call>, call: Call, quota: string)
    requires Tracks(Entry(Rings(before), quota), FiredAt(before, quota), call.now)
    ensures Tracks(Entry(Rings(before + [call]), quota), FiredAt(before + [call], quota), call.now)
  {
    hide *;
    CallStep(before, call, quota);
    DecisionTracks(Entry(Rings(before), quota), FiredAt(before, quota), call.now, call.now);
    assert FiredAt(before, quota) + [] == FiredAt(before, quota);
  }

  lemma NothingFired(quota: string, now: Time)
    ensures Tracks(Entry(Rings([]), quota), FiredAt([], quota), now)
  {
  }

  /**
    The cap. Whatever calls are made under a clock that does not go back, any
    closed interval as long as the rate window holds at most five fires of a quota.
   */
  lemma AtMostFiveFires(calls: seq<Call>, quota: string, lo: Time)
    requires Monotone(calls)
    ensures FiresIn(FiredAt(calls, quota), lo, lo + 4 * 3_600_000_000_000) <= 5
  {
    if calls != [] {
      RunTracks(calls, quota, calls[|calls| - 1].now);
      AtMostFiveInAnyWindow(FiredAt(calls, quota), lo);
    }
  }

  /** And nothing is refused needlessly: the last call fires iff fewer than five fires of its own window are recent. */
  lemma CallFiresIff(calls: seq<Call>)
    requires Monotone(calls) && calls != []
    ensures var call := calls[|calls| - 1];
      CallFires(calls) <==>
        FiresIn(FiredAt(calls[..|calls| - 1], call.quota), call.now - 4 * 3_600_000_000_000, call.now) < 5
  {
    hide *;
    var before, call := calls[..|calls| - 1], calls[|calls| - 1];
    LastCall(calls);
    RunTracks(before, call.quota, call.now);
    TrackedUpTo(Entry(Rings(before), call.quota), FiredAt(before, call.quota), call.now);
    RecentIsFiresIn(FiredAt(before, call.quota), call.now);
    DecisionTracks(Entry(Rings(before), call.quota), FiredAt(before, call.quota), call.now, call.now);
  }

  lemma LastCall(calls: seq<Call>)
    requires Monotone(calls) && calls != []
    ensures var before, call := calls[..|calls| - 1], calls[|calls| - 1];
      && Monotone(before) && NotBefore(before, call.now) && MAX_FIRES == 5
      && (CallFires(calls) <==> Decided(Entry(Rings(before), call.quota), call.now).0)
  {
    hide Decided;
    hide Rings;
  }

  lemma TrackedUpTo(ring: seq<Time>, h: seq<Time>, clock: Time)
    requires Tracks(ring, h, clock)
    ensures forall i :: 0 <= i < |h| ==> h[i] <= clock
  {
  }

  /** The recent fires are those of the window that ends now. */
  lemma {:induction false} RecentIsFiresIn(h: seq<Time>, now: Time)
    requires forall i :: 0 <= i < |h| ==> h[i] <= now
    ensures Recent(h, now) == FiresIn(h, now - 4 * 3_600_000_000_000, now)
  {
    if h != [] {
      RecentIsFiresIn(h[..|h| - 1], now);
    }
  }

  /** The same for the limiter's own history. */
  lemma LimiterIsCapped(l: StarterLimiter, quota: string, lo: Time)
    requires l.Valid()
    ensures FiresIn(Entry(l.history, quota), lo, lo + RATE_WINDOW) <= MAX_FIRES
  {
    assert Tracks(Entry(l.starterFires, quota), Entry(l.history, quota), l.clock);
    AtMostFiveInAnyWindow(Entry(l.history, quota), lo);
  }

  class StarterLimiter {
    var starterFires: map<string, seq<Time>>
    /** Every fire so far, and the latest clock reading. */
    ghost var history: map<string, seq<Time>>
    ghost var clock: Time

    ghost predicate Valid()
      reads this
    {
      AllTrack(starterFires, history, clock)
    }

    constructor (ghost now: Time)
      ensures Valid() && history == map[] && clock == now
    {
      starterFires, history, clock := map[], map[], now;
    }

    /** The mutex is held throughout, so calls are ordered and their clock readings do not go back. */
    method AllowStarterPing(quotaName: string, now: Time) returns (fire: bool)
      requires Valid() && now >= clock
      modifies this
      ensures Valid() && clock == now
      ensures fire <==> Recent(Entry(old(history), quotaName), now) < MAX_FIRES
      ensures history == if fire then old(history)[quotaName := Entry(old(history), quotaName) + [now]] else old(history)
      ensures forall q :: q != quotaName ==> Entry(starterFires, q) == Entry(old(starterFires), q)
    {
      hide AllTrack;
      hide Recent;
      DecisionKeepsAll(starterFires, history, clock, quotaName, now);
      clock := now;
      var fires := Entry(starterFires, quotaName);
      if |fires| < MAX_FIRES {
        starterFires := starterFires[quotaName := fires + [now]];
      } else if now - fires[0] <= RATE_WINDOW {
        return false;
      } else {
        starterFires := starterFires[quotaName := fires[1..] + [now]];
      }
      history := history[quotaName := Entry(history, quotaName) + [now]];
      fire := true;
    }
  }
}
