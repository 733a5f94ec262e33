/** The paused state of the Anthropic agent: when it is entered, and what may happen in it. */
module AnthropicPause {
  import opened AnthropicAuth

  /** Paused exactly at three counted failures, and then with a retry scheduled. */
  predicate PauseInv(s: Sys) {
    && 0 <= s.a.authFailCount <= 3
    && (s.a.authPaused <==> s.a.authFailCount == 3)
    && (s.a.authPaused ==> s.a.authRetryAt.Some?)
  }

  /** Same pause, same count, same schedule. */
  predicate SamePause(s: Sys, t: Sys) {
    && t.a.authFailCount == s.a.authFailCount && t.a.authPaused == s.a.authPaused && t.a.authRetryAt == s.a.authRetryAt
  }

  predicate PausedNow(s: Sys) {
    s.a.authFailCount == 3 && s.a.authPaused && s.a.authRetryAt.Some?
  }

  lemma ExchangedPause(s: Sys, site: Site, creds: Creds, gate: Gate)
    ensures var (t, granted) := Exchanged(s, site, creds, gate);
      SamePause(s, t) || (!granted && PausedNow(t))
  {
    hide RateLimitBackoff;
  }

  lemma OAuthRecoveredPause(s: Sys, c: Config, site: Site, gate: Gate)
    ensures var (t, granted) := OAuthRecovered(s, c, site, gate);
      SamePause(s, t) || (!granted && PausedNow(t))
  {
    hide Exchanged;
    var s2 := Touched(Tick(s, gate.wait), gate.external);
    if Found(Tick(s, gate.wait), gate.external).Some? {
      ExchangedPause(s2, site, s2.w.stored.value, gate);
    }
  }

  lemma BeforeRereadPause(s: Sys, c: Config, in_: PollIn)
    requires PauseInv(s)
    ensures PauseInv(BeforeReread(s, c, in_))
  {
    hide Exchanged;
    var s1 := Touched(s, in_.beforeProactive);
    if Found(s, in_.beforeProactive).Some? {
      ExchangedPause(Tick(s1, in_.proactive.wait), Proactive, s1.w.stored.value, in_.proactive);
    }
  }

  lemma RereadPause(s: Sys, c: Config, e: External)
    requires PauseInv(s)
    ensures PauseInv(Reread(s, c, e))
  {
  }

  lemma PausedRecoveredPause(s: Sys, c: Config, in_: PollIn)
    requires PauseInv(s) && s.a.authPaused
    ensures PauseInv(PausedRecovered(s, c, in_).0)
    ensures PausedRecovered(s, c, in_).1 ==> !PausedRecovered(s, c, in_).0.a.authPaused
  {
    hide OAuthRecovered;
    hide AuthRetryBackoff;
    var s1 := Tick(s, in_.waitPaused);
    OAuthRecoveredPause(Tried(s1), c, PausedRetry, in_.pausedRetry);
  }

  lemma BypassedPause(s: Sys, c: Config, gate: Gate, retry: Fetch)
    requires PauseInv(s) && !s.a.authPaused
    ensures var (t, exit) := Bypassed(s, c, gate, retry);
      PauseInv(t) && exit != CancelledAfterRecovery && (exit.Completed? ==> !t.a.authPaused)
  {
    hide Exchanged;
    var s1 := Tick(s, gate.wait);
    var failCount := if s1.a.rateLimitFailCount > 0 then s1.a.rateLimitFailCount - 1 else s1.a.rateLimitFailCount;
    var s2 :=
      if s1.a.rateLimitPaused then
        Log(s1.(a := s1.a.(rateLimitPaused := false, rateLimitFailCount := failCount)), BackoffExpired(s1.w.clock))
      else s1;
    var s3 := Touched(s2, gate.external);
    if Found(s2, gate.external).Some? {
      ExchangedPause(s3, Bypass, s3.w.stored.value, gate);
    }
  }

  // Which refreshes happen and succeed, as guards over the state and the inputs.

  /** The OAuth backoff of an agent at a time: it ends at the very moment it names. */
  predicate BacksOff(a: Agent, at: Time) {
    a.rateLimitPaused && a.rateLimitResumeAt.Some? && at < a.rateLimitResumeAt.value
  }

  /** A recovery or a bypass gets as far as presenting a refresh token. */
  predicate Presents(s: Sys, c: Config, gate: Gate) {
    && c.hasCredsRefresh && gate.autoRefresh && !gate.ccRunning && !BacksOff(s.a, s.w.clock + gate.wait)
    && Found(s, gate.external).Some? && Found(s, gate.external).value.refresh != ""
  }

  /** And the endpoint answers it with a new pair. */
  predicate Grants(s: Sys, c: Config, gate: Gate) {
    && Presents(s, c, gate)
    && ServerAnswer(Touched(s, gate.external).w, Found(s, gate.external).value.refresh, gate.answer).Grant?
  }

  lemma RecoveredIffGranted(s: Sys, c: Config, site: Site, gate: Gate)
    ensures OAuthRecovered(s, c, site, gate).1 <==> Grants(s, c, gate)
  {
    hide Refused;
    hide Installed;
  }

  /** A gate looks at the clock, the backoff and the rest of the world, and not at the history. */
  lemma GateIgnoresHistory(s: Sys, t: Sys, c: Config, gate: Gate)
    requires t.w == s.w.(log := t.w.log)
    requires t.a.rateLimitPaused == s.a.rateLimitPaused && t.a.rateLimitResumeAt == s.a.rateLimitResumeAt
    ensures Presents(t, c, gate) <==> Presents(s, c, gate)
    ensures Grants(t, c, gate) <==> Grants(s, c, gate)
  {
  }

  /**
    The third authentication failure in a row, whose recovery refresh succeeds and
    whose fetch after the refresh is cancelled, for an agent that has got as far as
    its first fetch.
   */
  predicate CancelledLateAtFetch(s: Sys, c: Config, in_: PollIn) {
    && s.a.authFailCount == 2
    && in_.fetch.FetchAuth? && c.hasTokenRefresh && in_.forcedFetch.FetchAuth?
    && FoundToken(s, in_.beforeForced) != ""
    && Grants(Touched(s, in_.beforeForced), c, in_.recovery)
    && in_.recoveryFetch.FetchCancelled?
  }

  /** A poll from s comes to that point. */
  predicate CancelledLate(s: Sys, c: Config, in_: PollIn) {
    && UsesApi(s, c, in_)
    && var (s1, go) := BeforeFetch(AfterStatusline(s, in_), c, in_);
       go && CancelledLateAtFetch(s1, c, in_)
  }

  lemma AfterAuthErrorPause(s: Sys, c: Config, in_: PollIn)
    requires PauseInv(s) && !s.a.authPaused && in_.fetch.FetchAuth? && c.hasTokenRefresh
    ensures var (t, exit) := AfterAuthError(s, c, in_);
      && (PauseInv(t) <==> !CancelledLateAtFetch(s, c, in_))
      && (exit.Completed? ==> !t.a.authPaused && PauseInv(t))
  {
    hide OAuthRecovered;
    hide Grants;
    var s1 := Touched(s.(a := s.a.(lastToken := "")), in_.beforeForced);
    var token := FoundToken(s, in_.beforeForced);
    var s2 := Called(Log(s1.(a := s1.a.(clientToken := token, lastToken := token)), ForcedReread(token)), AfterReread, in_.forcedFetch);
    var s3 := s2.(a := s2.a.(authFailCount := s2.a.authFailCount + 1));
    RecoveredIffGranted(s3, c, AuthFailure, in_.recovery);
    GateIgnoresHistory(Touched(s, in_.beforeForced), s3, c, in_.recovery);
    OAuthRecoveredPause(s3, c, AuthFailure, in_.recovery);
  }

  lemma FetchedPause(s: Sys, c: Config, in_: PollIn)
    requires PauseInv(s) && !s.a.authPaused
    ensures var (t, exit) := Fetched(s, c, in_);
      && (PauseInv(t) <==> !CancelledLateAtFetch(s, c, in_))
      && (exit.Completed? ==> !t.a.authPaused && PauseInv(t))
  {
    hide Bypassed;
    hide AfterAuthError;
    hide Grants;
    var s1 := Called(s, FirstFetch, in_.fetch);
    BypassedPause(s1, c, in_.bypass, in_.bypassFetch);
    if in_.fetch.FetchAuth? && c.hasTokenRefresh {
      AfterAuthErrorPause(s1, c, in_);
      GateIgnoresHistory(Touched(s, in_.beforeForced), Touched(s1, in_.beforeForced), c, in_.recovery);
    }
  }

  lemma BeforeFetchPause(s: Sys, c: Config, in_: PollIn)
    requires PauseInv(s)
    ensures var (t, go) := BeforeFetch(s, c, in_);
      PauseInv(t) && (go ==> !t.a.authPaused)
  {
    hide BeforeReread;
    hide Reread;
    hide PausedRecovered;
    BeforeRereadPause(s, c, in_);
    RereadPause(BeforeReread(s, c, in_), c, in_.beforeReread);
    var s1 := Reread(BeforeReread(s, c, in_), c, in_.beforeReread);
    if s1.a.authPaused {
      PausedRecoveredPause(s1, c, in_);
    }
  }

  /**
    One poll keeps the pause invariant if and only if it is not cancelled between
    a recovery refresh that succeeds and the fetch after it. When it is, three
    failures stay counted with nothing paused.
   */
  lemma {:induction false} PollKeepsPauseIff(s: Sys, c: Config, in_: PollIn)
    requires PauseInv(s)
    ensures PauseInv(Poll(s, c, in_).0) <==> !CancelledLate(s, c, in_)
  {
    hide BeforeFetch;
    hide Fetched;
    hide CancelledLateAtFetch;
    var s0 := AfterStatusline(s, in_);
    assert PauseInv(s0);
    BeforeFetchPause(s0, c, in_);
    var (s1, go) := BeforeFetch(s0, c, in_);
    if go {
      FetchedPause(s1, c, in_);
    }
  }

  predicate NeverCancelledLate(s: Sys, c: Config, ins: seq<PollIn>)
    decreases |ins|
  {
    ins == []
    || (NeverCancelledLate(s, c, ins[..|ins| - 1]) && !CancelledLate(Run(s, c, ins[..|ins| - 1]), c, ins[|ins| - 1]))
  }

  /** At the poll boundaries of every run without such a cancellation, the agent is paused iff it counted three failures. */
  lemma {:induction false} RunKeepsPause(s: Sys, c: Config, ins: seq<PollIn>)
    requires PauseInv(s) && NeverCancelledLate(s, c, ins)
    ensures PauseInv(Run(s, c, ins))
    decreases |ins|
  {
    hide Poll;
    hide CancelledLate;
    if ins != [] {
      RunKeepsPause(s, c, ins[..|ins| - 1]);
      PollKeepsPauseIff(Run(s, c, ins[..|ins| - 1]), c, ins[|ins| - 1]);
    }
  }

  /** In particular every run does in which no fetch after a recovery refresh is cancelled. */
  lemma {:induction false} UncancelledRunKeepsPause(s: Sys, c: Config, ins: seq<PollIn>)
    requires PauseInv(s) && forall in_ :: in_ in ins ==> !in_.recoveryFetch.FetchCancelled?
    ensures PauseInv(Run(s, c, ins))
  {
    NeverCancelledLateIfUncancelled(s, c, ins);
    RunKeepsPause(s, c, ins);
  }

  lemma {:induction false} NeverCancelledLateIfUncancelled(s: Sys, c: Config, ins: seq<PollIn>)
    requires forall in_ :: in_ in ins ==> !in_.recoveryFetch.FetchCancelled?
    ensures NeverCancelledLate(s, c, ins)
    decreases |ins|
  {
    hide BeforeFetch;
    hide Run;
    hide UsesApi;
    hide Grants;
    if ins != [] {
      NeverCancelledLateIfUncancelled(s, c, ins[..|ins| - 1]);
      assert ins[|ins| - 1] in ins;
    }
  }
}
