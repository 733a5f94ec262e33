/** What the guards of the Anthropic agent do not cover, on concrete runs from a first start. */
module AnthropicExamples {
  import opened Prelude
  import opened AnthropicAuth
  import opened AnthropicLaws
  import opened AnthropicPause
  import opened AnthropicPausedPolls
  import opened AnthropicReplay

  const OPEN_GATE: Gate := Gate(0, true, false, Untouched, Grant(Creds("A1", "R1"), false), 0)
  const IDLE_POLL: PollIn := PollIn(true, Unusable, Untouched, false, OPEN_GATE, Untouched, 0, OPEN_GATE, FetchOther,
                                    OPEN_GATE, FetchOther, Untouched, FetchOther, OPEN_GATE, FetchOther, 0)
  const API_MODE: Config := Config(true, true, false, 0)

  function FirstState(): Sys {
    Sys(Agent("A0", "", 0, false, "", None, 0, "", 0, false, None, 0),
        World(0, Some(Creds("A0", "R0")), {}, {"A0", "R0"}, []))
  }

  lemma FirstStateIsInitial()
    ensures Initial(FirstState()) && PauseInv(FirstState())
  {
  }

  lemma RunTwo(s: Sys, c: Config, a: PollIn, b: PollIn)
    ensures Run(s, c, [a]) == Poll(s, c, a).0
    ensures Run(s, c, [a, b]) == Poll(Poll(s, c, a).0, c, b).0
  {
    hide Poll;
    assert [a, b][..1] == [a] && [a][..0] == [];
    assert Run(s, c, [a][..0]) == s;
  }

  lemma RunThree(s: Sys, c: Config, a: PollIn, b: PollIn, d: PollIn)
    ensures Run(s, c, [a, b, d]) == Poll(Poll(Poll(s, c, a).0, c, b).0, c, d).0
  {
    hide Poll;
    RunTwo(s, c, a, b);
    assert [a, b, d][..2] == [a, b];
  }

  // A spent token at the bypass.

  const EXPIRING: PollIn := IDLE_POLL.(expiringSoon := true)
  const LIMITED: PollIn := IDLE_POLL.(fetch := FetchLimited)

  lemma UnsavedBeforeReread()
    ensures var t := BeforeReread(FirstState(), API_MODE, EXPIRING);
      && t.w.stored == Some(Creds("A0", "R0")) && "R0" in t.w.spent && t.a.superseded == "A0"
      && !t.a.authPaused && !t.a.rateLimitPaused
  {
  }

  lemma UnsavedRefresh()
    ensures var s1 := Poll(FirstState(), API_MODE, EXPIRING).0;
      && s1.w.stored == Some(Creds("A0", "R0")) && "R0" in s1.w.spent && s1.a.superseded == "A0"
      && !s1.a.authPaused && !s1.a.rateLimitPaused
  {
    UnsavedBeforeReread();
    hide BeforeReread;
  }

  lemma BypassPresents(s: Sys)
    requires s.w.stored.Some? && s.w.stored.value.refresh != "" && s.w.stored.value.refresh in s.w.spent
    requires s.w.stored.value.access == s.a.superseded && !s.a.authPaused && !s.a.rateLimitPaused
    ensures exists e :: e in Poll(s, API_MODE, LIMITED).0.w.log && e.Attempt? && e.site.Bypass? && e.tokenSpent
  {
    var t := Poll(s, API_MODE, LIMITED).0;
    assert t.w.log[|s.w.log| + 1] == Attempt(Bypass, s.w.clock, s.w.stored.value, true, true, true, false, false);
  }

  /** A proactive refresh whose write fails, then a 429: the bypass presents the refresh token already spent. */
  lemma BypassMayPresentASpentToken()
    ensures Initial(FirstState())
    ensures exists e :: e in Run(FirstState(), API_MODE, [EXPIRING, LIMITED]).w.log && e.Attempt? && e.site.Bypass? && e.tokenSpent
  {
    FirstStateIsInitial();
    hide Poll;
    RunTwo(FirstState(), API_MODE, EXPIRING, LIMITED);
    UnsavedRefresh();
    BypassPresents(Poll(FirstState(), API_MODE, EXPIRING).0);
  }

  // A spent token at the proactive refresh.

  const EXPIRING_LOST: PollIn := EXPIRING.(proactive := OPEN_GATE.(answer := Lost))

  lemma LostRefresh()
    ensures var s1 := Poll(FirstState(), API_MODE, EXPIRING_LOST).0;
      && s1.w.stored == Some(Creds("A0", "R0")) && "R0" in s1.w.spent && s1.a.superseded == ""
      && !s1.a.authPaused && !s1.a.rateLimitPaused
  {
  }

  lemma ProactivePresents(s: Sys)
    requires s.w.stored == Some(Creds("A0", "R0")) && "R0" in s.w.spent && s.a.superseded == ""
    requires !s.a.authPaused && !s.a.rateLimitPaused
    ensures exists e :: e in Poll(s, API_MODE, EXPIRING).0.w.log && e.Attempt? && e.site.Proactive? && e.tokenSpent && !e.superseded
  {
    var e := Attempt(Proactive, s.w.clock, Creds("A0", "R0"), true, false, true, false, false);
    assert BeforeReread(s, API_MODE, EXPIRING).w.log[|s.w.log|] == e;
    assert Poll(s, API_MODE, EXPIRING).0.w.log[|s.w.log|] == e;
  }

  /** An exchange whose reply is lost leaves a spent token behind that nothing marks: the next proactive refresh presents it. */
  lemma LostReplyLetsProactivePresentASpentToken()
    ensures Initial(FirstState())
    ensures exists e :: e in Run(FirstState(), API_MODE, [EXPIRING_LOST, EXPIRING]).w.log
                        && e.Attempt? && e.site.Proactive? && e.tokenSpent
  {
    FirstStateIsInitial();
    hide Poll;
    RunTwo(FirstState(), API_MODE, EXPIRING_LOST, EXPIRING);
    LostRefresh();
    ProactivePresents(Poll(FirstState(), API_MODE, EXPIRING_LOST).0);
  }

  // A restart over a token that was spent.

  /** After a refresh whose write fails the process starts anew: the proactive refresh presents the spent token, and no reply was lost. */
  lemma RestartLetsProactivePresentASpentToken()
    ensures Initial(FirstState())
    ensures var s := Restarted(Run(FirstState(), API_MODE, [EXPIRING]).w, "A0");
      && Initial(s)
      && exists e :: e in Run(s, API_MODE, [EXPIRING]).w.log && e.Attempt? && e.site.Proactive? && e.tokenSpent && !e.superseded
  {
    hide *;
    FirstStateIsInitial();
    RestartIsInitial(FirstState(), API_MODE, [EXPIRING], "A0");
    UnsavedRefresh();
    RunTwo(FirstState(), API_MODE, EXPIRING, EXPIRING);
    var s := Restarted(Run(FirstState(), API_MODE, [EXPIRING]).w, "A0");
    RunTwo(s, API_MODE, EXPIRING, EXPIRING);
    RestartedKeepsTheWorld(Run(FirstState(), API_MODE, [EXPIRING]).w, "A0");
    ProactivePresents(s);
  }

  lemma RestartedKeepsTheWorld(w: World, token: Token)
    ensures var s := Restarted(w, token);
      s.w.stored == w.stored && s.w.spent == w.spent && s.a.superseded == "" && !s.a.authPaused && !s.a.rateLimitPaused
  {
  }

  // A lockout that unchanged credentials lift.

  const LOCKED_OUT: Gate := OPEN_GATE.(answer := RateLimited(HOUR))
  const EXPIRING_LOCKED: PollIn := EXPIRING.(proactive := LOCKED_OUT)
  const EXPIRING_LOCKED_UNREADABLE: PollIn := EXPIRING_LOCKED.(fetch := FetchAuth, beforeForced := Unreadable)

  /** The OAuth endpoint has locked the agent out until an hour from now; the log says so at position n. */
  predicate LockedOut(s: Sys, n: nat) {
    && n < |s.w.log| && s.w.log[n] == Limited(s.w.clock, HOUR, s.w.clock + HOUR)
    && s.a.rateLimitPaused && s.a.rateLimitResumeAt == Some(s.w.clock + HOUR) && s.w.clock == 0
    && s.w.stored == Some(Creds("A0", "R0")) && s.w.spent == {} && s.a.superseded == "" && !s.a.authPaused
  }

  /** A refresh at position j within the lockout logged at position i, for the very pair that was stored all the time. */
  predicate RefreshWithinLockout(h: seq<Event>, i: int, j: int) {
    0 <= i < j < |h| && h[i].Limited? && h[j].Attempt? && h[j].creds == Creds("A0", "R0") && h[j].at < h[i].until
  }

  lemma LocksAndForgets(s: Sys)
    requires Failing(s, 0) && s.a.lastToken == "A0" && s.w.clock == 0
    ensures var t := Poll(s, API_MODE, EXPIRING_LOCKED_UNREADABLE).0;
      LockedOut(t, |s.w.log| + 1) && t.a.lastToken == ""
  {
  }

  lemma SameTokenLifts(s: Sys, n: nat)
    requires LockedOut(s, n) && s.a.lastToken == ""
    ensures exists j :: RefreshWithinLockout(Poll(s, API_MODE, LIMITED).0.w.log, n, j)
  {
    var t := Poll(s, API_MODE, LIMITED).0;
    assert t.w.log[n] == s.w.log[n];
    assert t.w.log[|s.w.log|].CredentialsChanged?;
    assert t.w.log[|s.w.log| + 2] == Attempt(Bypass, 0, Creds("A0", "R0"), false, false, true, false, false);
    assert RefreshWithinLockout(t.w.log, n, |s.w.log| + 2);
  }

  /**
    The endpoint locks the agent out; a forced re-read fails and leaves no token to
    compare with; the next re-read takes the unchanged token for new and lifts the
    lockout, and the bypass refreshes within it.
   */
  lemma FailedReadLiftsLockout()
    ensures Initial(FirstState())
    ensures exists i, j :: RefreshWithinLockout(
      Run(FirstState(), API_MODE, [IDLE_POLL, EXPIRING_LOCKED_UNREADABLE, LIMITED]).w.log, i, j)
  {
    FirstStateIsInitial();
    hide Poll;
    var s0 := FirstState();
    var s1 := Poll(s0, API_MODE, IDLE_POLL).0;
    var s2 := Poll(s1, API_MODE, EXPIRING_LOCKED_UNREADABLE).0;
    RunThree(s0, API_MODE, IDLE_POLL, EXPIRING_LOCKED_UNREADABLE, LIMITED);
    InstallsFirstToken();
    LocksAndForgets(s1);
    SameTokenLifts(s2, |s1.w.log| + 1);
  }

  /** The same in the first poll of all: its own re-read has nothing to compare the token with. */
  lemma FirstPollLiftsLockout()
    ensures Initial(FirstState())
    ensures exists i, j :: RefreshWithinLockout(Run(FirstState(), API_MODE, [EXPIRING_LOCKED.(fetch := FetchLimited)]).w.log, i, j)
  {
    var in_ := EXPIRING_LOCKED.(fetch := FetchLimited);
    FirstStateIsInitial();
    FirstPollLocksAndLifts();
    hide Poll;
    RunTwo(FirstState(), API_MODE, in_, in_);
    assert RefreshWithinLockout(Poll(FirstState(), API_MODE, in_).0.w.log, 1, 4);
  }

  lemma FirstPollLocksAndLifts()
    ensures RefreshWithinLockout(Poll(FirstState(), API_MODE, EXPIRING_LOCKED.(fetch := FetchLimited)).0.w.log, 1, 4)
  {
    var h := Poll(FirstState(), API_MODE, EXPIRING_LOCKED.(fetch := FetchLimited)).0.w.log;
    assert h[1] == Limited(0, HOUR, HOUR);
    assert h[4] == Attempt(Bypass, 0, Creds("A0", "R0"), false, false, true, false, false);
  }

  // A pause that is not entered.

  const REJECTED: PollIn := IDLE_POLL.(fetch := FetchAuth, forcedFetch := FetchAuth)
  const REJECTED_CANCELLED: PollIn := REJECTED.(recoveryFetch := FetchCancelled)

  /** An agent over the first credentials that has counted this many failures. */
  predicate Failing(s: Sys, count: int) {
    && s.a.authFailCount == count && !s.a.authPaused && s.a.authRetryAt == None && !s.a.rateLimitPaused && s.a.superseded == ""
    && s.w.stored == Some(Creds("A0", "R0")) && s.w.spent == {} && s.w.known == {"A0", "R0"}
  }

  lemma RejectedCounts(s: Sys, count: int)
    requires Failing(s, count) && 0 <= count <= 1
    ensures Failing(Poll(s, API_MODE, REJECTED).0, count + 1)
  {
  }

  lemma ThirdIsCancelled(s: Sys)
    requires Failing(s, 2)
    ensures var t := Poll(s, API_MODE, REJECTED_CANCELLED).0;
      t.a.authFailCount == 3 && !t.a.authPaused && t.a.authRetryAt == None
  {
  }

  /**
    Three polls with authentication failures, the third cancelled between its
    recovery refresh and the fetch after it: three failures counted, nothing
    paused, no retry due.
   */
  lemma LateCancellationLeavesThePauseUndone()
    ensures Initial(FirstState()) && PauseInv(FirstState())
    ensures var t := Run(FirstState(), API_MODE, [REJECTED, REJECTED, REJECTED_CANCELLED]);
      t.a.authFailCount == 3 && !t.a.authPaused && t.a.authRetryAt == None && !PauseInv(t)
  {
    FirstStateIsInitial();
    hide Poll;
    var s0 := FirstState();
    RunThree(s0, API_MODE, REJECTED, REJECTED, REJECTED_CANCELLED);
    RejectedCounts(s0, 0);
    RejectedCounts(Poll(s0, API_MODE, REJECTED).0, 1);
    ThirdIsCancelled(Poll(Poll(s0, API_MODE, REJECTED).0, API_MODE, REJECTED).0);
  }

  // A refresh at the bypass in a poll that begins paused.

  const EXPIRING_INVALID: PollIn := EXPIRING.(proactive := OPEN_GATE.(answer := InvalidGrant))
  const ROTATED_LIMITED: PollIn := LIMITED.(beforeReread := Rotated(Creds("A2", "R2")))

  lemma InstallsFirstToken()
    ensures var s1 := Poll(FirstState(), API_MODE, IDLE_POLL).0;
      Failing(s1, 0) && s1.a.lastToken == "A0" && s1.w.clock == 0
  {
  }

  lemma InvalidGrantPauses(s: Sys)
    requires Failing(s, 0) && s.a.lastToken == "A0"
    ensures var t := Poll(s, API_MODE, EXPIRING_INVALID).0;
      && t.a.authPaused && t.a.lastToken == "A0" && t.a.lastFailedToken == "A0" && t.a.superseded == ""
      && !t.a.rateLimitPaused && t.w.known == {"A0", "R0"}
  {
  }

  /** Claude Code writes new credentials while the agent is paused; the fetch they allow is answered 429. */
  lemma RotationThenLimitBypasses(s: Sys)
    requires s.a.authPaused && s.a.lastToken == "A0" && s.a.lastFailedToken == "A0" && s.a.superseded == ""
    requires !s.a.rateLimitPaused && s.w.known == {"A0", "R0"}
    ensures ReachesApis(s, API_MODE, ROTATED_LIMITED) && BypassesAfterLift(AfterStatusline(s, ROTATED_LIMITED), API_MODE, ROTATED_LIMITED)
  {
  }

  /** A run in which a poll that begins paused refreshes at the 429 bypass. */
  lemma PausedPollMayBypass()
    ensures Initial(FirstState())
    ensures var s := Run(FirstState(), API_MODE, [IDLE_POLL, EXPIRING_INVALID]);
      var t := Run(FirstState(), API_MODE, [IDLE_POLL, EXPIRING_INVALID, ROTATED_LIMITED]);
      s.a.authPaused && exists i :: OtherRefresh(t.w.log, |s.w.log|, i) && t.w.log[i].site.Bypass?
  {
    FirstStateIsInitial();
    hide Poll;
    hide BypassesAfterLift;
    var s0 := FirstState();
    var s1 := Poll(s0, API_MODE, IDLE_POLL).0;
    var s2 := Poll(s1, API_MODE, EXPIRING_INVALID).0;
    RunTwo(s0, API_MODE, IDLE_POLL, EXPIRING_INVALID);
    RunThree(s0, API_MODE, IDLE_POLL, EXPIRING_INVALID, ROTATED_LIMITED);
    InstallsFirstToken();
    InvalidGrantPauses(s1);
    RotationThenLimitBypasses(s2);
    OtherRefreshWhilePausedIff(s2, API_MODE, ROTATED_LIMITED);
    var i :| OtherRefresh(Poll(s2, API_MODE, ROTATED_LIMITED).0.w.log, |s2.w.log|, i);
  }
}
