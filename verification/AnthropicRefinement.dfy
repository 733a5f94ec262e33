/** The steps of the agent, stage by stage, make exactly the events that the guards call for. */
module AnthropicRefinement {
  import opened Prelude
  import opened AnthropicAuth
  import opened AnthropicPause
  import opened AnthropicReplay

  // The stages of a poll.

  lemma ExchangedIsReplayed(s: Sys, site: Site, creds: Creds, gate: Gate)
    ensures Explains(s, Exchanged(s, site, creds, gate).0, [Refreshes(site)] + AnswerMarks(s.w, creds.refresh, gate.answer, site))
  {
    hide RateLimitBackoff;
    hide Explains;
    var e := Attempt(site, s.w.clock, creds, creds.refresh in s.w.spent, creds.access == s.a.superseded,
                     gate.autoRefresh, gate.ccRunning, InBackoff(s));
    var s1, t, late := Log(s, e), Exchanged(s, site, creds, gate).0, s.w.clock + gate.waitAfter;
    var rest := AnswerMarks(s.w, creds.refresh, gate.answer, site);
    One(s, s1, e);
    match ServerAnswer(s.w, creds.refresh, gate.answer) {
      case Grant(pair, saved) => One(s1, t, Granted(creds, pair, saved));
      case Lost =>
        var s2 := Log(s1, ReplyLost(creds.refresh));
        One(s1, s2, ReplyLost(creds.refresh));
        if site.Bypass? {
          One(s2, t, BypassFailed(late));
        } else {
          Nothing(s2, t);
        }
        Then(s1, s2, t, [LosesReply], rest[1..]);
      case InvalidGrant => One(s1, t, PauseStarted(late, s.a.lastToken, true));
      case RateLimited(retryAfter) =>
        One(s1, t, Limited(late, retryAfter, late + if retryAfter > 0 then retryAfter else RateLimitBackoff(s.a.rateLimitFailCount + 1)));
      case Failed =>
        if site.Bypass? {
          One(s1, t, BypassFailed(late));
        } else {
          Nothing(s1, t);
        }
    }
    Then(s, s1, t, [Refreshes(site)], rest);
  }

  lemma OAuthRecoveredIsReplayed(s: Sys, c: Config, site: Site, gate: Gate)
    ensures Explains(s, OAuthRecovered(s, c, site, gate).0, GateMarks(s, c, site, gate))
  {
    hide Exchanged;
    hide Explains;
    hide AnswerMarks;
    var s1, t := Touched(Tick(s, gate.wait), gate.external), OAuthRecovered(s, c, site, gate).0;
    if Presents(s, c, gate) {
      var creds := s1.w.stored.value;
      Nothing(s, s1);
      ExchangedIsReplayed(s1, site, creds, gate);
      SameAnswer(Touched(s, gate.external).w, s1.w, creds.refresh, gate.answer, site);
      Then(s, s1, t, [], GateMarks(s, c, site, gate));
    } else {
      Nothing(s, t);
    }
  }

  /** The endpoint looks at the tokens it knows, and at neither clock nor history. */
  lemma SameAnswer(v: World, w: World, token: Token, answer: Answer, site: Site)
    requires v.spent == w.spent && v.known == w.known
    ensures AnswerMarks(v, token, answer, site) == AnswerMarks(w, token, answer, site)
  {
  }

  lemma BeforeRereadIsReplayed(s: Sys, c: Config, in_: PollIn)
    ensures Explains(s, BeforeReread(s, c, in_), ProactiveMarks(s, c, in_))
  {
    hide Exchanged;
    hide Explains;
    hide AnswerMarks;
    hide Resumed;
    var gate, t := in_.proactive, BeforeReread(s, c, in_);
    var s1 := Tick(Touched(s, in_.beforeProactive), gate.wait);
    if RefreshesProactively(s, c, in_) {
      var creds := s1.w.stored.value;
      Nothing(s, s1);
      ExchangedIsReplayed(s1, Proactive, creds, gate);
      SameAnswer(Touched(s, in_.beforeProactive).w, s1.w, creds.refresh, gate.answer, Proactive);
      GrantedStaysUnpaused(s1, Proactive, creds, gate);
      Then(s, s1, t, [], ProactiveMarks(s, c, in_));
    } else {
      Nothing(s, t);
    }
  }

  lemma GrantedStaysUnpaused(s: Sys, site: Site, creds: Creds, gate: Gate)
    ensures Exchanged(s, site, creds, gate).1 ==> Exchanged(s, site, creds, gate).0.a.authPaused == s.a.authPaused
    ensures Exchanged(s, site, creds, gate).1 ==>
      Exchanged(s, site, creds, gate).0.a.authFailCount == s.a.authFailCount
    ensures Exchanged(s, site, creds, gate).1 <==> ServerAnswer(s.w, creds.refresh, gate.answer).Grant?
    ensures !Exchanged(s, site, creds, gate).1 ==>
      Exchanged(s, site, creds, gate).0.a.authPaused == (s.a.authPaused || ServerAnswer(s.w, creds.refresh, gate.answer).InvalidGrant?)
    ensures Exchanged(s, site, creds, gate).0.a.authFailCount
         == if ServerAnswer(s.w, creds.refresh, gate.answer).InvalidGrant? then 3 else s.a.authFailCount
  {
    hide RateLimitBackoff;
  }

  lemma RereadIsReplayed(s: Sys, c: Config, e: External)
    ensures Explains(s, Reread(s, c, e), RereadMarks(s, c, e))
  {
    hide Explains;
    hide Adopted;
    var t, token := Reread(s, c, e), FoundToken(s, e);
    if RereadMarks(s, c, e) == [] {
      Nothing(s, t);
    } else {
      Nothing(s, Touched(s, e));
      AdoptedIsReplayed(Touched(s, e), token);
      Then(s, Touched(s, e), t, [], RereadMarks(s, c, e));
    }
  }

  lemma AdoptedIsReplayed(s: Sys, token: Token)
    requires token !in {"", s.a.superseded, s.a.lastToken}
    ensures Explains(s, Adopted(s, token),
                     [Adopts(token)] + if s.a.authPaused && token != s.a.lastFailedToken then [LiftsPause, ResetsSchedule] else [])
  {
    hide Explains;
    var t, event := Adopted(s, token), CredentialsChanged(token, s.a.clientToken);
    var s1 := Log(s.(a := Effect(s.a, event)), event);
    One(s, s1, event);
    if s.a.authPaused && token != s.a.lastFailedToken {
      var s2 := Log(s1.(a := Effect(s1.a, PauseLifted)), PauseLifted);
      One(s1, s2, PauseLifted);
      One(s2, t, ScheduleReset);
      Then(s1, s2, t, [LiftsPause], [ResetsSchedule]);
      assert [LiftsPause] + [ResetsSchedule] == [LiftsPause, ResetsSchedule];
      Then(s, s1, t, [Adopts(token)], [LiftsPause, ResetsSchedule]);
    } else {
      Nothing(s1, t);
      Then(s, s1, t, [Adopts(token)], []);
    }
  }

  lemma PausedRecoveredIsReplayed(s: Sys, c: Config, in_: PollIn)
    requires s.a.authPaused
    ensures Explains(s, PausedRecovered(s, c, in_).0, RetryMarks(s, c, in_))
    ensures PausedRecovered(s, c, in_).1 <==> RetryGranted(s, c, in_)
    ensures PausedRecovered(s, c, in_).1 ==> !PausedRecovered(s, c, in_).0.a.authPaused
  {
    hide Explains;
    hide OAuthRecovered;
    hide GateMarks;
    hide Presents;
    hide Grants;
    var s1, t := Tick(s, in_.waitPaused), PausedRecovered(s, c, in_).0;
    if RetryDue(s, in_) {
      var s2 := Tried(s1);
      var s3 := OAuthRecovered(s2, c, PausedRetry, in_.pausedRetry).0;
      var gate := GateMarks(s1, c, PausedRetry, in_.pausedRetry);
      TriedIsReplayed(s, in_);
      SameGateMarks(s1, s2, c, PausedRetry, in_.pausedRetry);
      RecoveredIffGranted(s2, c, PausedRetry, in_.pausedRetry);
      OAuthRecoveredIsReplayed(s2, c, PausedRetry, in_.pausedRetry);
      Then(s, s2, s3, [Tries], gate);
      if RetryGranted(s, c, in_) {
        RecoveredStays(s2, c, PausedRetry, in_.pausedRetry);
        One(s3, t, PauseLifted);
        Then(s, s3, t, [Tries] + gate, [LiftsPause]);
      } else {
        Nothing(s3, t);
        Then(s, s3, t, [Tries] + gate, []);
      }
    } else {
      Nothing(s, t);
    }
  }

  lemma TriedIsReplayed(s: Sys, in_: PollIn)
    requires s.a.authPaused && RetryDue(s, in_)
    ensures Explains(s, Tried(Tick(s, in_.waitPaused)), [Tries])
  {
    hide Explains;
    hide AuthRetryBackoff;
    var s1 := Tick(s, in_.waitPaused);
    Nothing(s, s1);
    One(s1, Tried(s1), PausedTry(s1.w.clock, s1.a.authRetryCount + 1));
    Then(s, s1, Tried(s1), [], [Tries]);
  }

  /** A gate looks at neither the history nor the fields that do not concern the backoff. */
  lemma SameGateMarks(s: Sys, t: Sys, c: Config, site: Site, gate: Gate)
    requires t.w == s.w.(log := t.w.log)
    requires t.a.rateLimitPaused == s.a.rateLimitPaused && t.a.rateLimitResumeAt == s.a.rateLimitResumeAt
    ensures GateMarks(t, c, site, gate) == GateMarks(s, c, site, gate)
    ensures Grants(t, c, gate) <==> Grants(s, c, gate)
    ensures Revokes(t, c, gate) <==> Revokes(s, c, gate)
  {
    GateIgnoresHistory(s, t, c, gate);
    if Presents(s, c, gate) {
      var v, w := Touched(s, gate.external).w, Touched(t, gate.external).w;
      SameAnswer(v, w, v.stored.value.refresh, gate.answer, site);
    }
  }

  /** A recovery that is granted leaves pause and failures as they are; one that is not pauses only when the token is revoked. */
  lemma RecoveredStays(s: Sys, c: Config, site: Site, gate: Gate)
    ensures var (t, granted) := OAuthRecovered(s, c, site, gate);
      && t.a.authPaused == (s.a.authPaused || Revokes(s, c, gate))
      && t.a.authFailCount == if Revokes(s, c, gate) then 3 else s.a.authFailCount
  {
    hide Exchanged;
    if Presents(s, c, gate) {
      var s1 := Touched(Tick(s, gate.wait), gate.external);
      GrantedStaysUnpaused(s1, site, s1.w.stored.value, gate);
    }
  }

  lemma BypassedIsReplayed(s: Sys, c: Config, gate: Gate, retry: Fetch)
    requires !s.a.authPaused
    ensures var (t, exit) := Bypassed(s, c, gate, retry);
      && Explains(s, t, BypassMarks(s, c, gate, retry))
      && (exit.Completed? <==> Grants(s, c, gate) && retry.FetchOk?)
  {
    hide Exchanged;
    hide Explains;
    hide AnswerMarks;
    var s1, t := Tick(s, gate.wait), Bypassed(s, c, gate, retry).0;
    Nothing(s, s1);
    if InBackoff(s1) {
      Nothing(s, t);
      assert BypassMarks(s, c, gate, retry) == [] by {
        assert !Presents(s, c, gate);
      }
    } else {
      var s2 :=
        if s1.a.rateLimitPaused then
          Log(s1.(a := s1.a.(rateLimitPaused := false, rateLimitFailCount := Decayed(s1.a.rateLimitFailCount))),
              BackoffExpired(s1.w.clock))
        else s1;
      var expiry := if s.a.rateLimitPaused then [BackoffEnds] else [];
      if s1.a.rateLimitPaused {
        One(s1, s2, BackoffExpired(s1.w.clock));
      } else {
        Nothing(s1, s2);
      }
      Then(s, s1, s2, [], expiry);
      if Presents(s, c, gate) {
        var s3 := Touched(s2, gate.external);
        var creds := s3.w.stored.value;
        var s4 := Exchanged(s3, Bypass, creds, gate).0;
        Nothing(s2, s3);
        Then(s, s2, s3, expiry, []);
        ExchangedIsReplayed(s3, Bypass, creds, gate);
        SameAnswer(Touched(s, gate.external).w, s3.w, creds.refresh, gate.answer, Bypass);
        GrantedStaysUnpaused(s3, Bypass, creds, gate);
        Then(s, s3, s4, expiry, GateMarks(s, c, Bypass, gate));
        assert Grants(s, c, gate) <==> Exchanged(s3, Bypass, creds, gate).1;
        CalledIsReplayed(s4, AfterBypass, retry);
        if Grants(s, c, gate) {
          Then(s, s4, t, expiry + GateMarks(s, c, Bypass, gate), [Asks(AfterBypass, retry)]);
        } else {
          Nothing(s4, t);
          Then(s, s4, t, expiry + GateMarks(s, c, Bypass, gate), []);
        }
      } else {
        Nothing(s2, t);
        Then(s, s2, t, expiry, []);
        assert expiry + [] + [] == expiry;
      }
    }
  }

  lemma CalledIsReplayed(s: Sys, kind: CallKind, answer: Fetch)
    ensures !s.a.authPaused && Effect(s.a, UsageCall(kind, s.a.clientToken, answer)) == s.a ==>
      Explains(s, Called(s, kind, answer), [Asks(kind, answer)])
  {
    hide Explains;
    if !s.a.authPaused && Effect(s.a, UsageCall(kind, s.a.clientToken, answer)) == s.a {
      One(s, Called(s, kind, answer), UsageCall(kind, s.a.clientToken, answer));
    }
  }

  lemma AfterRepeatedIsReplayed(s: Sys, c: Config, in_: PollIn, token: Token)
    requires !s.a.authPaused && s.a.authFailCount >= 3
    ensures var (t, exit) := AfterRepeatedAuthError(s, c, in_, token);
      && Explains(s, t, RecoveryMarks(s, c, in_, token))
      && (exit.Completed? <==> Grants(s, c, in_.recovery) && in_.recoveryFetch.FetchOk?)
  {
    hide OAuthRecovered;
    hide GateMarks;
    hide Explains;
    hide Presents;
    hide Grants;
    hide Revokes;
    var (t, exit) := AfterRepeatedAuthError(s, c, in_, token);
    var (s1, granted) := OAuthRecovered(s, c, AuthFailure, in_.recovery);
    var gate := GateMarks(s, c, AuthFailure, in_.recovery);
    OAuthRecoveredIsReplayed(s, c, AuthFailure, in_.recovery);
    RecoveredIffGranted(s, c, AuthFailure, in_.recovery);
    RecoveredStays(s, c, AuthFailure, in_.recovery);
    RevokedIsNotGranted(s, c, in_.recovery);
    if granted {
      var asks := [Asks(AfterRecovery, in_.recoveryFetch)];
      var event := UsageCall(AfterRecovery, s1.a.clientToken, in_.recoveryFetch);
      var s2 := Log(s1.(a := Effect(s1.a, event)), event);
      One(s1, s2, event);
      Then(s, s1, s2, gate, asks);
      PauseIsReplayed(s2, in_.waitPause, token, t);
      if in_.recoveryFetch.FetchOk? || in_.recoveryFetch.FetchCancelled? {
        Nothing(s2, t);
        Then(s, s2, t, gate + asks, []);
      } else {
        Then(s, s2, t, gate + asks, [Pauses(token)]);
      }
    } else {
      PauseIsReplayed(s1, in_.waitPause, token, t);
      if Revokes(s, c, in_.recovery) {
        Nothing(s1, t);
        Then(s, s1, t, gate, []);
      } else {
        Then(s, s1, t, gate, [Pauses(token)]);
      }
      assert gate + [] == gate;
    }
  }

  lemma RevokedIsNotGranted(s: Sys, c: Config, gate: Gate)
    ensures !(Revokes(s, c, gate) && Grants(s, c, gate))
  {
  }

  lemma PauseIsReplayed(s: Sys, wait: nat, token: Token, t: Sys)
    ensures t == Paused(Tick(s, wait), token, false) && s.a.authFailCount >= 3 && !s.a.authPaused ==> Explains(s, t, [Pauses(token)])
  {
    hide Explains;
    if t == Paused(Tick(s, wait), token, false) && s.a.authFailCount >= 3 && !s.a.authPaused {
      Nothing(s, Tick(s, wait));
      One(Tick(s, wait), t, PauseStarted(s.w.clock + wait, token, false));
      Then(s, Tick(s, wait), t, [], [Pauses(token)]);
    }
  }

  lemma AfterAuthErrorIsReplayed(s: Sys, c: Config, in_: PollIn)
    requires !s.a.authPaused && in_.fetch.FetchAuth? && c.hasTokenRefresh
    ensures var (t, exit) := AfterAuthError(s, c, in_);
      && Explains(s, t, AuthErrorMarks(s, c, in_))
      && (exit.Completed? <==> GetsResponse(s, c, in_))
  {
    hide AfterRepeatedAuthError;
    hide RecoveryMarks;
    hide Explains;
    hide Grants;
    var (t, exit) := AfterAuthError(s, c, in_);
    var s1, token := Touched(s, in_.beforeForced), FoundToken(s, in_.beforeForced);
    Nothing(s, s1);
    if token == "" {
      One(s1, t, ForcedRereadFailed);
      Then(s, s1, t, [], [RereadsNothing]);
    } else {
      var s2 := Log(s1.(a := s1.a.(clientToken := token, lastToken := token)), ForcedReread(token));
      var event := UsageCall(AfterReread, token, in_.forcedFetch);
      var s3 := Log(s2.(a := Effect(s2.a, event)), event);
      var before := [Rereads(token)] + [Asks(AfterReread, in_.forcedFetch)];
      One(s1, s2, ForcedReread(token));
      Then(s, s1, s2, [], [Rereads(token)]);
      One(s2, s3, event);
      Then(s, s2, s3, [Rereads(token)], [Asks(AfterReread, in_.forcedFetch)]);
      if in_.forcedFetch.FetchAuth? && s.a.authFailCount >= 2 {
        SameRecovery(s1, s3, c, in_, token);
        AfterRepeatedIsReplayed(s3, c, in_, token);
        Then(s, s3, t, before, RecoveryMarks(s1, c, in_, token));
      } else {
        BelowThree(s3, c, in_, token);
        Nothing(s3, t);
        Then(s, s3, t, before, []);
      }
    }
  }

  lemma BelowThree(s: Sys, c: Config, in_: PollIn, token: Token)
    ensures s.a.authFailCount < 3 ==> AfterRepeatedAuthError(s, c, in_, token) == (s, GaveUp)
  {
  }

  lemma SameRecovery(s: Sys, t: Sys, c: Config, in_: PollIn, token: Token)
    requires t.w == s.w.(log := t.w.log)
    requires t.a.rateLimitPaused == s.a.rateLimitPaused && t.a.rateLimitResumeAt == s.a.rateLimitResumeAt
    ensures RecoveryMarks(t, c, in_, token) == RecoveryMarks(s, c, in_, token)
    ensures Grants(t, c, in_.recovery) <==> Grants(s, c, in_.recovery)
  {
    hide GateMarks;
    hide Grants;
    hide Revokes;
    SameGateMarks(s, t, c, AuthFailure, in_.recovery);
  }

  lemma FetchedIsReplayed(s: Sys, c: Config, in_: PollIn)
    requires !s.a.authPaused
    ensures var (t, exit) := Fetched(s, c, in_);
      && Explains(s, t, FetchMarks(s, c, in_))
      && (exit.Completed? <==> GetsResponse(s, c, in_))
  {
    hide Bypassed;
    hide AfterAuthError;
    hide BypassMarks;
    hide AuthErrorMarks;
    hide Explains;
    hide Grants;
    var t := Fetched(s, c, in_).0;
    var asks, event := [Asks(FirstFetch, in_.fetch)], UsageCall(FirstFetch, s.a.clientToken, in_.fetch);
    var s1 := Log(s.(a := Effect(s.a, event)), event);
    One(s, s1, event);
    if in_.fetch.FetchLimited? {
      BypassedIsReplayed(s1, c, in_.bypass, in_.bypassFetch);
      SameBypass(s, s1, c, in_);
      Then(s, s1, t, asks, BypassMarks(s, c, in_.bypass, in_.bypassFetch));
    } else if in_.fetch.FetchAuth? && c.hasTokenRefresh {
      AfterAuthErrorIsReplayed(s1, c, in_);
      SameAuthError(s, s1, c, in_);
      Then(s, s1, t, asks, AuthErrorMarks(s, c, in_));
    } else {
      Nothing(s1, t);
      Then(s, s1, t, asks, []);
    }
  }

  lemma SameBypass(s: Sys, t: Sys, c: Config, in_: PollIn)
    requires t.w == s.w.(log := t.w.log) && t.a == s.a
    ensures BypassMarks(t, c, in_.bypass, in_.bypassFetch) == BypassMarks(s, c, in_.bypass, in_.bypassFetch)
    ensures Grants(t, c, in_.bypass) <==> Grants(s, c, in_.bypass)
  {
    hide GateMarks;
    hide Grants;
    SameGateMarks(s, t, c, Bypass, in_.bypass);
  }

  lemma SameAuthError(s: Sys, t: Sys, c: Config, in_: PollIn)
    requires t.w == s.w.(log := t.w.log) && t.a == s.a
    ensures AuthErrorMarks(t, c, in_) == AuthErrorMarks(s, c, in_)
    ensures GetsResponse(t, c, in_.(fetch := FetchAuth)) <==> GetsResponse(s, c, in_.(fetch := FetchAuth))
  {
    hide RecoveryMarks;
    hide Grants;
    SameRecovery(Touched(s, in_.beforeForced), Touched(t, in_.beforeForced), c, in_, FoundToken(s, in_.beforeForced));
  }

  lemma BeforeFetchIsReplayed(s: Sys, c: Config, in_: PollIn)
    ensures var s1 := BeforeReread(s, c, in_);
      var s2 := Reread(s1, c, in_.beforeReread);
      var (t, go) := BeforeFetch(s, c, in_);
      && Explains(s, t, ProactiveMarks(s, c, in_) + RereadMarks(s1, c, in_.beforeReread) + RetryMarks(s2, c, in_))
      && (go <==> !s2.a.authPaused || RetryGranted(s2, c, in_))
      && (go ==> !t.a.authPaused)
  {
    hide BeforeReread;
    hide Reread;
    hide PausedRecovered;
    hide ProactiveMarks;
    hide RereadMarks;
    hide RetryGranted;
    hide Explains;
    hide GateMarks;
    hide RetryDue;
    var s1 := BeforeReread(s, c, in_);
    var s2, t := Reread(s1, c, in_.beforeReread), BeforeFetch(s, c, in_).0;
    BeforeRereadIsReplayed(s, c, in_);
    RereadIsReplayed(s1, c, in_.beforeReread);
    Then(s, s1, s2, ProactiveMarks(s, c, in_), RereadMarks(s1, c, in_.beforeReread));
    if s2.a.authPaused {
      PausedRecoveredIsReplayed(s2, c, in_);
    } else {
      Nothing(s2, t);
    }
    Then(s, s2, t, ProactiveMarks(s, c, in_) + RereadMarks(s1, c, in_.beforeReread), RetryMarks(s2, c, in_));
  }

  lemma ApiPollIsReplayed(s: Sys, c: Config, in_: PollIn)
    ensures Explains(s, ApiPoll(s, c, in_).0, ApiMarks(s, c, in_))
    ensures ApiPoll(s, c, in_).1.Completed? <==> BeforeFetch(s, c, in_).1 && GetsResponse(BeforeFetch(s, c, in_).0, c, in_)
  {
    hide BeforeFetch;
    hide Fetched;
    hide BeforeReread;
    hide Reread;
    hide ProactiveMarks;
    hide RereadMarks;
    hide RetryMarks;
    hide RetryGranted;
    hide FetchMarks;
    hide GetsResponse;
    hide Explains;
    var s1 := BeforeReread(s, c, in_);
    var s2, t := Reread(s1, c, in_.beforeReread), ApiPoll(s, c, in_).0;
    var (s3, go) := BeforeFetch(s, c, in_);
    var before := ProactiveMarks(s, c, in_) + RereadMarks(s1, c, in_.beforeReread) + RetryMarks(s2, c, in_);
    BeforeFetchIsReplayed(s, c, in_);
    if go {
      var (s4, exit) := Fetched(s3, c, in_);
      FetchedIsReplayed(s3, c, in_);
      if exit.Completed? {
        One(s4, t, PollSucceeded);
        Then(s3, s4, t, FetchMarks(s3, c, in_), [Succeeds]);
        Then(s, s3, t, before, FetchMarks(s3, c, in_) + [Succeeds]);
      } else {
        Then(s, s3, t, before, FetchMarks(s3, c, in_));
        assert FetchMarks(s3, c, in_) + [] == FetchMarks(s3, c, in_);
      }
    } else {
      assert before + [] == before;
    }
  }

  /**
    One poll, from any state and for all its inputs: exactly the events its guards
    call for happen, in this order; each of them is one that may happen then; and
    the agent afterwards is the replay of these events.
   */
  lemma {:induction false} PollIsReplayed(s: Sys, c: Config, in_: PollIn)
    ensures Explains(s, Poll(s, c, in_).0, PollMarks(s, c, in_))
  {
    hide ApiPoll;
    hide ApiMarks;
    hide Explains;
    var s1, t := AfterStatusline(s, in_), Poll(s, c, in_).0;
    var first := if in_.statusline.Stored? then [ReadsStatusline] else [];
    if PollMarks(s, c, in_) == [] && t == s {
      Nothing(s, t);
    } else if in_.enabled && !in_.statusline.InsertFailed? {
      if in_.statusline.Stored? {
        One(s, s1, StatuslineUsed);
      } else {
        Nothing(s, s1);
      }
      if UsesApi(s, c, in_) {
        ApiPollIsReplayed(s1, c, in_);
        Then(s, s1, t, first, ApiMarks(s1, c, in_));
      } else {
        Nothing(s1, t);
        Then(s, s1, t, first, []);
      }
    }
  }

  /** The marks of a whole run. */
  function RunMarks(s: Sys, c: Config, ins: seq<PollIn>): seq<Mark>
    decreases |ins|
  {
    if ins == [] then []
    else RunMarks(s, c, ins[..|ins| - 1]) + PollMarks(Run(s, c, ins[..|ins| - 1]), c, ins[|ins| - 1])
  }

  /** Every run, likewise: the agent's fields are a function of what happened. */
  lemma {:induction false} RunIsReplayed(s: Sys, c: Config, ins: seq<PollIn>)
    ensures Explains(s, Run(s, c, ins), RunMarks(s, c, ins))
    decreases |ins|
  {
    hide Poll;
    hide PollMarks;
    hide Explains;
    if ins == [] {
      Nothing(s, s);
    } else {
      var front, last := ins[..|ins| - 1], ins[|ins| - 1];
      RunIsReplayed(s, c, front);
      PollIsReplayed(Run(s, c, front), c, last);
      Then(s, Run(s, c, front), Run(s, c, ins), RunMarks(s, c, front), PollMarks(Run(s, c, front), c, last));
    }
  }

  /**
    In every run the client holds the token that the latest grant, adoption or
    forced re-read named, and every request to the usage API presents it.
   */
  lemma {:induction false} LatestTokenIsInUse(s: Sys, c: Config, ins: seq<PollIn>)
    ensures s.w.log <= Run(s, c, ins).w.log
    ensures var t, h := Run(s, c, ins), Run(s, c, ins).w.log[|s.w.log|..];
      && t.a.clientToken == TokenInUse(s.a.clientToken, h)
      && forall i :: 0 <= i < |h| && h[i].UsageCall? ==> h[i].presented == TokenInUse(s.a.clientToken, h[..i])
  {
    RunIsReplayed(s, c, ins);
    hide *;
    ExplainsMeans(s, Run(s, c, ins), RunMarks(s, c, ins));
    var h := Run(s, c, ins).w.log[|s.w.log|..];
    ReplayUsesToken(s.a, h);
    CallsPresentToken(s.a, h);
  }
}
