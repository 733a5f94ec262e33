/**
  The agent object whose methods update its fields poll by poll, proved equal,
  step by step, to the functions the guarantees are stated about.
 */
module AnthropicPolling {
  import opened Prelude
  import opened AnthropicAuth

  class AnthropicAgent {
    const config: Config
    var clientToken: Token
    var lastToken: Token
    var authFailCount: int
    var authPaused: bool
    var lastFailedToken: Token
    var authRetryAt: Option<Time>
    var authRetryCount: int
    var supersededToken: Token
    var rateLimitFailCount: int
    var rateLimitPaused: bool
    var rateLimitResumeAt: Option<Time>
    var pollCycleCount: nat
    /** The clock, the credential store, the OAuth endpoint and what happened so far. */
    var world: World

    function State(): Sys
      reads this
    {
      Sys(Agent(clientToken, lastToken, authFailCount, authPaused, lastFailedToken, authRetryAt, authRetryCount,
                supersededToken, rateLimitFailCount, rateLimitPaused, rateLimitResumeAt, pollCycleCount), world)
    }

    constructor (config: Config, token: Token, world: World)
      ensures this.config == config
      ensures State() == Sys(Agent(token, "", 0, false, "", None, 0, "", 0, false, None, 0), world)
    {
      this.config := config;
      clientToken, lastToken, authFailCount, authPaused, lastFailedToken := token, "", 0, false, "";
      authRetryAt, authRetryCount, supersededToken := None, 0, "";
      rateLimitFailCount, rateLimitPaused, rateLimitResumeAt, pollCycleCount := 0, false, None, 0;
      this.world := world;
    }

    method Wait(n: nat)
      modifies this`world
      ensures State() == Tick(old(State()), n)
    {
      world := world.(clock := world.clock + n);
    }

    method Note(e: Event)
      modifies this`world
      ensures State() == Log(old(State()), e)
    {
      world := world.(log := world.log + [e]);
    }

    /** A request to the usage API, with the token the client holds. */
    method CallUsage(kind: CallKind, answer: Fetch)
      modifies this`world
      ensures State() == Called(old(State()), kind, answer)
    {
      Note(UsageCall(kind, clientToken, answer));
    }

    /** Reads the stored credentials after somebody else may have changed them. */
    method ReadStore(e: External) returns (creds: Option<Creds>)
      modifies this`world
      ensures State() == Touched(old(State()), e) && creds == Found(old(State()), e)
    {
      if e.Cleared? {
        world := world.(stored := None);
      } else if e.Rotated? && Fresh(world.known, e.pair) {
        world := world.(stored := Some(e.pair), known := world.known + TokensOf(e.pair));
      }
      creds := if e.Unreadable? then None else world.stored;
    }

    method PauseAuth(failedToken: Token, revoked: bool)
      modifies this
      ensures State() == Paused(old(State()), failedToken, revoked)
    {
      authPaused := true;
      lastFailedToken := failedToken;
      if authRetryAt.None? {
        authRetryAt := Some(world.clock + PAUSED_RETRY_BASE);
      }
      Note(PauseStarted(world.clock, failedToken, revoked));
    }

    method ResumeAuth()
      modifies this
      ensures State() == Resumed(old(State()))
    {
      authPaused := false;
      authFailCount := 0;
      lastFailedToken := "";
      authRetryAt := None;
      authRetryCount := 0;
      Note(PauseLifted);
      Note(ScheduleReset);
    }

    method ApplyRefreshedTokens(pair: Creds, replaced: Creds, saved: bool)
      modifies this
      ensures State() == Installed(old(State()), replaced, pair, saved)
    {
      rateLimitFailCount := 0;
      rateLimitPaused := false;
      rateLimitResumeAt := None;
      if saved {
        world := world.(stored := Some(pair));
        supersededToken := "";
      } else {
        supersededToken := replaced.access;
      }
      clientToken := pair.access;
      lastToken := pair.access;
      Note(Granted(replaced, pair, saved));
    }

    method NoteRefreshFailure(site: Site, answer: Answer)
      modifies this
      ensures State() == Refused(old(State()), site, answer)
    {
      if answer.RateLimited? {
        rateLimitFailCount := rateLimitFailCount + 1;
        var backoff := answer.retryAfter;
        if backoff <= 0 {
          backoff := RateLimitBackoff(rateLimitFailCount);
        }
        rateLimitPaused := true;
        rateLimitResumeAt := Some(world.clock + backoff);
        Note(Limited(world.clock, answer.retryAfter, world.clock + backoff));
      } else if answer.InvalidGrant? {
        authFailCount := MAX_AUTH_FAILURES;
        PauseAuth(lastToken, true);
      } else if site.Bypass? {
        rateLimitFailCount := rateLimitFailCount + 1;
        if rateLimitFailCount >= MAX_RATE_LIMIT_FAILURES {
          rateLimitPaused := true;
          rateLimitResumeAt := Some(world.clock + RateLimitBackoff(rateLimitFailCount));
        }
        Note(BypassFailed(world.clock));
      }
    }

    method Exchange(site: Site, creds: Creds, gate: Gate) returns (granted: bool)
      modifies this
      ensures (State(), granted) == Exchanged(old(State()), site, creds, gate)
    {
      hide Installed;
      hide Refused;
      var answer := ServerAnswer(world, creds.refresh, gate.answer);
      Note(Attempt(site, world.clock, creds, creds.refresh in world.spent, creds.access == supersededToken,
                   gate.autoRefresh, gate.ccRunning, InBackoff(State())));
      if answer.Grant? {
        world := world.(spent := world.spent + {creds.refresh}, known := world.known + TokensOf(answer.pair));
        ApplyRefreshedTokens(answer.pair, creds, answer.saved);
        return true;
      }
      if answer.Lost? {
        world := world.(spent := world.spent + {creds.refresh});
        Note(ReplyLost(creds.refresh));
      }
      Wait(gate.waitAfter);
      NoteRefreshFailure(site, answer);
      granted := false;
    }

    method ProactiveRefresh(creds: Creds, gate: Gate)
      modifies this
      ensures State() == ProactivelyRefreshed(old(State()), creds, gate)
    {
      hide Exchanged;
      hide Resumed;
      Wait(gate.wait);
      if !gate.autoRefresh || (creds.access != "" && creds.access == supersededToken) || gate.ccRunning || InBackoff(State()) {
        return;
      }
      var granted := Exchange(Proactive, creds, gate);
      if granted && authPaused {
        ResumeAuth();
      }
    }

    method RereadCredentials(e: External)
      modifies this
      ensures State() == Reread(old(State()), config, e)
    {
      hide Touched;
      hide Found;
      hide Adopted;
      if !config.hasTokenRefresh {
        return;
      }
      var creds := ReadStore(e);
      var newToken := if creds.None? then "" else creds.value.access;
      if newToken != "" && newToken == supersededToken {
        newToken := lastToken;
      }
      if newToken != "" && newToken != lastToken {
        AdoptToken(newToken);
      }
    }

    /** Different credentials lift the pause, unless they are those that failed, and the rate-limit backoff. */
    method AdoptToken(newToken: Token)
      modifies this
      ensures State() == Adopted(old(State()), newToken)
    {
      hide Resumed;
      Note(CredentialsChanged(newToken, clientToken));
      clientToken := newToken;
      lastToken := newToken;
      if authPaused && newToken != lastFailedToken {
        ResumeAuth();
      }
      if rateLimitPaused {
        rateLimitPaused := false;
        rateLimitFailCount := 0;
        rateLimitResumeAt := None;
      }
    }

    method TryOAuthRecovery(site: Site, gate: Gate) returns (recovered: bool)
      modifies this
      ensures (State(), recovered) == OAuthRecovered(old(State()), config, site, gate)
    {
      hide Exchanged;
      if !config.hasCredsRefresh || !gate.autoRefresh || gate.ccRunning {
        return false;
      }
      Wait(gate.wait);
      if InBackoff(State()) {
        return false;
      }
      var creds := ReadStore(gate.external);
      if creds.None? || creds.value.refresh == "" {
        return false;
      }
      recovered := Exchange(site, creds.value, gate);
    }

    method TryPausedAuthRecovery(in_: PollIn) returns (resumed: bool)
      modifies this
      ensures (State(), resumed) == PausedRecovered(old(State()), config, in_)
    {
      hide OAuthRecovered;
      hide AuthRetryBackoff;
      Wait(in_.waitPaused);
      var now := world.clock;
      if authRetryAt.None? || now < authRetryAt.value {
        return false;
      }
      authRetryCount := authRetryCount + 1;
      authRetryAt := Some(now + AuthRetryBackoff(authRetryCount));
      Note(PausedTry(now, authRetryCount));
      resumed := TryOAuthRecovery(PausedRetry, in_.pausedRetry);
      if resumed {
        authPaused := false;
        authFailCount := 0;
        lastFailedToken := "";
        Note(PauseLifted);
      }
    }

    method BypassRateLimit(gate: Gate, retry: Fetch) returns (exit: Exit)
      modifies this
      ensures (State(), exit) == Bypassed(old(State()), config, gate, retry)
    {
      hide Exchanged;
      Wait(gate.wait);
      if rateLimitPaused {
        if InBackoff(State()) {
          return GaveUp;
        }
        if rateLimitFailCount > 0 {
          rateLimitFailCount := rateLimitFailCount - 1;
        }
        rateLimitPaused := false;
        Note(BackoffExpired(world.clock));
      }
      if !gate.autoRefresh || gate.ccRunning || !config.hasCredsRefresh {
        return GaveUp;
      }
      var creds := ReadStore(gate.external);
      if creds.None? || creds.value.refresh == "" {
        return GaveUp;
      }
      var granted := Exchange(Bypass, creds.value, gate);
      if !granted {
        return GaveUp;
      }
      CallUsage(AfterBypass, retry);
      exit := if retry.FetchOk? then Completed else if retry.FetchCancelled? then Cancelled else GaveUp;
    }

    method RetryAfterAuthError(in_: PollIn) returns (exit: Exit)
      modifies this
      ensures (State(), exit) == AfterAuthError(old(State()), config, in_)
    {
      hide AfterRepeatedAuthError;
      lastToken := "";
      var creds := ReadStore(in_.beforeForced);
      var retryToken := if creds.None? then "" else creds.value.access;
      if retryToken == "" {
        Note(ForcedRereadFailed);
        return GaveUp;
      }
      clientToken := retryToken;
      lastToken := retryToken;
      Note(ForcedReread(retryToken));
      CallUsage(AfterReread, in_.forcedFetch);
      if in_.forcedFetch.FetchOk? {
        authFailCount := 0;
        return Completed;
      }
      if in_.forcedFetch.FetchCancelled? {
        return Cancelled;
      }
      exit := GaveUp;
      if in_.forcedFetch.FetchAuth? {
        authFailCount := authFailCount + 1;
        exit := RecoverOrPause(in_, retryToken);
      }
    }

    /** At the third failure: one OAuth refresh before pausing. */
    method RecoverOrPause(in_: PollIn, retryToken: Token) returns (exit: Exit)
      modifies this
      ensures (State(), exit) == AfterRepeatedAuthError(old(State()), config, in_, retryToken)
    {
      hide OAuthRecovered;
      hide Paused;
      if authFailCount >= MAX_AUTH_FAILURES {
        var recovered := TryOAuthRecovery(AuthFailure, in_.recovery);
        if recovered {
          CallUsage(AfterRecovery, in_.recoveryFetch);
        }
        if recovered && in_.recoveryFetch.FetchOk? {
          authFailCount := 0;
          lastFailedToken := "";
          return Completed;
        }
        if recovered && in_.recoveryFetch.FetchCancelled? {
          return CancelledAfterRecovery;
        }
        if !authPaused {
          Wait(in_.waitPause);
          PauseAuth(retryToken, false);
        }
      }
      exit := GaveUp;
    }

    /** The first step of the API path: refresh a token about to expire, unless paused. */
    method RefreshIfExpiring(in_: PollIn)
      modifies this
      ensures State() == BeforeReread(old(State()), config, in_)
    {
      hide ProactivelyRefreshed;
      if config.hasCredsRefresh && !authPaused {
        var creds := ReadStore(in_.beforeProactive);
        if creds.Some? && in_.expiringSoon && creds.value.refresh != "" {
          ProactiveRefresh(creds.value, in_.proactive);
        }
      }
    }

    /** The fetch and its error handling. */
    method FetchOnce(in_: PollIn) returns (exit: Exit)
      modifies this
      ensures (State(), exit) == Fetched(old(State()), config, in_)
    {
      hide Bypassed;
      hide AfterAuthError;
      CallUsage(FirstFetch, in_.fetch);
      exit := GaveUp;
      if in_.fetch.FetchOk? {
        if rateLimitFailCount > 0 {
          rateLimitFailCount := rateLimitFailCount - 1;
        }
        exit := Completed;
      } else if in_.fetch.FetchCancelled? {
        exit := Cancelled;
      } else if in_.fetch.FetchLimited? {
        exit := BypassRateLimit(in_.bypass, in_.bypassFetch);
      } else if in_.fetch.FetchAuth? && config.hasTokenRefresh {
        exit := RetryAfterAuthError(in_);
      }
    }

    method PollApi(in_: PollIn) returns (exit: Exit)
      modifies this
      ensures (State(), exit) == ApiPoll(old(State()), config, in_)
    {
      hide BeforeReread;
      hide Reread;
      hide PausedRecovered;
      hide Fetched;
      RefreshIfExpiring(in_);
      RereadCredentials(in_.beforeReread);
      if authPaused {
        var resumed := TryPausedAuthRecovery(in_);
        if !resumed {
          return StillPaused;
        }
      }
      exit := FetchOnce(in_);
      if exit.Completed? {
        authFailCount := 0;
        authRetryCount := 0;
        authRetryAt := None;
        Note(PollSucceeded);
      }
    }

    /** One poll cycle. Storing the snapshot and notifying come after processResponse and touch none of this state. */
    method PollOnce(in_: PollIn) returns (exit: Exit)
      modifies this
      ensures (State(), exit) == Poll(old(State()), config, in_)
    {
      hide ApiPoll;
      if !in_.enabled {
        return Skipped;
      }
      if in_.statusline.InsertFailed? {
        return GaveUp;
      }
      if in_.statusline.Stored? {
        pollCycleCount := pollCycleCount + 1;
        if rateLimitFailCount > 0 {
          rateLimitFailCount := rateLimitFailCount - 1;
        }
        Note(StatuslineUsed);
        if !(config.apiPollCycleInterval > 0 && pollCycleCount % config.apiPollCycleInterval == 0) {
          return StatuslineOnly;
        }
      }
      if config.apiPollingDisabled {
        return StatuslineOnly;
      }
      exit := PollApi(in_);
    }
  }
}
