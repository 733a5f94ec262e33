/** What every run of the Anthropic agent keeps. */
module AnthropicRuns {
  import opened Prelude
  import opened AnthropicAuth

  // What a history says by itself.

  function Front(h: seq<Event>): seq<Event>
    requires h != []
  {
    h[..|h| - 1]
  }

  function Last(h: seq<Event>): Event
    requires h != []
  {
    h[|h| - 1]
  }

  function Later(a: Option<Time>, b: Time): Option<Time> {
    if a.Some? && a.value > b then a else Some(b)
  }

  /** The latest end of an OAuth lockout that no change of credentials has lifted since. */
  function LockedUntil(h: seq<Event>): Option<Time> {
    if h == [] then None
    else
      match Last(h)
      case Limited(_, _, until) => Later(LockedUntil(Front(h)), until)
      case CredentialsChanged(_, _) => None
      case _ => LockedUntil(Front(h))
  }

  /** When the next paused recovery attempt is due. */
  function NextTry(h: seq<Event>): Option<Time> {
    if h == [] then None
    else
      match Last(h)
      case PauseStarted(at, _, _) => if NextTry(Front(h)).None? then Some(at + PAUSED_RETRY_BASE) else NextTry(Front(h))
      case PausedTry(at, count) => Some(at + AuthRetryBackoff(count))
      case ScheduleReset => None
      case PollSucceeded => None
      case _ => NextTry(Front(h))
  }

  /** Paused recovery attempts since the schedule last started over. */
  function Tries(h: seq<Event>): nat {
    if h == [] then 0
    else if Last(h).PausedTry? then Tries(Front(h)) + 1
    else if Last(h).ScheduleReset? || Last(h).PollSucceeded? then 0
    else Tries(Front(h))
  }

  /** Access tokens whose refresh token the agent has exchanged. */
  function Retired(h: seq<Event>): set<Token> {
    if h == [] then {}
    else Retired(Front(h)) + if Last(h).Granted? then {Last(h).replaced.access} else {}
  }

  /** Refresh tokens exchanged without a mark: by calls whose reply was lost, or before the agent started. */
  function Unmarked(h: seq<Event>): set<Token> {
    if h == [] then {}
    else Unmarked(Front(h)) + if Last(h).ReplyLost? || Last(h).SpentBefore? then {Last(h).token} else {}
  }

  /** The event installs an access token. */
  predicate Installs(e: Event) {
    e.CredentialsChanged? || e.ForcedReread? || e.Granted?
  }

  /** No token was installed since the start, or since a forced re-read that found nothing. */
  predicate Forgotten(h: seq<Event>) {
    h == [] || Last(h).ForcedRereadFailed? || (!Installs(Last(h)) && Forgotten(Front(h)))
  }

  /** Event e may follow history h. */
  predicate Lawful(h: seq<Event>, e: Event) {
    match e
    case Attempt(site, at, creds, tokenSpent, superseded, autoRefresh, ccRunning, inBackoff) =>
      && autoRefresh && !ccRunning && !inBackoff
      && (LockedUntil(h).Some? ==> LockedUntil(h).value <= at)
      && (tokenSpent <==> superseded || creds.refresh in Unmarked(h))
      && (site.Proactive? ==> !superseded)
      && (site.PausedRetry? ==> FollowsTry(h, at))
    case CredentialsChanged(token, former) => token !in Retired(h) && (token != former || Forgotten(h))
    case SpentBefore(_) => h == []
    case Granted(replaced, issued, _) =>
      h != [] && Last(h).Attempt? && Last(h).creds == replaced && issued.access != replaced.access && issued.access !in Retired(h)
    case PausedTry(at, count) => NextTry(h).Some? && NextTry(h).value <= at && count == Tries(h) + 1
    case _ => true
  }

  /** A paused recovery attempt has just been made. */
  predicate FollowsTry(h: seq<Event>, at: Time) {
    h != [] && Last(h).PausedTry? && Last(h).at <= at
  }

  predicate LawfulHistory(h: seq<Event>) {
    h == [] || (LawfulHistory(Front(h)) && Lawful(Front(h), Last(h)))
  }

  // The coupling of the history with the state.

  /** Token bookkeeping: a stored refresh token is spent exactly when its pair is superseded or it was spent without a mark. */
  predicate TokensCoupled(s: Sys) {
    && s.w.spent <= s.w.known
    && "" !in s.w.known
    && Retired(s.w.log) <= s.w.known
    && Unmarked(s.w.log) <= s.w.spent
    && (s.a.superseded == "" || s.a.superseded in s.w.known)
    && (s.w.stored.Some? ==> StoredCoupled(s, s.w.stored.value))
  }

  predicate StoredCoupled(s: Sys, creds: Creds) {
    && creds.access in s.w.known
    && (creds.refresh == "" || creds.refresh in s.w.known)
    && (creds.refresh != "" ==> 
          (creds.refresh in s.w.spent <==> creds.access == s.a.superseded || creds.refresh in Unmarked(s.w.log)))
    && (creds.access in Retired(s.w.log) ==> creds.access == s.a.superseded)
  }

  predicate LockCoupled(s: Sys) {
    LockedUntil(s.w.log).Some? ==>
      LockedUntil(s.w.log).value <= s.w.clock
      || (s.a.rateLimitPaused && s.a.rateLimitResumeAt.Some? && LockedUntil(s.w.log).value <= s.a.rateLimitResumeAt.value)
  }

  /** The retry fields are a function of the history. */
  predicate ScheduleCoupled(s: Sys) {
    s.a.authRetryAt == NextTry(s.w.log) && s.a.authRetryCount == Tries(s.w.log)
  }

  /** The last token seen is the one in use, unless it was forgotten. */
  predicate UseCoupled(s: Sys) {
    s.a.lastToken == if Forgotten(s.w.log) then "" else s.a.clientToken
  }

  predicate Inv(s: Sys) {
    LawfulHistory(s.w.log) && TokensCoupled(s) && LockCoupled(s) && ScheduleCoupled(s) && UseCoupled(s)
  }

  /** Appending one event, seen by every function of the history. */
  lemma Append(s: Sys, e: Event)
    ensures var h := Log(s, e).w.log;
      && h != [] && Front(h) == s.w.log && Last(h) == e
      && (LawfulHistory(h) <==> LawfulHistory(s.w.log) && Lawful(s.w.log, e))
  {
  }

  // The steps keep the invariant.

  lemma TickKeeps(s: Sys, n: nat)
    requires Inv(s)
    ensures Inv(Tick(s, n))
  {
  }

  lemma TouchedKeeps(s: Sys, e: External)
    requires Inv(s)
    ensures Inv(Touched(s, e))
  {
    hide LawfulHistory;
  }

  lemma PausedKeeps(s: Sys, token: Token, revoked: bool)
    requires Inv(s)
    ensures Inv(Paused(s, token, revoked))
  {
    hide AuthRetryBackoff;
    Append(s, PauseStarted(s.w.clock, token, revoked));
  }

  lemma ResumedKeeps(s: Sys)
    requires Inv(s)
    ensures Inv(Resumed(s))
  {
    hide AuthRetryBackoff;
    Append(s, PauseLifted);
    var h := Log(s, PauseLifted).w.log;
    assert Retired(h) == Retired(s.w.log) && Unmarked(h) == Unmarked(s.w.log) && LockedUntil(h) == LockedUntil(s.w.log)
           && Forgotten(h) == Forgotten(s.w.log);
    Append(Log(s, PauseLifted), ScheduleReset);
  }

  lemma ProcessedKeeps(s: Sys)
    requires Inv(s)
    ensures Inv(Processed(s))
  {
    hide AuthRetryBackoff;
    Append(s, PollSucceeded);
  }

  /** Events the coupling does not look at. */
  lemma NeutralKeeps(s: Sys, e: Event)
    requires Inv(s) && (e.UsageCall? || e.StatuslineUsed? || e.BackoffExpired? || e.BypassFailed?)
    ensures Inv(Log(s, e)) && LockedUntil(Log(s, e).w.log) == LockedUntil(s.w.log)
  {
    hide AuthRetryBackoff;
    Append(s, e);
  }

  lemma RefusedKeeps(s: Sys, site: Site, answer: Answer)
    requires Inv(s) && (LockedUntil(s.w.log).Some? ==> LockedUntil(s.w.log).value <= s.w.clock)
    ensures Inv(Refused(s, site, answer))
  {
    hide RateLimitBackoff;
    hide Inv;
    hide LockedUntil;
    hide Paused;
    hide BackedOff;
    UpdateKeeps(s, s.a.(authFailCount := MAX_AUTH_FAILURES));
    UpdateKeeps(s, s.a.(rateLimitFailCount := s.a.rateLimitFailCount + 1));
    match answer
    case InvalidGrant =>
      PausedKeeps(s.(a := s.a.(authFailCount := MAX_AUTH_FAILURES)), s.a.lastToken, true);
    case RateLimited(retryAfter) =>
      var s1 := s.(a := s.a.(rateLimitFailCount := s.a.rateLimitFailCount + 1));
      BackedOffKeeps(s1, retryAfter, s.w.clock + if retryAfter > 0 then retryAfter else RateLimitBackoff(s1.a.rateLimitFailCount));
    case _ =>
      FailureKeeps(s, Refused(s, site, answer).a);
      NeutralKeeps(s.(a := Refused(s, site, answer).a), BypassFailed(s.w.clock));
  }

  /** With the lockout run out, the backoff may be set to anything. */
  lemma FailureKeeps(s: Sys, a: Agent)
    requires Inv(s) && (LockedUntil(s.w.log).Some? ==> LockedUntil(s.w.log).value <= s.w.clock)
    requires SameCoupled(s.a, a.(rateLimitPaused := s.a.rateLimitPaused, rateLimitResumeAt := s.a.rateLimitResumeAt))
    ensures Inv(s.(a := a))
  {
    hide LawfulHistory;
  }

  lemma BackedOffKeeps(s: Sys, retryAfter: int, until: Time)
    requires Inv(s) && (LockedUntil(s.w.log).Some? ==> LockedUntil(s.w.log).value <= s.w.clock)
    ensures Inv(BackedOff(s, retryAfter, until))
  {
    hide AuthRetryBackoff;
    Append(s, Limited(s.w.clock, retryAfter, until));
  }

  lemma AttemptKeeps(s: Sys, site: Site, creds: Creds, gate: Gate)
    requires Inv(s) && s.w.stored == Some(creds) && creds.refresh != ""
    requires gate.autoRefresh && !gate.ccRunning && !InBackoff(s)
    requires site.PausedRetry? ==> FollowsTry(s.w.log, s.w.clock)
    requires site.Proactive? ==> creds.access != s.a.superseded
    ensures Inv(Log(s, Attempt(site, s.w.clock, creds, creds.refresh in s.w.spent, creds.access == s.a.superseded,
                               gate.autoRefresh, gate.ccRunning, InBackoff(s))))
    ensures LockedUntil(s.w.log).Some? ==> LockedUntil(s.w.log).value <= s.w.clock
  {
    hide AuthRetryBackoff;
    Append(s, Attempt(site, s.w.clock, creds, creds.refresh in s.w.spent, creds.access == s.a.superseded,
                      gate.autoRefresh, gate.ccRunning, InBackoff(s)));
  }

  lemma InstalledKeeps(s: Sys, creds: Creds, pair: Creds, saved: bool)
    requires Inv(s) && s.w.stored == Some(creds) && creds.refresh != "" && Fresh(s.w.known, pair)
    requires LockedUntil(s.w.log).Some? ==> LockedUntil(s.w.log).value <= s.w.clock
    requires s.w.log != [] && Last(s.w.log).Attempt? && Last(s.w.log).creds == creds
    ensures var w := s.w.(spent := s.w.spent + {creds.refresh}, known := s.w.known + TokensOf(pair));
      Inv(Installed(s.(w := w), creds, pair, saved))
  {
    hide AuthRetryBackoff;
    Append(s, Granted(creds, pair, saved));
  }

  lemma ReplyLostKeeps(s: Sys, creds: Creds)
    requires Inv(s) && s.w.stored == Some(creds) && creds.refresh != ""
    ensures Inv(Log(s.(w := s.w.(spent := s.w.spent + {creds.refresh})), ReplyLost(creds.refresh)))
    ensures LockedUntil(s.w.log + [ReplyLost(creds.refresh)]) == LockedUntil(s.w.log)
  {
    hide AuthRetryBackoff;
    Append(s, ReplyLost(creds.refresh));
  }

  lemma ExchangedKeeps(s: Sys, site: Site, creds: Creds, gate: Gate)
    requires Inv(s) && s.w.stored == Some(creds) && creds.refresh != ""
    requires gate.autoRefresh && !gate.ccRunning && !InBackoff(s)
    requires site.PausedRetry? ==> FollowsTry(s.w.log, s.w.clock)
    requires site.Proactive? ==> creds.access != s.a.superseded
    ensures Inv(Exchanged(s, site, creds, gate).0)
  {
    AttemptKeeps(s, site, creds, gate);
    var s1 := Log(s, Attempt(site, s.w.clock, creds, creds.refresh in s.w.spent, creds.access == s.a.superseded,
                             gate.autoRefresh, gate.ccRunning, InBackoff(s)));
    assert LockedUntil(s1.w.log) == LockedUntil(s.w.log) by { Append(s, Last(s1.w.log)); }
    hide Inv;
    hide LockedUntil;
    hide Installed;
    hide Refused;
    match ServerAnswer(s.w, creds.refresh, gate.answer)
    case Grant(pair, saved) =>
      InstalledKeeps(s1, creds, pair, saved);
    case Lost =>
      ReplyLostKeeps(s1, creds);
      var s2 := Log(s1.(w := s1.w.(spent := s1.w.spent + {creds.refresh})), ReplyLost(creds.refresh));
      TickKeeps(s2, gate.waitAfter);
      RefusedKeeps(Tick(s2, gate.waitAfter), site, Lost);
    case refusal =>
      TickKeeps(s1, gate.waitAfter);
      RefusedKeeps(Tick(s1, gate.waitAfter), site, refusal);
  }

  // Agent updates that leave every coupled field alone.

  predicate SameCoupled(a: Agent, b: Agent) {
    && a.superseded == b.superseded && a.clientToken == b.clientToken && a.lastToken == b.lastToken
    && a.rateLimitPaused == b.rateLimitPaused && a.rateLimitResumeAt == b.rateLimitResumeAt
    && a.authRetryAt == b.authRetryAt && a.authRetryCount == b.authRetryCount
  }

  lemma UpdateKeeps(s: Sys, a: Agent)
    requires Inv(s) && SameCoupled(s.a, a)
    ensures Inv(s.(a := a))
  {
    hide LawfulHistory;
  }

  /** Lifting the OAuth backoff is safe once it has run out. */
  lemma UnlimitedKeeps(s: Sys, a: Agent)
    requires Inv(s) && !InBackoff(s)
    requires SameCoupled(s.a, a.(rateLimitPaused := s.a.rateLimitPaused, rateLimitResumeAt := s.a.rateLimitResumeAt))
    ensures Inv(s.(a := a))
  {
    hide LawfulHistory;
  }

  lemma ProactivelyRefreshedKeeps(s: Sys, creds: Creds, gate: Gate)
    requires Inv(s) && s.w.stored == Some(creds) && creds.refresh != ""
    ensures Inv(ProactivelyRefreshed(s, creds, gate))
  {
    var s1 := Tick(s, gate.wait);
    TickKeeps(s, gate.wait);
    assert creds.access != "" by {
      hide LawfulHistory;
    }
    hide Inv;
    hide Exchanged;
    hide Resumed;
    if gate.autoRefresh && creds.access != s.a.superseded && !gate.ccRunning && !InBackoff(s1) {
      ExchangedKeeps(s1, Proactive, creds, gate);
      ResumedKeepsIf(Exchanged(s1, Proactive, creds, gate).0);
    }
  }

  lemma ResumedKeepsIf(s: Sys)
    ensures Inv(s) ==> Inv(Resumed(s))
  {
    if Inv(s) {
      ResumedKeeps(s);
    }
  }

  lemma BeforeRereadKeeps(s: Sys, c: Config, in_: PollIn)
    requires Inv(s)
    ensures Inv(BeforeReread(s, c, in_))
  {
    hide Inv;
    hide ProactivelyRefreshed;
    var s1 := Touched(s, in_.beforeProactive);
    TouchedKeeps(s, in_.beforeProactive);
    var creds := Found(s, in_.beforeProactive);
    if creds.Some? && creds.value.refresh != "" {
      ProactivelyRefreshedKeeps(s1, creds.value, in_.proactive);
    }
  }

  lemma CredentialsChangedKeeps(s: Sys, token: Token)
    requires Inv(s) && s.w.stored.Some? && token == s.w.stored.value.access && token != s.a.superseded && token != s.a.lastToken
    ensures var t := Log(s.(a := s.a.(clientToken := token, lastToken := token)), CredentialsChanged(token, s.a.clientToken));
      Inv(t) && LockedUntil(t.w.log) == None
  {
    hide AuthRetryBackoff;
    Append(s, CredentialsChanged(token, s.a.clientToken));
  }

  lemma RereadKeeps(s: Sys, c: Config, e: External)
    requires Inv(s)
    ensures Inv(Reread(s, c, e))
  {
    hide Inv;
    hide LockedUntil;
    hide Resumed;
    hide Touched;
    var s1 := Touched(s, e);
    TouchedKeeps(s, e);
    var token := FoundToken(s, e);
    if c.hasTokenRefresh && token != "" && token != s1.a.superseded && token != s1.a.lastToken {
      var s2 := Log(s1.(a := s1.a.(clientToken := token, lastToken := token)), CredentialsChanged(token, s1.a.clientToken));
      CredentialsChangedKeeps(s1, token);
      ResumedKeeps(s2);
      ResumedUnlocks(s2);
      UnlockedKeeps(s2);
      UnlockedKeeps(Resumed(s2));
    }
  }

  lemma ResumedUnlocks(s: Sys)
    ensures LockedUntil(Resumed(s).w.log) == LockedUntil(s.w.log)
  {
    Append(s, PauseLifted);
    Append(Log(s, PauseLifted), ScheduleReset);
  }

  lemma UnlockedKeeps(s: Sys)
    requires Inv(s) && LockedUntil(s.w.log).None?
    ensures Inv(s.(a := s.a.(rateLimitPaused := false, rateLimitFailCount := 0, rateLimitResumeAt := None)))
  {
    hide LawfulHistory;
  }

  lemma OAuthRecoveredKeeps(s: Sys, c: Config, site: Site, gate: Gate)
    requires Inv(s) && !site.Proactive? && (site.PausedRetry? ==> FollowsTry(s.w.log, s.w.clock))
    ensures Inv(OAuthRecovered(s, c, site, gate).0)
  {
    hide Inv;
    hide Exchanged;
    var s1 := Tick(s, gate.wait);
    TickKeeps(s, gate.wait);
    var s2 := Touched(s1, gate.external);
    TouchedKeeps(s1, gate.external);
    if gate.autoRefresh && !gate.ccRunning && !InBackoff(s1) && Found(s1, gate.external).Some? && s2.w.stored.value.refresh != "" {
      ExchangedKeeps(s2, site, s2.w.stored.value, gate);
    }
  }

  lemma PausedTryKeeps(s: Sys)
    requires Inv(s) && s.a.authRetryAt.Some? && s.a.authRetryAt.value <= s.w.clock
    ensures Inv(Tried(s)) && FollowsTry(Tried(s).w.log, Tried(s).w.clock)
  {
    hide AuthRetryBackoff;
    Append(s, PausedTry(s.w.clock, s.a.authRetryCount + 1));
  }

  lemma PauseLiftedKeeps(s: Sys, a: Agent)
    requires Inv(s) && SameCoupled(s.a, a)
    ensures Inv(Log(s.(a := a), PauseLifted))
  {
    hide AuthRetryBackoff;
    UpdateKeeps(s, a);
    Append(s.(a := a), PauseLifted);
  }

  lemma PausedRecoveredKeeps(s: Sys, c: Config, in_: PollIn)
    requires Inv(s)
    ensures Inv(PausedRecovered(s, c, in_).0)
  {
    hide Inv;
    hide OAuthRecovered;
    hide Tried;
    hide FollowsTry;
    var s1 := Tick(s, in_.waitPaused);
    TickKeeps(s, in_.waitPaused);
    if s1.a.authRetryAt.Some? && s1.a.authRetryAt.value <= s1.w.clock {
      PausedTryKeeps(s1);
      var s2 := Tried(s1);
      OAuthRecoveredKeeps(s2, c, PausedRetry, in_.pausedRetry);
      var s3 := OAuthRecovered(s2, c, PausedRetry, in_.pausedRetry).0;
      PauseLiftedKeeps(s3, s3.a.(authPaused := false, authFailCount := 0, lastFailedToken := ""));
    }
  }

  lemma CalledKeeps(s: Sys, kind: CallKind, answer: Fetch)
    ensures Inv(s) ==> Inv(Called(s, kind, answer))
  {
    if Inv(s) {
      NeutralKeeps(s, UsageCall(kind, s.a.clientToken, answer));
    }
  }

  lemma BypassedKeeps(s: Sys, c: Config, gate: Gate, retry: Fetch)
    requires Inv(s)
    ensures Inv(Bypassed(s, c, gate, retry).0)
  {
    hide Inv;
    hide Exchanged;
    var s1 := Tick(s, gate.wait);
    TickKeeps(s, gate.wait);
    if !InBackoff(s1) {
      var a := s1.a.(rateLimitPaused := false, rateLimitFailCount := Decayed(s1.a.rateLimitFailCount));
      UnlimitedKeeps(s1, a);
      NeutralKeeps(s1.(a := a), BackoffExpired(s1.w.clock));
      var s2 := if s1.a.rateLimitPaused then Log(s1.(a := a), BackoffExpired(s1.w.clock)) else s1;
      TouchedKeeps(s2, gate.external);
      var s3 := Touched(s2, gate.external);
      if gate.autoRefresh && !gate.ccRunning && Found(s2, gate.external).Some? && s3.w.stored.value.refresh != "" {
        ExchangedKeeps(s3, Bypass, s3.w.stored.value, gate);
        CalledKeeps(Exchanged(s3, Bypass, s3.w.stored.value, gate).0, AfterBypass, retry);
      }
    }
  }

  lemma ForcedRereadKeeps(s: Sys, token: Token)
    requires Inv(s)
    ensures Inv(Log(s.(a := s.a.(clientToken := token, lastToken := token)), ForcedReread(token)))
  {
    hide AuthRetryBackoff;
    Append(s, ForcedReread(token));
  }

  lemma ForcedRereadFailedKeeps(s: Sys)
    requires Inv(s)
    ensures Inv(Log(s.(a := s.a.(lastToken := "")), ForcedRereadFailed))
  {
    hide AuthRetryBackoff;
    Append(s, ForcedRereadFailed);
  }

  lemma AfterAuthErrorKeeps(s: Sys, c: Config, in_: PollIn)
    requires Inv(s)
    ensures Inv(AfterAuthError(s, c, in_).0)
  {
    hide Inv;
    hide AfterRepeatedAuthError;
    var s1 := Touched(s, in_.beforeForced);
    TouchedKeeps(s, in_.beforeForced);
    var token := FoundToken(s, in_.beforeForced);
    ForcedRereadKeeps(s1, token);
    ForcedRereadFailedKeeps(s1);
    var s0 := Log(s1.(a := s1.a.(clientToken := token, lastToken := token)), ForcedReread(token));
    var s2 := Called(s0, AfterReread, in_.forcedFetch);
    CalledKeeps(s0, AfterReread, in_.forcedFetch);
    UpdateKeeps(s2, s2.a.(authFailCount := 0));
    UpdateKeeps(s2, s2.a.(authFailCount := s2.a.authFailCount + 1));
    AfterRepeatedAuthErrorKeeps(s2.(a := s2.a.(authFailCount := s2.a.authFailCount + 1)), c, in_, token);
  }

  lemma AfterRepeatedAuthErrorKeeps(s: Sys, c: Config, in_: PollIn, retryToken: Token)
    requires Inv(s)
    ensures Inv(AfterRepeatedAuthError(s, c, in_, retryToken).0)
  {
    hide Inv;
    hide OAuthRecovered;
    hide Paused;
    var s1 := OAuthRecovered(s, c, AuthFailure, in_.recovery).0;
    OAuthRecoveredKeeps(s, c, AuthFailure, in_.recovery);
    CalledKeeps(s1, AfterRecovery, in_.recoveryFetch);
    var s2 := if OAuthRecovered(s, c, AuthFailure, in_.recovery).1 then Called(s1, AfterRecovery, in_.recoveryFetch) else s1;
    UpdateKeeps(s2, s2.a.(authFailCount := 0, lastFailedToken := ""));
    TickKeeps(s2, in_.waitPause);
    PausedKeeps(Tick(s2, in_.waitPause), retryToken, false);
  }

  lemma FetchedKeeps(s: Sys, c: Config, in_: PollIn)
    requires Inv(s)
    ensures Inv(Fetched(s, c, in_).0)
  {
    hide Inv;
    hide Bypassed;
    hide AfterAuthError;
    var s1 := Called(s, FirstFetch, in_.fetch);
    CalledKeeps(s, FirstFetch, in_.fetch);
    UpdateKeeps(s1, s1.a.(rateLimitFailCount := Decayed(s1.a.rateLimitFailCount)));
    BypassedKeeps(s1, c, in_.bypass, in_.bypassFetch);
    AfterAuthErrorKeeps(s1, c, in_);
  }

  lemma ApiPollKeeps(s: Sys, c: Config, in_: PollIn)
    requires Inv(s)
    ensures Inv(ApiPoll(s, c, in_).0)
  {
    hide Inv;
    hide BeforeReread;
    hide Reread;
    hide PausedRecovered;
    hide Fetched;
    hide Processed;
    BeforeRereadKeeps(s, c, in_);
    RereadKeeps(BeforeReread(s, c, in_), c, in_.beforeReread);
    var s1 := Reread(BeforeReread(s, c, in_), c, in_.beforeReread);
    PausedRecoveredKeeps(s1, c, in_);
    var s2 := if s1.a.authPaused then PausedRecovered(s1, c, in_).0 else s1;
    FetchedKeeps(s2, c, in_);
    ProcessedKeeps(Fetched(s2, c, in_).0);
  }

  lemma PollKeeps(s: Sys, c: Config, in_: PollIn)
    requires Inv(s)
    ensures Inv(Poll(s, c, in_).0)
  {
    hide Inv;
    hide ApiPoll;
    var a := s.a.(pollCycleCount := s.a.pollCycleCount + 1, rateLimitFailCount := Decayed(s.a.rateLimitFailCount));
    UpdateKeeps(s, a);
    NeutralKeeps(s.(a := a), StatuslineUsed);
    ApiPollKeeps(AfterStatusline(s, in_), c, in_);
  }

  lemma {:induction false} RunKeeps(s: Sys, c: Config, ins: seq<PollIn>)
    requires Inv(s)
    ensures Inv(Run(s, c, ins))
    decreases |ins|
  {
    hide Inv;
    hide Poll;
    if ins != [] {
      RunKeeps(s, c, ins[..|ins| - 1]);
      PollKeeps(Run(s, c, ins[..|ins| - 1]), c, ins[|ins| - 1]);
    }
  }
}
