/**
  The authentication and backoff machine of server/internal/agent/anthropic_agent.go.

  Everything the agent cannot decide is an input of the poll: how much time passes
  between two clock readings, what happens to the stored credentials before each
  read, the settings flags, the answers of the usage API and of the OAuth endpoint,
  and whether the credential write succeeds. An exchange may also succeed at the
  endpoint and be lost on the way back. The environment is ideal in three ways: the
  clock never goes back, the OAuth endpoint refuses a refresh token that was already
  exchanged, and token strings it or Claude Code issues are new.
 */
module AnthropicAuth {
  import opened Prelude

  type Token = string // the empty string stands for "no token", as in the source
  type Time = int // nanoseconds

  const MINUTE: int := 60_000_000_000
  const HOUR: int := 60 * MINUTE
  const MAX_AUTH_FAILURES: int := 3
  const MAX_RATE_LIMIT_FAILURES: int := 5
  const RATE_LIMIT_BASE: int := 5 * MINUTE
  const RATE_LIMIT_MAX: int := 6 * HOUR
  const PAUSED_RETRY_BASE: int := 15 * MINUTE
  const PAUSED_RETRY_MAX: int := 6 * HOUR

  datatype Creds = Creds(access: Token, refresh: Token)

  // The agent.

  datatype Agent = Agent(
    clientToken: Token,
    lastToken: Token,
    authFailCount: int,
    authPaused: bool,
    lastFailedToken: Token,
    authRetryAt: Option<Time>,
    authRetryCount: int,
    superseded: Token,
    rateLimitFailCount: int,
    rateLimitPaused: bool,
    rateLimitResumeAt: Option<Time>,
    pollCycleCount: nat)

  /** Wiring fixed when the agent is built. */
  datatype Config = Config(
    hasTokenRefresh: bool,
    hasCredsRefresh: bool,
    apiPollingDisabled: bool,
    apiPollCycleInterval: nat)

  // The environment, with its history.

  datatype Site = Proactive | Bypass | AuthFailure | PausedRetry

  /** The four places that ask the usage API. */
  datatype CallKind = FirstFetch | AfterBypass | AfterReread | AfterRecovery

  datatype Event =
    | Attempt(site: Site, at: Time, creds: Creds, tokenSpent: bool, superseded: bool,
              autoRefresh: bool, ccRunning: bool, inBackoff: bool)
    | Granted(replaced: Creds, issued: Creds, saved: bool)
    | ReplyLost(token: Token)
    | Limited(at: Time, retryAfter: int, until: Time)
    | BypassFailed(at: Time)
    | BackoffExpired(at: Time)
    | SpentBefore(token: Token) // by an earlier life of the agent
    | CredentialsChanged(token: Token, former: Token)
    | ForcedReread(token: Token)
    | ForcedRereadFailed
    | PausedTry(at: Time, count: int)
    | PauseStarted(at: Time, failed: Token, revoked: bool)
    | PauseLifted
    | ScheduleReset
    | PollSucceeded
    | UsageCall(kind: CallKind, presented: Token, outcome: Fetch)
    | StatuslineUsed

  datatype World = World(clock: Time, stored: Option<Creds>, spent: set<Token>, known: set<Token>, log: seq<Event>)

  datatype Sys = Sys(a: Agent, w: World)

  // The inputs of one poll.

  /** What somebody else did to the stored credentials before the agent reads them, or that the read fails. */
  datatype External = Untouched | Rotated(pair: Creds) | Cleared | Unreadable

  /** Lost: the endpoint exchanged the token, and its reply could not be read. Failed: it exchanged nothing. */
  datatype Answer = Grant(pair: Creds, saved: bool) | Lost | RateLimited(retryAfter: int) | InvalidGrant | Failed

  /** Everything one OAuth call site consults. */
  datatype Gate = Gate(wait: nat, autoRefresh: bool, ccRunning: bool, external: External, answer: Answer, waitAfter: nat)

  datatype Fetch = FetchOk | FetchLimited | FetchAuth | FetchOther | FetchCancelled

  datatype Statusline = Unusable | InsertFailed | Stored

  datatype PollIn = PollIn(
    enabled: bool,
    statusline: Statusline,
    beforeProactive: External, expiringSoon: bool, proactive: Gate,
    beforeReread: External,
    waitPaused: nat, pausedRetry: Gate,
    fetch: Fetch,
    bypass: Gate, bypassFetch: Fetch,
    beforeForced: External, forcedFetch: Fetch,
    recovery: Gate, recoveryFetch: Fetch, waitPause: nat)

  datatype Exit = Skipped | StatuslineOnly | StillPaused | Cancelled | CancelledAfterRecovery | GaveUp | Completed

  // Clock, store, server.

  function Tick(s: Sys, n: nat): Sys {
    s.(w := s.w.(clock := s.w.clock + n))
  }

  function Log(s: Sys, e: Event): Sys {
    s.(w := s.w.(log := s.w.log + [e]))
  }

  /** Newly issued: an access token and, if there is one, a refresh token nobody has seen. */
  predicate Fresh(known: set<Token>, pair: Creds) {
    && pair.access != "" && pair.access !in known
    && (pair.refresh == "" || pair.refresh !in known)
  }

  function TokensOf(pair: Creds): set<Token> {
    {pair.access} + if pair.refresh == "" then {} else {pair.refresh}
  }

  function Touched(s: Sys, e: External): Sys {
    match e
    case Untouched => s
    case Unreadable => s
    case Cleared => s.(w := s.w.(stored := None))
    case Rotated(pair) =>
      if Fresh(s.w.known, pair) then s.(w := s.w.(stored := Some(pair), known := s.w.known + TokensOf(pair))) else s
  }

  /** What credsRefresh returns: a read that fails finds nothing, and leaves the stored pair as it is. */
  function Found(s: Sys, e: External): Option<Creds> {
    if e.Unreadable? then None else Touched(s, e).w.stored
  }

  /** What tokenRefresh returns. */
  function FoundToken(s: Sys, e: External): Token {
    match Found(s, e)
    case None => ""
    case Some(creds) => creds.access
  }

  /** The endpoint exchanges a refresh token once, and only for a new pair. */
  function ServerAnswer(w: World, token: Token, answer: Answer): Answer {
    if !answer.Grant? && !answer.Lost? then answer
    else if token in w.spent then InvalidGrant
    else if answer.Grant? && !Fresh(w.known, answer.pair) then Failed
    else answer
  }

  predicate InBackoff(s: Sys) {
    s.a.rateLimitPaused && s.a.rateLimitResumeAt.Some? && s.w.clock < s.a.rateLimitResumeAt.value
  }

  // Backoff schedules.

  function Doubled(base: int, n: nat): int {
    if n == 0 then base else 2 * Doubled(base, n - 1)
  }

  function Backoff(base: int, max: int, count: int): int {
    if count <= 0 then base
    else
      var shift := if count - 1 > 10 then 10 else count - 1;
      var backoff := Doubled(base, shift);
      if backoff > max then max else backoff
  }

  function RateLimitBackoff(failCount: int): int {
    Backoff(RATE_LIMIT_BASE, RATE_LIMIT_MAX, failCount)
  }

  function AuthRetryBackoff(attempt: int): int {
    Backoff(PAUSED_RETRY_BASE, PAUSED_RETRY_MAX, attempt)
  }

  // The steps of a poll, as functions of the system state.

  /** Pausing on a token; `revoked` when the endpoint refused the refresh token for good. */
  function Paused(s: Sys, failedToken: Token, revoked: bool): Sys {
    Log(s.(a := s.a.(authPaused := true, lastFailedToken := failedToken,
                     authRetryAt := if s.a.authRetryAt.None? then Some(s.w.clock + PAUSED_RETRY_BASE) else s.a.authRetryAt)),
        PauseStarted(s.w.clock, failedToken, revoked))
  }

  function Resumed(s: Sys): Sys {
    Log(Log(s.(a := s.a.(authPaused := false, authFailCount := 0, lastFailedToken := "",
                         authRetryAt := None, authRetryCount := 0)), PauseLifted), ScheduleReset)
  }

  /** A granted pair: backoff cleared, pair written if the write works, new access token installed either way. */
  function Installed(s: Sys, replaced: Creds, pair: Creds, saved: bool): Sys {
    Log(Sys(s.a.(rateLimitFailCount := 0, rateLimitPaused := false, rateLimitResumeAt := None,
                 superseded := if saved then "" else replaced.access,
                 clientToken := pair.access, lastToken := pair.access),
            s.w.(stored := if saved then Some(pair) else s.w.stored)), Granted(replaced, pair, saved))
  }

  function BackedOff(s: Sys, retryAfter: int, until: Time): Sys {
    Log(s.(a := s.a.(rateLimitPaused := true, rateLimitResumeAt := Some(until))), Limited(s.w.clock, retryAfter, until))
  }

  /** How a failed exchange is classified; only the 429 bypass counts transient failures. */
  function Refused(s: Sys, site: Site, answer: Answer): Sys {
    match answer
    case RateLimited(retryAfter) =>
      var s1 := s.(a := s.a.(rateLimitFailCount := s.a.rateLimitFailCount + 1));
      BackedOff(s1, retryAfter, s.w.clock + if retryAfter > 0 then retryAfter else RateLimitBackoff(s1.a.rateLimitFailCount))
    case InvalidGrant =>
      Paused(s.(a := s.a.(authFailCount := MAX_AUTH_FAILURES)), s.a.lastToken, true)
    case _ =>
      if site.Bypass? then
        var s1 := s.(a := s.a.(rateLimitFailCount := s.a.rateLimitFailCount + 1));
        var s2 :=
          if s1.a.rateLimitFailCount >= MAX_RATE_LIMIT_FAILURES then
            s1.(a := s1.a.(rateLimitPaused := true,
                           rateLimitResumeAt := Some(s.w.clock + RateLimitBackoff(s1.a.rateLimitFailCount))))
          else s1;
        Log(s2, BypassFailed(s.w.clock))
      else s
  }

  /** One exchange at the OAuth endpoint and everything the agent does about its answer. */
  function Exchanged(s: Sys, site: Site, creds: Creds, gate: Gate): (Sys, bool) {
    var s1 := Log(s, Attempt(site, s.w.clock, creds, creds.refresh in s.w.spent, creds.access == s.a.superseded,
                             gate.autoRefresh, gate.ccRunning, InBackoff(s)));
    match ServerAnswer(s.w, creds.refresh, gate.answer)
    case Grant(pair, saved) =>
      var w := s1.w.(spent := s1.w.spent + {creds.refresh}, known := s1.w.known + TokensOf(pair));
      (Installed(s1.(w := w), creds, pair, saved), true)
    case Lost =>
      var w := s1.w.(spent := s1.w.spent + {creds.refresh});
      (Refused(Tick(Log(s1.(w := w), ReplyLost(creds.refresh)), gate.waitAfter), site, Lost), false)
    case refusal => (Refused(Tick(s1, gate.waitAfter), site, refusal), false)
  }

  function ProactivelyRefreshed(s: Sys, creds: Creds, gate: Gate): Sys {
    var s1 := Tick(s, gate.wait);
    if !gate.autoRefresh then s1
    else if creds.access != "" && creds.access == s.a.superseded then s1
    else if gate.ccRunning then s1
    else if InBackoff(s1) then s1
    else
      var (s2, granted) := Exchanged(s1, Proactive, creds, gate);
      if granted && s2.a.authPaused then Resumed(s2) else s2
  }

  function BeforeReread(s: Sys, c: Config, in_: PollIn): Sys {
    if !c.hasCredsRefresh || s.a.authPaused then s
    else
      var s1 := Touched(s, in_.beforeProactive);
      match Found(s, in_.beforeProactive)
      case Some(creds) =>
        if in_.expiringSoon && creds.refresh != "" then ProactivelyRefreshed(s1, creds, in_.proactive) else s1
      case None => s1
  }

  function Reread(s: Sys, c: Config, e: External): Sys {
    if !c.hasTokenRefresh then s
    else
      var s1 := Touched(s, e);
      var read := FoundToken(s, e);
      var newToken := if read != "" && read == s1.a.superseded then s1.a.lastToken else read;
      if newToken == "" || newToken == s1.a.lastToken then s1
      else Adopted(s1, newToken)
  }

  /** Different credentials lift the pause, unless they are those that failed, and the rate-limit backoff. */
  function Adopted(s: Sys, token: Token): Sys {
    var s1 := Log(s.(a := s.a.(clientToken := token, lastToken := token)), CredentialsChanged(token, s.a.clientToken));
    var s2 := if s1.a.authPaused && token != s1.a.lastFailedToken then Resumed(s1) else s1;
    if s2.a.rateLimitPaused then
      s2.(a := s2.a.(rateLimitPaused := false, rateLimitFailCount := 0, rateLimitResumeAt := None))
    else s2
  }

  function OAuthRecovered(s: Sys, c: Config, site: Site, gate: Gate): (Sys, bool) {
    if !c.hasCredsRefresh || !gate.autoRefresh || gate.ccRunning then (s, false)
    else
      var s1 := Tick(s, gate.wait);
      if InBackoff(s1) then (s1, false)
      else
        var s2 := Touched(s1, gate.external);
        match Found(s1, gate.external)
        case None => (s2, false)
        case Some(creds) => if creds.refresh == "" then (s2, false) else Exchanged(s2, site, creds, gate)
  }

  /** A bounded recovery attempt is counted, and the next one scheduled. */
  function Tried(s: Sys): Sys {
    var count := s.a.authRetryCount + 1;
    Log(s.(a := s.a.(authRetryCount := count, authRetryAt := Some(s.w.clock + AuthRetryBackoff(count)))),
        PausedTry(s.w.clock, count))
  }

  /** The bounded attempt to leave the paused state; on success the escalated schedule survives the resume. */
  function PausedRecovered(s: Sys, c: Config, in_: PollIn): (Sys, bool) {
    var s1 := Tick(s, in_.waitPaused);
    if s1.a.authRetryAt.None? || s1.w.clock < s1.a.authRetryAt.value then (s1, false)
    else
      var (s3, ok) := OAuthRecovered(Tried(s1), c, PausedRetry, in_.pausedRetry);
      if !ok then (s3, false)
      else (Log(s3.(a := s3.a.(authPaused := false, authFailCount := 0, lastFailedToken := "")), PauseLifted), true)
  }

  /** A request to the usage API, with the token in use. */
  function Called(s: Sys, kind: CallKind, answer: Fetch): Sys {
    Log(s, UsageCall(kind, s.a.clientToken, answer))
  }

  function Decayed(failCount: int): int {
    if failCount > 0 then failCount - 1 else failCount
  }

  /** The 429 bypass, and how the poll ends. */
  function Bypassed(s: Sys, c: Config, gate: Gate, retry: Fetch): (Sys, Exit) {
    var s1 := Tick(s, gate.wait);
    if InBackoff(s1) then (s1, GaveUp)
    else
      var s2 :=
        if s1.a.rateLimitPaused then
          Log(s1.(a := s1.a.(rateLimitPaused := false, rateLimitFailCount := Decayed(s1.a.rateLimitFailCount))),
              BackoffExpired(s1.w.clock))
        else s1;
      if !gate.autoRefresh || gate.ccRunning || !c.hasCredsRefresh then (s2, GaveUp)
      else
        var s3 := Touched(s2, gate.external);
        var creds := Found(s2, gate.external);
        if creds.None? || creds.value.refresh == "" then (s3, GaveUp)
        else
          var (s4, granted) := Exchanged(s3, Bypass, creds.value, gate);
          if !granted then (s4, GaveUp)
          else (Called(s4, AfterBypass, retry), if retry.FetchOk? then Completed else if retry.FetchCancelled? then Cancelled else GaveUp)
  }

  /** After a 401 or 403: forced re-read, one retry, and on the third failure one recovery before pausing. */
  function AfterAuthError(s: Sys, c: Config, in_: PollIn): (Sys, Exit) {
    var s1 := Touched(s.(a := s.a.(lastToken := "")), in_.beforeForced);
    var retryToken := FoundToken(s, in_.beforeForced);
    if retryToken == "" then (Log(s1, ForcedRereadFailed), GaveUp)
    else
      var s2 := Called(Log(s1.(a := s1.a.(clientToken := retryToken, lastToken := retryToken)), ForcedReread(retryToken)),
                       AfterReread, in_.forcedFetch);
      match in_.forcedFetch
      case FetchOk => (s2.(a := s2.a.(authFailCount := 0)), Completed)
      case FetchCancelled => (s2, Cancelled)
      case FetchAuth => AfterRepeatedAuthError(s2.(a := s2.a.(authFailCount := s2.a.authFailCount + 1)), c, in_, retryToken)
      case _ => (s2, GaveUp)
  }

  function AfterRepeatedAuthError(s: Sys, c: Config, in_: PollIn, retryToken: Token): (Sys, Exit) {
    if s.a.authFailCount < MAX_AUTH_FAILURES then (s, GaveUp)
    else
      var (s1, recovered) := OAuthRecovered(s, c, AuthFailure, in_.recovery);
      var s2 := if recovered then Called(s1, AfterRecovery, in_.recoveryFetch) else s1;
      if recovered && in_.recoveryFetch.FetchOk? then
        (s2.(a := s2.a.(authFailCount := 0, lastFailedToken := "")), Completed)
      else if recovered && in_.recoveryFetch.FetchCancelled? then (s2, CancelledAfterRecovery)
      else if s2.a.authPaused then (s2, GaveUp)
      else (Paused(Tick(s2, in_.waitPause), retryToken, false), GaveUp)
  }

  function Fetched(s: Sys, c: Config, in_: PollIn): (Sys, Exit) {
    var s1 := Called(s, FirstFetch, in_.fetch);
    match in_.fetch
    case FetchOk => (s1.(a := s1.a.(rateLimitFailCount := Decayed(s1.a.rateLimitFailCount))), Completed)
    case FetchCancelled => (s1, Cancelled)
    case FetchLimited => Bypassed(s1, c, in_.bypass, in_.bypassFetch)
    case FetchAuth => if c.hasTokenRefresh then AfterAuthError(s1, c, in_) else (s1, GaveUp)
    case FetchOther => (s1, GaveUp)
  }

  /** processResponse: a poll succeeded, so failures and the retry schedule start over. */
  function Processed(s: Sys): Sys {
    Log(s.(a := s.a.(authFailCount := 0, authRetryCount := 0, authRetryAt := None)), PollSucceeded)
  }

  /** A poll up to the first fetch, and whether it gets there. */
  function BeforeFetch(s: Sys, c: Config, in_: PollIn): (Sys, bool) {
    var s1 := Reread(BeforeReread(s, c, in_), c, in_.beforeReread);
    if s1.a.authPaused then PausedRecovered(s1, c, in_) else (s1, true)
  }

  /** The part of a poll that talks to the OAuth and usage APIs. */
  function ApiPoll(s: Sys, c: Config, in_: PollIn): (Sys, Exit) {
    var (s1, go) := BeforeFetch(s, c, in_);
    if !go then (s1, StillPaused)
    else
      var (s2, exit) := Fetched(s1, c, in_);
      if exit.Completed? then (Processed(s2), exit) else (s2, exit)
  }

  /** Statusline data that was stored counts a poll cycle and lets the failure count decay. */
  function AfterStatusline(s: Sys, in_: PollIn): Sys {
    if !in_.statusline.Stored? then s
    else
      Log(s.(a := s.a.(pollCycleCount := s.a.pollCycleCount + 1, rateLimitFailCount := Decayed(s.a.rateLimitFailCount))),
          StatuslineUsed)
  }

  /** The poll does not stop before the APIs. */
  predicate UsesApi(s: Sys, c: Config, in_: PollIn) {
    && in_.enabled && !in_.statusline.InsertFailed?
    && (in_.statusline.Stored? ==> c.apiPollCycleInterval > 0 && (s.a.pollCycleCount + 1) % c.apiPollCycleInterval == 0)
    && !c.apiPollingDisabled
  }

  function Poll(s: Sys, c: Config, in_: PollIn): (Sys, Exit) {
    if !in_.enabled then (s, Skipped)
    else if in_.statusline.InsertFailed? then (s, GaveUp)
    else if UsesApi(s, c, in_) then ApiPoll(AfterStatusline(s, in_), c, in_)
    else (AfterStatusline(s, in_), StatuslineOnly)
  }

  function Run(s: Sys, c: Config, ins: seq<PollIn>): Sys
    decreases |ins|
  {
    if ins == [] then s else Poll(Run(s, c, ins[..|ins| - 1]), c, ins[|ins| - 1]).0
  }
}
