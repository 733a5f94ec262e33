/**
  The agent as its history tells it. Every event has a meaning for the agent's
  fields and may only happen in some states; a poll is exactly the events its guards
  call for, and the fields afterwards are the replay of those events. The guards and
  the meanings are stated here on their own, apart from the steps of the agent.
 */
module AnthropicReplay {
  import opened Prelude
  import opened AnthropicAuth
  import opened AnthropicPause

  // What an event means.

  function Effect(a: Agent, e: Event): Agent {
    match e
    case Granted(replaced, issued, saved) =>
      a.(clientToken := issued.access, lastToken := issued.access, superseded := if saved then "" else replaced.access,
         rateLimitFailCount := 0, rateLimitPaused := false, rateLimitResumeAt := None)
    case Limited(_, _, until) =>
      a.(rateLimitFailCount := a.rateLimitFailCount + 1, rateLimitPaused := true, rateLimitResumeAt := Some(until))
    case BypassFailed(at) =>
      var count := a.rateLimitFailCount + 1;
      if count < 5 then a.(rateLimitFailCount := count)
      else a.(rateLimitFailCount := count, rateLimitPaused := true, rateLimitResumeAt := Some(at + RateLimitBackoff(count)))
    case BackoffExpired(_) => OneLess(a).(rateLimitPaused := false)
    case CredentialsChanged(token, _) =>
      var b := a.(clientToken := token, lastToken := token);
      if a.rateLimitPaused then b.(rateLimitFailCount := 0, rateLimitPaused := false, rateLimitResumeAt := None) else b
    case ForcedReread(token) => a.(clientToken := token, lastToken := token)
    case ForcedRereadFailed => a.(lastToken := "")
    case PausedTry(at, count) => a.(authRetryCount := count, authRetryAt := Some(at + AuthRetryBackoff(count)))
    case PauseStarted(at, failed, revoked) =>
      a.(authPaused := true, lastFailedToken := failed, authFailCount := if revoked then 3 else a.authFailCount,
         authRetryAt := if a.authRetryAt.None? then Some(at + 15 * MINUTE) else a.authRetryAt)
    case PauseLifted => a.(authPaused := false, authFailCount := 0, lastFailedToken := "")
    case ScheduleReset => a.(authRetryAt := None, authRetryCount := 0)
    case PollSucceeded => a.(authFailCount := 0, authRetryAt := None, authRetryCount := 0)
    case UsageCall(kind, _, outcome) =>
      if kind.FirstFetch? && outcome.FetchOk? then OneLess(a)
      else if kind.AfterReread? && outcome.FetchOk? then a.(authFailCount := 0)
      else if kind.AfterReread? && outcome.FetchAuth? then a.(authFailCount := a.authFailCount + 1)
      else if kind.AfterRecovery? && outcome.FetchOk? then a.(authFailCount := 0, lastFailedToken := "")
      else a
    case StatuslineUsed => OneLess(a).(pollCycleCount := a.pollCycleCount + 1)
    case _ => a
  }

  /** The count of rate-limit failures decays. */
  function OneLess(a: Agent): Agent {
    if a.rateLimitFailCount > 0 then a.(rateLimitFailCount := a.rateLimitFailCount - 1) else a
  }

  /** When an event may happen, and what it has to say. */
  predicate Allowed(a: Agent, e: Event) {
    match e
    case Attempt(_, at, creds, _, superseded, _, _, inBackoff) =>
      superseded == (creds.access == a.superseded) && inBackoff == BacksOff(a, at)
    case Limited(at, retryAfter, until) =>
      until == at + if retryAfter > 0 then retryAfter else RateLimitBackoff(a.rateLimitFailCount + 1)
    case BackoffExpired(at) => a.rateLimitPaused && !BacksOff(a, at)
    case CredentialsChanged(token, former) => former == a.clientToken && token !in {"", a.lastToken, a.superseded}
    case ForcedReread(token) => token != ""
    case PausedTry(at, count) =>
      a.authPaused && a.authRetryAt.Some? && a.authRetryAt.value <= at && count == a.authRetryCount + 1
    case PauseStarted(_, failed, revoked) => if revoked then failed == a.lastToken else a.authFailCount >= 3 && !a.authPaused
    case PauseLifted => a.authPaused
    case UsageCall(_, presented, _) => presented == a.clientToken && !a.authPaused
    case _ => true
  }

  function Replay(a: Agent, h: seq<Event>): Agent {
    if h == [] then a else Effect(Replay(a, h[..|h| - 1]), h[|h| - 1])
  }

  predicate AllAllowed(a: Agent, h: seq<Event>) {
    h == [] || (AllAllowed(a, h[..|h| - 1]) && Allowed(Replay(a, h[..|h| - 1]), h[|h| - 1]))
  }

  // Which events happen.

  /** An event by what it is, without the details the replay accounts for. */
  datatype Mark =
    | Refreshes(site: Site) | Renews(pair: Creds, saved: bool) | LosesReply | IsLimited(retryAfter: int) | FailsBypass
    | IsRevoked | BackoffEnds | Adopts(token: Token) | Rereads(token: Token) | RereadsNothing | Tries | Pauses(token: Token)
    | LiftsPause | ResetsSchedule | Asks(kind: CallKind, outcome: Fetch) | Succeeds | ReadsStatusline | StartsSpent

  function MarkOf(e: Event): Mark {
    match e
    case Attempt(site, _, _, _, _, _, _, _) => Refreshes(site)
    case Granted(_, issued, saved) => Renews(issued, saved)
    case ReplyLost(_) => LosesReply
    case Limited(_, retryAfter, _) => IsLimited(retryAfter)
    case BypassFailed(_) => FailsBypass
    case BackoffExpired(_) => BackoffEnds
    case SpentBefore(_) => StartsSpent
    case CredentialsChanged(token, _) => Adopts(token)
    case ForcedReread(token) => Rereads(token)
    case ForcedRereadFailed => RereadsNothing
    case PausedTry(_, _) => Tries
    case PauseStarted(_, failed, revoked) => if revoked then IsRevoked else Pauses(failed)
    case PauseLifted => LiftsPause
    case ScheduleReset => ResetsSchedule
    case PollSucceeded => Succeeds
    case UsageCall(kind, _, outcome) => Asks(kind, outcome)
    case StatuslineUsed => ReadsStatusline
  }

  function Marks(h: seq<Event>): seq<Mark> {
    if h == [] then [] else Marks(h[..|h| - 1]) + [MarkOf(h[|h| - 1])]
  }

  /** The way from s to t: these marks, every event allowed, and the agent of t the replay of them. */
  predicate Explains(s: Sys, t: Sys, marks: seq<Mark>) {
    && s.w.log <= t.w.log
    && var h := t.w.log[|s.w.log|..];
       Marks(h) == marks && AllAllowed(s.a, h) && t.a == Replay(s.a, h)
  }

  lemma {:induction false} ReplayAppend(a: Agent, g: seq<Event>, h: seq<Event>)
    ensures Replay(a, g + h) == Replay(Replay(a, g), h)
    ensures AllAllowed(a, g + h) <==> AllAllowed(a, g) && AllAllowed(Replay(a, g), h)
    ensures Marks(g + h) == Marks(g) + Marks(h)
  {
    hide Effect;
    hide Allowed;
    hide MarkOf;
    if h == [] {
      assert g + h == g;
    } else {
      assert (g + h)[..|g + h| - 1] == g + h[..|h| - 1];
      ReplayAppend(a, g, h[..|h| - 1]);
    }
  }

  lemma Then(s: Sys, t: Sys, u: Sys, a: seq<Mark>, b: seq<Mark>)
    requires Explains(s, t, a) && Explains(t, u, b)
    ensures Explains(s, u, a + b)
    ensures a == [] ==> Explains(s, u, b)
    ensures b == [] ==> Explains(s, u, a)
  {
    hide Replay;
    hide AllAllowed;
    hide Marks;
    var g, h := t.w.log[|s.w.log|..], u.w.log[|t.w.log|..];
    assert u.w.log[|s.w.log|..] == g + h;
    ReplayAppend(s.a, g, h);
  }

  lemma One(s: Sys, t: Sys, e: Event)
    requires t.w.log == s.w.log + [e] && t.a == Effect(s.a, e) && Allowed(s.a, e)
    ensures Explains(s, t, [MarkOf(e)])
  {
    hide Effect;
    hide Allowed;
    hide MarkOf;
    var h := t.w.log[|s.w.log|..];
    assert h == [e] && h[..0] == [];
    assert Replay(s.a, h[..0]) == s.a && AllAllowed(s.a, h[..0]) && Marks(h[..0]) == [];
  }

  lemma Nothing(s: Sys, t: Sys)
    requires t.w.log == s.w.log && t.a == s.a
    ensures Explains(s, t, [])
  {
    assert t.w.log[|s.w.log|..] == [];
  }

  // The guards of a poll, and the marks they call for.

  /** How the endpoint answers a token, and what the site makes of it. */
  function AnswerMarks(w: World, token: Token, answer: Answer, site: Site): seq<Mark> {
    match ServerAnswer(w, token, answer)
    case Grant(pair, saved) => [Renews(pair, saved)]
    case Lost => [LosesReply] + if site.Bypass? then [FailsBypass] else []
    case RateLimited(retryAfter) => [IsLimited(retryAfter)]
    case InvalidGrant => [IsRevoked]
    case Failed => if site.Bypass? then [FailsBypass] else []
  }

  /** A recovery or a bypass. */
  function GateMarks(s: Sys, c: Config, site: Site, gate: Gate): seq<Mark> {
    if !Presents(s, c, gate) then []
    else [Refreshes(site)] + AnswerMarks(Touched(s, gate.external).w, Found(s, gate.external).value.refresh, gate.answer, site)
  }

  /** The proactive refresh: of a pair about to expire that has a refresh token and is not superseded. */
  predicate RefreshesProactively(s: Sys, c: Config, in_: PollIn) {
    && c.hasCredsRefresh && !s.a.authPaused && in_.expiringSoon
    && in_.proactive.autoRefresh && !in_.proactive.ccRunning && !BacksOff(s.a, s.w.clock + in_.proactive.wait)
    && Found(s, in_.beforeProactive).Some?
    && var creds := Found(s, in_.beforeProactive).value;
       creds.refresh != "" && (creds.access == "" || creds.access != s.a.superseded)
  }

  function ProactiveMarks(s: Sys, c: Config, in_: PollIn): seq<Mark> {
    if !RefreshesProactively(s, c, in_) then []
    else
      [Refreshes(Proactive)]
      + AnswerMarks(Touched(s, in_.beforeProactive).w, Found(s, in_.beforeProactive).value.refresh, in_.proactive.answer, Proactive)
  }

  /** The re-read: a token other than those known is adopted, and lifts a pause on another one. */
  function RereadMarks(s: Sys, c: Config, e: External): seq<Mark> {
    var token := FoundToken(s, e);
    if !c.hasTokenRefresh || token in {"", s.a.superseded, s.a.lastToken} then []
    else [Adopts(token)] + if s.a.authPaused && token != s.a.lastFailedToken then [LiftsPause, ResetsSchedule] else []
  }

  /** The bounded retry is due. */
  predicate RetryDue(s: Sys, in_: PollIn) {
    s.a.authRetryAt.Some? && s.a.authRetryAt.value <= s.w.clock + in_.waitPaused
  }

  predicate RetryGranted(s: Sys, c: Config, in_: PollIn) {
    RetryDue(s, in_) && Grants(Tick(s, in_.waitPaused), c, in_.pausedRetry)
  }

  function RetryMarks(s: Sys, c: Config, in_: PollIn): seq<Mark> {
    if !s.a.authPaused || !RetryDue(s, in_) then []
    else
      [Tries] + GateMarks(Tick(s, in_.waitPaused), c, PausedRetry, in_.pausedRetry)
      + if RetryGranted(s, c, in_) then [LiftsPause] else []
  }

  function BypassMarks(s: Sys, c: Config, gate: Gate, retry: Fetch): seq<Mark> {
    (if s.a.rateLimitPaused && !BacksOff(s.a, s.w.clock + gate.wait) then [BackoffEnds] else [])
    + GateMarks(s, c, Bypass, gate)
    + if Grants(s, c, gate) then [Asks(AfterBypass, retry)] else []
  }

  predicate Revokes(s: Sys, c: Config, gate: Gate) {
    && Presents(s, c, gate)
    && ServerAnswer(Touched(s, gate.external).w, Found(s, gate.external).value.refresh, gate.answer).InvalidGrant?
  }

  /** The third failure: one recovery, and a pause unless it helps, the fetch is cancelled, or the token turns out revoked. */
  function RecoveryMarks(s: Sys, c: Config, in_: PollIn, token: Token): seq<Mark> {
    GateMarks(s, c, AuthFailure, in_.recovery)
    + (if Grants(s, c, in_.recovery) then [Asks(AfterRecovery, in_.recoveryFetch)] else [])
    + if Grants(s, c, in_.recovery) && (in_.recoveryFetch.FetchOk? || in_.recoveryFetch.FetchCancelled?) then []
      else if Revokes(s, c, in_.recovery) then []
      else [Pauses(token)]
  }

  /** After a 401 or 403. */
  function AuthErrorMarks(s: Sys, c: Config, in_: PollIn): seq<Mark> {
    var token := FoundToken(s, in_.beforeForced);
    if token == "" then [RereadsNothing]
    else
      [Rereads(token)] + [Asks(AfterReread, in_.forcedFetch)]
      + if in_.forcedFetch.FetchAuth? && s.a.authFailCount >= 2 then RecoveryMarks(Touched(s, in_.beforeForced), c, in_, token)
        else []
  }

  function FetchMarks(s: Sys, c: Config, in_: PollIn): seq<Mark> {
    [Asks(FirstFetch, in_.fetch)]
    + match in_.fetch
      case FetchLimited => BypassMarks(s, c, in_.bypass, in_.bypassFetch)
      case FetchAuth => if c.hasTokenRefresh then AuthErrorMarks(s, c, in_) else []
      case _ => []
  }

  /** One of the fetches brings a response. */
  predicate GetsResponse(s: Sys, c: Config, in_: PollIn) {
    match in_.fetch
    case FetchOk => true
    case FetchLimited => Grants(s, c, in_.bypass) && in_.bypassFetch.FetchOk?
    case FetchAuth =>
      && c.hasTokenRefresh && FoundToken(s, in_.beforeForced) != ""
      && (in_.forcedFetch.FetchOk?
          || (in_.forcedFetch.FetchAuth? && s.a.authFailCount >= 2
              && Grants(Touched(s, in_.beforeForced), c, in_.recovery) && in_.recoveryFetch.FetchOk?))
    case _ => false
  }

  /** Statusline data stands in for the APIs, but for every so many polls with it; the APIs may be switched off altogether. */
  predicate ReachesApis(s: Sys, c: Config, in_: PollIn) {
    && in_.enabled && !in_.statusline.InsertFailed? && !c.apiPollingDisabled
    && (!in_.statusline.Stored? || (c.apiPollCycleInterval > 0 && (s.a.pollCycleCount + 1) % c.apiPollCycleInterval == 0))
  }

  /** All that happens in a poll, in order. */
  function PollMarks(s: Sys, c: Config, in_: PollIn): seq<Mark> {
    if !in_.enabled || in_.statusline.InsertFailed? then []
    else
      (if in_.statusline.Stored? then [ReadsStatusline] else [])
      + if !ReachesApis(s, c, in_) then [] else ApiMarks(AfterStatusline(s, in_), c, in_)
  }

  function ApiMarks(s: Sys, c: Config, in_: PollIn): seq<Mark> {
    var s1 := BeforeReread(s, c, in_);
    var s2 := Reread(s1, c, in_.beforeReread);
    var s3 := BeforeFetch(s, c, in_).0;
    ProactiveMarks(s, c, in_) + RereadMarks(s1, c, in_.beforeReread) + RetryMarks(s2, c, in_)
    + if s2.a.authPaused && !RetryGranted(s2, c, in_) then []
      else FetchMarks(s3, c, in_) + if GetsResponse(s3, c, in_) then [Succeeds] else []
  }

  // The token in use.

  /** The token the latest installing event names, or the first one. */
  function TokenInUse(first: Token, h: seq<Event>): Token {
    if h == [] then first
    else
      match h[|h| - 1]
      case Granted(_, issued, _) => issued.access
      case CredentialsChanged(token, _) => token
      case ForcedReread(token) => token
      case _ => TokenInUse(first, h[..|h| - 1])
  }

  lemma {:induction false} ReplayUsesToken(a: Agent, h: seq<Event>)
    ensures Replay(a, h).clientToken == TokenInUse(a.clientToken, h)
  {
    hide RateLimitBackoff;
    hide AuthRetryBackoff;
    if h != [] {
      ReplayUsesToken(a, h[..|h| - 1]);
    }
  }

  lemma {:induction false} AllowedAt(a: Agent, h: seq<Event>, i: nat)
    requires AllAllowed(a, h) && i < |h|
    ensures Allowed(Replay(a, h[..i]), h[i])
  {
    hide Allowed;
    hide Replay;
    if i < |h| - 1 {
      assert h[..|h| - 1][..i] == h[..i];
      AllowedAt(a, h[..|h| - 1], i);
    }
  }

  lemma ExplainsMeans(s: Sys, t: Sys, marks: seq<Mark>)
    requires Explains(s, t, marks)
    ensures s.w.log <= t.w.log
    ensures var h := t.w.log[|s.w.log|..];
      Marks(h) == marks && AllAllowed(s.a, h) && t.a == Replay(s.a, h)
  {
  }

  lemma CallsPresentToken(a: Agent, h: seq<Event>)
    requires AllAllowed(a, h)
    ensures forall i :: 0 <= i < |h| && h[i].UsageCall? ==> h[i].presented == TokenInUse(a.clientToken, h[..i])
  {
    hide AllAllowed;
    hide Replay;
    hide TokenInUse;
    forall i | 0 <= i < |h| && h[i].UsageCall?
      ensures h[i].presented == TokenInUse(a.clientToken, h[..i])
    {
      AllowedAt(a, h, i);
      ReplayUsesToken(a, h[..i]);
    }
  }
}
