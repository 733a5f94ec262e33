/** The guarantees of the Anthropic agent, over every run from a fresh start. */
module AnthropicLaws {
  import opened Prelude
  import opened AnthropicAuth
  import opened AnthropicRuns
  import AnthropicReplay

  /** The refresh token in the store was exchanged before the agent started: the history says so first. */
  function HistoryAtStart(stored: Option<Creds>, spent: set<Token>): seq<Event> {
    if stored.Some? && stored.value.refresh != "" && stored.value.refresh in spent then [SpentBefore(stored.value.refresh)] else []
  }

  /** A just built agent, over any credential store. */
  predicate Initial(s: Sys) {
    && s.w.log == HistoryAtStart(s.w.stored, s.w.spent)
    && "" !in s.w.known && s.w.spent <= s.w.known
    && (s.w.stored.Some? ==>
          s.w.stored.value.access in s.w.known && (s.w.stored.value.refresh == "" || s.w.stored.value.refresh in s.w.known))
    && s.a.superseded == "" && s.a.lastToken == "" && s.a.lastFailedToken == ""
    && s.a.authFailCount == 0 && !s.a.authPaused && s.a.authRetryAt == None && s.a.authRetryCount == 0
    && s.a.rateLimitFailCount == 0 && !s.a.rateLimitPaused && s.a.rateLimitResumeAt == None
  }

  lemma InitialInv(s: Sys)
    requires Initial(s)
    ensures Inv(s)
  {
    if s.w.log != [] {
      var e := SpentBefore(s.w.stored.value.refresh);
      var blank := s.(w := s.w.(log := []));
      assert Log(blank, e) == s;
      Append(blank, e);
    }
  }

  lemma {:induction false} ReachableInv(s: Sys, c: Config, ins: seq<PollIn>)
    requires Initial(s)
    ensures Inv(Run(s, c, ins))
  {
    InitialInv(s);
    RunKeeps(s, c, ins);
  }

  /** The process starts anew over the world it left behind, its history forgotten. */
  function Restarted(w: World, token: Token): Sys {
    Sys(Agent(token, "", 0, false, "", None, 0, "", 0, false, None, 0), w.(log := HistoryAtStart(w.stored, w.spent)))
  }

  /** The laws hold of every life of the agent: whatever a run leaves behind is a start for the next. */
  lemma {:induction false} RestartIsInitial(s: Sys, c: Config, ins: seq<PollIn>, token: Token)
    requires Initial(s)
    ensures Initial(Restarted(Run(s, c, ins).w, token))
  {
    ReachableInv(s, c, ins);
    hide LawfulHistory;
    hide Run;
  }

  lemma {:induction false} LawfulAt(h: seq<Event>, i: nat)
    requires LawfulHistory(h) && i < |h|
    ensures LawfulHistory(h[..i]) && Lawful(h[..i], h[i])
  {
    hide Lawful;
    if i == |h| - 1 {
      assert h[..i] == Front(h);
    } else {
      assert Front(h)[..i] == h[..i];
      LawfulAt(Front(h), i);
    }
  }

  /**
    The OAuth guard. At every one of the call sites, every refresh happens with
    auto-refresh enabled, with Claude Code not running and outside the backoff.
   */
  lemma {:induction false} EveryRefreshIsGuarded(s: Sys, c: Config, ins: seq<PollIn>, i: nat)
    requires Initial(s)
    requires i < |Run(s, c, ins).w.log| && Run(s, c, ins).w.log[i].Attempt?
    ensures var e := Run(s, c, ins).w.log[i];
      e.autoRefresh && !e.ccRunning && !e.inBackoff
  {
    ReachableInv(s, c, ins);
    LawfulAt(Run(s, c, ins).w.log, i);
  }

  /**
    One-time tokens. A refresh presents a spent token exactly when the stored pair
    is the one whose replacement could not be written, or the reply to an earlier
    exchange of that token was lost, or the token was spent before the agent
    started. The proactive refresh never presents the first kind.
   */
  lemma {:induction false} SpentTokensArePresentedIff(s: Sys, c: Config, ins: seq<PollIn>, i: nat)
    requires Initial(s)
    requires i < |Run(s, c, ins).w.log| && Run(s, c, ins).w.log[i].Attempt?
    ensures var h := Run(s, c, ins).w.log;
      && (h[i].tokenSpent <==> h[i].superseded || SpentUnmarked(h[..i], h[i].creds.refresh))
      && (h[i].site.Proactive? ==> !h[i].superseded)
  {
    ReachableInv(s, c, ins);
    var h := Run(s, c, ins).w.log;
    LawfulAt(h, i);
    UnmarkedIffRecorded(h[..i], h[i].creds.refresh);
  }

  /** The reply to an exchange of this refresh token was lost, or the agent started over it spent. */
  ghost predicate SpentUnmarked(h: seq<Event>, token: Token) {
    exists k :: 0 <= k < |h| && (h[k] == ReplyLost(token) || h[k] == SpentBefore(token))
  }

  lemma {:induction false} UnmarkedIffRecorded(h: seq<Event>, token: Token)
    ensures token in Unmarked(h) <==> SpentUnmarked(h, token)
  {
    if h != [] {
      UnmarkedIffRecorded(Front(h), token);
      assert SpentUnmarked(Front(h), token) ==> SpentUnmarked(h, token);
      assert Last(h) == ReplyLost(token) || Last(h) == SpentBefore(token) ==> SpentUnmarked(h, token);
      if k :| 0 <= k < |h| && (h[k] == ReplyLost(token) || h[k] == SpentBefore(token)) {
        assert k < |h| - 1 ==> Front(h)[k] == h[k];
      }
    }
  }

  /**
    While no reply is lost, and from a start over an unspent token, the proactive
    refresh never presents a spent token, and the others do only for a superseded pair.
   */
  lemma {:induction false} WithoutLossOnlySupersededIsSpent(s: Sys, c: Config, ins: seq<PollIn>, i: nat)
    requires Initial(s)
    requires i < |Run(s, c, ins).w.log| && Run(s, c, ins).w.log[i].Attempt?
    requires forall k :: 0 <= k < i ==> !Run(s, c, ins).w.log[k].ReplyLost? && !Run(s, c, ins).w.log[k].SpentBefore?
    ensures var e := Run(s, c, ins).w.log[i];
      (e.tokenSpent <==> e.superseded) && (e.site.Proactive? ==> !e.tokenSpent)
  {
    SpentTokensArePresentedIff(s, c, ins, i);
  }

  /** Only the first event of a history tells of a token spent before the start. */
  lemma {:induction false} SpentBeforeIsFirst(s: Sys, c: Config, ins: seq<PollIn>, i: nat)
    requires Initial(s)
    requires i < |Run(s, c, ins).w.log| && Run(s, c, ins).w.log[i].SpentBefore?
    ensures i == 0
  {
    ReachableInv(s, c, ins);
    LawfulAt(Run(s, c, ins).w.log, i);
  }

  /**
    In every reachable state a stored refresh token is spent exactly when its
    access token is the superseded one, or the token was spent without a mark.
   */
  lemma {:induction false} StoredTokenSpentIff(s: Sys, c: Config, ins: seq<PollIn>)
    requires Initial(s)
    ensures var t := Run(s, c, ins);
      t.w.stored.Some? && t.w.stored.value.refresh != "" ==>
        (t.w.stored.value.refresh in t.w.spent <==>
          t.w.stored.value.access == t.a.superseded || SpentUnmarked(t.w.log, t.w.stored.value.refresh))
  {
    ReachableInv(s, c, ins);
    var t := Run(s, c, ins);
    hide LawfulHistory;
    hide Run;
    hide SpentUnmarked;
    if t.w.stored.Some? {
      UnmarkedIffRecorded(t.w.log, t.w.stored.value.refresh);
    }
  }

  /**
    A grant is the endpoint's answer to the refresh just presented, and its access
    token is neither the one it replaces nor any replaced before. From then on it is
    the token in use, until the next installing event.
   */
  lemma {:induction false} GrantReplacesTheTokenInUse(s: Sys, c: Config, ins: seq<PollIn>, i: nat, first: Token)
    requires Initial(s)
    requires i < |Run(s, c, ins).w.log| && Run(s, c, ins).w.log[i].Granted?
    ensures var h := Run(s, c, ins).w.log;
      && i > 0 && h[i - 1].Attempt? && h[i - 1].creds == h[i].replaced
      && h[i].issued.access != h[i].replaced.access
      && (forall k :: 0 <= k < i && h[k].Granted? ==> h[i].issued.access != h[k].replaced.access)
      && AnthropicReplay.TokenInUse(first, h[..i + 1]) == h[i].issued.access
  {
    ReachableInv(s, c, ins);
    var h := Run(s, c, ins).w.log;
    LawfulAt(h, i);
    hide Run;
    hide LawfulHistory;
    assert Last(h[..i]) == h[i - 1];
    assert h[..i + 1][|h[..i + 1]| - 1] == h[i];
    forall k | 0 <= k < i && h[k].Granted?
      ensures h[i].issued.access != h[k].replaced.access
    {
      assert h[..i][k] == h[k];
      RetiredAt(h[..i], k);
    }
  }

  /** What a read of the stored credentials finds, and what it leaves there. */
  lemma ReadsFindTheStore(s: Sys, pair: Creds)
    ensures Found(s, Untouched) == s.w.stored && Touched(s, Untouched) == s
    ensures Found(s, Unreadable) == None && Touched(s, Unreadable) == s
    ensures Found(s, Cleared) == None && Touched(s, Cleared).w.stored == None
    ensures Fresh(s.w.known, pair) ==> Found(s, Rotated(pair)) == Some(pair) == Touched(s, Rotated(pair)).w.stored
    ensures FoundToken(s, Untouched) == if s.w.stored.Some? then s.w.stored.value.access else ""
  {
  }

  /** What a granted refresh does to agent and store: the issued pair, as the endpoint answered it, is installed, saved or not. */
  lemma GrantInstallsTheAnswer(s: Sys, site: Site, creds: Creds, gate: Gate)
    requires Exchanged(s, site, creds, gate).1
    ensures gate.answer.Grant? && creds.refresh !in s.w.spent
    ensures var t := Exchanged(s, site, creds, gate).0;
      && t.a.clientToken == t.a.lastToken == gate.answer.pair.access
      && t.w.stored == (if gate.answer.saved then Some(gate.answer.pair) else s.w.stored)
      && t.w.spent == s.w.spent + {creds.refresh}
  {
  }

  /** The pre-poll re-read never goes back to an access token that an OAuth refresh replaced, saved or not. */
  lemma {:induction false} RereadNeverDowngrades(s: Sys, c: Config, ins: seq<PollIn>, i: nat, j: nat)
    requires Initial(s)
    requires var h := Run(s, c, ins).w.log;
      i < j < |h| && h[i].Granted? && h[j].CredentialsChanged?
    ensures var h := Run(s, c, ins).w.log;
      h[j].token != h[i].replaced.access
  {
    ReachableInv(s, c, ins);
    var h := Run(s, c, ins).w.log;
    LawfulAt(h, j);
    RetiredAt(h[..j], i);
  }

  lemma {:induction false} RetiredAt(h: seq<Event>, i: nat)
    requires i < |h| && h[i].Granted?
    ensures h[i].replaced.access in Retired(h)
  {
    if i < |h| - 1 {
      RetiredAt(Front(h), i);
    }
  }

  /** From position m of h on no token was installed, and m is the start or follows a forced re-read that found nothing. */
  predicate BlankFrom(h: seq<Event>, m: int) {
    0 <= m <= |h| && (m == 0 || h[m - 1].ForcedRereadFailed?) && forall l :: m <= l < |h| ==> !Installs(h[l])
  }

  ghost predicate NothingInstalled(h: seq<Event>) {
    exists m :: BlankFrom(h, m)
  }

  lemma {:induction false} ForgottenIffNothingInstalled(h: seq<Event>)
    ensures Forgotten(h) <==> NothingInstalled(h)
  {
    if Forgotten(h) {
      var m := ForgottenFrom(h);
    }
    if m :| BlankFrom(h, m) {
      BlankIsForgotten(h, m);
    }
  }

  lemma {:induction false} ForgottenFrom(h: seq<Event>) returns (m: nat)
    requires Forgotten(h)
    ensures BlankFrom(h, m)
  {
    if h == [] || Last(h).ForcedRereadFailed? {
      m := |h|;
    } else {
      m := ForgottenFrom(Front(h));
    }
  }

  lemma {:induction false} BlankIsForgotten(h: seq<Event>, m: int)
    requires BlankFrom(h, m)
    ensures Forgotten(h)
  {
    if m < |h| {
      assert !Installs(h[|h| - 1]);
      BlankIsForgotten(Front(h), m);
    }
  }

  /**
    After the OAuth endpoint answers 429, a refresh goes out before the lockout ends
    only when a re-read in between took what it found for new credentials: it differed
    from the token in use, or nothing had been installed since the start or since a
    forced re-read that found nothing, so that there was no token to compare it with.
   */
  lemma {:induction false} LockoutIsHonoured(s: Sys, c: Config, ins: seq<PollIn>, i: nat, j: nat)
    requires Initial(s)
    requires var h := Run(s, c, ins).w.log;
      i < j < |h| && h[i].Limited? && h[j].Attempt? && h[j].at < h[i].until
    ensures var h := Run(s, c, ins).w.log;
      exists k :: i < k < j && h[k].CredentialsChanged? && (h[k].token != h[k].former || NothingInstalled(h[..k]))
  {
    ReachableInv(s, c, ins);
    var h := Run(s, c, ins).w.log;
    LawfulAt(h, j);
    if forall k :: i < k < j ==> !h[k].CredentialsChanged? {
      LockStands(h[..j], i);
    }
    var k :| i < k < j && h[k].CredentialsChanged?;
    LawfulAt(h, k);
    ForgottenIffNothingInstalled(h[..k]);
  }

  /** The re-read finds a token other than the superseded one, and other than the one in use as far as it is known. */
  ghost predicate TakenForNew(s: Sys, c: Config, e: External) {
    var found := FoundToken(s, e);
    c.hasTokenRefresh && found != "" && found != s.a.superseded && (found != s.a.clientToken || NothingInstalled(s.w.log))
  }

  /**
    And the converse at the step: with the backoff on, the re-read lifts it if and
    only if what it finds is taken for new. In particular the token in use itself
    lifts it exactly when nothing was installed since the start or since a forced
    re-read that found nothing.
   */
  lemma {:induction false} RereadLiftsBackoffIff(s: Sys, c: Config, e: External)
    requires Inv(s) && s.a.rateLimitPaused
    ensures !Reread(s, c, e).a.rateLimitPaused <==> TakenForNew(s, c, e)
  {
    ForgottenIffNothingInstalled(s.w.log);
    hide LawfulHistory;
    hide NothingInstalled;
    hide Forgotten;
  }

  lemma {:induction false} LockStands(h: seq<Event>, i: nat)
    requires i < |h| && h[i].Limited?
    requires forall k :: i < k < |h| ==> !h[k].CredentialsChanged?
    ensures LockedUntil(h).Some? && LockedUntil(h).value >= h[i].until
  {
    if i < |h| - 1 {
      assert forall k :: i < k < |Front(h)| ==> Front(h)[k] == h[k];
      LockStands(Front(h), i);
    }
  }

  // The retry schedule of the paused state.

  /** The delays before the second to the n-th attempt. */
  function Delays(n: nat): int {
    if n <= 1 then 0 else Delays(n - 1) + AuthRetryBackoff(n - 1)
  }

  /** The time of the attempt that was the first since the schedule started over. */
  function FirstTry(h: seq<Event>): Option<Time> {
    if h == [] then None
    else if Last(h).ScheduleReset? || Last(h).PollSucceeded? then None
    else if Last(h).PausedTry? && FirstTry(Front(h)).None? then Some(Last(h).at)
    else FirstTry(Front(h))
  }

  /**
    Recovery spacing. Between two restarts of the schedule, the n-th paused
    recovery attempt comes no sooner after the first than the sum of the
    backoffs in between, however polls and failures interleave.
   */
  lemma {:induction false} TriesSpanTheirBackoffs(h: seq<Event>)
    requires LawfulHistory(h)
    ensures Tries(h) > 0 <==> FirstTry(h).Some?
    ensures Tries(h) > 0 ==> NextTry(h).Some? && NextTry(h).value >= FirstTry(h).value + Delays(Tries(h) + 1)
    ensures h != [] && Last(h).PausedTry? ==> Last(h).count == Tries(h) && Last(h).at >= FirstTry(h).value + Delays(Tries(h))
  {
    hide AuthRetryBackoff;
    if h != [] {
      TriesSpanTheirBackoffs(Front(h));
    }
  }

  lemma PausedAttemptsAreSpaced(s: Sys, c: Config, ins: seq<PollIn>, i: nat)
    requires Initial(s)
    requires i < |Run(s, c, ins).w.log| && Run(s, c, ins).w.log[i].PausedTry?
    ensures var h := Run(s, c, ins).w.log;
      && FirstTry(h[..i + 1]).Some?
      && h[i].count == Tries(h[..i + 1])
      && h[i].at >= FirstTry(h[..i + 1]).value + Delays(h[i].count)
  {
    hide Run;
    hide Delays;
    hide AuthRetryBackoff;
    ReachableInv(s, c, ins);
    var h := Run(s, c, ins).w.log;
    if i + 1 < |h| {
      LawfulAt(h, i + 1);
    } else {
      assert h[..i + 1] == h;
    }
    TriesSpanTheirBackoffs(h[..i + 1]);
  }

  /**
    The refresh calls themselves: each one made in the paused state directly
    follows the record of its attempt and comes no sooner than it, so the n-th call of a
    schedule is as far from the first attempt as the backoffs in between demand.
   */
  lemma {:induction false} PausedRefreshesAreSpaced(s: Sys, c: Config, ins: seq<PollIn>, i: nat)
    requires Initial(s)
    requires var h := Run(s, c, ins).w.log;
      i < |h| && h[i].Attempt? && h[i].site.PausedRetry?
    ensures var h := Run(s, c, ins).w.log;
      && i > 0 && h[i - 1].PausedTry? && h[i - 1].count == Tries(h[..i])
      && FirstTry(h[..i]).Some?
      && h[i].at >= h[i - 1].at >= FirstTry(h[..i]).value + Delays(h[i - 1].count)
  {
    ReachableInv(s, c, ins);
    var h := Run(s, c, ins).w.log;
    LawfulAt(h, i);
    assert Last(h[..i]) == h[i - 1];
    PausedAttemptsAreSpaced(s, c, ins, i - 1);
  }

  /** The first attempt of a schedule comes at least fifteen minutes after the pause that started the schedule. */
  lemma FirstAttemptWaitsAfterPause(s: Sys, c: Config, ins: seq<PollIn>, i: nat)
    requires Initial(s)
    requires i < |Run(s, c, ins).w.log| && Run(s, c, ins).w.log[i].PausedTry? && Run(s, c, ins).w.log[i].count == 1
    ensures var h := Run(s, c, ins).w.log;
      exists j :: 0 <= j < i && h[j].PauseStarted? && h[i].at >= h[j].at + 15 * MINUTE
                  && forall k :: j < k < i ==> !h[k].ScheduleReset? && !h[k].PollSucceeded? && !h[k].PausedTry?
  {
    ReachableInv(s, c, ins);
    var h := Run(s, c, ins).w.log;
    LawfulAt(h, i);
    var j := ScheduledByPause(h[..i]);
    assert forall k :: j < k < i ==> h[k] == h[..i][k];
  }

  lemma {:induction false} ScheduledByPause(h: seq<Event>) returns (j: nat)
    requires NextTry(h).Some? && Tries(h) == 0
    ensures j < |h| && h[j].PauseStarted? && NextTry(h).value == h[j].at + PAUSED_RETRY_BASE
    ensures forall k :: j < k < |h| ==> !h[k].ScheduleReset? && !h[k].PollSucceeded? && !h[k].PausedTry?
  {
    if Last(h).PauseStarted? && NextTry(Front(h)).None? {
      j := |h| - 1;
    } else {
      j := ScheduledByPause(Front(h));
    }
  }

  /** The delays start at fifteen minutes, never shrink, and stop growing at six hours. */
  lemma BackoffIsMonotone(m: int, n: int)
    requires m <= n
    ensures 15 * MINUTE <= AuthRetryBackoff(m) <= AuthRetryBackoff(n) <= 6 * HOUR
    ensures n >= 6 ==> AuthRetryBackoff(n) == 6 * HOUR
  {
    var i: nat := if m <= 0 then 0 else if m - 1 > 10 then 10 else m - 1;
    var j: nat := if n <= 0 then 0 else if n - 1 > 10 then 10 else n - 1;
    DoubledGrows(PAUSED_RETRY_BASE, 0, i);
    DoubledGrows(PAUSED_RETRY_BASE, i, j);
    if n >= 6 {
      DoubledGrows(PAUSED_RETRY_BASE, 5, j);
      assert Doubled(PAUSED_RETRY_BASE, 1) == 2 * PAUSED_RETRY_BASE;
      assert Doubled(PAUSED_RETRY_BASE, 3) == 8 * PAUSED_RETRY_BASE;
      assert Doubled(PAUSED_RETRY_BASE, 5) == 32 * PAUSED_RETRY_BASE;
    }
  }

  /** Both schedules in full: fifteen minutes doubling up to six hours, and five minutes doubling up to six hours. */
  lemma BackoffSchedules(n: int)
    ensures AuthRetryBackoff(n) ==
      (if n <= 1 then 15 else if n == 2 then 30 else if n == 3 then 60 else if n == 4 then 120 else if n == 5 then 240 else 360)
      * 60_000_000_000
    ensures RateLimitBackoff(n) ==
      (if n <= 1 then 5 else if n == 2 then 10 else if n == 3 then 20 else if n == 4 then 40 else if n == 5 then 80
       else if n == 6 then 160 else if n == 7 then 320 else 360)
      * 60_000_000_000
  {
    DoublesOf(PAUSED_RETRY_BASE);
    DoublesOf(RATE_LIMIT_BASE);
    if n > 8 {
      var shift: nat := if n - 1 > 10 then 10 else n - 1;
      DoubledGrows(PAUSED_RETRY_BASE, 7, shift);
      DoubledGrows(RATE_LIMIT_BASE, 7, shift);
    }
  }

  lemma DoublesOf(base: int)
    ensures Doubled(base, 0) == base && Doubled(base, 1) == 2 * base && Doubled(base, 2) == 4 * base
    ensures Doubled(base, 3) == 8 * base && Doubled(base, 4) == 16 * base && Doubled(base, 5) == 32 * base
    ensures Doubled(base, 6) == 64 * base && Doubled(base, 7) == 128 * base
  {
    assert Doubled(base, 2) == 2 * Doubled(base, 1) && Doubled(base, 4) == 2 * Doubled(base, 3) && Doubled(base, 6) == 2 * Doubled(base, 5);
  }

  lemma {:induction false} DoubledGrows(base: int, i: nat, j: nat)
    requires i <= j && base > 0
    ensures 0 < Doubled(base, i) <= Doubled(base, j)
  {
    if j > 0 {
      if i < j {
        DoubledGrows(base, i, j - 1);
      } else {
        DoubledGrows(base, i - 1, j - 1);
      }
    }
  }
}
