/** Polls that begin with the agent paused: which refreshes they make, in which order, and when. */
module AnthropicPausedPolls {
  import opened AnthropicAuth
  import opened AnthropicPause
  import opened AnthropicReplay
  import opened AnthropicRefinement

  /** The sites of the refreshes among some marks, in order. */
  function Sites(marks: seq<Mark>): seq<Site> {
    if marks == [] then []
    else Sites(marks[..|marks| - 1]) + if marks[|marks| - 1].Refreshes? then [marks[|marks| - 1].site] else []
  }

  lemma {:induction false} SitesAppend(a: seq<Mark>, b: seq<Mark>)
    ensures Sites(a + b) == Sites(a) + Sites(b)
  {
    if b == [] {
      assert a + b == a;
    } else {
      assert (a + b)[..|a + b| - 1] == a + b[..|b| - 1];
      SitesAppend(a, b[..|b| - 1]);
    }
  }

  lemma {:induction false} NoSites(marks: seq<Mark>)
    requires forall m :: m in marks ==> !m.Refreshes?
    ensures Sites(marks) == []
  {
    if marks != [] {
      assert marks[|marks| - 1] in marks;
      NoSites(marks[..|marks| - 1]);
    }
  }

  // What a paused poll does, as guards over the state and the inputs.

  /** The re-read finds an access token other than those known to be useless. */
  predicate NewCredentials(s: Sys, c: Config, in_: PollIn) {
    && c.hasTokenRefresh
    && FoundToken(s, in_.beforeReread) !in {"", s.a.superseded, s.a.lastToken, s.a.lastFailedToken}
  }

  /** The bounded retry presents a token. */
  predicate Retries(s: Sys, c: Config, in_: PollIn) {
    var s1 := Reread(s, c, in_.beforeReread);
    !NewCredentials(s, c, in_) && RetryDue(s1, in_) && Presents(Tick(s1, in_.waitPaused), c, in_.pausedRetry)
  }

  /** The poll lifts the pause before its first fetch: by new credentials, or by a retry that is due and granted. */
  predicate LiftsBeforeFetch(s: Sys, c: Config, in_: PollIn) {
    NewCredentials(s, c, in_) || RetryGranted(Reread(s, c, in_.beforeReread), c, in_)
  }

  /** The first fetch is answered 429 and the bypass presents a token. */
  predicate BypassesAfterLift(s: Sys, c: Config, in_: PollIn) {
    LiftsBeforeFetch(s, c, in_) && in_.fetch.FetchLimited? && Presents(BeforeFetch(s, c, in_).0, c, in_.bypass)
  }

  // The marks of its stages.

  lemma RereadLifts(s: Sys, c: Config, in_: PollIn)
    requires s.a.authPaused
    ensures var t := Reread(s, c, in_.beforeReread);
      && (t.a.authPaused <==> !NewCredentials(s, c, in_))
      && (!t.a.authPaused ==> t.a.authFailCount == 0 && LiftsPause in RereadMarks(s, c, in_.beforeReread))
  {
  }

  lemma GateSites(s: Sys, c: Config, site: Site, gate: Gate)
    ensures Sites(GateMarks(s, c, site, gate)) == if Presents(s, c, gate) then [site] else []
  {
    if Presents(s, c, gate) {
      var rest := AnswerMarks(Touched(s, gate.external).w, Found(s, gate.external).value.refresh, gate.answer, site);
      NoSites(rest);
      SitesAppend([Refreshes(site)], rest);
      assert [Refreshes(site)][..0] == [];
      assert Sites([Refreshes(site)][..0]) == [];
    }
  }

  lemma RetrySites(s: Sys, c: Config, in_: PollIn)
    requires s.a.authPaused
    ensures Sites(RetryMarks(s, c, in_)) ==
      if RetryDue(s, in_) && Presents(Tick(s, in_.waitPaused), c, in_.pausedRetry) then [PausedRetry] else []
    ensures RetryGranted(s, c, in_) ==> LiftsPause in RetryMarks(s, c, in_)
  {
    NoSites([]);
    hide Sites;
    hide GateMarks;
    hide Presents;
    hide Grants;
    if RetryDue(s, in_) {
      var gate := GateMarks(Tick(s, in_.waitPaused), c, PausedRetry, in_.pausedRetry);
      var last := if RetryGranted(s, c, in_) then [LiftsPause] else [];
      GateSites(Tick(s, in_.waitPaused), c, PausedRetry, in_.pausedRetry);
      NoSites([Tries]);
      NoSites(last);
      SitesAppend([Tries], gate);
      SitesAppend([Tries] + gate, last);
      assert LiftsPause in last ==> LiftsPause in [Tries] + gate + last;
    }
  }

  lemma BypassSites(s: Sys, c: Config, in_: PollIn)
    ensures Sites(BypassMarks(s, c, in_.bypass, in_.bypassFetch)) == if Presents(s, c, in_.bypass) then [Bypass] else []
  {
    hide GateMarks;
    hide Presents;
    hide Grants;
    hide Sites;
    var first := if s.a.rateLimitPaused && !BacksOff(s.a, s.w.clock + in_.bypass.wait) then [BackoffEnds] else [];
    var gate := GateMarks(s, c, Bypass, in_.bypass);
    var last := if Grants(s, c, in_.bypass) then [Asks(AfterBypass, in_.bypassFetch)] else [];
    GateSites(s, c, Bypass, in_.bypass);
    NoSites(first);
    NoSites(last);
    SitesAppend(first, gate);
    SitesAppend(first + gate, last);
  }

  /** With no failure counted, a fetch refreshes at the bypass or not at all. */
  lemma FetchSites(s: Sys, c: Config, in_: PollIn)
    requires s.a.authFailCount == 0
    ensures Sites(FetchMarks(s, c, in_)) == if in_.fetch.FetchLimited? && Presents(s, c, in_.bypass) then [Bypass] else []
  {
    hide Presents;
    hide BypassMarks;
    hide Sites;
    var first := [Asks(FirstFetch, in_.fetch)];
    var rest := match in_.fetch
      case FetchLimited => BypassMarks(s, c, in_.bypass, in_.bypassFetch)
      case FetchAuth => if c.hasTokenRefresh then AuthErrorMarks(s, c, in_) else []
      case _ => [];
    NoSites(first);
    SitesAppend(first, rest);
    if in_.fetch.FetchLimited? {
      BypassSites(s, c, in_);
    } else {
      NoSites(rest);
    }
  }

  /** The part of a paused poll before its first fetch, and the part from there on. */
  function FirstMarks(s: Sys, c: Config, in_: PollIn): seq<Mark> {
    RereadMarks(s, c, in_.beforeReread) + RetryMarks(Reread(s, c, in_.beforeReread), c, in_)
  }

  function LaterMarks(s: Sys, c: Config, in_: PollIn): seq<Mark> {
    var s1 := BeforeFetch(s, c, in_).0;
    if !LiftsBeforeFetch(s, c, in_) then []
    else FetchMarks(s1, c, in_) + if GetsResponse(s1, c, in_) then [Succeeds] else []
  }

  lemma PausedMarks(s: Sys, c: Config, in_: PollIn)
    requires s.a.authPaused
    ensures ApiMarks(s, c, in_) == FirstMarks(s, c, in_) + LaterMarks(s, c, in_)
    ensures BypassesAfterLift(s, c, in_) ==> LiftsPause in FirstMarks(s, c, in_)
    ensures Sites(FirstMarks(s, c, in_)) == if Retries(s, c, in_) then [PausedRetry] else []
    ensures Sites(LaterMarks(s, c, in_)) == if BypassesAfterLift(s, c, in_) then [Bypass] else []
  {
    assert BypassesAfterLift(s, c, in_) ==> LiftsBeforeFetch(s, c, in_);
    hide *;
    FirstThenLater(s, c, in_);
    FirstSites(s, c, in_);
    LaterSites(s, c, in_);
  }

  lemma FirstThenLater(s: Sys, c: Config, in_: PollIn)
    requires s.a.authPaused
    ensures ApiMarks(s, c, in_) == FirstMarks(s, c, in_) + LaterMarks(s, c, in_)
  {
    hide BeforeReread;
    hide ProactiveMarks;
    hide BeforeFetch;
    hide Reread;
    hide RereadMarks;
    hide RetryMarks;
    hide NewCredentials;
    hide RetryGranted;
    hide FetchMarks;
    hide GetsResponse;
    PausedSkipsProactive(s, c, in_);
    RereadLifts(s, c, in_);
    var first := RereadMarks(s, c, in_.beforeReread) + RetryMarks(Reread(s, c, in_.beforeReread), c, in_);
    assert [] + RereadMarks(s, c, in_.beforeReread) + RetryMarks(Reread(s, c, in_.beforeReread), c, in_) == first;
  }

  lemma PausedSkipsProactive(s: Sys, c: Config, in_: PollIn)
    requires s.a.authPaused
    ensures BeforeReread(s, c, in_) == s && ProactiveMarks(s, c, in_) == []
  {
  }

  lemma FirstSites(s: Sys, c: Config, in_: PollIn)
    requires s.a.authPaused
    ensures Sites(FirstMarks(s, c, in_)) == if Retries(s, c, in_) then [PausedRetry] else []
    ensures LiftsBeforeFetch(s, c, in_) ==> LiftsPause in FirstMarks(s, c, in_)
  {
    var s1 := Reread(s, c, in_.beforeReread);
    RereadLifts(s, c, in_);
    NoSites(RereadMarks(s, c, in_.beforeReread));
    hide Reread;
    hide RereadMarks;
    hide NewCredentials;
    hide Presents;
    hide Grants;
    hide Sites;
    SitesAppend(RereadMarks(s, c, in_.beforeReread), RetryMarks(s1, c, in_));
    if s1.a.authPaused {
      RetrySites(s1, c, in_);
    } else {
      NoSites(RetryMarks(s1, c, in_));
    }
  }

  lemma LiftedHasNoFailures(s: Sys, c: Config, in_: PollIn)
    requires s.a.authPaused && LiftsBeforeFetch(s, c, in_)
    ensures BeforeFetch(s, c, in_).0.a.authFailCount == 0
  {
    assert BeforeReread(s, c, in_) == s;
    hide BeforeReread;
    RereadLifts(s, c, in_);
    var s1 := Reread(s, c, in_.beforeReread);
    hide Reread;
    hide NewCredentials;
    if s1.a.authPaused {
      PausedRecoveredIsReplayed(s1, c, in_);
      hide OAuthRecovered;
    }
  }

  lemma LaterSites(s: Sys, c: Config, in_: PollIn)
    requires s.a.authPaused
    ensures Sites(LaterMarks(s, c, in_)) == if BypassesAfterLift(s, c, in_) then [Bypass] else []
  {
    hide LiftsBeforeFetch;
    hide BeforeFetch;
    hide FetchMarks;
    hide GetsResponse;
    hide Presents;
    var s1 := BeforeFetch(s, c, in_).0;
    if LiftsBeforeFetch(s, c, in_) {
      LiftedHasNoFailures(s, c, in_);
      FetchSites(s1, c, in_);
      var last := if GetsResponse(s1, c, in_) then [Succeeds] else [];
      NoSites(last);
      SitesAppend(FetchMarks(s1, c, in_), last);
    }
  }

  /**
    The refreshes of a poll that begins paused are exactly these: the bounded
    retry when it is due and its gate is open, then the 429 bypass when the pause
    was lifted, the fetch was limited and its gate is open. No poll that begins
    paused refreshes proactively or after authentication failures.
   */
  lemma {:induction false} PausedPollRefreshes(s: Sys, c: Config, in_: PollIn)
    requires s.a.authPaused
    ensures Explains(s, Poll(s, c, in_).0, PollMarks(s, c, in_))
    ensures var s0 := AfterStatusline(s, in_);
      Sites(PollMarks(s, c, in_)) ==
        if !ReachesApis(s, c, in_) then []
        else (if Retries(s0, c, in_) then [PausedRetry] else []) + if BypassesAfterLift(s0, c, in_) then [Bypass] else []
  {
    PollIsReplayed(s, c, in_);
    hide Explains;
    hide Sites;
    hide ApiMarks;
    hide Retries;
    hide BypassesAfterLift;
    var s0 := AfterStatusline(s, in_);
    var first := if in_.statusline.Stored? then [ReadsStatusline] else [];
    NoSites(first);
    NoSites([]);
    if ReachesApis(s, c, in_) {
      PausedMarks(s0, c, in_);
      SitesAppend(first, ApiMarks(s0, c, in_));
      SitesAppend(FirstMarks(s0, c, in_), LaterMarks(s0, c, in_));
    } else {
      assert PollMarks(s, c, in_) == first || PollMarks(s, c, in_) == [];
    }
  }

  // The same, event by event.

  lemma {:induction false} MarkAt(h: seq<Event>, i: nat)
    requires i < |h|
    ensures |Marks(h)| == |h| && Marks(h)[i] == MarkOf(h[i])
  {
    hide MarkOf;
    MarksLength(h);
    if i < |h| - 1 {
      MarksLength(h[..|h| - 1]);
      MarkAt(h[..|h| - 1], i);
    } else {
      MarksLength(h[..|h| - 1]);
    }
  }

  lemma {:induction false} MarksLength(h: seq<Event>)
    ensures |Marks(h)| == |h|
  {
    if h != [] {
      MarksLength(h[..|h| - 1]);
    }
  }

  lemma {:induction false} SiteAt(marks: seq<Mark>, i: nat)
    requires i < |marks| && marks[i].Refreshes?
    ensures marks[i].site in Sites(marks)
  {
    if i < |marks| - 1 {
      SiteAt(marks[..|marks| - 1], i);
    }
  }

  lemma {:induction false} SiteOf(marks: seq<Mark>, site: Site) returns (i: nat)
    requires site in Sites(marks)
    ensures i < |marks| && marks[i] == Refreshes(site)
  {
    if marks[|marks| - 1] == Refreshes(site) {
      i := |marks| - 1;
    } else {
      i := SiteOf(marks[..|marks| - 1], site);
    }
  }

  /** Event i of h is a refresh made after position n somewhere else than at the bounded retry. */
  predicate OtherRefresh(h: seq<Event>, n: nat, i: int) {
    n <= i < |h| && h[i].Attempt? && !h[i].site.PausedRetry?
  }

  lemma RefreshMark(e: Event)
    ensures MarkOf(e).Refreshes? <==> e.Attempt?
    ensures e.Attempt? ==> MarkOf(e) == Refreshes(e.site)
    ensures MarkOf(e).LiftsPause? <==> e.PauseLifted?
  {
  }

  /** The marks refresh at this site, once, or not at all. */
  predicate AtMost(marks: seq<Mark>, site: Site) {
    Sites(marks) == [] || Sites(marks) == [site]
  }

  /** Seen from two phases: the other refreshes are the bypass, in the second phase, and come after what is in the first. */
  lemma OtherRefreshesOf(h: seq<Event>, n: nat, first: seq<Mark>, later: seq<Mark>)
    requires n <= |h| && Marks(h[n..]) == first + later
    requires AtMost(first, PausedRetry) && AtMost(later, Bypass)
    requires Sites(later) == [Bypass] ==> LiftsPause in first
    ensures (exists i :: OtherRefresh(h, n, i)) <==> Sites(later) == [Bypass]
    ensures forall i :: OtherRefresh(h, n, i) ==> h[i].site.Bypass? && exists k :: n <= k < i && h[k].PauseLifted?
  {
    hide Marks;
    hide Sites;
    hide MarkOf;
    var marks := first + later;
    MarksLength(h[n..]);
    forall i | OtherRefresh(h, n, i)
      ensures Sites(later) == [Bypass] && h[i].site.Bypass? && exists k :: n <= k < i && h[k].PauseLifted?
    {
      MarkAt(h[n..], i - n);
      RefreshMark(h[i]);
      assert marks[i - n] == Refreshes(h[i].site);
      if i - n < |first| {
        SiteAt(first, i - n);
      } else {
        assert later[i - n - |first|] == marks[i - n];
        SiteAt(later, i - n - |first|);
        var k :| 0 <= k < |first| && first[k] == LiftsPause;
        MarkAt(h[n..], k);
        RefreshMark(h[n + k]);
        assert h[n + k].PauseLifted?;
      }
    }
    if Sites(later) == [Bypass] {
      var i := SiteOf(later, Bypass);
      assert marks[|first| + i] == Refreshes(Bypass);
      MarkAt(h[n..], |first| + i);
      RefreshMark(h[n + |first| + i]);
      assert OtherRefresh(h, n, n + |first| + i);
    }
  }

  /**
    A poll that begins paused refreshes elsewhere than at the bounded retry if and
    only if it uses the APIs, lifts the pause before its fetch, is answered 429 and
    has the bypass gate open. The refresh is then the bypass, and comes after the
    event that lifted the pause.
   */
  lemma {:induction false} OtherRefreshWhilePausedIff(s: Sys, c: Config, in_: PollIn)
    requires s.a.authPaused
    ensures var n, h := |s.w.log|, Poll(s, c, in_).0.w.log;
      && ((exists i :: OtherRefresh(h, n, i)) <==> ReachesApis(s, c, in_) && BypassesAfterLift(AfterStatusline(s, in_), c, in_))
      && (forall i :: OtherRefresh(h, n, i) ==> h[i].site.Bypass? && exists k :: n <= k < i && h[k].PauseLifted?)
  {
    PollIsReplayed(s, c, in_);
    hide *;
    var h, n, s0 := Poll(s, c, in_).0.w.log, |s.w.log|, AfterStatusline(s, in_);
    ExplainsMeans(s, Poll(s, c, in_).0, PollMarks(s, c, in_));
    if ReachesApis(s, c, in_) {
      var first := TwoPhases(s, c, in_);
      OtherRefreshesOf(h, n, first, LaterMarks(s0, c, in_));
    } else {
      NoPhases(s, c, in_);
      OtherRefreshesOf(h, n, PollMarks(s, c, in_), []);
    }
  }

  lemma TwoPhases(s: Sys, c: Config, in_: PollIn) returns (first: seq<Mark>)
    requires s.a.authPaused && ReachesApis(s, c, in_)
    ensures var s0 := AfterStatusline(s, in_);
      var later := LaterMarks(s0, c, in_);
      && PollMarks(s, c, in_) == first + later
      && AtMost(first, PausedRetry) && AtMost(later, Bypass)
      && (Sites(later) == [Bypass] <==> BypassesAfterLift(s0, c, in_))
      && (Sites(later) == [Bypass] ==> LiftsPause in first)
  {
    var s0 := AfterStatusline(s, in_);
    var statusline := StatuslineFirst(s, c, in_);
    hide Sites;
    hide PollMarks;
    hide ApiMarks;
    hide FirstMarks;
    hide LaterMarks;
    hide BypassesAfterLift;
    hide Retries;
    PausedMarks(s0, c, in_);
    Regroup(statusline, FirstMarks(s0, c, in_), LaterMarks(s0, c, in_));
    first := statusline + FirstMarks(s0, c, in_);
  }

  lemma Regroup(a: seq<Mark>, b: seq<Mark>, d: seq<Mark>)
    ensures a + (b + d) == (a + b) + d
    ensures Sites(a) == [] ==> Sites(a + b) == Sites(b)
  {
    SitesAppend(a, b);
  }

  lemma StatuslineFirst(s: Sys, c: Config, in_: PollIn) returns (first: seq<Mark>)
    requires s.a.authPaused && ReachesApis(s, c, in_)
    ensures PollMarks(s, c, in_) == first + ApiMarks(AfterStatusline(s, in_), c, in_)
    ensures Sites(first) == [] && AfterStatusline(s, in_).a.authPaused
  {
    first := if in_.statusline.Stored? then [ReadsStatusline] else [];
    NoSites(first);
    hide Sites;
    hide ApiMarks;
  }

  lemma NoPhases(s: Sys, c: Config, in_: PollIn)
    requires !ReachesApis(s, c, in_)
    ensures PollMarks(s, c, in_) == PollMarks(s, c, in_) + []
    ensures Sites(PollMarks(s, c, in_)) == [] && Sites([]) == []
    ensures AtMost(PollMarks(s, c, in_), PausedRetry) && AtMost([], Bypass)
  {
    hide Sites;
    NoSites(PollMarks(s, c, in_));
    NoSites([]);
  }
}
