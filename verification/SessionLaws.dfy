/** Online sessionisation against what the poll stream says by itself. */
module SessionLaws {
  import opened Prelude
  import opened UsageSessions

  // The stream, read without the machine.

  predicate Changed(polls: seq<Poll>, i: nat)
    requires i < |polls|
  {
    i > 0 && polls[i].values != polls[i - 1].values
  }

  /** The latest poll up to i whose values differ from the poll before it. */
  function LastChange(polls: seq<Poll>, i: nat): (j: nat)
    requires i < |polls|
    ensures j <= i
  {
    if i == 0 || Changed(polls, i) then i else LastChange(polls, i - 1)
  }

  /** What a poll is to the sessions: every poll is exactly one of these. */
  datatype Role = Baseline | InSession(session: nat) | Closing(session: nat) | CreateFailed | Idle

  predicate InSome(roles: seq<Role>, i: nat)
    requires i < |roles|
  {
    roles[i].InSession?
  }

  /** Sessions started before poll i. */
  function Opened(roles: seq<Role>, i: nat): nat
    requires i <= |roles|
  {
    if i == 0 then 0
    else Opened(roles, i - 1) + if InSome(roles, i - 1) && (i == 1 || !InSome(roles, i - 2)) then 1 else 0
  }

  predicate QuietTooLong(polls: seq<Poll>, timeout: int, i: nat)
    requires i < |polls|
  {
    polls[i].now - polls[LastChange(polls, i)].now > timeout
  }

  /** Poll i has the role the rules of sessionisation give it. */
  predicate Explained(polls: seq<Poll>, timeout: int, roles: seq<Role>, i: nat)
    requires i < |polls| == |roles|
  {
    if i == 0 then roles[i].Baseline?
    else if InSome(roles, i - 1) then
      if Changed(polls, i) || !QuietTooLong(polls, timeout, i) then roles[i] == roles[i - 1]
      else roles[i] == Closing(roles[i - 1].session)
    else if !Changed(polls, i) then roles[i].Idle?
    else if polls[i].createFails then roles[i].CreateFailed?
    else roles[i] == InSession(Opened(roles, i))
  }

  predicate AllExplained(polls: seq<Poll>, timeout: int, roles: seq<Role>) {
    |polls| == |roles| && forall i :: 0 <= i < |polls| ==> Explained(polls, timeout, roles, i)
  }

  // The row of a session, read off the stream.

  /** Session k is made of exactly the polls from first to last. */
  predicate Spans(roles: seq<Role>, k: nat, first: nat, last: nat) {
    && 0 < first <= last < |roles|
    && forall i :: 0 <= i < |roles| ==> (roles[i] == InSession(k) <==> first <= i <= last)
  }

  /** Polls of session k whose count reached the table. */
  function CountOf(polls: seq<Poll>, roles: seq<Role>, k: nat): nat
    requires |polls| == |roles|
  {
    if roles == [] then 0
    else
      var n := |roles| - 1;
      CountOf(polls[..n], roles[..n], k) + if roles[n] == InSession(k) && !polls[n].countFails then 1 else 0
  }

  /** The largest columns among the polls of session k whose update reached the table. */
  function MaxOf(polls: seq<Poll>, roles: seq<Role>, k: nat): (m: seq<real>)
    requires |polls| == |roles|
    ensures |m| == 3
  {
    if roles == [] then [0.0, 0.0, 0.0]
    else
      var n := |roles| - 1;
      var before := MaxOf(polls[..n], roles[..n], k);
      if roles[n] == InSession(k) && !polls[n].maxFails then Greater(before, Columns(polls[n].values)) else before
  }

  predicate RowAt(polls: seq<Poll>, roles: seq<Role>, row: Session, k: nat, first: nat, last: nat)
    requires |polls| == |roles|
  {
    && Spans(roles, k, first, last)
    && row.start == polls[first].now
    && row.startValues == Columns(polls[first - 1].values)
    && row.count == CountOf(polls, roles, k)
    && row.maxValues == MaxOf(polls, roles, k)
    && (last + 1 < |roles| ==> roles[last + 1] == Closing(k))
    && row.end == if last + 1 < |roles| && !polls[last + 1].closeFails then Some(polls[last + 1].now) else None
  }

  ghost predicate RowOk(polls: seq<Poll>, roles: seq<Role>, row: Session, k: nat)
    requires |polls| == |roles|
  {
    exists first: nat, last: nat :: RowAt(polls, roles, row, k, first, last)
  }

  /** The machine's state after the polls is what the stream says. */
  ghost predicate Mirrors(polls: seq<Poll>, timeout: int, roles: seq<Role>, s: State) {
    var n := |polls|;
    && AllExplained(polls, timeout, roles)
    && s.hasPrev == (n > 0)
    && (n > 0 ==> s.prevValues == polls[n - 1].values)
    && s.sessionID == (if n > 0 && InSome(roles, n - 1) then Some(roles[n - 1].session) else None)
    && (s.sessionID.Some? ==> s.lastActivityTime == polls[LastChange(polls, n - 1)].now)
    && |s.sessions| == Opened(roles, n)
    && WellFormed(s)
    && forall k :: 0 <= k < |s.sessions| ==> RowOk(polls, roles, s.sessions[k], k)
  }

  function RoleOf(s: State, timeout: int, p: Poll): Role
    requires WellFormed(s)
  {
    if !s.hasPrev then Baseline
    else if s.sessionID.Some? then
      if p.values != s.prevValues || p.now - s.lastActivityTime <= timeout then InSession(s.sessionID.value)
      else Closing(s.sessionID.value)
    else if p.values == s.prevValues then Idle
    else if p.createFails then CreateFailed
    else InSession(|s.sessions|)
  }

  function Run(timeout: int, polls: seq<Poll>): (s: State)
    ensures WellFormed(s)
  {
    if polls == [] then State(None, 0, [], false, []) else Reported(Run(timeout, polls[..|polls| - 1]), timeout, polls[|polls| - 1])
  }

  function Roles(timeout: int, polls: seq<Poll>): (roles: seq<Role>)
    ensures |roles| == |polls|
  {
    if polls == [] then []
    else
      var n := |polls| - 1;
      Roles(timeout, polls[..n]) + [RoleOf(Run(timeout, polls[..n]), timeout, polls[n])]
  }

  // Extending the stream by one poll.

  lemma {:induction false} LastChangeExtends(polls: seq<Poll>, p: Poll, i: nat)
    requires i < |polls|
    ensures LastChange(polls + [p], i) == LastChange(polls, i)
  {
    if i > 0 && !Changed(polls, i) {
      LastChangeExtends(polls, p, i - 1);
    }
  }

  lemma {:induction false} OpenedExtends(roles: seq<Role>, r: Role, i: nat)
    requires i <= |roles|
    ensures Opened(roles + [r], i) == Opened(roles, i)
  {
    if i > 0 {
      OpenedExtends(roles, r, i - 1);
    }
  }

  lemma ExplainedExtends(polls: seq<Poll>, p: Poll, timeout: int, roles: seq<Role>, r: Role)
    requires AllExplained(polls, timeout, roles) && Explained(polls + [p], timeout, roles + [r], |polls|)
    ensures AllExplained(polls + [p], timeout, roles + [r])
  {
    forall i | 0 <= i < |polls|
      ensures Explained(polls + [p], timeout, roles + [r], i)
    {
      assert Explained(polls, timeout, roles, i);
      LastChangeExtends(polls, p, i);
      OpenedExtends(roles, r, i);
    }
  }

  /** The sessions numbered so far are below Opened. */
  lemma {:induction false} SessionsBelowOpened(polls: seq<Poll>, timeout: int, roles: seq<Role>, i: nat)
    requires AllExplained(polls, timeout, roles) && i < |roles|
    ensures roles[i].InSession? || roles[i].Closing? ==> roles[i].session < Opened(roles, i + 1)
  {
    assert Explained(polls, timeout, roles, i);
    if i > 0 {
      SessionsBelowOpened(polls, timeout, roles, i - 1);
    }
  }

  /** A poll that is not of session k leaves its row as it is. */
  lemma RowUntouched(polls: seq<Poll>, p: Poll, roles: seq<Role>, r: Role, row: Session, k: nat)
    requires |polls| == |roles| && RowOk(polls, roles, row, k)
    requires r != InSession(k) && r != Closing(k) && roles != [] && roles[|roles| - 1] != InSession(k)
    ensures RowOk(polls + [p], roles + [r], row, k)
  {
    var first: nat, last: nat :| RowAt(polls, roles, row, k, first, last);
    assert (roles + [r])[..|roles|] == roles && (polls + [p])[..|polls|] == polls;
    assert RowAt(polls + [p], roles + [r], row, k, first, last);
  }

  lemma RowContinued(polls: seq<Poll>, p: Poll, roles: seq<Role>, row: Session, k: nat)
    requires |polls| == |roles| && RowOk(polls, roles, row, k) && |row.maxValues| == 3
    requires roles != [] && roles[|roles| - 1] == InSession(k)
    ensures RowOk(polls + [p], roles + [InSession(k)],
                  row.(count := if p.countFails then row.count else row.count + 1,
                       maxValues := if p.maxFails then row.maxValues else Greater(row.maxValues, Columns(p.values))), k)
  {
    var first: nat, last: nat :| RowAt(polls, roles, row, k, first, last);
    assert (roles + [InSession(k)])[..|roles|] == roles && (polls + [p])[..|polls|] == polls;
    assert last == |roles| - 1;
    assert RowAt(polls + [p], roles + [InSession(k)],
                 row.(count := if p.countFails then row.count else row.count + 1,
                      maxValues := if p.maxFails then row.maxValues else Greater(row.maxValues, Columns(p.values))), k, first, last + 1);
  }

  lemma RowClosed(polls: seq<Poll>, p: Poll, roles: seq<Role>, row: Session, k: nat)
    requires |polls| == |roles| && RowOk(polls, roles, row, k)
    requires roles != [] && roles[|roles| - 1] == InSession(k)
    ensures RowOk(polls + [p], roles + [Closing(k)], if p.closeFails then row else row.(end := Some(p.now)), k)
  {
    var first: nat, last: nat :| RowAt(polls, roles, row, k, first, last);
    assert (roles + [Closing(k)])[..|roles|] == roles && (polls + [p])[..|polls|] == polls;
    assert last == |roles| - 1;
    assert RowAt(polls + [p], roles + [Closing(k)], if p.closeFails then row else row.(end := Some(p.now)), k, first, last);
  }

  lemma {:induction false} NoneYet(polls: seq<Poll>, roles: seq<Role>, k: nat)
    requires |polls| == |roles| && forall i :: 0 <= i < |roles| ==> roles[i] != InSession(k)
    ensures CountOf(polls, roles, k) == 0 && MaxOf(polls, roles, k) == [0.0, 0.0, 0.0]
  {
    if roles != [] {
      NoneYet(polls[..|roles| - 1], roles[..|roles| - 1], k);
    }
  }

  lemma RowOpened(polls: seq<Poll>, p: Poll, roles: seq<Role>, k: nat)
    requires |polls| == |roles| && roles != [] && forall i :: 0 <= i < |roles| ==> roles[i] != InSession(k)
    ensures RowOk(polls + [p], roles + [InSession(k)],
                  Session(p.now, None, Columns(polls[|polls| - 1].values),
                          if p.maxFails then [0.0, 0.0, 0.0] else Greater([0.0, 0.0, 0.0], Columns(p.values)),
                          if p.countFails then 0 else 1), k)
  {
    NoneYet(polls, roles, k);
    assert (roles + [InSession(k)])[..|roles|] == roles && (polls + [p])[..|polls|] == polls;
    assert RowAt(polls + [p], roles + [InSession(k)],
                 Session(p.now, None, Columns(polls[|polls| - 1].values),
                         if p.maxFails then [0.0, 0.0, 0.0] else Greater([0.0, 0.0, 0.0], Columns(p.values)),
                         if p.countFails then 0 else 1), k, |roles|, |roles|);
  }

  /** Which way the machine classifies a poll is the way the stream explains it. */
  lemma RoleIsExplained(polls: seq<Poll>, timeout: int, roles: seq<Role>, s: State, p: Poll)
    requires Mirrors(polls, timeout, roles, s)
    ensures Explained(polls + [p], timeout, roles + [RoleOf(s, timeout, p)], |polls|)
  {
    hide RowOk;
    var n := |polls|;
    var all := polls + [p];
    OpenedExtends(roles, RoleOf(s, timeout, p), n);
    if n > 0 {
      LastChangeExtends(polls, p, n - 1);
      assert Changed(all, n) <==> p.values != s.prevValues;
      assert (roles + [RoleOf(s, timeout, p)])[n - 1] == roles[n - 1];
    }
  }

  lemma SessionsAreNumbered(polls: seq<Poll>, timeout: int, roles: seq<Role>)
    requires AllExplained(polls, timeout, roles)
    ensures forall i :: 0 <= i < |roles| && (roles[i].InSession? || roles[i].Closing?) ==> roles[i].session < Opened(roles, |roles|)
  {
    forall i | 0 <= i < |roles| && (roles[i].InSession? || roles[i].Closing?)
      ensures roles[i].session < Opened(roles, |roles|)
    {
      SessionsBelowOpened(polls, timeout, roles, i);
      OpenedGrows(roles, i + 1, |roles|);
    }
  }

  lemma {:induction false} OpenedGrows(roles: seq<Role>, i: nat, j: nat)
    requires i <= j <= |roles|
    ensures Opened(roles, i) <= Opened(roles, j)
  {
    if i < j {
      OpenedGrows(roles, i, j - 1);
    }
  }

  /** Each row after the poll is described by the longer stream. */
  lemma RowExtends(polls: seq<Poll>, timeout: int, roles: seq<Role>, s: State, p: Poll, k: nat)
    requires Mirrors(polls, timeout, roles, s) && k < |Reported(s, timeout, p).sessions|
    ensures RowOk(polls + [p], roles + [RoleOf(s, timeout, p)], Reported(s, timeout, p).sessions[k], k)
  {
    var t, r := Reported(s, timeout, p), RoleOf(s, timeout, p);
    SessionsAreNumbered(polls, timeout, roles);
    TableAfterReport(s, timeout, p);
    assert k < |s.sessions| ==> RowOk(polls, roles, s.sessions[k], k);
    hide RowOk;
    hide AllExplained;
    hide Opened;
    hide LastChange;
    hide Reported;
    hide RoleOf;
    if k == |s.sessions| {
      RowOpened(polls, p, roles, k);
    } else if s.sessionID == Some(k) {
      if r.InSession? {
        RowContinued(polls, p, roles, s.sessions[k], k);
      } else {
        RowClosed(polls, p, roles, s.sessions[k], k);
      }
    } else if roles != [] {
      RowUntouched(polls, p, roles, r, s.sessions[k], k);
    }
  }

  lemma RowsExtend(polls: seq<Poll>, timeout: int, roles: seq<Role>, s: State, p: Poll)
    requires Mirrors(polls, timeout, roles, s)
    ensures var t, r := Reported(s, timeout, p), RoleOf(s, timeout, p);
      forall k :: 0 <= k < |t.sessions| ==> RowOk(polls + [p], roles + [r], t.sessions[k], k)
  {
    hide RowOk;
    hide RoleOf;
    forall k | 0 <= k < |Reported(s, timeout, p).sessions|
      ensures RowOk(polls + [p], roles + [RoleOf(s, timeout, p)], Reported(s, timeout, p).sessions[k], k)
    {
      RowExtends(polls, timeout, roles, s, p, k);
    }
  }

  /** What a report does to the table, in terms of the role of the poll. */
  lemma TableAfterReport(s: State, timeout: int, p: Poll)
    requires WellFormed(s)
    ensures var t, r := Reported(s, timeout, p), RoleOf(s, timeout, p);
      && (forall k :: 0 <= k < |s.sessions| && s.sessionID != Some(k) ==> t.sessions[k] == s.sessions[k] && r != InSession(k) && r != Closing(k))
      && (s.sessionID.Some? ==>
            var k := s.sessionID.value; var row := s.sessions[k];
            && |t.sessions| == |s.sessions|
            && (r == InSession(k) || r == Closing(k) || r == Baseline)
            && (r == InSession(k) ==> t.sessions[k] == row.(count := if p.countFails then row.count else row.count + 1,
                  maxValues := if p.maxFails then row.maxValues else Greater(row.maxValues, Columns(p.values))))
            && (r == Closing(k) ==> t.sessions[k] == if p.closeFails then row else row.(end := Some(p.now)))
            && (r == Baseline ==> !s.hasPrev))
      && (s.sessionID.None? && !r.InSession? ==> t.sessions == s.sessions)
      && (s.sessionID.None? && r.InSession? ==>
            && s.hasPrev && r == InSession(|s.sessions|) && |t.sessions| == |s.sessions| + 1
            && t.sessions[|s.sessions|] == Session(p.now, None, Columns(s.prevValues),
                 if p.maxFails then [0.0, 0.0, 0.0] else Greater([0.0, 0.0, 0.0], Columns(p.values)),
                 if p.countFails then 0 else 1))
  {
  }

  lemma ReportedMirrors(polls: seq<Poll>, timeout: int, roles: seq<Role>, s: State, p: Poll)
    requires Mirrors(polls, timeout, roles, s)
    ensures Mirrors(polls + [p], timeout, roles + [RoleOf(s, timeout, p)], Reported(s, timeout, p))
  {
    var r, n := RoleOf(s, timeout, p), |polls|;
    RoleIsExplained(polls, timeout, roles, s, p);
    ExplainedExtends(polls, p, timeout, roles, r);
    RowsExtend(polls, timeout, roles, s, p);
    OpenedExtends(roles, r, n);
    hide RowOk;
    hide AllExplained;
    if n > 0 {
      LastChangeExtends(polls, p, n - 1);
      assert Changed(polls + [p], n) <==> p.values != s.prevValues;
      assert (roles + [r])[n - 1] == roles[n - 1];
    }
  }

  /**
    Sessionisation. After every poll stream, whatever store calls fail, the roles
    of the polls follow the stream's own rules and every row of the table is what
    the stream says: start and start values, end, count and maxima.
   */
  lemma {:induction false} RunMirrorsStream(timeout: int, polls: seq<Poll>)
    ensures Mirrors(polls, timeout, Roles(timeout, polls), Run(timeout, polls))
  {
    hide Mirrors;
    hide Reported;
    hide RoleOf;
    if polls == [] {
      NothingYetMirrors(timeout);
    } else {
      var n := |polls| - 1;
      RunMirrorsStream(timeout, polls[..n]);
      ReportedMirrors(polls[..n], timeout, Roles(timeout, polls[..n]), Run(timeout, polls[..n]), polls[n]);
      assert polls[..n] + [polls[n]] == polls;
    }
  }

  lemma NothingYetMirrors(timeout: int)
    ensures Mirrors([], timeout, Roles(timeout, []), Run(timeout, []))
  {
  }

  /** The rules leave no choice: a stream has one explanation. */
  lemma {:induction false} ExplanationIsUnique(polls: seq<Poll>, timeout: int, roles: seq<Role>, other: seq<Role>, i: nat)
    requires AllExplained(polls, timeout, roles) && AllExplained(polls, timeout, other) && i <= |polls|
    ensures roles[..i] == other[..i]
  {
    if i > 0 {
      ExplanationIsUnique(polls, timeout, roles, other, i - 1);
      assert Explained(polls, timeout, roles, i - 1) && Explained(polls, timeout, other, i - 1);
      SameOpened(roles, other, i - 1);
      if i > 1 {
        assert roles[..i - 1][i - 2] == other[..i - 1][i - 2];
      }
      assert roles[..i] == roles[..i - 1] + [roles[i - 1]] && other[..i] == other[..i - 1] + [other[i - 1]];
    }
  }

  lemma {:induction false} SameOpened(roles: seq<Role>, other: seq<Role>, i: nat)
    requires i <= |roles| && i <= |other| && roles[..i] == other[..i]
    ensures Opened(roles, i) == Opened(other, i)
  {
    if i > 0 {
      assert roles[..i][i - 1] == other[..i][i - 1];
      assert roles[..i - 1] == roles[..i][..i - 1] == other[..i][..i - 1] == other[..i - 1];
      if i > 1 {
        assert roles[..i][i - 2] == other[..i][i - 2];
      }
      SameOpened(roles, other, i - 1);
    }
  }

  // Consequences.

  /** A row is left open exactly when its session still runs or the store failed to close it. */
  lemma OpenRowsAreCurrentOrLeaked(timeout: int, polls: seq<Poll>, k: nat)
    requires k < |Run(timeout, polls).sessions|
    ensures var s, roles := Run(timeout, polls), Roles(timeout, polls);
      s.sessions[k].end.None? <==>
        s.sessionID == Some(k) || exists i :: 0 <= i < |polls| && roles[i] == Closing(k) && polls[i].closeFails
  {
    RunMirrorsStream(timeout, polls);
    hide *;
    OpenRows(polls, timeout, Roles(timeout, polls), Run(timeout, polls), k);
  }

  lemma OpenRows(polls: seq<Poll>, timeout: int, roles: seq<Role>, s: State, k: nat)
    requires Mirrors(polls, timeout, roles, s) && k < |s.sessions|
    ensures s.sessions[k].end.None? <==>
      s.sessionID == Some(k) || exists i :: 0 <= i < |polls| && roles[i] == Closing(k) && polls[i].closeFails
  {
    hide Explained;
    hide MaxOf;
    hide CountOf;
    var first: nat, last: nat :| RowAt(polls, roles, s.sessions[k], k, first, last);
    ClosedOnce(polls, timeout, roles, k, first, last);
  }

  /** The poll that closes a session is the one after its last. */
  lemma ClosedOnce(polls: seq<Poll>, timeout: int, roles: seq<Role>, k: nat, first: nat, last: nat)
    requires AllExplained(polls, timeout, roles) && Spans(roles, k, first, last)
    ensures forall i :: 0 <= i < |roles| && roles[i] == Closing(k) ==> i == last + 1
  {
    forall i | 0 <= i < |roles| && roles[i] == Closing(k)
      ensures i == last + 1
    {
      assert Explained(polls, timeout, roles, i);
      assert roles[i - 1] == InSession(k) && roles[i] != InSession(k);
    }
  }

  /** Two sessions, the first of which the store failed to close: both rows are open. */
  lemma FailedCloseLeavesTwoOpen()
    ensures var polls := [Poll(0, [0.0], false, false, false, false), Poll(1, [1.0], false, false, false, false),
                          Poll(12, [1.0], false, false, false, true), Poll(13, [2.0], false, false, false, false)];
      var s := Run(10, polls);
      |s.sessions| == 2 && s.sessions[0].end.None? && s.sessions[1].end.None?
  {
    var polls := [Poll(0, [0.0], false, false, false, false), Poll(1, [1.0], false, false, false, false),
                  Poll(12, [1.0], false, false, false, true), Poll(13, [2.0], false, false, false, false)];
    assert polls[..3][..2] == polls[..2] && polls[..2][..1] == polls[..1] && polls[..1][..0] == [];
    var s0 := Run(10, []);
    assert Run(10, polls[..1]) == Reported(s0, 10, polls[0]);
    var s2 := Run(10, polls[..2]);
    assert s2.sessionID == Some(0) && |s2.sessions| == 1 && s2.lastActivityTime == 1 && s2.prevValues == [1.0];
    var s3 := Run(10, polls[..3]);
    assert s3.sessionID == None && |s3.sessions| == 1 && s3.sessions[0].end.None?;
  }

  /** When the store closes what it is asked to, at most the current session is open. */
  lemma AtMostOneOpen(timeout: int, polls: seq<Poll>, k: nat)
    requires k < |Run(timeout, polls).sessions| && forall i :: 0 <= i < |polls| ==> !polls[i].closeFails
    ensures Run(timeout, polls).sessions[k].end.None? ==> Run(timeout, polls).sessionID == Some(k)
  {
    OpenRowsAreCurrentOrLeaked(timeout, polls, k);
  }

  // What the recorded values are, column by column.

  /** A column of a poll: its value there, or zero when the provider reports fewer. */
  function Value(p: Poll, column: nat): real {
    if column < |p.values| then p.values[column] else 0.0
  }

  /** Poll i is one of session k whose maxima reached the table. */
  predicate Recorded(polls: seq<Poll>, roles: seq<Role>, k: nat, i: int)
    requires |polls| == |roles|
  {
    0 <= i < |roles| && roles[i] == InSession(k) && !polls[i].maxFails
  }

  lemma {:induction false} MaxOfIsMaximum(polls: seq<Poll>, roles: seq<Role>, k: nat, column: nat)
    requires |polls| == |roles| && column < 3
    ensures forall i :: Recorded(polls, roles, k, i) ==> MaxOf(polls, roles, k)[column] >= Value(polls[i], column)
    ensures MaxOf(polls, roles, k)[column] >= 0.0
    ensures MaxOf(polls, roles, k)[column] == 0.0
         || exists i :: Recorded(polls, roles, k, i) && MaxOf(polls, roles, k)[column] == Value(polls[i], column)
  {
    if roles != [] {
      var n := |roles| - 1;
      var front, fronts := polls[..n], roles[..n];
      MaxOfIsMaximum(front, fronts, k, column);
      assert forall i :: Recorded(front, fronts, k, i) <==> Recorded(polls, roles, k, i) && i < n;
      assert forall i :: 0 <= i < n ==> front[i] == polls[i];
      var before, after := MaxOf(front, fronts, k)[column], MaxOf(polls, roles, k)[column];
      if after == before {
        if i :| Recorded(front, fronts, k, i) && before == Value(front[i], column) {
          assert Recorded(polls, roles, k, i);
        }
      } else {
        assert Recorded(polls, roles, k, n) && after == Value(polls[n], column);
      }
    }
  }

  /**
    The maxima of a row are maxima: in each of the three columns, at least the value
    of every poll of the session whose update reached the table, and either zero or
    one of these values. The start values are those of the poll before the session.
   */
  lemma RowValues(timeout: int, polls: seq<Poll>, k: nat, column: nat)
    requires k < |Run(timeout, polls).sessions| && column < 3
    ensures var row, roles := Run(timeout, polls).sessions[k], Roles(timeout, polls);
      && |row.maxValues| == |row.startValues| == 3
      && (forall i :: Recorded(polls, roles, k, i) ==> row.maxValues[column] >= Value(polls[i], column))
      && (row.maxValues[column] == 0.0
          || exists i :: Recorded(polls, roles, k, i) && row.maxValues[column] == Value(polls[i], column))
      && exists first :: 0 < first < |polls| && roles[first] == InSession(k) && (forall i :: 0 <= i < first ==> roles[i] != InSession(k))
                         && row.start == polls[first].now && row.startValues[column] == Value(polls[first - 1], column)
  {
    RunMirrorsStream(timeout, polls);
    RowValuesOf(polls, timeout, Roles(timeout, polls), Run(timeout, polls), k, column);
  }

  lemma RowValuesOf(polls: seq<Poll>, timeout: int, roles: seq<Role>, s: State, k: nat, column: nat)
    requires Mirrors(polls, timeout, roles, s) && k < |s.sessions| && column < 3
    ensures var row := s.sessions[k];
      && |row.maxValues| == |row.startValues| == 3
      && (forall i :: Recorded(polls, roles, k, i) ==> row.maxValues[column] >= Value(polls[i], column))
      && (row.maxValues[column] == 0.0
          || exists i :: Recorded(polls, roles, k, i) && row.maxValues[column] == Value(polls[i], column))
      && exists first :: 0 < first < |polls| && roles[first] == InSession(k) && (forall i :: 0 <= i < first ==> roles[i] != InSession(k))
                         && row.start == polls[first].now && row.startValues[column] == Value(polls[first - 1], column)
  {
    hide Explained;
    hide MaxOf;
    hide CountOf;
    var first: nat, last: nat :| RowAt(polls, roles, s.sessions[k], k, first, last);
    MaxOfIsMaximum(polls, roles, k, column);
    hide Recorded;
    assert roles[first] == InSession(k);
  }

  predicate Monotone(polls: seq<Poll>) {
    forall i, j :: 0 <= i < j < |polls| ==> polls[i].now <= polls[j].now
  }

  lemma SpansAreDisjoint(roles: seq<Role>, k: nat, first: nat, last: nat, m: nat, first': nat, last': nat)
    requires Spans(roles, k, first, last) && Spans(roles, m, first', last') && k != m
    ensures first <= first' ==> last < first'
  {
    assert roles[first'] == InSession(m);
  }

  /** Session intervals are ordered and do not overlap: an earlier session ends before a later one starts. */
  lemma SessionsAreDisjoint(timeout: int, polls: seq<Poll>, k: nat, m: nat)
    requires Monotone(polls) && k < m < |Run(timeout, polls).sessions|
    ensures var rows := Run(timeout, polls).sessions;
      rows[k].start <= rows[m].start && (rows[k].end.Some? ==> rows[k].start <= rows[k].end.value <= rows[m].start)
  {
    var rows, roles := Run(timeout, polls).sessions, Roles(timeout, polls);
    RunMirrorsStream(timeout, polls);
    assert RowOk(polls, roles, rows[k], k) && RowOk(polls, roles, rows[m], m);
    var first: nat, last: nat :| RowAt(polls, roles, rows[k], k, first, last);
    var first': nat, last': nat :| RowAt(polls, roles, rows[m], m, first', last');
    FirstPollNumbers(polls, timeout, roles, k, first, last);
    FirstPollNumbers(polls, timeout, roles, m, first', last');
    if first' <= first {
      OpenedGrows(roles, first', first);
      assert false;
    }
    SpansAreDisjoint(roles, k, first, last, m, first', last');
    assert last + 1 < |roles| ==> roles[last + 1] != InSession(m);
  }

  lemma FirstPollNumbers(polls: seq<Poll>, timeout: int, roles: seq<Role>, k: nat, first: nat, last: nat)
    requires AllExplained(polls, timeout, roles) && Spans(roles, k, first, last)
    ensures Opened(roles, first) == k
  {
    assert Explained(polls, timeout, roles, first);
    assert roles[first] == InSession(k) && roles[first - 1] != InSession(k);
  }

  /** Polls that are in some session and whose count reached the table. */
  function CountedPolls(polls: seq<Poll>, roles: seq<Role>): nat
    requires |polls| == |roles|
  {
    if roles == [] then 0
    else
      var n := |roles| - 1;
      CountedPolls(polls[..n], roles[..n]) + if InSome(roles, n) && !polls[n].countFails then 1 else 0
  }

  function TotalCount(rows: seq<Session>): nat {
    if rows == [] then 0 else TotalCount(rows[..|rows| - 1]) + rows[|rows| - 1].count
  }

  lemma {:induction false} TotalAfterUpdate(rows: seq<Session>, k: nat, row: Session)
    requires k < |rows|
    ensures TotalCount(rows[k := row]) == TotalCount(rows) - rows[k].count + row.count
  {
    var n := |rows| - 1;
    if k < n {
      TotalAfterUpdate(rows[..n], k, row);
      assert rows[k := row][..n] == rows[..n][k := row];
    } else {
      assert rows[k := row][..n] == rows[..n];
    }
  }

  /** Conservation: the counts in the table add up to the polls in sessions whose count was not lost by the store. */
  lemma {:induction false} PollsAreConserved(timeout: int, polls: seq<Poll>)
    ensures TotalCount(Run(timeout, polls).sessions) == CountedPolls(polls, Roles(timeout, polls))
  {
    if polls != [] {
      var n := |polls| - 1;
      var s, p, roles := Run(timeout, polls[..n]), polls[n], Roles(timeout, polls[..n]);
      PollsAreConserved(timeout, polls[..n]);
      RunMirrorsStream(timeout, polls[..n]);
      hide Mirrors;
      assert (roles + [RoleOf(s, timeout, p)])[..n] == roles;
      TotalAfterReport(s, timeout, p);
    }
  }

  lemma TotalAfterReport(s: State, timeout: int, p: Poll)
    requires WellFormed(s)
    ensures TotalCount(Reported(s, timeout, p).sessions)
         == TotalCount(s.sessions) + if RoleOf(s, timeout, p).InSession? && !p.countFails then 1 else 0
  {
    if s.sessionID.Some? {
      var k := s.sessionID.value;
      TotalAfterUpdate(s.sessions, k, Reported(s, timeout, p).sessions[k]);
    } else {
      var row := Session(p.now, None, Columns(s.prevValues), [0.0, 0.0, 0.0], 0);
      var rows := s.sessions + [row];
      assert rows[..|s.sessions|] == s.sessions;
      if RoleOf(s, timeout, p).InSession? {
        TotalAfterUpdate(rows, |s.sessions|, Reported(s, timeout, p).sessions[|s.sessions|]);
      }
    }
  }
}
