/**
  Usage sessions of server/internal/agent/session_manager.go over a table of
  sessions. Values are decoded from JSON, so they are numbers and never NaN. The
  fresh session identifiers are the positions in the table.
 */
module UsageSessions {
  import opened Prelude

  type Time = int

  datatype Session = Session(start: Time, end: Option<Time>, startValues: seq<real>, maxValues: seq<real>, count: nat)

  /** One successful poll, and which store calls fail should it make them. */
  datatype Poll = Poll(now: Time, values: seq<real>, createFails: bool, countFails: bool, maxFails: bool, closeFails: bool)

  /** Up to three values, padded with zeros: the session columns. */
  function Columns(values: seq<real>): (c: seq<real>)
    ensures |c| == 3
  {
    seq(3, i requires 0 <= i < 3 => if i < |values| then values[i] else 0.0)
  }

  function Greater(a: seq<real>, b: seq<real>): (c: seq<real>)
    requires |a| == |b| == 3
    ensures |c| == 3
  {
    seq(3, i requires 0 <= i < 3 => if a[i] < b[i] then b[i] else a[i])
  }

  datatype State = State(
    sessionID: Option<nat>,
    lastActivityTime: Time,
    prevValues: seq<real>,
    hasPrev: bool,
    sessions: seq<Session>)

  predicate WellFormed(s: State) {
    && (s.sessionID.Some? ==> s.sessionID.value < |s.sessions|)
    && (forall k :: 0 <= k < |s.sessions| ==> |s.sessions[k].maxValues| == 3)
  }

  function Counted(s: State, p: Poll): (t: State)
    requires WellFormed(s) && s.sessionID.Some?
    ensures WellFormed(t)
  {
    var k := s.sessionID.value;
    var row := s.sessions[k];
    s.(sessions := s.sessions[k := row.(count := if p.countFails then row.count else row.count + 1,
                                        maxValues := if p.maxFails then row.maxValues else Greater(row.maxValues, Columns(p.values)))])
  }

  function Closed(s: State, now: Time, fails: bool): (t: State)
    requires WellFormed(s) && s.sessionID.Some?
    ensures WellFormed(t)
  {
    var k := s.sessionID.value;
    s.(sessionID := None,
       sessions := if fails then s.sessions else s.sessions[k := s.sessions[k].(end := Some(now))])
  }

  function Reported(s: State, timeout: int, p: Poll): (t: State)
    requires WellFormed(s)
    ensures WellFormed(t)
  {
    var t := s.(prevValues := p.values, hasPrev := true);
    if !s.hasPrev then t
    else if p.values != s.prevValues then
      if s.sessionID.Some? then Counted(t.(lastActivityTime := p.now), p)
      else if p.createFails then t.(lastActivityTime := p.now)
      else
        var row := Session(p.now, None, Columns(s.prevValues), [0.0, 0.0, 0.0], 0);
        Counted(t.(sessionID := Some(|s.sessions|), lastActivityTime := p.now, sessions := s.sessions + [row]), p)
    else if s.sessionID.None? then t
    else if p.now - s.lastActivityTime > timeout then Closed(t, p.now, p.closeFails)
    else Counted(t, p)
  }

  class SessionManager {
    const idleTimeout: int
    var sessionID: Option<nat>
    var lastActivityTime: Time
    var prevValues: seq<real>
    var hasPrev: bool
    /** The sessions table. */
    var sessions: seq<Session>

    function Abstract(): State
      reads this
    {
      State(sessionID, lastActivityTime, prevValues, hasPrev, sessions)
    }

    constructor (idleTimeout: int)
      ensures this.idleTimeout == idleTimeout && Abstract() == State(None, 0, [], false, [])
    {
      this.idleTimeout := idleTimeout;
      sessionID, lastActivityTime, prevValues, hasPrev, sessions := None, 0, [], false, [];
    }

    method HasChanged(values: seq<real>) returns (changed: bool)
      ensures changed <==> hasPrev && values != prevValues
    {
      if !hasPrev {
        return false;
      }
      if |values| != |prevValues| {
        return true;
      }
      for i := 0 to |values|
        invariant values[..i] == prevValues[..i]
      {
        if values[i] != prevValues[i] {
          return true;
        }
      }
      assert values == values[..|values|] && prevValues == prevValues[..|prevValues|];
      changed := false;
    }

    method IncrementAndUpdate(p: Poll)
      requires WellFormed(Abstract()) && sessionID.Some?
      modifies this`sessions
      ensures Abstract() == Counted(old(Abstract()), p)
    {
      var k := sessionID.value;
      if !p.countFails {
        sessions := sessions[k := sessions[k].(count := sessions[k].count + 1)];
      }
      if !p.maxFails {
        sessions := sessions[k := sessions[k].(maxValues := Greater(sessions[k].maxValues, Columns(p.values)))];
      }
    }

    method CloseSession(now: Time, fails: bool)
      requires WellFormed(Abstract()) && sessionID.Some?
      modifies this`sessionID, this`sessions
      ensures Abstract() == Closed(old(Abstract()), now, fails)
    {
      if !fails {
        sessions := sessions[sessionID.value := sessions[sessionID.value].(end := Some(now))];
      }
      sessionID := None;
    }

    method ReportPoll(p: Poll) returns (active: bool)
      requires WellFormed(Abstract())
      modifies this
      ensures Abstract() == Reported(old(Abstract()), idleTimeout, p)
      ensures active <==> old(hasPrev) && p.values != old(prevValues)
    {
      var changed := HasChanged(p.values);
      var oldPrev := prevValues;
      prevValues := p.values;
      if !hasPrev {
        hasPrev := true;
        return false;
      }
      if changed {
        if sessionID.None? {
          lastActivityTime := p.now;
          if p.createFails {
            return true;
          }
          sessionID := Some(|sessions|);
          sessions := sessions + [Session(p.now, None, Columns(oldPrev), [0.0, 0.0, 0.0], 0)];
        }
        lastActivityTime := p.now;
        IncrementAndUpdate(p);
        return true;
      }
      if sessionID.Some? {
        if p.now - lastActivityTime > idleTimeout {
          CloseSession(p.now, p.closeFails);
        } else {
          IncrementAndUpdate(p);
        }
      }
      active := false;
    }

    /** Shutdown closes the open session, if any. */
    method Close(now: Time, fails: bool)
      requires WellFormed(Abstract())
      modifies this
      ensures Abstract() == if old(sessionID).Some? then Closed(old(Abstract()), now, fails) else old(Abstract())
    {
      if sessionID.Some? {
        CloseSession(now, fails);
      }
    }
  }
}
