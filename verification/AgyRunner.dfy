/**
  The warm process of server/internal/api/antigravity_cli.go. Fetch, the watchdog's
  tick and Stop each hold the mutex throughout, so a run is a sequence of them.
  Process identities are handed out in launch order.
 */
module AgyRunner {
  import opened Prelude

  type Time = int

  const MAX_FAILURES: int := 2
  const WARM_TTL: int := 5 * 60_000_000_000

  /** What one Fetch meets: the health of the session, the launch, the readiness poll, the quota request. */
  datatype Outcome = Outcome(healthy: bool, binaryFound: bool, launches: bool, becomesReady: bool, quotaOk: bool, now: Time)

  datatype Op = Fetch(outcome: Outcome) | WatchdogTick(now: Time) | Stop

  datatype State = State(sess: Option<nat>, failures: int, lastUsed: Time, watched: bool, launched: nat, killed: set<nat>)

  function TornDown(s: State): State {
    if s.sess.None? then s else s.(sess := None, killed := s.killed + {s.sess.value})
  }

  function FailureRecorded(s: State): State {
    var t := s.(failures := s.failures + 1);
    if t.failures >= MAX_FAILURES then TornDown(t).(failures := 0) else t
  }

  function Ensured(s: State, o: Outcome): (State, bool) {
    if s.sess.Some? && o.healthy then (s, true)
    else
      var t := TornDown(s);
      if !o.binaryFound || !o.launches then (t, false)
      else
        var u := t.(launched := t.launched + 1);
        if !o.becomesReady then (u.(killed := u.killed + {t.launched}), false)
        else (u.(sess := Some(t.launched)), true)
  }

  function Fetched(s: State, o: Outcome): (State, bool) {
    var (t, ready) := Ensured(s, o);
    if !ready || !o.quotaOk then (FailureRecorded(t), false)
    else (t.(failures := 0, lastUsed := o.now, watched := true), true)
  }

  function Apply(s: State, op: Op): State {
    match op
    case Fetch(o) => Fetched(s, o).0
    case WatchdogTick(now) => if s.watched && s.sess.Some? && now - s.lastUsed > WARM_TTL then TornDown(s) else s
    case Stop => TornDown(s)
  }

  const INITIAL: State := State(None, 0, 0, false, 0, {})

  function Run(ops: seq<Op>): State {
    if ops == [] then INITIAL else Apply(Run(ops[..|ops| - 1]), ops[|ops| - 1])
  }

  /** Launched processes are exactly the killed ones and the current session; the failure count is 0 or 1. */
  ghost predicate Conserved(s: State) {
    && (forall p: nat :: p < s.launched <==> p in s.killed || s.sess == Some(p))
    && (s.sess.Some? ==> s.sess.value !in s.killed)
    && 0 <= s.failures < MAX_FAILURES
  }

  lemma ApplyConserves(s: State, op: Op)
    requires Conserved(s)
    ensures Conserved(Apply(s, op))
  {
  }

  /** Process conservation: at most one launched process lives, nothing else is ever killed, nothing is lost. */
  lemma {:induction false} ProcessesAreConserved(ops: seq<Op>)
    ensures Conserved(Run(ops))
  {
    if ops != [] {
      ProcessesAreConserved(ops[..|ops| - 1]);
      ApplyConserves(Run(ops[..|ops| - 1]), ops[|ops| - 1]);
    }
  }

  /** A failed fetch flips the count: the first of a pair is counted, the second tears the session down. */
  lemma FailureFlipsTheCount(ops: seq<Op>, o: Outcome)
    requires !Fetched(Run(ops), o).1
    ensures var s, t := Run(ops), Fetched(Run(ops), o).0;
      && s.failures in {0, 1} && t.failures == 1 - s.failures
      && (s.failures == 1 ==> t.sess == None && forall p: nat :: p < t.launched <==> p in t.killed)
      && (s.failures == 0 ==> (t.sess.Some? <==> Ensured(s, o).1))
  {
    ProcessesAreConserved(ops);
    ApplyConserves(Run(ops), Fetch(o));
  }

  /**
    Of two fetches that fail in a row, exactly one leaves no process and a clean
    count: the second when the count was clean before, and the first when it was
    not. In the latter case the second leaves a process exactly when it got a new one ready.
   */
  lemma TwoFailuresTearDown(ops: seq<Op>, first: Outcome, second: Outcome)
    requires !Fetched(Run(ops), first).1 && !Fetched(Fetched(Run(ops), first).0, second).1
    ensures var s := Run(ops);
      var mid := Fetched(s, first).0;
      var t := Fetched(mid, second).0;
      && t.failures == s.failures == 1 - mid.failures
      && (s.failures == 0 ==> t.sess == None && forall p: nat :: p < t.launched <==> p in t.killed)
      && (s.failures == 1 ==> mid.sess == None && forall p: nat :: p < mid.launched <==> p in mid.killed)
      && (t.sess.Some? <==> s.failures == 1 && second.binaryFound && second.launches && second.becomesReady)
  {
    var all := ops + [Fetch(first)];
    assert all[..|all| - 1] == ops;
    assert Run(all) == Fetched(Run(ops), first).0;
    FailureFlipsTheCount(ops, first);
    FailureFlipsTheCount(all, second);
  }

  // What each operation is for.

  /** A process that serves this fetch is there: a healthy one is kept, otherwise a new one gets ready. */
  predicate Serves(s: State, o: Outcome) {
    (s.sess.Some? && o.healthy) || (o.binaryFound && o.launches && o.becomesReady)
  }

  /**
    A fetch succeeds exactly when a process serves it and the quota request does; it
    then leaves that process running, the old one if it was healthy, with a clean
    count and its time noted. A failed one never counts as a use.
   */
  lemma FetchSucceedsIff(s: State, o: Outcome)
    ensures var (t, ok) := Fetched(s, o);
      && (ok <==> Serves(s, o) && o.quotaOk)
      && (ok ==> t.sess == (if s.sess.Some? && o.healthy then s.sess else Some(s.launched))
                 && t.failures == 0 && t.lastUsed == o.now && t.watched)
      && (!ok ==> t.lastUsed == s.lastUsed && t.watched == s.watched && t.failures == if s.failures + 1 >= 2 then 0 else s.failures + 1)
      && t.launched == s.launched + if !(s.sess.Some? && o.healthy) && o.binaryFound && o.launches then 1 else 0
  {
  }

  /** Stop leaves no process; a watchdog tick does exactly when the process has not been used for more than five minutes. */
  lemma IdleAndStopLeaveNothing(ops: seq<Op>, now: Time)
    ensures var s, t := Run(ops), Apply(Run(ops), Stop);
      t.sess == None && forall p: nat :: p < t.launched <==> p in t.killed
    ensures var s, t := Run(ops), Apply(Run(ops), WatchdogTick(now));
      if s.watched && now - s.lastUsed > 300_000_000_000 then t.sess == None && forall p: nat :: p < t.launched <==> p in t.killed
      else t == s
  {
    ProcessesAreConserved(ops);
    ApplyConserves(Run(ops), Stop);
    ApplyConserves(Run(ops), WatchdogTick(now));
  }

  class AntigravityCLIRunner {
    var sess: Option<nat>
    var failures: int
    var lastUsed: Time
    /** The watchdog goroutine is started once, by the first successful fetch. */
    var watched: bool
    /** Processes started so far, and those killed. */
    var launched: nat
    var killed: set<nat>

    function Abstract(): State
      reads this
    {
      State(sess, failures, lastUsed, watched, launched, killed)
    }

    constructor ()
      ensures Abstract() == INITIAL
    {
      sess, failures, lastUsed, watched, launched, killed := None, 0, 0, false, 0, {};
    }

    method KillSession(process: nat)
      modifies this`killed
      ensures killed == old(killed) + {process}
    {
      killed := killed + {process};
    }

    method TeardownLocked()
      modifies this`sess, this`killed
      ensures Abstract() == TornDown(old(Abstract()))
    {
      if sess.None? {
        return;
      }
      KillSession(sess.value);
      sess := None;
    }

    method RecordFailureLocked()
      modifies this`sess, this`killed, this`failures
      ensures Abstract() == FailureRecorded(old(Abstract()))
    {
      failures := failures + 1;
      if failures >= MAX_FAILURES {
        TeardownLocked();
        failures := 0;
      }
    }

    method EnsureLocked(o: Outcome) returns (ready: bool)
      modifies this
      ensures (Abstract(), ready) == Ensured(old(Abstract()), o)
    {
      if sess.Some? && o.healthy {
        return true;
      }
      TeardownLocked();
      if !o.binaryFound || !o.launches {
        return false;
      }
      var process := launched;
      launched := launched + 1;
      if !o.becomesReady {
        KillSession(process);
        return false;
      }
      sess := Some(process);
      ready := true;
    }

    method FetchSnapshot(o: Outcome) returns (ok: bool)
      modifies this
      ensures (Abstract(), ok) == Fetched(old(Abstract()), o)
    {
      var ready := EnsureLocked(o);
      if !ready || !o.quotaOk {
        RecordFailureLocked();
        return false;
      }
      failures := 0;
      lastUsed := o.now;
      watched := true;
      ok := true;
    }

    method Tick(now: Time)
      modifies this
      ensures Abstract() == Apply(old(Abstract()), WatchdogTick(now))
    {
      if watched && sess.Some? && now - lastUsed > WARM_TTL {
        TeardownLocked();
      }
    }

    method StopRunner()
      modifies this
      ensures Abstract() == Apply(old(Abstract()), Stop)
    {
      TeardownLocked();
    }
  }
}
