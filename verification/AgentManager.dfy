/**
  The start and stop protocol of server/internal/agent/manager.go as interleaved
  steps: the two critical sections of Start, the end of a goroutine, which deletes
  by key, and Stop. StopAll is a Stop of every running key.
 */
module AgentManager {

  type Key = string

  datatype State = State(
    running: map<Key, nat>,   // whose cancel function is registered under the key
    live: map<nat, Key>,      // goroutines between their registration and their final delete
    stopped: set<nat>,        // goroutines whose cancel function a Stop has taken
    starting: map<nat, Key>,  // Start calls past the first check
    nextId: nat)

  datatype Step =
    | StartChecks(call: nat, key: Key)   // first section; the key is registered
    | StartFails(call: nat)              // the factory fails, or there is none
    | StartInserts(call: nat)            // second section, then the go statement
    | GoroutineEnds(id: nat)
    | Stop(key: Key)

  function Apply(s: State, step: Step): State {
    match step
    case StartChecks(call, key) =>
      if key in s.running || call in s.starting then s else s.(starting := s.starting[call := key])
    case StartFails(call) => s.(starting := s.starting - {call})
    case StartInserts(call) =>
      if call !in s.starting then s
      else
        var key := s.starting[call];
        if key in s.running then s.(starting := s.starting - {call})
        else s.(starting := s.starting - {call}, running := s.running[key := s.nextId],
                live := s.live[s.nextId := key], nextId := s.nextId + 1)
    case GoroutineEnds(id) =>
      if id !in s.live then s else s.(live := s.live - {id}, running := s.running - {s.live[id]})
    case Stop(key) =>
      if key !in s.running then s else s.(running := s.running - {key}, stopped := s.stopped + {s.running[key]})
  }

  const INITIAL: State := State(map[], map[], {}, map[], 0)

  function Execute(s: State, steps: seq<Step>): State {
    if steps == [] then s else Apply(Execute(s, steps[..|steps| - 1]), steps[|steps| - 1])
  }

  /** Every goroutine that nobody has stopped is the one registered under its key, and the other way round. */
  ghost predicate Tracked(s: State) {
    && (forall i :: i in s.live && i !in s.stopped ==> s.live[i] in s.running && s.running[s.live[i]] == i)
    && (forall k :: k in s.running ==> s.running[k] in s.live && s.live[s.running[k]] == k && s.running[k] !in s.stopped)
    && (forall i :: i in s.live || i in s.stopped ==> i < s.nextId)
  }

  /** Two goroutines of one key are never both unstopped. */
  ghost predicate OnePerKey(s: State) {
    forall i, j :: i in s.live && j in s.live && i !in s.stopped && j !in s.stopped && s.live[i] == s.live[j] ==> i == j
  }

  lemma TrackedIsOnePerKey(s: State)
    requires Tracked(s)
    ensures OnePerKey(s)
  {
  }

  /** A goroutine ends while its key is registered to another one, which its delete-by-key unregisters. */
  predicate ForeignDelete(s: State, step: Step) {
    && step.GoroutineEnds? && step.id in s.live
    && s.live[step.id] in s.running && s.running[s.live[step.id]] != step.id
  }

  /** A step keeps the manager in step with its goroutines unless it deletes a foreign entry; then it never does. */
  lemma StepTracksIffNoForeignDelete(s: State, step: Step)
    requires Tracked(s)
    ensures Tracked(Apply(s, step)) <==> !ForeignDelete(s, step)
  {
    if ForeignDelete(s, step) {
      var j := s.running[s.live[step.id]];
      var t := Apply(s, step);
      assert j in t.live && j !in t.stopped && t.live[j] !in t.running;
    }
  }

  predicate NoForeignDelete(steps: seq<Step>) {
    steps == []
    || (NoForeignDelete(steps[..|steps| - 1]) && !ForeignDelete(Execute(INITIAL, steps[..|steps| - 1]), steps[|steps| - 1]))
  }

  lemma {:induction false} RunTracks(steps: seq<Step>)
    requires NoForeignDelete(steps)
    ensures Tracked(Execute(INITIAL, steps)) && OnePerKey(Execute(INITIAL, steps))
  {
    if steps != [] {
      RunTracks(steps[..|steps| - 1]);
      StepTracksIffNoForeignDelete(Execute(INITIAL, steps[..|steps| - 1]), steps[|steps| - 1]);
    }
    TrackedIsOnePerKey(Execute(INITIAL, steps));
  }

  predicate StopFree(steps: seq<Step>) {
    forall step :: step in steps ==> !step.Stop?
  }

  /** Without Stop, any number of concurrent Starts leaves at most one goroutine per key. */
  lemma {:induction false} ConcurrentStartsStartOnce(steps: seq<Step>)
    requires StopFree(steps)
    ensures NoForeignDelete(steps) && Execute(INITIAL, steps).stopped == {}
    ensures Tracked(Execute(INITIAL, steps))
  {
    if steps != [] {
      var front, last := steps[..|steps| - 1], steps[|steps| - 1];
      ConcurrentStartsStartOnce(front);
      assert last in steps;
      var s := Execute(INITIAL, front);
      assert !ForeignDelete(s, last);
      StepTracksIffNoForeignDelete(s, last);
    }
  }

  /** A Start that is not failed by its factory leaves its key registered to a live goroutine; a second one changes nothing. */
  lemma StartRegisters(s: State, call: nat, key: Key)
    requires Tracked(s) && call !in s.starting
    ensures var t := Apply(Apply(s, StartChecks(call, key)), StartInserts(call));
      && key in t.running && t.running[key] in t.live && t.live[t.running[key]] == key && t.running[key] !in t.stopped
      && (key in s.running ==> t == s)
      && (key !in s.running ==> t.running[key] == s.nextId)
  {
  }

  /** A Stop takes the registration away and marks the goroutine, which ends when it gets to it. */
  lemma StopUnregisters(s: State, key: Key)
    requires Tracked(s)
    ensures var t := Apply(s, Stop(key));
      && key !in t.running && t.live == s.live
      && forall i :: i in t.live && t.live[i] == key ==> i in t.stopped
  {
  }

  // When Starts are safe.

  /** A goroutine that a Stop has cancelled has not ended yet. */
  ghost predicate Leftover(s: State) {
    exists i :: i in s.live && i in s.stopped
  }

  /** Starts and goroutine ends, and no further Stop, can lead to two unstopped goroutines of one key. */
  ghost predicate CanDouble(s: State) {
    exists steps :: StopFree(steps) && !OnePerKey(Execute(s, steps))
  }

  lemma {:induction false} ExecuteFirst(s: State, step: Step, steps: seq<Step>)
    ensures Execute(s, [step] + steps) == Execute(Apply(s, step), steps)
  {
    var all := [step] + steps;
    if steps == [] {
      assert all[..0] == [] && all == [step];
    } else {
      assert all[..|all| - 1] == [step] + steps[..|steps| - 1];
      ExecuteFirst(s, step, steps[..|steps| - 1]);
    }
  }

  lemma Before(s: State, step: Step)
    requires CanDouble(Apply(s, step)) && !step.Stop?
    ensures CanDouble(s)
  {
    var steps :| StopFree(steps) && !OnePerKey(Execute(Apply(s, step), steps));
    ExecuteFirst(s, step, steps);
    assert StopFree([step] + steps);
  }

  lemma Doubled(s: State, i: nat, j: nat)
    requires i in s.live && j in s.live && i != j && s.live[i] == s.live[j] && i !in s.stopped && j !in s.stopped
    ensures CanDouble(s)
  {
    assert Execute(s, []) == s && StopFree([]);
  }

  /** A call identifier not in use, for one more Start. */
  lemma {:induction false} FreshCall(calls: set<nat>) returns (call: nat)
    ensures forall c :: c in calls ==> c < call
  {
    if calls == {} {
      call := 0;
    } else {
      var c :| c in calls;
      var above := FreshCall(calls - {c});
      call := if c < above then above else c + 1;
      assert forall d :: d in calls ==> d == c || d in calls - {c};
    }
  }

  /** An unstopped goroutine whose entry is gone: one more Start runs beside it. */
  lemma UnregisteredDoubles(s: State, i: nat)
    requires i in s.live && i !in s.stopped && s.live[i] !in s.running
    requires forall k :: k in s.live || k in s.stopped ==> k < s.nextId
    ensures CanDouble(s)
  {
    var key := s.live[i];
    var call := FreshCall(s.starting.Keys);
    var t := Apply(s, StartChecks(call, key));
    assert call !in s.starting && t.starting[call] == key;
    var u := Apply(t, StartInserts(call));
    assert u.live[s.nextId] == key && u.live[i] == key;
    Doubled(u, i, s.nextId);
    Before(t, StartInserts(call));
    Before(s, StartChecks(call, key));
  }

  /** While the key of a leftover is registered to another goroutine, the leftover's end unregisters that one. */
  lemma LeftoverOfRegisteredDoubles(s: State, i: nat)
    requires Tracked(s) && i in s.live && i in s.stopped && s.live[i] in s.running
    ensures CanDouble(s)
  {
    var j := s.running[s.live[i]];
    UnregisteredDoubles(Apply(s, GoroutineEnds(i)), j);
    Before(s, GoroutineEnds(i));
  }

  lemma LeftoverDoubles(s: State, i: nat)
    requires Tracked(s) && i in s.live && i in s.stopped
    ensures CanDouble(s)
  {
    var key := s.live[i];
    if key in s.running {
      LeftoverOfRegisteredDoubles(s, i);
    } else {
      var call := FreshCall(s.starting.Keys);
      var t := Apply(s, StartChecks(call, key));
      assert call !in s.starting && t.starting[call] == key;
      assert Tracked(t);
      StepTracksIffNoForeignDelete(t, StartInserts(call));
      LeftoverOfRegisteredDoubles(Apply(t, StartInserts(call)), i);
      Before(t, StartInserts(call));
      Before(s, StartChecks(call, key));
    }
  }

  lemma {:induction false} NoLeftoverStaysTracked(s: State, steps: seq<Step>)
    requires Tracked(s) && !Leftover(s) && StopFree(steps)
    ensures Tracked(Execute(s, steps)) && !Leftover(Execute(s, steps))
  {
    if steps != [] {
      var front, last := steps[..|steps| - 1], steps[|steps| - 1];
      assert last in steps;
      NoLeftoverStaysTracked(s, front);
      var t := Execute(s, front);
      assert !ForeignDelete(t, last);
      StepTracksIffNoForeignDelete(t, last);
    }
  }

  /**
    Starts are safe exactly when every stopped goroutine has ended: from a state in
    step with its goroutines, some interleaving of Starts and goroutine ends has two
    unstopped goroutines of one key if and only if a stopped one is still alive.
   */
  lemma StartsAreSafeIffNoLeftover(s: State)
    requires Tracked(s)
    ensures CanDouble(s) <==> Leftover(s)
  {
    if i :| i in s.live && i in s.stopped {
      LeftoverDoubles(s, i);
    } else if CanDouble(s) {
      var steps :| StopFree(steps) && !OnePerKey(Execute(s, steps));
      NoLeftoverStaysTracked(s, steps);
      TrackedIsOnePerKey(Execute(s, steps));
    }
  }

  /** Start, Stop, Start: when the first goroutine ends late it unregisters the second, and a third Start runs beside it. */
  lemma LateEndAllowsASecondRunner(key: Key)
    ensures var started := Apply(Apply(INITIAL, StartChecks(0, key)), StartInserts(0));
      var restarted := Apply(Apply(Apply(started, Stop(key)), StartChecks(1, key)), StartInserts(1));
      var again := Apply(Apply(Apply(restarted, GoroutineEnds(0)), StartChecks(2, key)), StartInserts(2));
      ForeignDelete(restarted, GoroutineEnds(0)) && !OnePerKey(again)
  {
    var started := Apply(Apply(INITIAL, StartChecks(0, key)), StartInserts(0));
    var restarted := Apply(Apply(Apply(started, Stop(key)), StartChecks(1, key)), StartInserts(1));
    var again := Apply(Apply(Apply(restarted, GoroutineEnds(0)), StartChecks(2, key)), StartInserts(2));
    assert 1 in again.live && 2 in again.live && again.live[1] == again.live[2] && again.stopped == {0};
  }
}
