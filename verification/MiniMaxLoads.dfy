/** What a load brings about: every account of its query is registered and polled, and nobody else is. */
module MiniMaxLoads {
  import opened MiniMaxManager

  // What the steps say by themselves.

  /** The accounts that the latest query read, by whichever thread made it. */
  function LastRead(steps: seq<Step>): seq<Account> {
    if steps == [] then []
    else
      var before, step := Execute(INITIAL, steps[..|steps| - 1]), steps[|steps| - 1];
      if step.RunMoves? && before.run.Querying? && Distinct(step.accounts) then step.accounts
      else if step.ReloadMoves? && before.reload.Querying? && Distinct(step.accounts) then step.accounts
      else LastRead(steps[..|steps| - 1])
  }

  /** The goroutines that have ended by themselves or after a cancel. */
  function Ended(steps: seq<Step>): set<nat> {
    if steps == [] then {}
    else
      var before, step := Execute(INITIAL, steps[..|steps| - 1]), steps[|steps| - 1];
      Ended(steps[..|steps| - 1]) + if step.GoroutineEnds? && step.id in before.live then {step.id} else {}
  }

  // The progress of the thread that loads.

  function Elements(accounts: seq<Account>): set<Account> {
    set a | a in accounts
  }

  /** Whoever is registered, but for one account, has its goroutine, alive or ended; whoever is alive is registered. */
  predicate Polled(s: State, ended: set<nat>, but: set<Account>) {
    && (forall i :: i in s.live ==> s.live[i] in s.instances && s.instances[s.live[i]] == i)
    && (forall a :: a in s.instances && a !in but ==>
          (s.instances[a] in s.live && s.live[s.instances[a]] == a) || s.instances[a] in ended)
  }

  predicate Part(todo: seq<Account>, wanted: seq<Account>) {
    Distinct(todo) && forall a :: a in todo ==> a in wanted
  }

  /** How far the load of the accounts `wanted` has come. */
  predicate Progress(s: State, pc: Pc, wanted: seq<Account>, ended: set<nat>) {
    match pc
    case Querying => s.instances == map[] && s.live == map[]
    case Checking(todo) => Part(todo, wanted) && s.instances.Keys == Elements(wanted) - Elements(todo) && Polled(s, ended, {})
    case Inserting(account, todo) =>
      && Part(todo, wanted) && account in wanted && account !in todo
      && s.instances.Keys == Elements(wanted) - Elements(todo) - {account} && Polled(s, ended, {})
    case Spawning(account, id, todo) =>
      && Part(todo, wanted) && account in wanted && account !in todo
      && s.instances.Keys == Elements(wanted) - Elements(todo) && s.instances[account] == id && id !in s.live && id !in ended
      && Polled(s, ended, {account})
    case Idle => s.instances.Keys == Elements(wanted) && Polled(s, ended, {})
    case _ => true
  }

  predicate ShuttingDown(pc: Pc) {
    pc.Collecting? || pc.Cancelling? || pc.Waiting? || pc.Finished?
  }

  /** Until Run shuts down, the load under way, or the one that is done, is as far as it says. */
  predicate OnCourse(s: State, wanted: seq<Account>, ended: set<nat>) {
    && (forall e :: e in ended ==> e < s.nextId)
    && (ShuttingDown(s.run) || (if StillStarting(s.run) then Progress(s, s.run, wanted, ended) else Progress(s, s.reload, wanted, ended)))
  }

  // One move of a loading thread.

  lemma QueryStarts(s: State, wanted: seq<Account>, ended: set<nat>, accounts: seq<Account>)
    requires Progress(s, Querying, wanted, ended) && Distinct(accounts)
    ensures Progress(s, Checking(accounts), accounts, ended)
  {
    hide Distinct;
  }

  lemma CheckMoves(s: State, todo: seq<Account>, wanted: seq<Account>, ended: set<nat>)
    requires Progress(s, Checking(todo), wanted, ended) && todo != []
    ensures todo[0] !in s.instances && Progress(s, Inserting(todo[0], todo[1..]), wanted, ended)
  {
    FirstOfDistinct(todo);
    hide Distinct;
    hide Polled;
    assert todo[0] in todo && todo == [todo[0]] + todo[1..];
    assert Elements(todo) == Elements(todo[1..]) + {todo[0]};
  }

  lemma CheckEnds(s: State, wanted: seq<Account>, ended: set<nat>)
    requires Progress(s, Checking([]), wanted, ended)
    ensures Progress(s, Idle, wanted, ended)
  {
  }

  lemma InsertMoves(s: State, account: Account, todo: seq<Account>, wanted: seq<Account>, ended: set<nat>)
    requires Progress(s, Inserting(account, todo), wanted, ended) && s.nextId !in s.live && s.nextId !in ended
    ensures Progress(s.(instances := s.instances[account := s.nextId], nextId := s.nextId + 1),
                     Spawning(account, s.nextId, todo), wanted, ended)
  {
    hide Distinct;
    var t := s.(instances := s.instances[account := s.nextId], nextId := s.nextId + 1);
    assert account !in s.instances && t.instances.Keys == s.instances.Keys + {account};
    assert forall i :: i in t.live ==> s.live[i] != account;
    assert Polled(t, ended, {account});
  }

  lemma SpawnMoves(s: State, account: Account, id: nat, todo: seq<Account>, wanted: seq<Account>, ended: set<nat>)
    requires Progress(s, Spawning(account, id, todo), wanted, ended)
    ensures Progress(s.(live := s.live[id := account]), Checking(todo), wanted, ended)
  {
    hide Distinct;
  }

  lemma EndMoves(s: State, pc: Pc, wanted: seq<Account>, ended: set<nat>, id: nat)
    requires Progress(s, pc, wanted, ended)
    ensures Progress(s.(live := s.live - {id}), pc, wanted, ended + if id in s.live then {id} else {})
  {
    hide Distinct;
    if pc.Querying? {
      assert s.live - {id} == map[];
    }
  }

  /** Fields the progress does not look at. */
  lemma SameProgress(s: State, t: State, pc: Pc, wanted: seq<Account>, ended: set<nat>)
    requires Progress(s, pc, wanted, ended) && t.instances == s.instances && t.live == s.live
    ensures Progress(t, pc, wanted, ended)
  {
    hide Distinct;
  }

  // Every step.

  lemma AdvanceOnCourse(s: State, pc: Pc, pick: nat, accounts: seq<Account>, afterWait: Pc, wanted: seq<Account>, ended: set<nat>)
    requires StillStarting(pc) || pc == Checking([])
    requires Progress(s, pc, wanted, ended) && s.nextId !in s.live && s.nextId !in ended
    ensures var (t, next) := Advance(s, pc, pick, accounts, afterWait);
      Progress(t, next, if pc.Querying? && Distinct(accounts) then accounts else wanted, ended)
  {
    hide Progress;
    hide Distinct;
    match pc
    case Querying =>
      if Distinct(accounts) {
        QueryStarts(s, wanted, ended, accounts);
      }
    case Checking(todo) =>
      if todo == [] {
        CheckEnds(s, wanted, ended);
      } else {
        CheckMoves(s, todo, wanted, ended);
      }
    case Inserting(account, todo) => InsertMoves(s, account, todo, wanted, ended);
    case Spawning(account, id, todo) => SpawnMoves(s, account, id, todo, wanted, ended);
  }

  lemma RunOnCourse(s: State, pick: nat, accounts: seq<Account>, wanted: seq<Account>, ended: set<nat>)
    requires Inv(s) && OnCourse(s, wanted, ended)
    ensures OnCourse(Apply(s, RunMoves(pick, accounts)), if s.run.Querying? && Distinct(accounts) then accounts else wanted, ended)
  {
    var t := Apply(s, RunMoves(pick, accounts));
    FreshId(s);
    ReloadIdle(s);
    hide Inv;
    hide Progress;
    hide Distinct;
    if StillStarting(s.run) {
      AdvanceOnCourse(s, s.run, pick, accounts, Finished, wanted, ended);
      var now := if s.run.Querying? && Distinct(accounts) then accounts else wanted;
      SameProgress(Advance(s, s.run, pick, accounts, Finished).0, t, t.run, now, ended);
      if t.run == Checking([]) {
        CheckEnds(t, now, ended);
      }
    } else if !ShuttingDown(t.run) {
      SameProgress(s, t, s.reload, wanted, ended);
    }
  }

  lemma FreshId(s: State)
    requires Inv(s)
    ensures forall i :: i in s.live ==> i < s.nextId
  {
    hide Clear;
  }

  lemma ReloadIdle(s: State)
    requires Inv(s)
    ensures StillStarting(s.run) ==> s.reload.Idle?
    ensures s.reload.Waiting? ==> s.instances == map[]
  {
    hide Registered;
    hide LoadingIsClear;
    hide OnePerAccount;
  }

  lemma ReloadOnCourse(s: State, pick: nat, accounts: seq<Account>, wanted: seq<Account>, ended: set<nat>)
    requires Inv(s) && OnCourse(s, wanted, ended)
    ensures OnCourse(Apply(s, ReloadMoves(pick, accounts)), if s.reload.Querying? && Distinct(accounts) then accounts else wanted, ended)
  {
    var t := Apply(s, ReloadMoves(pick, accounts));
    FreshId(s);
    ReloadIdle(s);
    hide Inv;
    hide Distinct;
    if ShuttingDown(s.run) {
      assert OnCourse(t, wanted, ended);
    } else if StillStarting(s.run) {
      SameProgress(s, t, s.run, wanted, ended);
    } else if StillStarting(s.reload) || s.reload == Checking([]) {
      AdvanceOnCourse(s, s.reload, pick, accounts, Querying, wanted, ended);
      hide Polled;
      hide Part;
      SameProgress(Advance(s, s.reload, pick, accounts, Querying).0, t, t.reload,
                   if s.reload.Querying? && Distinct(accounts) then accounts else wanted, ended);
    } else if s.reload.Idle? {
      SameProgress(s, t, s.reload, wanted, ended);
    }
  }

  lemma StepOnCourse(s: State, step: Step, wanted: seq<Account>, ended: set<nat>)
    requires Inv(s) && !EarlyReload(s, step) && OnCourse(s, wanted, ended)
    ensures OnCourse(Apply(s, step), Wanted(s, step, wanted), ended + if step.GoroutineEnds? && step.id in s.live then {step.id} else {})
  {
    match step
    case RunMoves(pick, accounts) =>
      hide *;
      assert ended + {} == ended;
      RunOnCourse(s, pick, accounts, wanted, ended);
      WantedByRun(s, pick, accounts, wanted);
    case ReloadMoves(pick, accounts) =>
      hide *;
      assert ended + {} == ended;
      ReloadOnCourse(s, pick, accounts, wanted, ended);
      WantedByReload(s, pick, accounts, wanted);
    case ReloadCalled =>
      hide *;
      CallOnCourse(s, wanted, ended);
    case GoroutineEnds(id) =>
      hide *;
      EndOnCourse(s, id, wanted, ended);
    case ContextCancelled =>
      hide *;
      CancelOnCourse(s, wanted, ended);
  }

  lemma CallOnCourse(s: State, wanted: seq<Account>, ended: set<nat>)
    requires !EarlyReload(s, ReloadCalled) && OnCourse(s, wanted, ended)
    ensures OnCourse(Apply(s, ReloadCalled), Wanted(s, ReloadCalled, wanted), ended + {})
  {
    hide Distinct;
    hide Polled;
    assert ended + {} == ended;
  }

  lemma EndOnCourse(s: State, id: nat, wanted: seq<Account>, ended: set<nat>)
    requires Inv(s) && OnCourse(s, wanted, ended)
    ensures OnCourse(Apply(s, GoroutineEnds(id)), Wanted(s, GoroutineEnds(id), wanted), ended + if id in s.live then {id} else {})
  {
    FreshId(s);
    hide Inv;
    hide Progress;
    if !ShuttingDown(s.run) {
      EndMoves(s, if StillStarting(s.run) then s.run else s.reload, wanted, ended, id);
    }
  }

  lemma CancelOnCourse(s: State, wanted: seq<Account>, ended: set<nat>)
    requires OnCourse(s, wanted, ended)
    ensures OnCourse(Apply(s, ContextCancelled), Wanted(s, ContextCancelled, wanted), ended + {})
  {
    hide Progress;
    assert ended + {} == ended;
    if !ShuttingDown(s.run) {
      SameProgress(s, s.(ctxDone := true), if StillStarting(s.run) then s.run else s.reload, wanted, ended);
    }
  }

  function Wanted(s: State, step: Step, wanted: seq<Account>): seq<Account> {
    if step.RunMoves? && s.run.Querying? && Distinct(step.accounts) then step.accounts
    else if step.ReloadMoves? && s.reload.Querying? && Distinct(step.accounts) then step.accounts
    else wanted
  }

  lemma WantedByRun(s: State, pick: nat, accounts: seq<Account>, wanted: seq<Account>)
    ensures Wanted(s, RunMoves(pick, accounts), wanted) == if s.run.Querying? && Distinct(accounts) then accounts else wanted
  {
  }

  lemma WantedByReload(s: State, pick: nat, accounts: seq<Account>, wanted: seq<Account>)
    ensures Wanted(s, ReloadMoves(pick, accounts), wanted) == if s.reload.Querying? && Distinct(accounts) then accounts else wanted
  {
  }

  lemma {:induction false} ExecuteOnCourse(steps: seq<Step>)
    requires NoEarlyReload(steps)
    ensures OnCourse(Execute(INITIAL, steps), LastRead(steps), Ended(steps))
  {
    if steps != [] {
      var front, last := steps[..|steps| - 1], steps[|steps| - 1];
      ExecuteOnCourse(front);
      ReachableInv(front);
      var s := Execute(INITIAL, front);
      assert Execute(INITIAL, steps) == Apply(s, last) && !EarlyReload(s, last);
      assert LastRead(steps) == Wanted(s, last, LastRead(front));
      assert Ended(steps) == Ended(front) + if last.GoroutineEnds? && last.id in s.live then {last.id} else {};
      hide *;
      StepOnCourse(s, last, LastRead(front), Ended(front));
    }
  }

  /**
    A load does what it is for. In every interleaving without an early Reload, when
    no load is under way and Run is not shutting down, the registered accounts are
    exactly those of the query read last; each has the goroutine it is registered
    with polling it, unless that goroutine has ended; and no other goroutine is alive.
   */
  lemma LoadStartsItsAccounts(steps: seq<Step>)
    requires NoEarlyReload(steps)
    ensures var s, wanted := Execute(INITIAL, steps), LastRead(steps);
      s.run.Idle? && s.reload.Idle? ==>
        && (forall a :: a in s.instances <==> a in wanted)
        && (forall a :: a in wanted ==>
              (s.instances[a] in s.live && s.live[s.instances[a]] == a) || s.instances[a] in Ended(steps))
        && (forall i :: i in s.live ==> s.live[i] in wanted && s.instances[s.live[i]] == i)
  {
    ExecuteOnCourse(steps);
    var s, wanted := Execute(INITIAL, steps), LastRead(steps);
    hide Execute;
    hide LastRead;
    hide Ended;
    if s.run.Idle? && s.reload.Idle? {
      assert forall a :: a in s.instances <==> a in s.instances.Keys;
      assert forall a :: a in Elements(wanted) <==> a in wanted;
    }
  }

  // And loads end.

  /** Moves of Run alone bring it to the end of its initial load. */
  ghost predicate RunsToIdle(s: State) {
    exists steps :: (forall step: Step :: step in steps ==> step.RunMoves?) && Execute(s, steps).run.Idle?
  }

  lemma OneMoreMove(s: State, pick: nat, accounts: seq<Account>)
    requires RunsToIdle(Apply(s, RunMoves(pick, accounts)))
    ensures RunsToIdle(s)
  {
    var step := RunMoves(pick, accounts);
    var steps :| (forall step: Step :: step in steps ==> step.RunMoves?) && Execute(Apply(s, step), steps).run.Idle?;
    ExecuteFirst(s, step, steps);
    assert forall other: Step :: other in [step] + steps ==> other.RunMoves?;
  }

  lemma {:induction false} ChecksToTheEnd(s: State)
    requires s.run.Checking?
    ensures RunsToIdle(s)
    decreases |s.run.todo|
  {
    var t := Apply(s, RunMoves(0, []));
    if s.run.todo == [] {
      assert Execute(t, []) == t;
      assert RunsToIdle(t);
    } else if t.run.Checking? {
      ChecksToTheEnd(t);
    } else {
      var u := Apply(t, RunMoves(0, []));
      ChecksToTheEnd(Apply(u, RunMoves(0, [])));
      OneMoreMove(u, 0, []);
      OneMoreMove(t, 0, []);
    }
    OneMoreMove(s, 0, []);
  }

  /** Whatever accounts the initial query reads, the initial load comes to its end. */
  lemma InitialLoadEnds(accounts: seq<Account>)
    requires Distinct(accounts)
    ensures RunsToIdle(Apply(INITIAL, RunMoves(0, accounts)))
  {
    ChecksToTheEnd(Apply(INITIAL, RunMoves(0, accounts)));
  }

  /** Shutdown lasts until nothing is alive: Run finishes only then. */
  lemma ShutdownWaits(s: State, pick: nat, accounts: seq<Account>)
    requires !s.run.Finished? && Apply(s, RunMoves(pick, accounts)).run.Finished?
    ensures s.run.Waiting? && s.live == map[]
  {
  }
}
